/** Promoting function-like macros to calls of C functions: rounds over the macros that compose, for a
    macro forwarding to a promoted one, the argument permutations and casts of the two. */
module MacroPromote {
  import opened Wrappers

  /** An argument of a forwarded call: a parameter of the macro, under a cast unless `cast` is empty. */
  datatype CallArg = CallArg(param: int, cast: string)

  datatype Fn = Fn(name: string, argTypes: seq<string>, variadic: bool)

  datatype Macro = Macro(name: string, fnLike: bool, params: nat, callee: string, args: seq<CallArg>, skipped: bool)

  datatype Kind = DirectAlias | WrapperCall

  /** A promoted macro: the C function, its arguments in terms of the parameters, and their types. */
  datatype Promotion = Promotion(fn: nat, args: seq<CallArg>, types: seq<string>, kind: Kind)

  // ---- What macros mean ------------------------------------------------------------------

  datatype Term = Opaque(id: nat) | CastOf(cast: string, t: Term)
  datatype Call = Call(name: string, args: seq<Term>)

  function CastTerm(cast: string, t: Term): Term { if cast == "" then t else CastOf(cast, t) }

  predicate InRange(args: seq<CallArg>, n: nat) { forall i :: 0 <= i < |args| ==> 0 <= args[i].param < n }

  /** The arguments a forwarding passes on. */
  function Forward(args: seq<CallArg>, vals: seq<Term>): (r: seq<Term>)
    requires InRange(args, |vals|)
    ensures |r| == |args| && forall i :: 0 <= i < |args| ==> r[i] == CastTerm(args[i].cast, vals[args[i].param])
  {
    seq(|args|, i requires 0 <= i < |args| => CastTerm(args[i].cast, vals[args[i].param]))
  }

  function MacroNamed(ms: seq<Macro>, name: string): (r: Option<nat>)
    ensures r.Some? ==> r.value < |ms| && ms[r.value].fnLike && ms[r.value].name == name
    ensures r.None? ==> forall i :: 0 <= i < |ms| && ms[i].fnLike ==> ms[i].name != name
  {
    if ms == [] then None
    else if ms[|ms| - 1].fnLike && ms[|ms| - 1].name == name then Some(|ms| - 1)
    else MacroNamed(ms[..|ms| - 1], name)
  }

  /** Fully expanding a use of `name`, as the preprocessor does: a macro gives way to the call in its
      body, until no macro is left. */
  function Expand(ms: seq<Macro>, name: string, vals: seq<Term>, fuel: nat): Option<Call>
    decreases fuel
  {
    match MacroNamed(ms, name)
    case None => Some(Call(name, vals))
    case Some(i) =>
      if fuel == 0 || |vals| != ms[i].params || !InRange(ms[i].args, |vals|) then None
      else Expand(ms, ms[i].callee, Forward(ms[i].args, vals), fuel - 1)
  }

  // ---- What promotion promises -----------------------------------------------------------

  predicate Injective(args: seq<CallArg>) {
    forall i, j :: 0 <= i < j < |args| ==> args[i].param != args[j].param
  }

  predicate Onto(args: seq<CallArg>, n: nat) {
    forall p :: 0 <= p < n ==> Used(args, p)
  }

  predicate Used(args: seq<CallArg>, p: int) { exists i :: 0 <= i < |args| && args[i].param == p }

  predicate Plain(args: seq<CallArg>) { forall i :: 0 <= i < |args| ==> args[i] == CallArg(i, "") }

  /** The map from callee arguments to parameters is a bijection, parameters have the types of the
      arguments they are passed as, and an alias passes all of them on as they are. */
  predicate WellPromoted(fns: seq<Fn>, m: Macro, p: Promotion) {
    && p.fn < |fns| && !fns[p.fn].variadic && |p.args| == |fns[p.fn].argTypes|
    && InRange(p.args, m.params) && Injective(p.args) && Onto(p.args, m.params)
    && |p.types| == m.params && TypesMatch(p.args, p.types, fns[p.fn].argTypes, |p.args|)
    && (p.kind.DirectAlias? <==> Plain(p.args))
  }

  predicate TypesMatch(args: seq<CallArg>, types: seq<string>, argTypes: seq<string>, n: nat)
    requires n <= |args| && n <= |argTypes| && InRange(args[..n], |types|)
  {
    forall i :: 0 <= i < n ==> types[args[..n][i].param] == argTypes[i]
  }

  /** Calling the recorded function through the map is fully expanding the macro. */
  ghost predicate Means(fns: seq<Fn>, ms: seq<Macro>, i: nat, p: Promotion)
    requires i < |ms| && p.fn < |fns| && InRange(p.args, ms[i].params)
  {
    exists fuel: nat :: MeansIn(fns, ms, i, p, fuel)
  }

  ghost predicate MeansIn(fns: seq<Fn>, ms: seq<Macro>, i: nat, p: Promotion, fuel: nat)
    requires i < |ms| && p.fn < |fns| && InRange(p.args, ms[i].params)
  {
    forall vals: seq<Term> :: |vals| == ms[i].params ==>
      Expand(ms, ms[i].name, vals, fuel) == Some(Call(fns[p.fn].name, Forward(p.args, vals)))
  }

  /** Functions and macros have different names, and no two function-like macros share one. */
  predicate Distinct(fns: seq<Fn>, ms: seq<Macro>) {
    && (forall i, f :: 0 <= i < |ms| && 0 <= f < |fns| && ms[i].fnLike ==> ms[i].name != fns[f].name)
    && (forall i, j :: 0 <= i < j < |ms| && ms[i].fnLike && ms[j].fnLike ==> ms[i].name != ms[j].name)
  }

  lemma NamedItself(fns: seq<Fn>, ms: seq<Macro>, i: nat)
    requires Distinct(fns, ms) && i < |ms| && ms[i].fnLike
    ensures MacroNamed(ms, ms[i].name) == Some(i)
  {
    var j := MacroNamed(ms, ms[i].name).value;
    assert !(i < j) && !(j < i);
  }

  /** A macro that forwards to a function. */
  lemma MeansFunction(fns: seq<Fn>, ms: seq<Macro>, i: nat, p: Promotion)
    requires Distinct(fns, ms) && i < |ms| && ms[i].fnLike && p.fn < |fns| && ms[i].callee == fns[p.fn].name
    requires p.args == ms[i].args && InRange(p.args, ms[i].params)
    ensures Means(fns, ms, i, p)
  {
    NamedItself(fns, ms, i);
    assert MacroNamed(ms, fns[p.fn].name).None?;
    forall vals: seq<Term> | |vals| == ms[i].params
      ensures Expand(ms, ms[i].name, vals, 1) == Some(Call(fns[p.fn].name, Forward(p.args, vals)))
    {
      assert Expand(ms, ms[i].callee, Forward(ms[i].args, vals), 0) == Some(Call(fns[p.fn].name, Forward(p.args, vals)));
    }
    assert MeansIn(fns, ms, i, p, 1);
  }

  /** The argument at position `k` of the composition of two forwardings; at most one may cast. */
  function ComposeArg(inner: CallArg, outer: CallArg): CallArg {
    CallArg(outer.param, if inner.cast != "" then inner.cast else outer.cast)
  }

  predicate Composes(inner: seq<CallArg>, outer: seq<CallArg>, composed: seq<CallArg>)
    requires InRange(inner, |outer|)
  {
    && |composed| == |inner|
    && forall k :: 0 <= k < |inner| ==>
         && composed[k] == ComposeArg(inner[k], outer[inner[k].param])
         && (inner[k].cast == "" || outer[inner[k].param].cast == "")
  }

  lemma ForwardComposes(inner: seq<CallArg>, outer: seq<CallArg>, composed: seq<CallArg>, vals: seq<Term>)
    requires InRange(inner, |outer|) && InRange(outer, |vals|) && Composes(inner, outer, composed)
    ensures InRange(composed, |vals|)
    ensures Forward(inner, Forward(outer, vals)) == Forward(composed, vals)
  {
    forall k | 0 <= k < |inner|
      ensures Forward(inner, Forward(outer, vals))[k] == Forward(composed, vals)[k]
    {
      assert composed[k] == ComposeArg(inner[k], outer[inner[k].param]);
    }
  }

  /** A macro that forwards to a promoted macro. */
  lemma MeansMacro(fns: seq<Fn>, ms: seq<Macro>, i: nat, j: nat, q: Promotion, p: Promotion)
    requires Distinct(fns, ms) && i < |ms| && j < |ms| && ms[i].fnLike && ms[j].fnLike && ms[i].callee == ms[j].name
    requires q.fn < |fns| && InRange(q.args, ms[j].params) && Means(fns, ms, j, q)
    requires |ms[i].args| == ms[j].params && InRange(ms[i].args, ms[i].params)
    requires p.fn == q.fn && Composes(q.args, ms[i].args, p.args) && InRange(p.args, ms[i].params)
    ensures Means(fns, ms, i, p)
  {
    NamedItself(fns, ms, i);
    var n: nat :| MeansIn(fns, ms, j, q, n);
    forall vals: seq<Term> | |vals| == ms[i].params
      ensures Expand(ms, ms[i].name, vals, n + 1) == Some(Call(fns[p.fn].name, Forward(p.args, vals)))
    {
      var mid := Forward(ms[i].args, vals);
      assert Expand(ms, ms[i].name, vals, n + 1) == Expand(ms, ms[j].name, mid, n);
      ForwardComposes(q.args, ms[i].args, p.args, vals);
    }
    assert MeansIn(fns, ms, i, p, n + 1);
  }

  /** Composing bijections gives a bijection, and parameter types are passed along. */
  lemma ComposeBijection(inner: seq<CallArg>, outer: seq<CallArg>, composed: seq<CallArg>, n: nat, types: seq<string>, types': seq<string>,
                         argTypes: seq<string>)
    requires InRange(inner, |outer|) && Injective(inner) && Onto(inner, |outer|)
    requires InRange(outer, n) && Injective(outer) && Onto(outer, n)
    requires Composes(inner, outer, composed)
    requires |types| == |outer| && |argTypes| == |inner| && TypesMatch(inner, types, argTypes, |inner|)
    requires |types'| == n && TypesMatch(outer, types', types, |outer|)
    ensures InRange(composed, n) && Injective(composed) && Onto(composed, n)
    ensures TypesMatch(composed, types', argTypes, |composed|)
  {
    assert inner[..|inner|] == inner && outer[..|outer|] == outer && composed[..|composed|] == composed;
    forall k, l | 0 <= k < l < |composed|
      ensures composed[k].param != composed[l].param
    {
      assert inner[k].param != inner[l].param;
      var a, b := inner[k].param, inner[l].param;
      assert a < b || b < a;
    }
    forall p | 0 <= p < n
      ensures Used(composed, p)
    {
      assert Used(outer, p);
      var a :| 0 <= a < |outer| && outer[a].param == p;
      assert Used(inner, a);
      var k :| 0 <= k < |inner| && inner[k].param == a;
      assert composed[k].param == p;
    }
    forall k | 0 <= k < |composed|
      ensures types'[composed[k].param] == argTypes[k]
    {
      assert types'[outer[inner[k].param].param] == types[inner[k].param] == argTypes[k];
    }
  }

  /** Argument `k` of the composition is cast by both forwardings. */
  predicate CastBoth(inner: seq<CallArg>, outer: seq<CallArg>, k: nat)
    requires InRange(inner, |outer|) && k < |inner|
  {
    inner[k].cast != "" && outer[inner[k].param].cast != ""
  }

  function Opaques(n: nat): (r: seq<Term>)
    ensures |r| == n
  {
    seq(n, i requires 0 <= i < n => Opaque(i))
  }

  /** A map passes everything on as it is, whatever the arguments, just when it is that of an alias. */
  lemma PlainPassesOn(args: seq<CallArg>, n: nat)
    requires InRange(args, n) && |args| == n
    ensures Plain(args) <==> forall vals: seq<Term> :: |vals| == n ==> Forward(args, vals) == vals
  {
    if forall vals: seq<Term> :: |vals| == n ==> Forward(args, vals) == vals {
      var vals := Opaques(n);
      forall i | 0 <= i < n ensures args[i] == CallArg(i, "") {
        assert Forward(args, vals)[i] == Opaque(i);
      }
    }
  }

  /** Two forwardings one after the other are one forwarding just when no argument is cast by both. */
  lemma ComposableIff(inner: seq<CallArg>, outer: seq<CallArg>, n: nat)
    requires InRange(inner, |outer|) && InRange(outer, n)
    ensures (forall k :: 0 <= k < |inner| ==> !CastBoth(inner, outer, k)) <==>
            exists composed: seq<CallArg> :: SameForwarding(inner, outer, composed, n)
  {
    if forall k :: 0 <= k < |inner| ==> !CastBoth(inner, outer, k) {
      var composed := seq(|inner|, k requires 0 <= k < |inner| => ComposeArg(inner[k], outer[inner[k].param]));
      forall k | 0 <= k < |inner|
        ensures composed[k] == ComposeArg(inner[k], outer[inner[k].param]) && (inner[k].cast == "" || outer[inner[k].param].cast == "")
      {
        assert !CastBoth(inner, outer, k);
      }
      forall vals: seq<Term> | |vals| == n
        ensures InRange(composed, n) && Forward(inner, Forward(outer, vals)) == Forward(composed, vals)
      {
        ForwardComposes(inner, outer, composed, vals);
      }
      ForwardComposes(inner, outer, composed, Opaques(n));
      assert SameForwarding(inner, outer, composed, n);
    }
    if composed: seq<CallArg> :| SameForwarding(inner, outer, composed, n) {
      forall k | 0 <= k < |inner| ensures !CastBoth(inner, outer, k) {
        CastOnce(inner, outer, composed, n, k);
      }
    }
  }

  lemma CastOnce(inner: seq<CallArg>, outer: seq<CallArg>, composed: seq<CallArg>, n: nat, k: nat)
    requires InRange(inner, |outer|) && InRange(outer, n) && SameForwarding(inner, outer, composed, n) && k < |inner|
    ensures !CastBoth(inner, outer, k)
  {
    var vals := Opaques(n);
    var a, b := Forward(composed, vals)[k], Forward(inner, Forward(outer, vals))[k];
    assert a == b && a == CastTerm(composed[k].cast, vals[composed[k].param]);
    assert b == CastTerm(inner[k].cast, CastTerm(outer[inner[k].param].cast, vals[outer[inner[k].param].param]));
  }

  ghost predicate SameForwarding(inner: seq<CallArg>, outer: seq<CallArg>, composed: seq<CallArg>, n: nat)
    requires InRange(inner, |outer|) && InRange(outer, n)
  {
    InRange(composed, n) && |composed| == |inner| &&
    forall vals: seq<Term> :: |vals| == n ==> Forward(inner, Forward(outer, vals)) == Forward(composed, vals)
  }

  // ---- The promotion rounds --------------------------------------------------------------

  predicate Forwards(args: seq<CallArg>, n: nat, argTypes: seq<string>) {
    && |args| == |argTypes| && InRange(args, n) && Injective(args) && Onto(args, n)
    && forall k :: 0 <= k < |argTypes| ==> argTypes[k] != ""
  }

  lemma UsedStep(args: seq<CallArg>, k: nat)
    requires k < |args|
    ensures forall p :: Used(args[..k + 1], p) <==> Used(args[..k], p) || args[k].param == p
  {
    var a := args[..k + 1];
    forall p
      ensures Used(a, p) <==> Used(args[..k], p) || args[k].param == p
    {
      if args[k].param == p {
        assert a[k].param == p;
      } else if Used(args[..k], p) {
        var i :| 0 <= i < k && args[..k][i].param == p;
        assert a[i].param == p;
      }
    }
  }

  /** Each parameter must be forwarded exactly once, and gets the type of the place it is passed in. */
  method MapParams(args: seq<CallArg>, n: nat, argTypes: seq<string>) returns (ok: bool, types: seq<string>)
    requires |args| == |argTypes|
    ensures ok <==> Forwards(args, n, argTypes)
    ensures ok ==> |types| == n && TypesMatch(args, types, argTypes, |args|)
  {
    var use: seq<nat> := seq(n, i => 0);
    types := seq(n, i => "");
    for k := 0 to |args|
      invariant |use| == n && |types| == n && InRange(args[..k], n)
      invariant forall p :: 0 <= p < n ==> use[p] <= 1 && (use[p] == 1 <==> Used(args[..k], p))
      invariant forall i, j :: 0 <= i < j < k ==> args[i].param != args[j].param
      invariant forall j :: 0 <= j < k ==> 0 <= args[j].param < n && types[args[j].param] == argTypes[j]
    {
      if args[k].param < 0 || args[k].param >= n {
        return false, types;
      }
      var p := args[k].param;
      use := use[p := use[p] + 1];
      if use[p] > 1 {
        return false, types;
      }
      types := types[p := argTypes[k]];
      UsedStep(args, k);
    }
    assert args[..|args|] == args;
    for p := 0 to n
      invariant forall q :: 0 <= q < p ==> use[q] == 1 && types[q] != ""
    {
      if use[p] != 1 || types[p] == "" {
        if use[p] == 1 {
          assert Used(args, p);
          var j :| 0 <= j < |args| && args[j].param == p;
          assert argTypes[j] == "";
        } else {
          assert !Used(args, p);
        }
        return false, types;
      }
    }
    forall k | 0 <= k < |argTypes|
      ensures argTypes[k] != ""
    {
      assert types[args[k].param] == argTypes[k];
    }
    ok := true;
  }

  /** Argument `k` of the composition is a parameter of the macro. */
  predicate Reaches(inner: seq<CallArg>, outer: seq<CallArg>, n: nat, k: nat)
    requires InRange(inner, |outer|) && k < |inner|
  {
    0 <= outer[inner[k].param].param < n
  }

  predicate ComposeOk(inner: seq<CallArg>, outer: seq<CallArg>, n: nat)
    requires InRange(inner, |outer|)
  {
    forall k :: 0 <= k < |inner| ==> Reaches(inner, outer, n, k) && !CastBoth(inner, outer, k)
  }

  /** The first argument that cannot be composed is one that both forwardings cast. */
  predicate CastTwice(inner: seq<CallArg>, outer: seq<CallArg>, n: nat)
    requires InRange(inner, |outer|)
  {
    exists k :: 0 <= k < |inner| && CastBoth(inner, outer, k) && forall l :: 0 <= l <= k ==> Reaches(inner, outer, n, l)
  }

  method Compose(inner: seq<CallArg>, outer: seq<CallArg>, n: nat) returns (ok: bool, twice: bool, composed: seq<CallArg>)
    requires InRange(inner, |outer|)
    ensures ok <==> ComposeOk(inner, outer, n)
    ensures twice <==> CastTwice(inner, outer, n)
    ensures ok ==> Composes(inner, outer, composed)
  {
    composed := [];
    for k := 0 to |inner|
      invariant |composed| == k
      invariant forall l :: 0 <= l < k ==>
        composed[l] == ComposeArg(inner[l], outer[inner[l].param]) && Reaches(inner, outer, n, l) && !CastBoth(inner, outer, l)
    {
      var arg := outer[inner[k].param];
      if arg.param < 0 || arg.param >= n {
        assert !Reaches(inner, outer, n, k);
        return false, false, composed;
      }
      if inner[k].cast != "" && arg.cast != "" {
        assert CastBoth(inner, outer, k);
        return false, true, composed;
      }
      composed := composed + [CallArg(arg.param, if inner[k].cast != "" then inner[k].cast else arg.cast)];
    }
    ok, twice := true, false;
  }

  method KindOf(args: seq<CallArg>) returns (kind: Kind)
    ensures kind.DirectAlias? <==> Plain(args)
  {
    var hasCast, identity := false, true;
    for k := 0 to |args|
      invariant hasCast <==> exists j :: 0 <= j < k && args[j].cast != ""
      invariant identity <==> forall j :: 0 <= j < k ==> args[j].param == j
    {
      if args[k].cast != "" {
        hasCast := true;
      }
      if args[k].param != k {
        identity := false;
      }
    }
    kind := if identity && !hasCast then DirectAlias else WrapperCall;
  }

  function Promoted(promo: seq<Option<Promotion>>): nat {
    if promo == [] then 0 else Promoted(promo[1..]) + if promo[0].Some? then 1 else 0
  }

  lemma {:induction false} PromotedMore(promo: seq<Option<Promotion>>, i: nat, p: Promotion)
    requires i < |promo| && promo[i].None?
    ensures Promoted(promo[i := Some(p)]) == Promoted(promo) + 1
  {
    if i > 0 {
      PromotedMore(promo[1..], i - 1, p);
      assert promo[i := Some(p)][1..] == promo[1..][i - 1 := Some(p)];
    } else {
      assert promo[i := Some(p)][1..] == promo[1..];
    }
  }

  lemma {:induction false} PromotedAll(promo: seq<Option<Promotion>>)
    ensures Promoted(promo) <= |promo|
    ensures Promoted(promo) == |promo| ==> forall i :: 0 <= i < |promo| ==> promo[i].Some?
  {
    if promo != [] {
      PromotedAll(promo[1..]);
    }
  }

  predicate Candidate(fns: seq<Fn>, ms: seq<Macro>, i: nat, f: nat)
    requires i < |ms| && f < |fns|
  {
    fns[f].name == ms[i].callee && !fns[f].variadic && |fns[f].argTypes| == |ms[i].args|
  }

  /** A function the macro can be promoted to call. */
  predicate FunctionFits(fns: seq<Fn>, ms: seq<Macro>, i: nat, f: nat)
    requires i < |ms| && f < |fns|
  {
    Candidate(fns, ms, i, f) && ms[i].params == |ms[i].args| && Forwards(ms[i].args, ms[i].params, fns[f].argTypes)
  }

  /** Macro `k` is promoted and is what macro `i` forwards to. */
  predicate Callee(ms: seq<Macro>, promo: seq<Option<Promotion>>, i: nat, k: nat)
    requires i < |ms| && k < |ms| && |promo| == |ms|
  {
    ms[k].fnLike && ms[k].name == ms[i].callee && promo[k].Some?
  }

  /** A promoted macro whose promotion the macro can be composed with. */
  predicate MacroFits(ms: seq<Macro>, promo: seq<Option<Promotion>>, i: nat, j: nat)
    requires i < |ms| && j < |ms| && |promo| == |ms|
  {
    && Callee(ms, promo, i, j) && |ms[i].args| == ms[j].params
    && InRange(promo[j].value.args, |ms[i].args|) && ComposeOk(promo[j].value.args, ms[i].args, ms[i].params)
    && Forwards(ms[i].args, ms[i].params, promo[j].value.types)
  }

  /** A candidate that does not fit leaves a reason to skip the macro. */
  predicate FunctionFails(fns: seq<Fn>, ms: seq<Macro>, i: nat, f: nat)
    requires i < |ms| && f < |fns|
  {
    Candidate(fns, ms, i, f) && !FunctionFits(fns, ms, i, f)
  }

  /** So does a promoted macro with as many parameters as there are arguments, unless one of these is none of
      the macro's parameters. */
  predicate MacroFails(ms: seq<Macro>, promo: seq<Option<Promotion>>, i: nat, j: nat)
    requires i < |ms| && j < |ms| && |promo| == |ms|
  {
    && Callee(ms, promo, i, j) && |ms[i].args| == ms[j].params && InRange(promo[j].value.args, |ms[i].args|)
    && (|| CastTwice(promo[j].value.args, ms[i].args, ms[i].params)
        || (ComposeOk(promo[j].value.args, ms[i].args, ms[i].params) && !Forwards(ms[i].args, ms[i].params, promo[j].value.types)))
  }

  /** An attempt at the macro leaves a reason to skip it: it has no callee, or a candidate fails before one fits. */
  predicate LeavesReason(fns: seq<Fn>, ms: seq<Macro>, promo: seq<Option<Promotion>>, i: nat)
    requires i < |ms| && |promo| == |ms|
  {
    || ms[i].callee == ""
    || (exists f :: 0 <= f < |fns| && FunctionFails(fns, ms, i, f) && forall g :: 0 <= g < f ==> !FunctionFits(fns, ms, i, g))
    || ((forall g :: 0 <= g < |fns| ==> !FunctionFits(fns, ms, i, g)) &&
        exists j :: 0 <= j < |ms| && MacroFails(ms, promo, i, j) && forall k :: 0 <= k < j ==> !MacroFits(ms, promo, i, k))
  }

  predicate Promotable(fns: seq<Fn>, ms: seq<Macro>, promo: seq<Option<Promotion>>, i: nat)
    requires i < |ms| && |promo| == |ms|
  {
    && ms[i].callee != ""
    && ((exists f :: 0 <= f < |fns| && FunctionFits(fns, ms, i, f)) || (exists j :: 0 <= j < |ms| && MacroFits(ms, promo, i, j)))
  }

  /** Not promotable, and nothing that is promoted later can change that. */
  predicate Hopeless(fns: seq<Fn>, ms: seq<Macro>, promo: seq<Option<Promotion>>, i: nat)
    requires i < |ms| && |promo| == |ms|
  {
    || ms[i].callee == ""
    || (&& (forall f :: 0 <= f < |fns| ==> !FunctionFits(fns, ms, i, f))
        && forall j :: 0 <= j < |ms| && ms[j].fnLike && ms[j].name == ms[i].callee ==> promo[j].Some? && !MacroFits(ms, promo, i, j))
  }

  /** None of the first `n` macros can be promoted. */
  predicate Settled(fns: seq<Fn>, ms: seq<Macro>, promo: seq<Option<Promotion>>, n: nat)
    requires n <= |ms| && |promo| == |ms|
  {
    forall i :: 0 <= i < n && ms[i].fnLike && !ms[i].skipped && promo[i].None? ==> !Promotable(fns, ms, promo, i)
  }

  /** A macro that passes all its parameters on to a C function that is not variadic, each once and in any order,
      fits that function: as an alias if in their order and without casts. */
  lemma PassingOnFits(fns: seq<Fn>, ms: seq<Macro>, i: nat, f: nat, order: seq<nat>)
    requires i < |ms| && f < |fns| && fns[f].name == ms[i].callee && !fns[f].variadic
    requires |ms[i].args| == |fns[f].argTypes| == ms[i].params == |order| && "" !in fns[f].argTypes
    requires forall k :: 0 <= k < |order| ==> ms[i].args[k].param == order[k]
    requires forall p: nat :: p in order <==> p < |order|
    ensures FunctionFits(fns, ms, i, f)
  {
    var args := ms[i].args;
    forall p | 0 <= p < |order| ensures Used(args, p) {
      assert p in order;
      var k :| 0 <= k < |order| && order[k] == p;
      assert args[k].param == p;
    }
    forall k | 0 <= k < |order| ensures order[k] < |order| {
      assert order[k] in order;
    }
    OntoIsOnce(order);
  }

  /** A macro that passes all its parameters on, each once, to a macro promoted well, fits that macro just when
      no argument is cast by both. */
  lemma ChainFits(fns: seq<Fn>, ms: seq<Macro>, promo: seq<Option<Promotion>>, i: nat, j: nat, order: seq<nat>)
    requires i < |ms| && j < |ms| && |promo| == |ms| && ms[j].fnLike && ms[j].name == ms[i].callee
    requires promo[j].Some? && WellPromoted(fns, ms[j], promo[j].value) && "" !in promo[j].value.types
    requires |ms[i].args| == ms[j].params == ms[i].params == |order|
    requires forall k :: 0 <= k < |order| ==> ms[i].args[k].param == order[k]
    requires forall p: nat :: p in order <==> p < |order|
    ensures MacroFits(ms, promo, i, j) <==>
              forall k :: 0 <= k < |promo[j].value.args| ==>
                promo[j].value.args[k].cast == "" || ms[i].args[promo[j].value.args[k].param].cast == ""
  {
    var inner, outer := promo[j].value.args, ms[i].args;
    forall p | 0 <= p < |order| ensures Used(outer, p) {
      assert p in order;
      var k :| 0 <= k < |order| && order[k] == p;
      assert outer[k].param == p;
    }
    forall k | 0 <= k < |order| ensures order[k] < |order| {
      assert order[k] in order;
    }
    OntoIsOnce(order);
    forall k | 0 <= k < |inner|
      ensures Reaches(inner, outer, ms[i].params, k)
      ensures CastBoth(inner, outer, k) <==> inner[k].cast != "" && outer[inner[k].param].cast != ""
    {
      assert order[inner[k].param] < |order|;
    }
  }

  /** When no macro is left that could be promoted, every macro is that fits a function, or a promoted macro,
      and was not given up on beforehand. */
  lemma PromotedInTheEnd(fns: seq<Fn>, ms: seq<Macro>, promo: seq<Option<Promotion>>, i: nat)
    requires |promo| == |ms| && Settled(fns, ms, promo, |ms|) && i < |ms|
    requires ms[i].fnLike && !ms[i].skipped && ms[i].callee != ""
    requires (exists f :: 0 <= f < |fns| && FunctionFits(fns, ms, i, f)) || (exists j :: 0 <= j < |ms| && MacroFits(ms, promo, i, j))
    ensures promo[i].Some?
  {
    assert Promotable(fns, ms, promo, i);
  }

  /** A list of `n` numbers in which all numbers below `n` occur has each once. */
  lemma OntoIsOnce(order: seq<nat>)
    requires forall p: nat :: p in order <==> p < |order|
    ensures forall k, l :: 0 <= k < l < |order| ==> order[k] != order[l]
  {
    if k, l :| 0 <= k < l < |order| && order[k] == order[l] {
      var rest := order[..k] + order[k + 1..];
      forall p: nat | p < |order| ensures p in rest {
        assert p in order;
        var j :| 0 <= j < |order| && order[j] == p;
        var j' := if j == k then l else j;
        assert order[j'] == p && rest[if j' < k then j' else j' - 1] == p;
      }
      TooFew(rest, |order|);
    }
  }

  lemma {:induction false} TooFew(s: seq<nat>, n: nat)
    requires forall p: nat :: p < n ==> p in s
    ensures |s| >= n
    decreases n
  {
    if n > 0 {
      var last: nat := n - 1;
      assert last in s;
      var k :| 0 <= k < |s| && s[k] == last;
      var rest := s[..k] + s[k + 1..];
      forall p: nat | p < n - 1 ensures p in rest {
        assert p in s;
        var j :| 0 <= j < |s| && s[j] == p;
        assert rest[if j < k then j else j - 1] == p;
      }
      TooFew(rest, n - 1);
    }
  }

  class Promoter {
    const fns: seq<Fn>
    const ms: seq<Macro>
    var promo: seq<Option<Promotion>>
    var skip: seq<bool>

    constructor (fns: seq<Fn>, ms: seq<Macro>)
      requires Distinct(fns, ms)
      ensures this.fns == fns && this.ms == ms && Valid()
    {
      this.fns, this.ms := fns, ms;
      promo := seq(|ms|, i => None);
      skip := seq(|ms|, i requires 0 <= i < |ms| => ms[i].skipped);
    }

    /** Every promoted macro is promoted well and means what it expands to; a macro given up on was
        given up on for good. */
    ghost predicate Valid() reads this {
      && Distinct(fns, ms) && |promo| == |ms| && |skip| == |ms|
      && (forall i :: 0 <= i < |ms| && promo[i].Some? ==>
            ms[i].fnLike && WellPromoted(fns, ms[i], promo[i].value) && Means(fns, ms, i, promo[i].value))
      && (forall i :: 0 <= i < |ms| ==> ms[i].skipped ==> promo[i].None?)
      && (forall i :: 0 <= i < |ms| && skip[i] && !ms[i].skipped ==> promo[i].Some? || Hopeless(fns, ms, promo, i))
    }

    /** Promotion by a function of the callee's name. */
    method FromFunction(i: nat, f: nat) returns (ok: bool)
      requires Valid() && i < |ms| && f < |fns| && ms[i].fnLike && !ms[i].skipped && promo[i].None? && Candidate(fns, ms, i, f)
      modifies this`promo
      ensures ok <==> FunctionFits(fns, ms, i, f)
      ensures !ok ==> promo == old(promo)
      ensures ok ==> exists p :: promo == old(promo)[i := Some(p)] && WellPromoted(fns, ms[i], p) && Means(fns, ms, i, p)
    {
      var m := ms[i];
      if m.params != |fns[f].argTypes| {
        return false;
      }
      var types;
      ok, types := MapParams(m.args, m.params, fns[f].argTypes);
      if ok {
        var kind := KindOf(m.args);
        var p := Promotion(f, m.args, types, kind);
        MeansFunction(fns, ms, i, p);
        promo := promo[i := Some(p)];
      }
    }

    /** Promotion by a promoted macro of the callee's name. */
    method FromMacro(i: nat, j: nat) returns (ok: bool, giveUp: bool)
      requires Valid() && i < |ms| && j < |ms| && ms[i].fnLike && !ms[i].skipped && promo[i].None?
      requires ms[j].fnLike && ms[j].name == ms[i].callee && promo[j].Some?
      modifies this`promo
      ensures ok <==> MacroFits(ms, old(promo), i, j)
      ensures giveUp <==> MacroFails(ms, old(promo), i, j)
      ensures !ok ==> promo == old(promo)
      ensures ok ==> exists p :: promo == old(promo)[i := Some(p)] && WellPromoted(fns, ms[i], p) && Means(fns, ms, i, p)
    {
      var m := ms[i];
      var q := promo[j].value;
      if |m.args| != ms[j].params {
        return false, false;
      }
      var composed;
      ok, giveUp, composed := Compose(q.args, m.args, m.params);
      if !ok {
        return;
      }
      var types;
      ok, types := MapParams(m.args, m.params, q.types);
      giveUp := !ok;
      if ok {
        ComposeBijection(q.args, m.args, composed, m.params, q.types, types, fns[q.fn].argTypes);
        var kind := KindOf(composed);
        var p := Promotion(q.fn, composed, types, kind);
        MeansMacro(fns, ms, i, j, q, p);
        promo := promo[i := Some(p)];
      }
    }

    /** One attempt at one macro: candidates among the functions, then among the promoted macros. A candidate
        that fails leaves a reason to skip the macro, even where a later one fits. */
    method TryPromote(i: nat) returns (ok: bool)
      requires Valid() && i < |ms| && ms[i].fnLike && !skip[i] && promo[i].None? && !ms[i].skipped
      modifies this
      ensures Valid()
      ensures ok <==> Promotable(fns, ms, old(promo), i)
      ensures if ok then exists p :: promo == old(promo)[i := Some(p)] else promo == old(promo)
      ensures skip == old(skip)[i := LeavesReason(fns, ms, old(promo), i)]
    {
      hide WellPromoted, Means, FunctionFits, MacroFits, FunctionFails, MacroFails;
      ok := false;
      if ms[i].callee == "" {
        NoCallee(i);
        skip := skip[i := true];
        return;
      }
      var giveUp := false;
      for f := 0 to |fns|
        invariant Valid() && promo == old(promo) && skip == old(skip) && !ok
        invariant forall g :: 0 <= g < f ==> !FunctionFits(fns, ms, i, g)
        invariant giveUp <==> exists g :: 0 <= g < f && FunctionFails(fns, ms, i, g)
      {
        FailsOrFits(i, f);
        if Candidate(fns, ms, i, f) {
          ok := FromFunction(i, f);
          if ok {
            Kept(i);
            skip := skip[i := giveUp];
            return;
          }
          giveUp := true;
        }
      }
      for j := 0 to |ms|
        invariant Valid() && promo == old(promo) && skip == old(skip) && !ok
        invariant forall k :: 0 <= k < j ==> !MacroFits(ms, promo, i, k)
        invariant giveUp <==> (exists g :: 0 <= g < |fns| && FunctionFails(fns, ms, i, g)) || (exists k :: 0 <= k < j && MacroFails(ms, promo, i, k))
      {
        OnlyCallees(i, j);
        if ms[j].fnLike && ms[j].name == ms[i].callee && promo[j].Some? {
          var bad;
          ok, bad := FromMacro(i, j);
          if ok {
            Kept(i);
            skip := skip[i := giveUp];
            return;
          }
          giveUp := giveUp || bad;
        }
      }
      if giveUp {
        GivenUp(i);
        skip := skip[i := true];
      }
    }

    lemma NoCallee(i: nat)
      requires Valid() && i < |ms| && ms[i].callee == ""
      ensures LeavesReason(fns, ms, promo, i) && !Promotable(fns, ms, promo, i) && Hopeless(fns, ms, promo, i)
    {
    }

    lemma FailsOrFits(i: nat, f: nat)
      requires i < |ms| && f < |fns|
      ensures Candidate(fns, ms, i, f) <==> FunctionFails(fns, ms, i, f) || FunctionFits(fns, ms, i, f)
      ensures !(FunctionFails(fns, ms, i, f) && FunctionFits(fns, ms, i, f))
    {
    }

    lemma OnlyCallees(i: nat, j: nat)
      requires i < |ms| && j < |ms| && |promo| == |ms|
      ensures MacroFails(ms, promo, i, j) || MacroFits(ms, promo, i, j) ==> Callee(ms, promo, i, j)
      ensures !(MacroFails(ms, promo, i, j) && MacroFits(ms, promo, i, j))
    {
    }

    /** A macro for which no candidate fits, but one leaves a reason, is given up for good. */
    lemma GivenUp(i: nat)
      requires Valid() && i < |ms|
      requires forall f :: 0 <= f < |fns| ==> !FunctionFits(fns, ms, i, f)
      requires forall j :: 0 <= j < |ms| ==> !MacroFits(ms, promo, i, j)
      requires (exists f :: 0 <= f < |fns| && FunctionFails(fns, ms, i, f)) || exists j :: 0 <= j < |ms| && MacroFails(ms, promo, i, j)
      ensures Hopeless(fns, ms, promo, i)
    {
      hide WellPromoted, Means, FunctionFits, MacroFits;
      forall l | 0 <= l < |ms| && ms[l].fnLike && ms[l].name == ms[i].callee
        ensures promo[l].Some?
      {
        if f :| 0 <= f < |fns| && FunctionFails(fns, ms, i, f) {
          assert false;
        } else {
          var k :| 0 <= k < |ms| && MacroFails(ms, promo, i, k);
          assert !(k < l) && !(l < k);
        }
      }
    }

    twostate lemma Kept(i: nat)
      requires old(Valid()) && i < |ms| && ms[i].fnLike && !ms[i].skipped && old(promo)[i].None? && skip == old(skip)
      requires exists p :: promo == old(promo)[i := Some(p)] && WellPromoted(fns, ms[i], p) && Means(fns, ms, i, p)
      ensures Valid()
    {
      forall k | 0 <= k < |ms| && skip[k] && !ms[k].skipped && promo[k].None?
        ensures Hopeless(fns, ms, promo, k)
      {
        assert Hopeless(fns, ms, old(promo), k);
      }
    }

    /** The rounds: afterwards no macro is left that could be promoted. */
    method Run()
      requires Valid() && forall i :: 0 <= i < |ms| ==> promo[i].None?
      modifies this
      ensures Valid() && Settled(fns, ms, promo, |ms|)
    {
      var round := 0;
      var progressed := true;
      while round < |ms| && progressed
        invariant Valid() && 0 <= round <= |ms|
        invariant progressed ==> Promoted(promo) >= round
        invariant !progressed ==> Settled(fns, ms, promo, |ms|)
        decreases |ms| - round, progressed
      {
        progressed := false;
        ghost var before := Promoted(promo);
        for i := 0 to |ms|
          invariant Valid() && Promoted(promo) >= before + if progressed then 1 else 0
          invariant !progressed ==> Settled(fns, ms, promo, i)
        {
          if ms[i].fnLike && !skip[i] && promo[i].None? && !ms[i].skipped {
            ghost var was := promo;
            var ok := TryPromote(i);
            if ok {
              progressed := true;
              ghost var p :| promo == was[i := Some(p)];
              PromotedMore(was, i, p);
            }
          }
        }
        round := round + 1;
      }
      PromotedAll(promo);
    }
  }
}
