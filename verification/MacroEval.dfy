/** Evaluating object-like macros that refer to each other: a memoised depth-first evaluation with
    cycle detection, against the least fixed point of "the body evaluates using macros that do". */
module MacroEval {
  import opened Wrappers
  import opened MacroExpr

  /** How a macro was classified beforehand: not at all; with a value; or with a text from which no value can
      be made, such as an integer that does not fit. */
  datatype Known = Unclassified | Usable(v: Val) | Unusable

  datatype Macro = Macro(name: string, toks: seq<Tok>, fnLike: bool, known: Known)

  function Beforehand(k: Known): Option<Val> { if k.Usable? then Some(k.v) else None }

  // ---- The fixed point -------------------------------------------------------------------

  /** The object-like macro a name resolves to: the first of that name. */
  function IndexOf(ms: seq<Macro>, x: string): (r: Option<nat>)
    ensures r.Some? ==> r.value < |ms| && !ms[r.value].fnLike && ms[r.value].name == x && x != ""
    ensures r.None? && x != "" ==> forall i :: 0 <= i < |ms| ==> ms[i].fnLike || ms[i].name != x
  {
    if ms == [] || x == "" then None
    else
      var n := |ms| - 1;
      var r := IndexOf(ms[..n], x);
      if r.Some? then r else if !ms[n].fnLike && ms[n].name == x then Some(n) else None
  }

  function ObjectNames(ms: seq<Macro>): set<string> { set m | m in ms && IndexOf(ms, m.name).Some? :: m.name }

  /** The value of macro `i` if it can be derived in `n` rounds. */
  function ValueAt(ms: seq<Macro>, i: nat, n: nat): Option<Val>
    requires i < |ms|
    decreases n, 0
  {
    if !ms[i].known.Unclassified? then Beforehand(ms[i].known)
    else if n == 0 then None
    else Parse(ms[i].toks, NamesAt(ms, n - 1))
  }

  function NamesAt(ms: seq<Macro>, n: nat): Names
    decreases n, 1
  {
    map x | x in ObjectNames(ms) && IndexOf(ms, x).Some? && ValueAt(ms, IndexOf(ms, x).value, n).Some? ::
      ValueAt(ms, IndexOf(ms, x).value, n).value
  }

  predicate Extended(rho: Names, rho': Names) { forall x :: x in rho ==> x in rho' && rho'[x] == rho[x] }

  /** More resolved names never change a value that was already there. */
  lemma {:induction false} LevelMono(level: nat, s: seq<Tok>, rho: Names, rho': Names)
    requires level <= PRIMARY && Extended(rho, rho') && ParseLevel(level, s, rho).Some?
    ensures ParseLevel(level, s, rho') == ParseLevel(level, s, rho)
    decreases |s|, PRIMARY - level + 3
  {
    if level == PRIMARY {
      PrimaryMono(s, rho, rho');
    } else if level == UNARY {
      UnaryMono(s, rho, rho');
    } else {
      LevelMono(level + 1, s, rho, rho');
      var x := ParseLevel(level + 1, s, rho).value;
      LoopMono(level, x.v, x.rest, rho, rho');
    }
  }

  lemma {:induction false} LoopMono(level: nat, acc: Val, s: seq<Tok>, rho: Names, rho': Names)
    requires level < UNARY && Extended(rho, rho') && ParseLoop(level, acc, s, rho).Some?
    ensures ParseLoop(level, acc, s, rho') == ParseLoop(level, acc, s, rho)
    decreases |s|, 0
  {
    if !(s == [] || !s[0].P? || !BinaryAt(s[0].p, level)) {
      LevelMono(level + 1, s[1..], rho, rho');
      var x := ParseLevel(level + 1, s[1..], rho).value;
      LoopMono(level, Apply(s[0].p, acc, x.v).value, x.rest, rho, rho');
    }
  }

  lemma {:induction false} UnaryMono(s: seq<Tok>, rho: Names, rho': Names)
    requires Extended(rho, rho') && ParseUnary(s, rho).Some?
    ensures ParseUnary(s, rho') == ParseUnary(s, rho)
    decreases |s|, 2
  {
    if s != [] && s[0].P? && Unary(s[0].p) {
      UnaryMono(s[1..], rho, rho');
    } else {
      PrimaryMono(s, rho, rho');
    }
  }

  lemma {:induction false} PrimaryMono(s: seq<Tok>, rho: Names, rho': Names)
    requires Extended(rho, rho') && ParsePrimary(s, rho).Some?
    ensures ParsePrimary(s, rho') == ParsePrimary(s, rho)
    decreases |s|, 1
  {
    if s[0].P? {
      LevelMono(0, s[1..], rho, rho');
    }
  }

  /** A macro derived in `n` rounds keeps its value in every later round. */
  lemma {:induction false} RoundsMono(ms: seq<Macro>, n: nat)
    ensures Extended(NamesAt(ms, n), NamesAt(ms, n + 1))
    ensures forall i :: 0 <= i < |ms| && ValueAt(ms, i, n).Some? ==> ValueAt(ms, i, n + 1) == ValueAt(ms, i, n)
    decreases n
  {
    forall i | 0 <= i < |ms| && ValueAt(ms, i, n).Some?
      ensures ValueAt(ms, i, n + 1) == ValueAt(ms, i, n)
    {
      if n > 0 && ms[i].known.Unclassified? {
        RoundsMono(ms, n - 1);
        LevelMono(0, ms[i].toks, NamesAt(ms, n - 1), NamesAt(ms, n));
      }
    }
    var n1 := n + 1;
    forall x | x in NamesAt(ms, n)
      ensures x in NamesAt(ms, n1) && NamesAt(ms, n1)[x] == NamesAt(ms, n)[x]
    {
      assert ValueAt(ms, IndexOf(ms, x).value, n1) == ValueAt(ms, IndexOf(ms, x).value, n);
    }
  }

  lemma {:induction false} LaterValue(ms: seq<Macro>, i: nat, n: nat, m: nat)
    requires i < |ms| && n <= m && ValueAt(ms, i, n).Some?
    ensures ValueAt(ms, i, m) == ValueAt(ms, i, n)
    decreases m - n
  {
    if n < m {
      RoundsMono(ms, n);
      LaterValue(ms, i, n + 1, m);
    }
  }

  lemma NamesMono(ms: seq<Macro>, n: nat)
    ensures Extended(NamesAt(ms, n), NamesAt(ms, n + 1))
  {
    RoundsMono(ms, n);
  }

  /** Rounds that resolve something new are at most as many as there are names. */
  lemma {:induction false} FindStable(ms: seq<Macro>, k: nat) returns (n: nat, found: bool)
    ensures if found then Stable(ms, n) else |NamesAt(ms, k).Keys| >= k
    decreases k
  {
    hide NamesAt;
    n, found := 0, false;
    if k > 0 {
      n, found := FindStable(ms, k - 1);
      if !found {
        n := k - 1;
        found := NamesAt(ms, n) == NamesAt(ms, k);
        if !found {
          OneMoreRound(ms, n);
        }
      }
    }
  }

  lemma OneMoreRound(ms: seq<Macro>, n: nat)
    requires !Stable(ms, n)
    ensures |NamesAt(ms, n + 1).Keys| > |NamesAt(ms, n).Keys|
  {
    NamesMono(ms, n);
    MoreNames(NamesAt(ms, n), NamesAt(ms, n + 1));
  }

  lemma MoreNames(a: Names, b: Names)
    requires Extended(a, b) && a != b
    ensures |a.Keys| < |b.Keys|
  {
    SmallerSet(a.Keys, b.Keys);
  }

  lemma SmallerSet(a: set<string>, b: set<string>)
    requires a <= b && a != b
    ensures |a| < |b|
  {
    var x :| x in b && x !in a;
    assert a <= b - {x};
    SubsetSize(a, b - {x});
  }

  lemma {:induction false} SubsetSize(a: set<string>, b: set<string>)
    requires a <= b
    ensures |a| <= |b|
    decreases |a|
  {
    if a != {} {
      var x :| x in a;
      SubsetSize(a - {x}, b - {x});
    }
  }

  ghost predicate Stable(ms: seq<Macro>, n: nat) { NamesAt(ms, n) == NamesAt(ms, n + 1) }

  lemma Stabilises(ms: seq<Macro>)
    ensures exists n: nat :: Stable(ms, n)
  {
    var k := |ObjectNames(ms)| + 1;
    var n, found := FindStable(ms, k);
    SubsetSize(NamesAt(ms, k).Keys, ObjectNames(ms));
    assert Stable(ms, n);
  }

  /** The names the rounds end with. */
  ghost function Fix(ms: seq<Macro>): Names {
    Stabilises(ms);
    var n: nat :| Stable(ms, n);
    NamesAt(ms, n)
  }

  /** The value of a macro in the least fixed point; none if it cannot be derived. */
  ghost function Value(ms: seq<Macro>, i: nat): Option<Val>
    requires i < |ms|
  {
    if !ms[i].known.Unclassified? then Beforehand(ms[i].known) else Parse(ms[i].toks, Fix(ms))
  }

  lemma {:induction false} StableStays(ms: seq<Macro>, n: nat, m: nat)
    requires Stable(ms, n) && n <= m
    ensures NamesAt(ms, m) == NamesAt(ms, n)
    decreases m - n
  {
    if n < m {
      StableStays(ms, n, m - 1);
      SameRound(ms, n, m - 1);
    }
  }

  lemma SameRound(ms: seq<Macro>, n: nat, m: nat)
    requires NamesAt(ms, n) == NamesAt(ms, m)
    ensures NamesAt(ms, n + 1) == NamesAt(ms, m + 1)
  {
    var n1, m1 := n + 1, m + 1;
    forall i | 0 <= i < |ms|
      ensures ValueAt(ms, i, n1) == ValueAt(ms, i, m1)
    {
    }
  }

  /** There is a round that everything after agrees with. */
  lemma FixRound(ms: seq<Macro>) returns (n: nat)
    ensures forall m :: n <= m ==> NamesAt(ms, m) == Fix(ms)
    ensures forall i, m :: 0 <= i < |ms| && n < m ==> ValueAt(ms, i, m) == Value(ms, i)
  {
    Stabilises(ms);
    n :| Stable(ms, n) && NamesAt(ms, n) == Fix(ms);
    forall m | n <= m
      ensures NamesAt(ms, m) == Fix(ms)
    {
      StableStays(ms, n, m);
    }
  }

  /** The values are those of exactly the macros that some round derives. */
  lemma ValueDerived(ms: seq<Macro>, i: nat)
    requires i < |ms|
    ensures forall n: nat :: ValueAt(ms, i, n).Some? ==> Value(ms, i) == ValueAt(ms, i, n)
    ensures Value(ms, i).Some? ==> exists n: nat :: ValueAt(ms, i, n).Some?
  {
    var k := FixRound(ms);
    assert ValueAt(ms, i, k + 1) == Value(ms, i);
    forall n: nat | ValueAt(ms, i, n).Some?
      ensures Value(ms, i) == ValueAt(ms, i, n)
    {
      var m := if n <= k then k + 1 else n;
      LaterValue(ms, i, n, m);
      assert ValueAt(ms, i, m) == Value(ms, i);
    }
  }

  /** A resolution of names that every macro agrees with: what a consistent reading may be. */
  predicate Closed(ms: seq<Macro>, R: Names) {
    forall i :: 0 <= i < |ms| && !ms[i].fnLike && IndexOf(ms, ms[i].name) == Some(i) ==>
      var v := if !ms[i].known.Unclassified? then Beforehand(ms[i].known) else Parse(ms[i].toks, R);
      v.Some? ==> ms[i].name in R && R[ms[i].name] == v.value
  }

  lemma {:induction false} RoundsLeast(ms: seq<Macro>, n: nat, R: Names)
    requires Closed(ms, R)
    ensures Extended(NamesAt(ms, n), R)
    decreases n
  {
    forall x | x in NamesAt(ms, n)
      ensures x in R && R[x] == NamesAt(ms, n)[x]
    {
      var i := IndexOf(ms, x).value;
      assert ValueAt(ms, i, n) == Some(NamesAt(ms, n)[x]);
      if n > 0 && ms[i].known.Unclassified? {
        RoundsLeast(ms, n - 1, R);
        assert ValueAt(ms, i, n) == Parse(ms[i].toks, NamesAt(ms, n - 1));
        LevelMono(0, ms[i].toks, NamesAt(ms, n - 1), R);
      }
    }
  }

  /** `Fix` is a fixed point, and the least: every closed resolution contains it. */
  lemma FixIsLeast(ms: seq<Macro>, R: Names)
    ensures Closed(ms, Fix(ms))
    ensures Closed(ms, R) ==> Extended(Fix(ms), R)
  {
    var n := FixRound(ms);
    assert NamesAt(ms, n + 1) == Fix(ms);
    forall i | 0 <= i < |ms| && !ms[i].fnLike && IndexOf(ms, ms[i].name) == Some(i) && Value(ms, i).Some?
      ensures ms[i].name in Fix(ms) && Fix(ms)[ms[i].name] == Value(ms, i).value
    {
      assert ValueAt(ms, i, n + 1) == Value(ms, i);
      assert ms[i] in ms;
    }
    if Closed(ms, R) {
      RoundsLeast(ms, n, R);
    }
  }

  /** The values of names in the fixed point are those of the macros they resolve to. */
  lemma NameValue(ms: seq<Macro>, x: string)
    ensures var i := IndexOf(ms, x);
            (x in Fix(ms) <==> i.Some? && Value(ms, i.value).Some?) && (x in Fix(ms) ==> Fix(ms)[x] == Value(ms, i.value).value)
  {
    var n := FixRound(ms);
    assert NamesAt(ms, n + 1) == Fix(ms);
    var i := IndexOf(ms, x);
    if i.Some? {
      assert ValueAt(ms, i.value, n + 1) == Value(ms, i.value);
      assert ms[i.value] in ms;
    }
  }

  predicate UniqueNames(ms: seq<Macro>) {
    forall i, j :: 0 <= i < j < |ms| && !ms[i].fnLike && !ms[j].fnLike ==> ms[i].name != ms[j].name
  }

  lemma {:induction false} UniqueIndex(ms: seq<Macro>, i: nat)
    requires UniqueNames(ms) && i < |ms| && !ms[i].fnLike && ms[i].name != ""
    ensures IndexOf(ms, ms[i].name) == Some(i)
  {
    var j := IndexOf(ms, ms[i].name).value;
    assert !(i < j) && !(j < i);
  }

  lemma ClosedAnyOrder(ms: seq<Macro>, ms': seq<Macro>, R: Names)
    requires UniqueNames(ms) && UniqueNames(ms') && (forall m :: m in ms ==> m in ms') && Closed(ms', R)
    ensures Closed(ms, R)
  {
    forall i | 0 <= i < |ms| && !ms[i].fnLike && IndexOf(ms, ms[i].name) == Some(i)
      ensures var v := if !ms[i].known.Unclassified? then Beforehand(ms[i].known) else Parse(ms[i].toks, R);
              v.Some? ==> ms[i].name in R && R[ms[i].name] == v.value
    {
      assert ms[i] in ms';
      var j :| 0 <= j < |ms'| && ms'[j] == ms[i];
      UniqueIndex(ms', j);
    }
  }

  /** What names resolve to does not depend on the order of the macros. */
  lemma OrderIndependent(ms: seq<Macro>, ms': seq<Macro>)
    requires UniqueNames(ms) && UniqueNames(ms') && forall m :: m in ms <==> m in ms'
    ensures Fix(ms) == Fix(ms')
  {
    FixIsLeast(ms, Fix(ms'));
    FixIsLeast(ms', Fix(ms));
    ClosedAnyOrder(ms, ms', Fix(ms'));
    ClosedAnyOrder(ms', ms, Fix(ms));
  }

  // ---- Strictness and cycles -------------------------------------------------------------

  predicate Mentions(s: seq<Tok>, x: string) { Ident(x) in s }

  ghost predicate Resolved(s: seq<Tok>, rest: seq<Tok>, rho: Names) {
    forall x :: Mentions(s, x) && !Mentions(rest, x) ==> x in rho
  }

  /** A parse consumes a name only by resolving it. */
  lemma {:induction false} LevelStrict(level: nat, s: seq<Tok>, rho: Names)
    requires level <= PRIMARY && ParseLevel(level, s, rho).Some?
    ensures Resolved(s, ParseLevel(level, s, rho).value.rest, rho)
    decreases |s|, PRIMARY - level + 3
  {
    if level == PRIMARY {
      PrimaryStrict(s, rho);
    } else if level == UNARY {
      UnaryStrict(s, rho);
    } else {
      LevelStrict(level + 1, s, rho);
      var x := ParseLevel(level + 1, s, rho).value;
      LoopStrict(level, x.v, x.rest, rho);
    }
  }

  lemma {:induction false} LoopStrict(level: nat, acc: Val, s: seq<Tok>, rho: Names)
    requires level < UNARY && ParseLoop(level, acc, s, rho).Some?
    ensures Resolved(s, ParseLoop(level, acc, s, rho).value.rest, rho)
    decreases |s|, 0
  {
    if !(s == [] || !s[0].P? || !BinaryAt(s[0].p, level)) {
      LevelStrict(level + 1, s[1..], rho);
      var x := ParseLevel(level + 1, s[1..], rho).value;
      LoopStrict(level, Apply(s[0].p, acc, x.v).value, x.rest, rho);
      HeadMention(s);
    }
  }

  lemma {:induction false} UnaryStrict(s: seq<Tok>, rho: Names)
    requires ParseUnary(s, rho).Some?
    ensures Resolved(s, ParseUnary(s, rho).value.rest, rho)
    decreases |s|, 2
  {
    if s != [] && s[0].P? && Unary(s[0].p) {
      UnaryStrict(s[1..], rho);
      HeadMention(s);
    } else {
      PrimaryStrict(s, rho);
    }
  }

  lemma {:induction false} PrimaryStrict(s: seq<Tok>, rho: Names)
    requires ParsePrimary(s, rho).Some?
    ensures Resolved(s, ParsePrimary(s, rho).value.rest, rho)
    decreases |s|, 1
  {
    HeadMention(s);
    if s[0].P? {
      LevelStrict(0, s[1..], rho);
      HeadMention(ParseLevel(0, s[1..], rho).value.rest);
    }
  }

  /** Mentions are those of the first token and those of the rest. */
  lemma HeadMention(s: seq<Tok>)
    requires s != []
    ensures forall x :: Mentions(s, x) <==> s[0] == Ident(x) || Mentions(s[1..], x)
  {
    assert s == [s[0]] + s[1..];
  }

  lemma ParseStrict(s: seq<Tok>, rho: Names, x: string)
    requires Parse(s, rho).Some? && Mentions(s, x)
    ensures x in rho
  {
    LevelStrict(0, s, rho);
  }

  /** If `i` can be derived, `j` can, in fewer rounds. */
  ghost predicate Below(ms: seq<Macro>, i: nat, j: nat)
    requires i < |ms| && j < |ms|
  {
    forall n: nat {:trigger DerivedBefore(ms, j, n)} :: ValueAt(ms, i, n).Some? ==> DerivedBefore(ms, j, n)
  }

  ghost predicate DerivedBefore(ms: seq<Macro>, j: nat, n: nat)
    requires j < |ms|
  {
    exists m: nat :: m < n && ValueAt(ms, j, m).Some?
  }

  lemma BelowTrans(ms: seq<Macro>, i: nat, j: nat, k: nat)
    requires i < |ms| && j < |ms| && k < |ms| && Below(ms, i, j) && Below(ms, j, k)
    ensures Below(ms, i, k)
  {
    forall n: nat | ValueAt(ms, i, n).Some?
      ensures DerivedBefore(ms, k, n)
    {
      assert DerivedBefore(ms, j, n);
      var m: nat :| m < n && ValueAt(ms, j, m).Some?;
      assert DerivedBefore(ms, k, m);
    }
  }

  /** A macro below itself cannot be derived: its references form a cycle. */
  lemma {:induction false} CycleUnderivable(ms: seq<Macro>, i: nat, n: nat)
    requires i < |ms| && Below(ms, i, i)
    ensures ValueAt(ms, i, n).None?
    decreases n
  {
    if ValueAt(ms, i, n).Some? {
      assert DerivedBefore(ms, i, n);
      var m: nat :| m < n && ValueAt(ms, i, m).Some?;
      CycleUnderivable(ms, i, m);
    }
  }

  /** A macro that is not known beforehand is above every macro its body names. */
  lemma MentionBelow(ms: seq<Macro>, i: nat, x: string)
    requires i < |ms| && ms[i].known.Unclassified? && Mentions(ms[i].toks, x) && IndexOf(ms, x).Some?
    ensures Below(ms, i, IndexOf(ms, x).value)
  {
    forall n: nat | ValueAt(ms, i, n).Some?
      ensures DerivedBefore(ms, IndexOf(ms, x).value, n)
    {
      ParseStrict(ms[i].toks, NamesAt(ms, n - 1), x);
      assert ValueAt(ms, IndexOf(ms, x).value, n - 1).Some?;
    }
  }

  // ---- The evaluator ---------------------------------------------------------------------

  datatype ObjState = Unvisited | Visiting | Done
  datatype Skip = NoSkip | CycleDetected | ConstExprUnsupported

  function Pending(state: seq<ObjState>): nat {
    if state == [] then 0 else Pending(state[1..]) + if state[0].Unvisited? then 1 else 0
  }

  /** Marking an unvisited macro leaves one fewer to visit; other changes of mark leave no more. */
  lemma {:induction false} PendingMark(state: seq<ObjState>, i: nat, mark: ObjState)
    requires i < |state| && !mark.Unvisited?
    ensures Pending(state[i := mark]) == Pending(state) - if state[i].Unvisited? then 1 else 0
  {
    if i > 0 {
      PendingMark(state[1..], i - 1, mark);
      assert state[i := mark][1..] == state[1..][i - 1 := mark];
    } else {
      assert state[i := mark][1..] == state[1..];
    }
  }

  /** Names lead to the macros they resolve to. */
  ghost predicate Indexes(index: map<string, nat>, ms: seq<Macro>) {
    forall x :: (x in index <==> IndexOf(ms, x).Some?) && (x in index ==> IndexOf(ms, x) == Some(index[x]))
  }

  lemma NoIndex()
    ensures Indexes(map[], [])
  {
  }

  lemma IndexMore(index: map<string, nat>, ms: seq<Macro>, i: nat)
    requires i < |ms| && Indexes(index, ms[..i])
    ensures Indexes(if !ms[i].fnLike && ms[i].name != "" && ms[i].name !in index then index[ms[i].name := i] else index, ms[..i + 1])
  {
    assert ms[..i + 1][..i] == ms[..i];
  }

  class Importer {
    const ms: seq<Macro>
    var vals: seq<Option<Val>>
    var state: seq<ObjState>
    var skip: seq<Skip>
    var index: map<string, nat>

    constructor (ms: seq<Macro>)
      ensures this.ms == ms && Valid() && forall i :: 0 <= i < |ms| ==> state[i] == Unvisited
    {
      this.ms := ms;
      index := map[];
      vals := seq(|ms|, i requires 0 <= i < |ms| => Beforehand(ms[i].known));
      state := seq(|ms|, i => Unvisited);
      skip := seq(|ms|, i => NoSkip);
    }

    /** Finished macros have their fixed-point values; the others what they had beforehand. Only
        macros without a value are marked as skipped, and all finished ones are that were not
        classified beforehand. */
    ghost predicate Valid() reads this {
      && |vals| == |ms| && |state| == |ms| && |skip| == |ms|
      && (forall i :: 0 <= i < |ms| ==> vals[i] == if state[i].Done? then Value(ms, i) else Beforehand(ms[i].known))
      && (forall i :: 0 <= i < |ms| && skip[i] != NoSkip ==> Value(ms, i).None? && ms[i].known.Unclassified?)
      && (forall i :: 0 <= i < |ms| && state[i].Done? && ms[i].known.Unclassified? && Value(ms, i).None? ==> skip[i] != NoSkip)
      && (forall i :: 0 <= i < |ms| && ms[i].fnLike ==> state[i].Unvisited?)
      && (forall i :: 0 <= i < |ms| && state[i].Visiting? ==> ms[i].known.Unclassified?)
    }

    ghost predicate Indexed() reads this { Indexes(index, ms) }

    /** Of several object-like macros of one name the first is the one names refer to. */
    method BuildIndex()
      modifies this`index
      ensures Indexed()
    {
      hide Indexes;
      index := map[];
      NoIndex();
      for i := 0 to |ms|
        invariant Indexes(index, ms[..i])
      {
        IndexMore(index, ms, i);
        if !ms[i].fnLike && ms[i].name != "" && ms[i].name !in index {
          index := index[ms[i].name := i];
        }
      }
      assert ms[..|ms|] == ms;
    }

    /** Every macro being visited is above `idx`. */
    ghost predicate Under(idx: nat) reads this
      requires |state| == |ms| && idx < |ms|
    {
      forall v :: 0 <= v < |ms| && state[v].Visiting? ==> Below(ms, v, idx)
    }

    twostate predicate Onward() reads this {
      && |state| == |old(state)|
      && Pending(state) <= Pending(old(state))
      && forall i :: 0 <= i < |state| ==>
           && (state[i].Visiting? <==> old(state[i]).Visiting?)
           && (old(state[i]).Done? ==> state[i].Done?)
    }

    /** Evaluates macro `idx` once; `cycle` reports that a macro being visited was met again. It succeeds for
        a macro that was classified without a usable value, too. */
    method EvalObject(idx: nat) returns (ok: bool, cycle: bool)
      requires Valid() && Indexed() && idx < |ms| && Under(idx)
      modifies this`vals, this`state, this`skip
      ensures Valid() && Onward()
      ensures ok <==> !ms[idx].fnLike && (Value(ms, idx).Some? || ms[idx].known.Unusable?)
      ensures ok ==> vals[idx] == Value(ms, idx)
      ensures cycle ==> !ok
      ensures !ms[idx].fnLike ==> !state[idx].Unvisited?
      decreases Pending(state), 0, 1
    {
      ok, cycle := false, false;
      if ms[idx].fnLike {
        return;
      }
      if state[idx].Done? {
        ok := vals[idx].Some? || !ms[idx].known.Unclassified?;
        return;
      }
      if state[idx].Visiting? {
        Cyclic(idx);
        cycle := true;
        skip := skip[idx := CycleDetected];
        return;
      }
      PendingMark(state, idx, Visiting);
      if !ms[idx].known.Unclassified? {
        PendingMark(state, idx, Done);
        state := state[idx := Done];
        ok := true;
        return;
      }
      ok, cycle := EvalBody(idx);
    }

    /** Parses the body, with the names it mentions resolved on the way. */
    method EvalBody(idx: nat) returns (ok: bool, cycle: bool)
      requires Valid() && Indexed() && idx < |ms| && Under(idx)
      requires !ms[idx].fnLike && ms[idx].known.Unclassified? && state[idx].Unvisited?
      modifies this`vals, this`state, this`skip
      ensures Valid() && Onward()
      ensures ok <==> Value(ms, idx).Some?
      ensures ok ==> vals[idx] == Value(ms, idx)
      ensures cycle ==> !ok
      ensures state[idx].Done?
      decreases Pending(state), 0, 0
    {
      hide Pending, Value, ValueAt, NamesAt, IndexOf, Indexes;
      PendingMark(state, idx, Visiting);
      state := state[idx := Visiting];
      var parser := new Parser(this, idx);
      var v;
      v, cycle := parser.ParseAll();
      PendingMark(state, idx, Done);
      if v.None? && skip[idx] == NoSkip {
        skip := skip[idx := if cycle then CycleDetected else ConstExprUnsupported];
      }
      vals := vals[idx := v];
      state := state[idx := Done];
      ok := v.Some?;
    }

    lemma Cyclic(idx: nat)
      requires idx < |ms| && Below(ms, idx, idx)
      ensures Value(ms, idx).None?
    {
      ValueDerived(ms, idx);
      if n: nat :| ValueAt(ms, idx, n).Some? {
        CycleUnderivable(ms, idx, n);
      }
    }

    /** Evaluates all object-like macros: each ends with exactly its fixed-point value. Marked as skipped are
        exactly those with a body that were not classified beforehand and have none. */
    method Run()
      requires Valid() && forall i :: 0 <= i < |ms| ==> state[i] == Unvisited
      modifies this
      ensures Valid()
      ensures forall i :: 0 <= i < |ms| && !ms[i].fnLike ==> vals[i] == Value(ms, i)
      ensures forall i :: 0 <= i < |ms| && !ms[i].fnLike && ms[i].toks != [] ==>
                (skip[i] != NoSkip <==> ms[i].known.Unclassified? && Value(ms, i).None?)
    {
      hide Indexes, IndexOf, Below, ValueAt, NamesAt;
      BuildIndex();
      for i := 0 to |ms|
        invariant Valid() && Indexed()
        invariant forall j :: 0 <= j < |ms| ==> !state[j].Visiting?
        invariant forall j :: 0 <= j < i && !ms[j].fnLike && ms[j].known.Unclassified? && ms[j].toks != [] ==> state[j].Done?
      {
        if !ms[i].fnLike && ms[i].known.Unclassified? && ms[i].toks != [] {
          var _, _ := EvalObject(i);
        }
      }
      forall i | 0 <= i < |ms| && ms[i].known.Unclassified? && ms[i].toks == []
        ensures Value(ms, i).None?
      {
        assert ParseLevel(0, [], Fix(ms)).None?;
      }
    }
  }

  /** The parser as the source has it: a cursor over the tokens of macro `me`. */
  class Parser {
    const owner: Importer
    const me: nat
    const toks: seq<Tok>
    var pos: nat

    constructor (owner: Importer, me: nat)
      requires me < |owner.ms|
      ensures this.owner == owner && this.me == me && toks == owner.ms[me].toks && pos == 0
    {
      this.owner, this.me, toks, pos := owner, me, owner.ms[me].toks, 0;
    }

    /** `me` is being visited, with every other macro being visited above it. */
    ghost predicate Ready() reads this, owner {
      && owner.Valid() && owner.Indexed()
      && me < |owner.ms| && toks == owner.ms[me].toks && owner.ms[me].known.Unclassified? && owner.state[me].Visiting?
      && pos <= |toks|
      && forall v :: 0 <= v < |owner.ms| && owner.state[v].Visiting? ==> v == me || Below(owner.ms, v, me)
    }

    ghost predicate Gives(r: Parsed, out: Option<Val>) reads this
      requires pos <= |toks|
    {
      match r
      case None => out.None?
      case Some(x) => out == Some(x.v) && toks[pos..] == x.rest
    }

    /** The whole body; every token must be consumed. */
    method ParseAll() returns (out: Option<Val>, cycle: bool)
      requires Ready() && pos == 0
      modifies this`pos, owner`vals, owner`state, owner`skip
      ensures Ready() && owner.Onward()
      ensures out == Value(owner.ms, me)
      ensures cycle ==> out.None?
      decreases Pending(owner.state), |toks| + 1, 0
    {
      out, cycle := ParseLevel(0);
      if out.Some? && pos != |toks| {
        out := None;
      }
    }

    method ParseLevel(level: nat) returns (out: Option<Val>, cycle: bool)
      requires Ready() && level <= PRIMARY
      modifies this`pos, owner`vals, owner`state, owner`skip
      ensures Ready() && owner.Onward() && pos >= old(pos)
      ensures Gives(MacroExpr.ParseLevel(level, toks[old(pos)..], Fix(owner.ms)), out)
      ensures cycle ==> out.None?
      decreases Pending(owner.state), |toks| - pos, PRIMARY - level + 3
    {
      hide Apply, Fix, Pending, Indexes, Below, Value;
      if level == PRIMARY {
        out, cycle := ParsePrimary();
        return;
      }
      if level == UNARY {
        out, cycle := ParseUnary();
        return;
      }
      out, cycle := ParseLevel(level + 1);
      if out.None? {
        return;
      }
      ghost var all := ParseLoop(level, out.value, toks[pos..], Fix(owner.ms));
      while pos < |toks| && toks[pos].P? && BinaryAt(toks[pos].p, level)
        invariant Ready() && owner.Onward() && pos > old(pos) && out.Some? && !cycle
        invariant all == ParseLoop(level, out.value, toks[pos..], Fix(owner.ms))
        decreases |toks| - pos
      {
        var op := toks[pos].p;
        assert toks[pos..][1..] == toks[pos + 1..];
        pos := pos + 1;
        var rhs;
        rhs, cycle := ParseLevel(level + 1);
        if rhs.None? {
          return None, cycle;
        }
        out := Apply(op, out.value, rhs.value);
        if out.None? {
          return;
        }
      }
    }

    method ParseUnary() returns (out: Option<Val>, cycle: bool)
      requires Ready()
      modifies this`pos, owner`vals, owner`state, owner`skip
      ensures Ready() && owner.Onward() && pos >= old(pos)
      ensures Gives(MacroExpr.ParseUnary(toks[old(pos)..], Fix(owner.ms)), out)
      ensures cycle ==> out.None?
      decreases Pending(owner.state), |toks| - pos, 2
    {
      if pos < |toks| && toks[pos].P? && Unary(toks[pos].p) {
        var op := toks[pos].p;
        assert toks[pos..][1..] == toks[pos + 1..];
        pos := pos + 1;
        out, cycle := ParseUnary();
        if out.Some? {
          out := ApplyUnary(op, out.value);
        }
        return;
      }
      out, cycle := ParsePrimary();
    }

    method ParsePrimary() returns (out: Option<Val>, cycle: bool)
      requires Ready()
      modifies this`pos, owner`vals, owner`state, owner`skip
      ensures Ready() && owner.Onward() && pos >= old(pos)
      ensures Gives(MacroExpr.ParsePrimary(toks[old(pos)..], Fix(owner.ms)), out)
      ensures cycle ==> out.None?
      decreases Pending(owner.state), |toks| - pos, 1
    {
      hide Indexes, Below, Value, Fix;
      out, cycle := None, false;
      if pos >= |toks| {
        return;
      }
      var tok := toks[pos];
      assert toks[pos..][1..] == toks[pos + 1..] && toks[pos..][0] == tok;
      pos := pos + 1;
      match tok
      case P(p) =>
        if p.LParen? {
          out, cycle := ParseLevel(0);
          if out.Some? {
            if pos < |toks| && toks[pos] == P(RParen) {
              assert toks[pos..][1..] == toks[pos + 1..];
              pos := pos + 1;
            } else {
              out := None;
            }
          }
        }
      case Lit(v) => out := Some(v);
      case Ident(x) => out, cycle := Resolve(x);
      case OtherTok =>
    }

    /** A name in the body: the value of the macro it refers to, evaluated first if need be. */
    method Resolve(x: string) returns (out: Option<Val>, cycle: bool)
      requires Ready() && Mentions(toks, x)
      modifies owner`vals, owner`state, owner`skip
      ensures Ready() && owner.Onward()
      ensures out == if x in Fix(owner.ms) then Some(Fix(owner.ms)[x]) else None
      ensures cycle ==> out.None?
      decreases Pending(owner.state), 0, 2
    {
      NameValue(owner.ms, x);
      out, cycle := None, false;
      if x !in owner.index {
        return;
      }
      var idx := owner.index[x];
      MentionBelow(owner.ms, me, x);
      forall v | 0 <= v < |owner.ms| && owner.state[v].Visiting?
        ensures Below(owner.ms, v, idx)
      {
        if v != me {
          BelowTrans(owner.ms, v, me, idx);
        }
      }
      var ok;
      ok, cycle := owner.EvalObject(idx);
      if ok {
        out := owner.vals[idx];
      }
    }
  }
}
