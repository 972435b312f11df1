/** What the remaining pieces of a program stand for, spelled out: literals, case patterns, declared
    types, and the tables a built module has of its globals and functions. */
module Meanings {
  import opened Wrappers
  import opened Literals
  import opened Sir
  import opened SirSemantics
  import opened Goir
  import opened Lowering
  import opened SimulationBase
  import opened Correctness

  // ---- Literals ---------------------------------------------------------------------------

  /** What a literal evaluates to, whatever the operators mean. */
  lemma LiteralsMean(P: Prims, S: Program, fuel: nat, env: Env, st: St, ty: Ty, n: nat, s: string)
    ensures Eval(P, S, fuel, env, st, IntLit(ty, NatText(n))) == Ev(IntV(n), st)
    ensures Eval(P, S, fuel, env, st, IntLit(ty, "-" + NatText(n))) == Ev(IntV(-(n as int)), st)
    ensures Eval(P, S, fuel, env, st, BoolLit(ty, s)) == Ev(BoolV(s == "true" || s == "1"), st)
    ensures Eval(P, S, fuel, env, st, StringLit(ty, s)) == Ev(TextV(s), st)
    ensures Eval(P, S, fuel, env, st, FloatLit(ty, s)) == Ev(FloatV(s), st)
    ensures CharText(s, n) ==> Eval(P, S, fuel, env, st, CharLit(ty, s)) == Ev(IntV(n), st)
    ensures (forall m: nat :: !CharText(s, m)) ==> Eval(P, S, fuel, env, st, CharLit(ty, s)) == EvFault(st.globals)
  {
    hide CharText;
    NatTextRoundTrip(n);
    DigitsOfNatText(n);
    Signs(NatText(n));
    CharTexts(s, n);
    if CharLiteralCode(s).Some? {
      CharTexts(s, CharLiteralCode(s).value);
    }
  }

  // ---- Cases ------------------------------------------------------------------------------

  function On(pat: Pattern): Case { Case(false, pat, 0, []) }

  /** Which values a case takes. */
  lemma CasesTake(n: nat, v: Val, s: string, tag: int)
    ensures n < 0x8000_0000_0000_0000 && v.IntV? ==> (CaseTakes(On(IntPat(NatText(n))), false, v) <==> v.n == n)
    ensures n < 0x8000_0000_0000_0000 && v.IntV? ==> (CaseTakes(On(IntPat("-" + NatText(n))), false, v) <==> v.n == -(n as int))
    ensures CharText(s, n) && v.IntV? ==> (CaseTakes(On(CharPat(s)), false, v) <==> v.n == n)
    ensures v.BoolV? ==> (CaseTakes(On(BoolPat("true")), false, v) <==> v.b) && (CaseTakes(On(BoolPat("false")), false, v) <==> !v.b)
    ensures v.EnumV? ==> (CaseTakes(On(EnumPat(tag)), false, v) <==> v.tag == tag)
    ensures CaseTakes(On(NullPat), true, v) <==> v == NoneV
  {
    hide CharText;
    PatternNumbers(n);
    CharTexts(s, n);
  }

  /** The case that is run: the first that takes the value; if none does, the last default. */
  lemma CaseRun(cases: seq<Case>, optional: bool, v: Val, i: nat)
    requires i < |cases|
    ensures SelectCase(cases, optional, v) == Some(i) <==>
              if cases[i].isDefault then
                && (forall j :: 0 <= j < |cases| ==> cases[j].isDefault || !CaseTakes(cases[j], optional, v))
                && (forall j :: i < j < |cases| ==> !cases[j].isDefault)
              else
                && CaseTakes(cases[i], optional, v)
                && forall j :: 0 <= j < i ==> cases[j].isDefault || !CaseTakes(cases[j], optional, v)
  {
    hide CaseTakes;
    FirstOf(cases, optional, v, 0);
    LastOf(cases, 0);
  }

  lemma {:induction false} FirstOf(cases: seq<Case>, optional: bool, v: Val, k: nat)
    requires k <= |cases|
    ensures match FirstTaking(cases, optional, v, k)
            case None => forall j :: k <= j < |cases| ==> cases[j].isDefault || !CaseTakes(cases[j], optional, v)
            case Some(i) =>
              && !cases[i].isDefault && CaseTakes(cases[i], optional, v)
              && forall j :: k <= j < i ==> cases[j].isDefault || !CaseTakes(cases[j], optional, v)
    decreases |cases| - k
  {
    if k < |cases| {
      FirstOf(cases, optional, v, k + 1);
    }
  }

  lemma {:induction false} LastOf(cases: seq<Case>, k: nat)
    requires k <= |cases|
    ensures match LastDefault(cases, k)
            case None => forall j :: k <= j < |cases| ==> !cases[j].isDefault
            case Some(i) => k <= i < |cases| && cases[i].isDefault && forall j :: i < j < |cases| ==> !cases[j].isDefault
    decreases |cases| - k
  {
    if k < |cases| {
      LastOf(cases, k + 1);
    }
  }

  // ---- Names and external functions -------------------------------------------------------

  /** A symbol stands for the last declaration that carries it. */
  lemma {:induction false} LastFunc(funcs: seq<Func>, sym: Sym, i: nat)
    requires i < |funcs|
    ensures FindFunc(funcs, sym) == Some(i) <==> funcs[i].sym == sym && forall j :: i < j < |funcs| ==> funcs[j].sym != sym
    decreases |funcs|
  {
    var n := |funcs| - 1;
    if i < n {
      LastFunc(funcs[..n], sym, i);
    }
  }

  lemma {:induction false} LastGlobal(globals: seq<GlobalDecl>, sym: Sym, i: nat)
    requires i < |globals|
    ensures FindGlobal(globals, sym) == Some(i) <==>
              globals[i].sym == sym && forall j :: i < j < |globals| ==> globals[j].sym != sym
    decreases |globals|
  {
    var n := |globals| - 1;
    if i < n {
      LastGlobal(globals[..n], sym, i);
    }
  }

  /** A call of an external function: its result and the globals it leaves, or a fault. */
  lemma CallsOut(P: Prims, S: Program, fuel: nat, env: Env, st: St, e: Expr, fi: nat, vs: seq<Val>, st1: St)
    requires e.Call? && fi < |S.funcs| && S.funcs[fi].isExtern && S.funcs[fi].sym == e.callee
    requires forall j :: fi < j < |S.funcs| ==> S.funcs[j].sym != e.callee
    requires EvalArgs(P, S, fuel, env, st, e.args, ParamTypes(S.funcs[fi].params)) == EvArgs(vs, st1)
    ensures Eval(P, S, fuel, env, st, e) == match P.ext(fi, vs, st1.globals)
                                            case Some(r) => if |r.1| == |st1.globals| then Ev(r.0, St(st1.store, r.1)) else EvFault(st1.globals)
                                            case None => EvFault(st1.globals)
  {
    hide EvalArgs;
    LastFunc(S.funcs, e.callee, fi);
    assert Eval(P, S, fuel, env, st, e) == EvalCall(P, S, fuel, env, st, e);
  }

  // ---- Types ------------------------------------------------------------------------------

  /** Types that cross the C boundary. */
  predicate OneWord(ty: Ty) { ty.Unit? || ty.Bool? || ty.Char? || ty.Int? || ty.Float? || ty.TagEnum? }

  /** The supported types, and which of them count as scalars: optionals hold no optionals. */
  lemma {:induction false} TypesSupported(ty: Ty)
    ensures SupportedType(ty) <==>
              OneWord(ty) || ty.Text? || (ty.Optional? && (OneWord(ty.elem) || ty.elem.Text?))
    ensures HostType(ty) <==> OneWord(ty)
    ensures ClassifyLayout(ty) == LayoutClass.Scalar <==> OneWord(ty) && !ty.TagEnum?
    ensures ClassifyLayout(ty) == OptionalScalar <==> ty.Optional? && (OneWord(ty.elem) || ty.elem.Text?)
  {
    if ty.Optional? {
      TypesSupported(ty.elem);
    }
  }

  /** A declaration makes its value an optional when its declared type says so, and only then. */
  lemma DeclarationBinds(P: Prims, S: Program, fuel: nat, ret: Ty, env: Env, st: St, s: Stmt, v: Val, st1: St)
    requires s.VarDecl? && s.init.Some? && !s.init.value.NullLit?
    requires Eval(P, S, fuel, env, st, s.init.value) == Ev(v, st1)
    ensures var w := if s.declared == Some(Optional(s.init.value.ty)) then SomeV(v) else v;
            && Exec(P, S, fuel, ret, env, st, s).Next?
            && Exec(P, S, fuel, ret, env, st, s)
            == if s.isSet || s.isMut then Next(env[s.sym := Cell(|st1.store|)], St(st1.store + [w], st1.globals))
               else Next(env[s.sym := Imm(w)], st1)
  {
    var ty := s.init.value.ty;
    NotItsOwnOptional(ty);
    hide Eval;
    assert EvalAs(P, S, fuel, env, st, s.init.value, BindingType(s).value)
        == Ev(if s.declared == Some(Optional(ty)) then SomeV(v) else v, st1);
    assert Exec(P, S, fuel, ret, env, st, s) == ExecVarDecl(P, S, fuel, env, st, s);
  }

  lemma {:induction false} NotItsOwnOptional(ty: Ty)
    ensures Optional(ty) != ty
  {
    match ty
    case Optional(elem) => NotItsOwnOptional(elem);
    case _ =>
  }

  // ---- Tables -----------------------------------------------------------------------------

  /** Globals the builder takes. */
  predicate GlobalFits(g: GlobalDecl) {
    && g.hasSym && OneWord(g.ty) && !g.isExport
    && (g.isExtern || (g.isStatic && (g.isConst ==> g.hasConstInit)))
    && (g.isTls ==> g.abi == Parus)
  }

  /** Functions it takes: of the language itself, or imported from or exported to C. */
  predicate FuncFits(fn: Func) {
    && !fn.isMethod && !fn.isThrowing
    && match fn.abi
       case Parus =>
         && !fn.isExtern && !fn.isExport && SupportedType(fn.ret)
         && forall i :: 0 <= i < |fn.params| ==> SupportedType(fn.params[i].ty)
       case C =>
         && !fn.isVariadic && (fn.isExtern || fn.isExport) && OneWord(fn.ret)
         && forall i :: 0 <= i < |fn.params| ==> OneWord(fn.params[i].ty)
  }

  /** What the module says of a global and of a function. */
  predicate GlobalEntry(g: GlobalDecl, i: nat, e: GGlobal) {
    && e.ty == g.ty && e.isMutable == g.isMutable && e.abi == g.abi && e.source == i
    && (e.linkage == External <==> g.isExtern) && (e.linkage == Internal <==> !g.isExtern)
  }

  predicate FuncEntry(fn: Func, i: nat, sig: Sig, comp: Computation, rz: Realization) {
    && |sig.params| == |fn.params| && (forall j :: 0 <= j < |fn.params| ==> sig.params[j] == fn.params[j].ty)
    && sig.result == fn.ret && comp == Computation(i, [i])
    && rz.comp == i && rz.source == i && rz.abi == fn.abi && rz.isExtern == fn.isExtern
    && rz.isVariadic == fn.isVariadic
    && (rz.family == Cpu <==> fn.isExtern) && (rz.family == Core <==> !fn.isExtern)
    && (rz.linkage == External <==> fn.isExtern) && (rz.linkage == Internal <==> !fn.isExtern && !fn.isExport)
  }

  ghost predicate Tables(S: Program, m: Module) {
    && |m.globals| == |S.globals| && |m.sigs| == |m.comps| == |m.reals| == |S.funcs|
    && (forall i :: 0 <= i < |S.globals| ==> GlobalEntry(S.globals[i], i, m.globals[i]))
    && forall i :: 0 <= i < |S.funcs| ==> FuncEntry(S.funcs[i], i, m.sigs[i], m.comps[i], m.reals[i])
  }

  /** The declarations are taken exactly when each of them fits, and the finished module then has one
      entry for each, in order. */
  lemma Declared(S: Program)
    ensures Declare(S).errs == [] <==>
              && (forall i :: 0 <= i < |S.globals| ==> GlobalFits(S.globals[i]))
              && forall i :: 0 <= i < |S.funcs| ==> FuncFits(S.funcs[i])
    ensures Declare(S).errs == [] ==> Tables(S, LowerProgram(S).mod)
  {
    hide SupportedGlobal, SupportedFunc, GlobalFits, FuncFits, FuncEntry, GlobalEntry, LowerFuncs;
    var b := Bld(EMPTY_MODULE, []);
    var d := DeclareGlobals(b, S.globals, |S.globals|);
    GlobalsIn(S.globals, |S.globals|);
    FuncsIn(d, S.funcs, |S.funcs|);
    if Declare(S).errs == [] {
      GrowsFuncs(S, Declare(S), 0, 0);
      assert LowerFuncs(S, Declare(S), 0) == Declare(S) by { EmptyLowering(S, Declare(S)); }
      GrowsFuncs(S, Declare(S), 0, |S.funcs|);
      KeepsTables(S, Declare(S).mod, LowerProgram(S).mod);
    }
  }

  lemma EmptyLowering(S: Program, b: Bld)
    ensures LowerFuncs(S, b, 0) == b
  {
  }

  lemma KeepsTables(S: Program, m: Module, m': Module)
    requires Tables(S, m) && m'.sigs == m.sigs && m'.comps == m.comps && m'.globals == m.globals && |m'.reals| == |m.reals|
    requires forall j :: 0 <= j < |m.reals| ==> SameReal(m.reals[j], m'.reals[j], true)
    ensures Tables(S, m')
  {
    forall i | 0 <= i < |S.funcs|
      ensures FuncEntry(S.funcs[i], i, m'.sigs[i], m'.comps[i], m'.reals[i])
    {
      assert SameReal(m.reals[i], m'.reals[i], true) && FuncEntry(S.funcs[i], i, m.sigs[i], m.comps[i], m.reals[i]);
    }
  }

  lemma {:induction false} GlobalsIn(globals: seq<GlobalDecl>, n: nat)
    requires n <= |globals|
    ensures var r := DeclareGlobals(Bld(EMPTY_MODULE, []), globals, n);
            && r.mod.(globals := []) == EMPTY_MODULE
            && (r.errs == [] <==> forall i :: 0 <= i < n ==> GlobalFits(globals[i]))
            && (r.errs == [] ==> && |r.mod.globals| == n
                                 && forall i :: 0 <= i < n ==> GlobalEntry(globals[i], i, r.mod.globals[i]))
  {
    if n > 0 {
      GlobalsIn(globals, n - 1);
      FitsGlobal(globals[n - 1]);
    }
  }

  lemma FitsGlobal(g: GlobalDecl)
    ensures SupportedGlobal(g) <==> GlobalFits(g)
  {
    TypesSupported(g.ty);
  }

  lemma FitsFunc(fn: Func)
    ensures SupportedFunc(fn) <==> FuncFits(fn)
  {
    hide SupportedType, HostType, OneWord;
    TypesSupported(fn.ret);
    forall i | 0 <= i < |fn.params|
      ensures HostType(fn.params[i].ty) <==> OneWord(fn.params[i].ty)
    {
      TypesSupported(fn.params[i].ty);
    }
  }

  lemma {:induction false} FuncsIn(b: Bld, funcs: seq<Func>, n: nat)
    requires n <= |funcs| && b.mod.sigs == [] && b.mod.comps == [] && b.mod.reals == []
    ensures var r := DeclareFuncs(b, funcs, n);
            && r.mod.globals == b.mod.globals && b.errs <= r.errs
            && (b.errs == [] ==> (r.errs == [] <==> forall i :: 0 <= i < n ==> FuncFits(funcs[i])))
            && (r.errs == [] ==> && |r.mod.sigs| == |r.mod.comps| == |r.mod.reals| == n
                                 && forall i :: 0 <= i < n ==> FuncEntry(funcs[i], i, r.mod.sigs[i], r.mod.comps[i], r.mod.reals[i]))
  {
    hide FuncFits, SupportedFunc;
    if n > 0 {
      FuncsIn(b, funcs, n - 1);
      FitsFunc(funcs[n - 1]);
    }
  }
}
