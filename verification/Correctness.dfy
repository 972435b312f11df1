/** The builder is correct: a program that lowers without a diagnostic and passes the module checks
    runs, function by function, as its source does. */
module Correctness {
  import opened Wrappers
  import opened Sir
  import opened SirSemantics
  import opened Goir
  import opened GoirMachine
  import opened GoirVerify
  import opened Lowering
  import opened Growth
  import opened Typing
  import opened SimulationBase
  import opened StmtSimulation

  // ---- One function ----------------------------------------------------------------------

  /** Function `fi` was lowered from module `b` on, and its code is in the finished module. */
  ghost predicate BodyIn(W: World, fi: nat, b: Bld)
    requires fi < |W.S.funcs|
  {
    var fn := W.S.funcs[fi];
    var o := OpenBody(b, fn, fi);
    var l := LowerBlock(W.S, o.b, o.st, fn.body);
    && Code(W, o.b, |b.mod.blocks|, CloseBody(l.b, l.st.cur, fn.ret), None)
    && fi < |W.M.reals| && W.M.reals[fi].entry == Some(|b.mod.blocks|)
  }

  /** A block that has only been given its parameters, and what binding them to `vs` makes hold. */
  ghost predicate ParamsAt(b: Bld, bb: nat, r: Params, vs: seq<Val>, env: Env, sc: Scope) {
    && |r.b.mod.blocks| == |b.mod.blocks| && r.b.errs == b.errs && bb < |r.b.mod.blocks|
    && r.b.mod.blocks[bb].insts == [] && r.b.mod.blocks[bb].term.None? && |r.b.mod.blocks[bb].params| == |vs|
    && sc.locals == r.locals && SlotsTyped(r.b.mod.values, sc)
    && Related(|r.b.mod.values|, sc, env, map[], St([], []), EntryFrame(bb, r.b.mod.blocks[bb].params, vs))
  }

  function EntryFrame(bb: nat, params: seq<nat>, vs: seq<Val>): Frame
    requires |params| == |vs|
  {
    Frame(bb, 0, BindRegs(map[], params, vs), map[])
  }

  /** Parameters: what the entry block binds is what the body's environment holds. */
  lemma {:induction false} ParamsHere(b: Bld, bb: nat, params: seq<Param>, vs: seq<Val>, sc: Scope)
    requires bb < |b.mod.blocks| && b.mod.blocks[bb] == EMPTY_BLOCK && |params| == |vs|
    requires forall i :: 0 <= i < |params| ==> SupportedType(params[i].ty)
    ensures var r := AddParams(b, bb, params);
            ParamsAt(b, bb, r, vs, BindParams(params, vs), sc.(locals := r.locals)) && TypesOf(r.locals) == ParamMap(params)
    decreases |params|
  {
    if params != [] {
      var n := |params| - 1;
      ParamsHere(b, bb, params[..n], vs[..n], sc);
      var r0 := AddParams(b, bb, params[..n]);
      var r := AddParams(b, bb, params);
      var env0 := BindParams(params[..n], vs[..n]);
      assert vs == vs[..n] + [vs[n]];
      ParamStep(b, bb, r0, vs[..n], env0, sc.(locals := r0.locals), params[n], vs[n], r, vs, sc.(locals := r.locals));
      assert TypesOf(r.locals) == TypesOf(r0.locals)[params[n].sym := params[n].ty];
    }
  }

  /** One more parameter. */
  lemma ParamStep(b: Bld, bb: nat, r0: Params, vs0: seq<Val>, env0: Env, sc0: Scope, p: Param, v: Val, r: Params, vs: seq<Val>, sc: Scope)
    requires ParamsAt(b, bb, r0, vs0, env0, sc0) == true && SupportedType(p.ty) && vs == vs0 + [v]
    requires var x := |r0.b.mod.values|;
             && r.b == AddBlockParam(r0.b, bb, p.ty)
             && sc == sc0.(locals := r0.locals[p.sym := Binding(Some(x), p.ty, ClassifyLayout(p.ty), false, false)])
             && r.locals == sc.locals
    ensures ParamsAt(b, bb, r, vs, env0[p.sym := Imm(v)], sc)
  {
    var x := |r0.b.mod.values|;
    var ps0 := r0.b.mod.blocks[bb].params;
    var ps := r.b.mod.blocks[bb].params;
    assert ps == ps0 + [x];
    BindOne(ps0, x, vs0, v);
    var f0 := EntryFrame(bb, ps0, vs0);
    var f := EntryFrame(bb, ps0 + [x], vs0 + [v]);
    forall s | s in sc.locals
      ensures BindRel(x + 1, sc.locals[s], env0[p.sym := Imm(v)][s], map[], [], f)
    {
      if s != p.sym {
        assert BindRel(x, sc0.locals[s], env0[s], map[], [], f0);
      }
    }
  }

  lemma BindOne(ps: seq<nat>, x: nat, vs: seq<Val>, v: Val)
    requires |ps| == |vs|
    ensures BindRegs(map[], ps + [x], vs + [v]) == BindRegs(map[], ps, vs)[x := Datum(v)]
  {
    assert (ps + [x])[..|ps|] == ps && (vs + [v])[..|vs|] == vs;
  }

  /** Opening a body: an empty entry block, with the parameters. */
  lemma OpenShape(b: Bld, fn: Func, i: nat)
    requires forall j :: 0 <= j < |fn.params| ==> SupportedType(fn.params[j].ty)
    ensures var b0 := SetEntry(AddBlock(b, i), i, |b.mod.blocks|);
            var ps := AddParams(b0, |b.mod.blocks|, fn.params);
            && |b.mod.blocks| < |b0.mod.blocks| && b0.mod.blocks[|b.mod.blocks|] == EMPTY_BLOCK
            && OpenBody(b, fn, i) == LoweredStmt(ps.b, FuncState(Scope(i, fn.ret, ps.locals), Some(|b.mod.blocks|)))
  {
  }

  /** The realization of a function, entered with arguments, runs as calling the function does. */
  lemma SimFunc(W: World, fuel: nat, fi: nat, b: Bld, vs: seq<Val>, g: seq<Val>, rest: Stack)
    requires Ready(W, fuel) == true && Callable(W.S, fi, vs, g) && BodyIn(W, fi, b) == true
    requires TypedBlock(W.S, ParamMap(W.S.funcs[fi].params), W.S.funcs[fi].body)
    ensures CallSim(W, fuel, fi, vs, g, rest)
  {
    var fn := W.S.funcs[fi];
    var p := EnterHere(W, fi, b, vs, g, rest);
    var st := FuncState(p.sc, Some(p.cur));
    var ls := LowerBlock(W.S, p.b, st, fn.body);
    var r := ExecBlock(W.P, W.S, fuel, fn.ret, p.env, p.st, fn.body);
    CodeOfBody(W, p.b, st, p.cur, fn, ls);
    var k, q := SimBlock(W, fuel, p, st, fn.body, ls, r, rest);
    k := FinishBody(W, fuel, p, r, ls, fn.ret, rest, k, q, CallFunc(W.P, W.S, fuel, fi, vs, g));
    assert RunsAs(W, fuel, Conf(p, rest), CallFunc(W.P, W.S, fuel, fi, vs, g), rest, k);
  }

  /** The point at which a body starts. */
  lemma EnterHere(W: World, fi: nat, b: Bld, vs: seq<Val>, g: seq<Val>, rest: Stack) returns (p: Point)
    requires TablesOk(W.S, W.M) == true && Callable(W.S, fi, vs, g) && BodyIn(W, fi, b) == true
    ensures Enter(W.M, fi, vs, rest, g) == Conf(p, rest) && Here(W, p)
    ensures var fn := W.S.funcs[fi];
            var o := OpenBody(b, fn, fi);
            && p.b == o.b && p.cur == |b.mod.blocks| && FuncState(p.sc, Some(p.cur)) == o.st && p.sc.ret == fn.ret
            && p.env == BindParams(fn.params, vs) && p.st == St([], g)
            && TypesOf(p.sc.locals) == ParamMap(fn.params)
  {
    var fn := W.S.funcs[fi];
    assert SupportedFunc(fn);
    var bb := |b.mod.blocks|;
    var b0 := SetEntry(AddBlock(b, fi), fi, bb);
    var o := OpenBody(b, fn, fi);
    OpenShape(b, fn, fi);
    ParamsHere(b0, bb, fn.params, vs, o.st.scope);
    BodyParams(W, o, bb, fn);
    var f := EntryFrame(bb, o.b.mod.blocks[bb].params, vs);
    p := Point(o.b, bb, o.st.scope, BindParams(fn.params, vs), map[], St([], g), f);
    RelatedKeeps(|o.b.mod.values|, |o.b.mod.values|, p.sc, p.env, map[], St([], []), g, f, f);
  }

  /** The finished entry block has the parameters it was opened with. */
  lemma BodyParams(W: World, o: LoweredStmt, bb: nat, fn: Func)
    requires bb < |o.b.mod.blocks| && o.st.cur == Some(bb)
    requires var l := LowerBlock(W.S, o.b, o.st, fn.body); Code(W, o.b, bb, CloseBody(l.b, l.st.cur, fn.ret), None)
    ensures bb < |W.M.blocks| && W.M.blocks[bb].params == o.b.mod.blocks[bb].params
  {
    var l := LowerBlock(W.S, o.b, o.st, fn.body);
    GrowsBlock(W.S, o.b, o.st, fn.body);
    GrowsClose(l.b, l.st.cur, fn.ret);
  }

  lemma GrowsClose(b: Bld, cur: Option<nat>, ret: Ty)
    requires cur.Some? ==> cur.value < |b.mod.blocks|
    ensures Touches(b, CloseBody(b, cur, ret), if cur.Some? then {cur.value} else {})
  {
    if cur.Some? {
      GrowsTerminate(b, cur.value, TermRet(false, None));
      GrowsError(b, cur.value, MissingReturn);
      GrowsRefl(b, cur.value);
    }
  }

  lemma CodeOfBody(W: World, b: Bld, st: FuncState, cur: nat, fn: Func, ls: LoweredStmt)
    requires cur < |b.mod.blocks| && st.cur == Some(cur) && ls == LowerBlock(W.S, b, st, fn.body)
    requires Code(W, b, cur, CloseBody(ls.b, ls.st.cur, fn.ret), None) == true
    ensures Code(W, b, cur, ls.b, ls.st.cur)
    ensures ls.st.cur.Some? && OpenAt(ls.b, ls.st.cur.value) ==>
              fn.ret == Unit && ClosedBy(W, ls.b, ls.st.cur.value, TermRet(false, None))
  {
    GrowsBlock(W.S, b, st, fn.body);
    GrowsClose(ls.b, ls.st.cur, fn.ret);
    var bz := CloseBody(ls.b, ls.st.cur, fn.ret);
    CodePart(W, b, cur, b, cur, ls.b, ls.st.cur, bz, None, if ls.st.cur.Some? then {ls.st.cur.value} else {});
  }

  /** The end of a body, if it is reached: the implicit return. */
  lemma FinishBody(W: World, fuel: nat, p: Point, r: ExecResult, ls: LoweredStmt, ret: Ty, rest: Stack, k1: nat, q: Point, c: CallResult)
    returns (k: nat)
    requires VerifyOk(W.M) == true && SimEx(W, fuel, p, r, ls, rest, k1, q) == true
    requires ls.st.cur.Some? && OpenAt(ls.b, ls.st.cur.value) ==>
               ret == Unit && ClosedBy(W, ls.b, ls.st.cur.value, TermRet(false, None))
    requires c == match r
                  case Returned(v, g) => Result(v, g)
                  case Next(_, st) => if ret == Unit then Result(UnitV, st.globals) else CallFault(st.globals)
                  case ExFault(g) => CallFault(g)
                  case ExTimeout => CallTimeout
    ensures RunsAs(W, fuel, Conf(p, rest), c, rest, k)
  {
    k := k1;
    if r.Next? {
      StepTerminator(W, q, TermRet(false, None), rest);
      StepNAdd(W.P, W.M, Conf(p, rest), k1, 1);
      k := k1 + 1;
    }
  }

  // ---- All functions ---------------------------------------------------------------------

  ghost predicate HasBody(W: World, fi: nat)
    requires fi < |W.S.funcs|
  {
    exists b: Bld :: BodyIn(W, fi, b)
  }

  /** The module passed the checks and holds the code of every function of a well-typed program. */
  ghost predicate Built(W: World) {
    && VerifyOk(W.M) && TablesOk(W.S, W.M) && WellTyped(W.S)
    && forall fi :: 0 <= fi < |W.S.funcs| && !W.S.funcs[fi].isExtern ==> HasBody(W, fi)
  }

  /** By induction on the fuel: calls run as the source says, however deeply they nest and recur. */
  lemma {:induction false} AllCalls(W: World, fuel: nat)
    requires Built(W) == true
    ensures Ready(W, fuel)
    decreases fuel
  {
    if fuel > 0 {
      AllCalls(W, fuel - 1);
      forall n: nat, fi: nat, vs: seq<Val>, g: seq<Val>, rest: Stack | n < fuel && Callable(W.S, fi, vs, g)
        ensures CallSim(W, n, fi, vs, g, rest)
      {
        if n == fuel - 1 {
          assert HasBody(W, fi);
          var b: Bld :| BodyIn(W, fi, b);
          SimFunc(W, n, fi, b, vs, g, rest);
        }
      }
    }
  }

  // ---- What the builder establishes ------------------------------------------------------

  /** Lowering a function adds to the module; the tables keep what they say of every function, but
      for the blocks and the entry of function `i`. */
  ghost predicate GrowsFunc(b: Bld, b': Bld, i: nat) {
    && b.errs <= b'.errs && b.mod.values <= b'.mod.values && b.mod.insts <= b'.mod.insts && b.mod.blocks <= b'.mod.blocks
    && b'.mod.stage == b.mod.stage && b'.mod.sigs == b.mod.sigs && b'.mod.comps == b.mod.comps && b'.mod.globals == b.mod.globals
    && |b'.mod.reals| == |b.mod.reals|
    && forall j :: 0 <= j < |b.mod.reals| ==> SameReal(b.mod.reals[j], b'.mod.reals[j], i == j)
  }

  predicate SameReal(r: Realization, r': Realization, open: bool) {
    r'.(blocks := r.blocks, entry := r.entry) == r && (!open ==> r'.entry == r.entry)
  }

  /** Opening a body: its blocks are new, and its realization's entry is set. */
  lemma GrowsOpen(b: Bld, fn: Func, i: nat)
    requires i < |b.mod.reals|
    ensures var o := OpenBody(b, fn, i);
            && GrowsFunc(b, o.b, i) && |o.b.mod.blocks| == |b.mod.blocks| + 1
            && o.st.cur == Some(|b.mod.blocks|) && o.b.mod.reals[i].entry == Some(|b.mod.blocks|)
  {
    var bb := |b.mod.blocks|;
    var b0 := SetEntry(AddBlock(b, i), i, bb);
    GrowsParams(b0, bb, fn.params);
  }

  lemma {:induction false} GrowsParams(b: Bld, bb: nat, params: seq<Param>)
    requires bb < |b.mod.blocks|
    ensures var r := AddParams(b, bb, params).b;
            && r.errs == b.errs && b.mod.values <= r.mod.values && |r.mod.blocks| == |b.mod.blocks|
            && r.mod.(values := b.mod.values, blocks := b.mod.blocks) == b.mod
            && forall x :: 0 <= x < |b.mod.blocks| && x != bb ==> r.mod.blocks[x] == b.mod.blocks[x]
    decreases |params|
  {
    if params != [] {
      GrowsParams(b, bb, params[..|params| - 1]);
    }
  }

  /** One function: if no diagnostic comes of it, the module holds its body. */
  lemma GrowsLowerFunc(S: Program, b: Bld, i: nat)
    requires i < |S.funcs| && i < |b.mod.reals|
    ensures var b' := LowerFunc(S, b, i);
            && GrowsFunc(b, b', i)
            && (!S.funcs[i].isExtern ==> b'.mod.reals[i].entry == Some(|b.mod.blocks|) && |b.mod.blocks| < |b'.mod.blocks|)
  {
    var fn := S.funcs[i];
    if !fn.isExtern {
      var o := OpenBody(b, fn, i);
      GrowsOpen(b, fn, i);
      var l := LowerBlock(S, o.b, o.st, fn.body);
      GrowsBlock(S, o.b, o.st, fn.body);
      GrowsClose(l.b, l.st.cur, fn.ret);
      var b' := CloseBody(l.b, l.st.cur, fn.ret);
      var bb := |b.mod.blocks|;
      TouchesTrans(o.b, l.b, b', {bb}, if l.st.cur.Some? then {l.st.cur.value} else {});
      OpenedGrows(b, o.b, b', i);
    }
  }

  /** Work in the new block of a function keeps everything that was there before. */
  lemma OpenedGrows(b: Bld, o: Bld, b': Bld, i: nat)
    requires i < |b.mod.reals| && GrowsFunc(b, o, i) && |o.mod.blocks| == |b.mod.blocks| + 1
    requires Touches(o, b', {|b.mod.blocks|})
    ensures GrowsFunc(b, b', i) && b'.mod.reals[i].entry == o.mod.reals[i].entry
  {
    forall j | 0 <= j < |b.mod.reals|
      ensures SameReal(b.mod.reals[j], b'.mod.reals[j], i == j)
    {
      assert RealExt(o.mod.reals[j], b'.mod.reals[j]) && SameReal(b.mod.reals[j], o.mod.reals[j], i == j);
    }
    assert RealExt(o.mod.reals[i], b'.mod.reals[i]);
  }

  /** `b'` comes after `b`: the entries of the first `n` functions are settled. */
  ghost predicate Later(b: Bld, b': Bld, n: nat) {
    && b.errs <= b'.errs && b.mod.values <= b'.mod.values && b.mod.insts <= b'.mod.insts && b.mod.blocks <= b'.mod.blocks
    && b'.mod.stage == b.mod.stage && b'.mod.sigs == b.mod.sigs && b'.mod.comps == b.mod.comps && b'.mod.globals == b.mod.globals
    && |b'.mod.reals| == |b.mod.reals|
    && forall j :: 0 <= j < |b.mod.reals| ==> SameReal(b.mod.reals[j], b'.mod.reals[j], n <= j)
  }

  /** Lowering the functions from `n` on leaves what was lowered before as it is. */
  lemma {:induction false} GrowsFuncs(S: Program, b: Bld, n: nat, m: nat)
    requires n <= m <= |S.funcs| && |b.mod.reals| == |S.funcs|
    ensures Later(LowerFuncs(S, b, n), LowerFuncs(S, b, m), n) && |LowerFuncs(S, b, n).mod.reals| == |S.funcs|
    decreases m
  {
    if n < m {
      var b1 := LowerFuncs(S, b, m - 1);
      GrowsFuncs(S, b, n, m - 1);
      GrowsLowerFunc(S, b1, m - 1);
      LaterStep(LowerFuncs(S, b, n), b1, LowerFunc(S, b1, m - 1), n, m - 1);
    } else if n > 0 {
      GrowsFuncs(S, b, n - 1, n - 1);
      GrowsLowerFunc(S, LowerFuncs(S, b, n - 1), n - 1);
    }
  }

  lemma LaterStep(b: Bld, b1: Bld, b2: Bld, n: nat, i: nat)
    requires Later(b, b1, n) && GrowsFunc(b1, b2, i) && n <= i
    ensures Later(b, b2, n)
  {
    forall j | 0 <= j < |b.mod.reals|
      ensures SameReal(b.mod.reals[j], b2.mod.reals[j], n <= j)
    {
      assert SameReal(b.mod.reals[j], b1.mod.reals[j], n <= j) && SameReal(b1.mod.reals[j], b2.mod.reals[j], i == j);
    }
  }

  lemma {:induction false} DeclaredGlobals(b: Bld, globals: seq<GlobalDecl>, n: nat)
    requires n <= |globals|
    ensures var r := DeclareGlobals(b, globals, n);
            && b.errs <= r.errs && r.mod.(globals := b.mod.globals) == b.mod
            && (r.errs == [] ==> && |r.mod.globals| == |b.mod.globals| + n
                                 && forall i :: 0 <= i < n ==> SupportedGlobal(globals[i]))
  {
    if n > 0 {
      DeclaredGlobals(b, globals, n - 1);
    }
  }

  lemma {:induction false} DeclaredFuncs(b: Bld, funcs: seq<Func>, n: nat)
    requires n <= |funcs| && b.mod.comps == [] && b.mod.reals == []
    ensures var r := DeclareFuncs(b, funcs, n);
            && b.errs <= r.errs && r.mod.stage == b.mod.stage && r.mod.globals == b.mod.globals
            && (r.errs == [] ==> && |r.mod.comps| == n && |r.mod.reals| == n
                                 && forall i :: 0 <= i < n ==> && SupportedFunc(funcs[i]) && r.mod.comps[i].realizations == [i]
                                                               && r.mod.reals[i] == RealizationOf(funcs[i], i, i))
  {
    if n > 0 {
      DeclaredFuncs(b, funcs, n - 1);
    }
  }

  /** Building `S` succeeds: no diagnostic, and the module checks find nothing. */
  predicate Accepted(S: Program) { LowerProgram(S).errs == [] && VerifyOk(LowerProgram(S).mod) }

  /** What building a program that is accepted establishes. */
  lemma AcceptedBuilt(P: Prims, S: Program)
    requires Accepted(S) && WellTyped(S)
    ensures Built(World(P, S, LowerProgram(S).mod))
  {
    var d0 := DeclareGlobals(Bld(EMPTY_MODULE, []), S.globals, |S.globals|);
    var d := Declare(S);
    var W := World(P, S, LowerProgram(S).mod);
    DeclaredGlobals(Bld(EMPTY_MODULE, []), S.globals, |S.globals|);
    DeclaredFuncs(d0, S.funcs, |S.funcs|);
    assert d0.errs == [] && d == DeclareFuncs(d0, S.funcs, |S.funcs|) && d.errs == [];
    TablesKept(P, S, d);
    forall fi | 0 <= fi < |S.funcs| && !S.funcs[fi].isExtern
      ensures HasBody(W, fi)
    {
      BodyKept(P, S, d, fi);
    }
  }

  lemma TablesKept(P: Prims, S: Program, d: Bld)
    requires |d.mod.globals| == |S.globals| && |d.mod.comps| == |S.funcs| && |d.mod.reals| == |S.funcs| && d.mod.stage == Open
    requires forall i :: 0 <= i < |S.funcs| ==> && SupportedFunc(S.funcs[i]) && d.mod.comps[i].realizations == [i]
                                                && d.mod.reals[i] == RealizationOf(S.funcs[i], i, i)
    requires forall i :: 0 <= i < |S.globals| ==> SupportedGlobal(S.globals[i]) && S.globals[i].ty != Unit
    ensures TablesOk(S, LowerFuncs(S, d, |S.funcs|).mod)
  {
    GrowsFuncs(S, d, 0, |S.funcs|);
    var m := LowerFuncs(S, d, |S.funcs|).mod;
    forall i | 0 <= i < |S.funcs|
      ensures m.reals[i].source == i && m.reals[i].linkage == LinkageOf(S.funcs[i]) && m.reals[i].abi == S.funcs[i].abi
    {
      assert SameReal(d.mod.reals[i], m.reals[i], 0 <= i);
    }
  }

  lemma BodyKept(P: Prims, S: Program, d: Bld, fi: nat)
    requires |d.mod.reals| == |S.funcs| && LowerFuncs(S, d, |S.funcs|).errs == []
    requires fi < |S.funcs| && !S.funcs[fi].isExtern
    ensures HasBody(World(P, S, LowerFuncs(S, d, |S.funcs|).mod), fi)
  {
    var W := World(P, S, LowerFuncs(S, d, |S.funcs|).mod);
    var b := LowerFuncs(S, d, fi);
    var b1 := LowerFuncs(S, d, fi + 1);
    GrowsFuncs(S, d, fi, fi);
    GrowsLowerFunc(S, b, fi);
    GrowsOpen(b, S.funcs[fi], fi);
    GrowsFuncs(S, d, fi + 1, |S.funcs|);
    assert SameReal(b1.mod.reals[fi], W.M.reals[fi], false);
    PrefixCode(W, OpenBody(b, S.funcs[fi], fi).b, |b.mod.blocks|, b1, LowerFuncs(S, d, |S.funcs|));
    assert BodyIn(W, fi, b);
  }

  /** What later functions are added to is in the finished module as it was. */
  lemma PrefixCode(W: World, b: Bld, cur: nat, b1: Bld, bz: Bld)
    requires bz.mod == W.M && bz.errs == [] && b1.errs <= bz.errs
    requires b1.mod.values <= bz.mod.values && b1.mod.insts <= bz.mod.insts && b1.mod.blocks <= bz.mod.blocks
    requires cur < |b.mod.blocks| <= |b1.mod.blocks|
    ensures Code(W, b, cur, b1, None)
  {
  }

  // ---- The theorems ----------------------------------------------------------------------

  /** The machine's word for how a call ended. */
  function OutcomeOf(r: CallResult): Config
    requires !r.CallTimeout?
  {
    match r
    case Result(v, g) => Halt(v, g)
    case CallFault(g) => Fault(g)
  }

  /** Running the code of function `fi` from its entry block. */
  function Start(S: Program, fi: nat, vs: seq<Val>, g: seq<Val>): Config {
    Enter(LowerProgram(S).mod, fi, vs, Bottom, g)
  }

  function Machine(P: Prims, S: Program, fi: nat, vs: seq<Val>, g: seq<Val>, k: nat): Config {
    StepN(P, LowerProgram(S).mod, Start(S, fi, vs, g), k)
  }

  lemma CallRuns(P: Prims, S: Program, fi: nat, vs: seq<Val>, g: seq<Val>, fuel: nat) returns (k: nat)
    requires Accepted(S) && WellTyped(S) && Callable(S, fi, vs, g)
    ensures var r := CallFunc(P, S, fuel, fi, vs, g);
            if r.CallTimeout? then k >= fuel && Machine(P, S, fi, vs, g, k).Run? else Machine(P, S, fi, vs, g, k) == OutcomeOf(r)
  {
    var W := World(P, S, LowerProgram(S).mod);
    AcceptedBuilt(P, S);
    AllCalls(W, fuel + 1);
    assert CallSim(W, fuel, fi, vs, g, Bottom);
    k :| RunsAs(W, fuel, Enter(W.M, fi, vs, Bottom, g), CallFunc(P, S, fuel, fi, vs, g), Bottom, k);
  }

  /** What the source does, the compiled function does. */
  lemma SourceToMachine(P: Prims, S: Program, fi: nat, vs: seq<Val>, g: seq<Val>, fuel: nat)
    requires Accepted(S) && WellTyped(S) && Callable(S, fi, vs, g)
    requires !CallFunc(P, S, fuel, fi, vs, g).CallTimeout?
    ensures exists k :: Machine(P, S, fi, vs, g, k) == OutcomeOf(CallFunc(P, S, fuel, fi, vs, g))
  {
    var k := CallRuns(P, S, fi, vs, g, fuel);
  }

  /** What the compiled function does, the source does: if the machine has stopped after `k` steps,
      the source finishes with the same outcome. */
  lemma MachineToSource(P: Prims, S: Program, fi: nat, vs: seq<Val>, g: seq<Val>, k: nat)
    requires Accepted(S) && WellTyped(S) && Callable(S, fi, vs, g)
    requires !Machine(P, S, fi, vs, g, k).Run?
    ensures var r := CallFunc(P, S, k, fi, vs, g); !r.CallTimeout? && Machine(P, S, fi, vs, g, k) == OutcomeOf(r)
  {
    var c0 := Start(S, fi, vs, g);
    var M := LowerProgram(S).mod;
    var k2 := CallRuns(P, S, fi, vs, g, k);
    if CallFunc(P, S, k, fi, vs, g).CallTimeout? {
      StillRunning(P, M, c0, k, k2);
    } else {
      OutcomeUnique(P, M, c0, k, k2);
    }
  }

  predicate SourceEnds(P: Prims, S: Program, fi: nat, vs: seq<Val>, g: seq<Val>, fuel: nat, c: Config)
    requires fi < |S.funcs|
  {
    var r := CallFunc(P, S, fuel, fi, vs, g);
    !r.CallTimeout? && OutcomeOf(r) == c
  }

  /** Building preserves meaning: the source finishes with an outcome, for some amount of fuel, if
      and only if the compiled function does, after some number of steps. */
  lemma BuildPreservesMeaning(P: Prims, S: Program, fi: nat, vs: seq<Val>, g: seq<Val>, c: Config)
    requires Accepted(S) && WellTyped(S) && Callable(S, fi, vs, g) && !c.Run?
    ensures (exists fuel: nat :: SourceEnds(P, S, fi, vs, g, fuel, c)) <==> (exists k: nat :: Machine(P, S, fi, vs, g, k) == c)
  {
    if fuel: nat :| SourceEnds(P, S, fi, vs, g, fuel, c) {
      SourceToMachine(P, S, fi, vs, g, fuel);
    }
    if k: nat :| Machine(P, S, fi, vs, g, k) == c {
      MachineToSource(P, S, fi, vs, g, k);
      assert SourceEnds(P, S, fi, vs, g, k, c);
    }
  }

  /** No run gets stuck: none reads a value before its definition or a slot before its first store,
      takes the payload of an absent optional, or jumps to a block that does not expect it. */
  lemma NeverStuck(P: Prims, S: Program, fi: nat, vs: seq<Val>, g: seq<Val>, k: nat)
    requires Accepted(S) && WellTyped(S) && Callable(S, fi, vs, g)
    ensures Machine(P, S, fi, vs, g, k) != Stuck
  {
    if Machine(P, S, fi, vs, g, k) == Stuck {
      MachineToSource(P, S, fi, vs, g, k);
    }
  }

  /** The run of function `fi` in module `M` ends as the source's call does, and never gets stuck. */
  ghost predicate CallRunsAsSource(P: Prims, S: Program, M: Module, fi: nat, vs: seq<Val>, g: seq<Val>)
    requires fi < |S.funcs|
  {
    && (forall c: Config :: !c.Run? ==>
          ((exists fuel: nat :: SourceEnds(P, S, fi, vs, g, fuel, c)) <==>
           (exists k: nat :: StepN(P, M, Enter(M, fi, vs, Bottom, g), k) == c)))
    && forall k: nat :: StepN(P, M, Enter(M, fi, vs, Bottom, g), k) != Stuck
  }

  /** Whatever operators and external functions mean, every function of `M` runs as its source does. */
  ghost predicate RunsAsSource(S: Program, M: Module) {
    forall P: Prims, fi: nat, vs: seq<Val>, g: seq<Val> :: Callable(S, fi, vs, g) ==> CallRunsAsSource(P, S, M, fi, vs, g)
  }

  /** The two theorems, of the module an accepted build leaves. */
  lemma AcceptedRunsAsSource(S: Program)
    requires Accepted(S) && WellTyped(S)
    ensures RunsAsSource(S, LowerProgram(S).mod)
  {
    hide LowerProgram, WellTyped, SourceEnds, StepN, VerifyOk;
    forall P: Prims, fi: nat, vs: seq<Val>, g: seq<Val> | Callable(S, fi, vs, g)
      ensures CallRunsAsSource(P, S, LowerProgram(S).mod, fi, vs, g)
    {
      var M := LowerProgram(S).mod;
      forall c: Config | !c.Run?
        ensures (exists fuel: nat :: SourceEnds(P, S, fi, vs, g, fuel, c)) <==>
                (exists k: nat :: StepN(P, M, Enter(M, fi, vs, Bottom, g), k) == c)
      {
        BuildPreservesMeaning(P, S, fi, vs, g, c);
        if k: nat :| Machine(P, S, fi, vs, g, k) == c {
          assert StepN(P, M, Enter(M, fi, vs, Bottom, g), k) == c;
        }
        if k: nat :| StepN(P, M, Enter(M, fi, vs, Bottom, g), k) == c {
          assert Machine(P, S, fi, vs, g, k) == c;
        }
      }
      forall k: nat
        ensures StepN(P, M, Enter(M, fi, vs, Bottom, g), k) != Stuck
      {
        NeverStuck(P, S, fi, vs, g, k);
      }
    }
  }

  /** The instruction a running configuration is about to execute. */
  function NextOp(M: Module, c: Config): Option<Op> {
    if c.Run? && c.top.block < |M.blocks| && c.top.pc < |M.blocks[c.top.block].insts|
       && M.blocks[c.top.block].insts[c.top.pc] < |M.insts|
    then Some(M.insts[M.blocks[c.top.block].insts[c.top.pc]].op)
    else None
  }

  /** In every run, `optional.get` is executed only on a present optional. */
  lemma GetsArePresent(P: Prims, S: Program, fi: nat, vs: seq<Val>, g: seq<Val>, k: nat, opt: Id)
    requires Accepted(S) && WellTyped(S) && Callable(S, fi, vs, g)
    requires NextOp(LowerProgram(S).mod, Machine(P, S, fi, vs, g, k)) == Some(OpOptionalGet(opt))
    ensures var v := Read(Machine(P, S, fi, vs, g, k).top, opt); v.Some? && v.value.SomeV?
  {
    hide VerifyOk;
    var M := LowerProgram(S).mod;
    var c := Machine(P, S, fi, vs, g, k);
    var v := Read(c.top, opt);
    if !(v.Some? && v.value.SomeV?) {
      assert Step(P, M, c) == Stuck;
      StepNAdd(P, M, Start(S, fi, vs, g), k, 1);
      assert StepN(P, M, c, 1) == StepN(P, M, Stuck, 0);
      NeverStuck(P, S, fi, vs, g, k + 1);
    }
  }
}
