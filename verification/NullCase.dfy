/** What a compiled program does with an absent optional, in every run: a switch over an optional goes
    to a `case null` if and only if the optional it tested is absent, and `a ?? b` goes to the code of
    `b` if and only if `a` is. */
module NullCase {
  import opened Wrappers
  import opened Sir
  import opened SirSemantics
  import opened Goir
  import opened GoirMachine
  import opened GoirVerify
  import opened Lowering
  import opened Growth
  import opened Typing
  import opened SimulationBase
  import opened Correctness
  import opened ValueIds
  import Fragments
  import OpenBlock
  import opened Sites
  import Simulation
  import StmtSimulation

  // ---- One step back ----------------------------------------------------------------------

  predicate IsCall(op: Op) { op.OpSemanticInvoke? || op.OpCallDirect? }

  /** Instruction `pc` of block `bb`, if there is one. */
  function InstAt(M: Module, bb: nat, pc: int): Option<Inst> {
    if bb < |M.blocks| && 0 <= pc < |M.blocks[bb].insts| && M.blocks[bb].insts[pc] < |M.insts| then
      Some(M.insts[M.blocks[bb].insts[pc]])
    else None
  }

  /** Every suspended activation stands just after the call it made. */
  predicate CallersOk(M: Module, rest: Stack) {
    rest.Caller? ==>
      && InstAt(M, rest.frame.block, rest.frame.pc - 1).Some? && IsCall(InstAt(M, rest.frame.block, rest.frame.pc - 1).value.op)
      && CallersOk(M, rest.below)
  }

  lemma CallersKept(P: Prims, M: Module, c: Config)
    requires c.Run? && CallersOk(M, c.rest) && Step(P, M, c).Run?
    ensures CallersOk(M, Step(P, M, c).rest)
  {
    hide ReadAll, Read, BindRegs, LoadPlace, CallExternal;
    var f := c.top;
    if InstAt(M, f.block, f.pc).Some? {
      CallersKeptInst(P, M, c, InstAt(M, f.block, f.pc).value);
    }
  }

  lemma CallersKeptInst(P: Prims, M: Module, c: Config, inst: Inst)
    requires c.Run? && CallersOk(M, c.rest) && InstAt(M, c.top.block, c.top.pc) == Some(inst)
    requires StepInst(P, M, c.top, c.rest, c.globals, inst).Run?
    ensures CallersOk(M, StepInst(P, M, c.top, c.rest, c.globals, inst).rest)
  {
    hide ReadAll, Read, BindRegs, LoadPlace, CallExternal, CallersOk;
    if IsCall(inst.op) {
      assert CallersOk(M, Caller(c.top.(pc := c.top.pc + 1), inst.result, c.rest)) by { CallerPushed(M, c, inst); }
    }
  }

  lemma CallerPushed(M: Module, c: Config, inst: Inst)
    requires c.Run? && CallersOk(M, c.rest) && InstAt(M, c.top.block, c.top.pc) == Some(inst) && IsCall(inst.op)
    ensures CallersOk(M, Caller(c.top.(pc := c.top.pc + 1), inst.result, c.rest))
  {
  }

  /** A run that stands after an instruction which is not a call got there by executing it. */
  lemma BackStep(P: Prims, M: Module, c: Config)
    requires c.Run? && CallersOk(M, c.rest) && Step(P, M, c).Run?
    requires var f' := Step(P, M, c).top; InstAt(M, f'.block, f'.pc - 1).Some? && !IsCall(InstAt(M, f'.block, f'.pc - 1).value.op)
    ensures var f' := Step(P, M, c).top; c.top.block == f'.block && c.top.pc == f'.pc - 1
  {
    hide ReadAll, Read, BindRegs, LoadPlace, CallExternal;
    var f := c.top;
    if InstAt(M, f.block, f.pc).Some? {
      BackInst(P, M, c, InstAt(M, f.block, f.pc).value);
    }
  }

  lemma BackInst(P: Prims, M: Module, c: Config, inst: Inst)
    requires c.Run? && InstAt(M, c.top.block, c.top.pc) == Some(inst) && StepInst(P, M, c.top, c.rest, c.globals, inst).Run?
    ensures var f' := StepInst(P, M, c.top, c.rest, c.globals, inst).top;
            f'.pc > 0 ==> c.top.block == f'.block && c.top.pc == f'.pc - 1
  {
    hide ReadAll, Read, BindRegs, LoadPlace, CallExternal;
  }

  lemma {:induction false} RunsCallersOk(P: Prims, M: Module, c0: Config, k: nat)
    requires c0.Run? && CallersOk(M, c0.rest) && StepN(P, M, c0, k).Run?
    ensures CallersOk(M, StepN(P, M, c0, k).rest)
    decreases k
  {
    if k > 0 {
      var c := StepN(P, M, c0, k - 1);
      LastStep(P, M, c0, k);
      if !c.Run? {
        assert false;
      } else {
        RunsCallersOk(P, M, c0, k - 1);
        CallersKept(P, M, c);
      }
    }
  }

  lemma LastStep(P: Prims, M: Module, c0: Config, k: nat)
    requires k > 0
    ensures StepN(P, M, c0, k) == Step(P, M, StepN(P, M, c0, k - 1))
    ensures !StepN(P, M, c0, k - 1).Run? ==> StepN(P, M, c0, k) == StepN(P, M, c0, k - 1)
  {
    StepNAdd(P, M, c0, k - 1, 1);
    var c := StepN(P, M, c0, k - 1);
    assert StepN(P, M, c, 1) == StepN(P, M, Step(P, M, c), 0);
  }

  // ---- What a presence test found ---------------------------------------------------------

  /** The run stands at the end of block `bb`. */
  predicate AtEnd(M: Module, c: Config, bb: nat) {
    c.Run? && c.top.block == bb < |M.blocks| && c.top.pc == |M.blocks[bb].insts|
  }

  /** The last thing block `bb` does is to test `opt`, leaving the answer in `t`. */
  predicate EndsInTest(M: Module, bb: nat, opt: Id, t: nat) {
    var inst := InstAt(M, bb, if bb < |M.blocks| then |M.blocks[bb].insts| - 1 else 0);
    inst.Some? && inst.value.op == OpOptionalIsPresent(opt) && inst.value.result == Some(t)
  }

  /** `c` is about to test `opt`, which holds `o`, an optional. */
  predicate Tests(M: Module, c: Config, opt: Id, o: Val) {
    NextOp(M, c) == Some(OpOptionalIsPresent(opt)) && c.Run? && Read(c.top, opt) == Some(o) && (o.NoneV? || o.SomeV?)
  }

  /** A run at the end of a block that ends in a test came through the test; `t` says what it found. */
  lemma TestFound(P: Prims, M: Module, c0: Config, k: nat, bb: nat, opt: Id, t: nat) returns (o: Val)
    requires c0.Run? && c0.rest == Bottom && c0.top.pc == 0
    requires AtEnd(M, StepN(P, M, c0, k), bb) && EndsInTest(M, bb, opt, t)
    ensures k > 0 && Tests(M, StepN(P, M, c0, k - 1), opt, o)
    ensures Holds(StepN(P, M, c0, k).top, t, BoolV(o.SomeV?))
  {
    hide StepN, Step, Tests, AtEnd, EndsInTest;
    if k == 0 {
      assert false by {
        NoSteps(P, M, c0);
        NotAtStart(M, c0, bb, opt, t);
      }
    } else {
      var c := StepN(P, M, c0, k - 1);
      LastStep(P, M, c0, k);
      EndRuns(M, StepN(P, M, c0, k), bb);
      if !c.Run? {
        assert false;
      } else {
        RunsCallersOk(P, M, c0, k - 1);
        o := ThroughTest(P, M, c, bb, opt, t);
      }
    }
  }

  lemma EndRuns(M: Module, c: Config, bb: nat)
    requires AtEnd(M, c, bb)
    ensures c.Run?
  {
  }

  lemma NotAtStart(M: Module, c: Config, bb: nat, opt: Id, t: nat)
    requires c.Run? && c.top.pc == 0 && EndsInTest(M, bb, opt, t)
    ensures !AtEnd(M, c, bb)
  {
  }

  lemma ThroughTest(P: Prims, M: Module, c: Config, bb: nat, opt: Id, t: nat) returns (o: Val)
    requires c.Run? && CallersOk(M, c.rest) && AtEnd(M, Step(P, M, c), bb) && EndsInTest(M, bb, opt, t)
    ensures Tests(M, c, opt, o) && Holds(Step(P, M, c).top, t, BoolV(o.SomeV?))
  {
    hide Step, Tests, CallersOk;
    BackStep(P, M, c);
    o := TestStep(P, M, c, opt, t);
  }

  lemma NoSteps(P: Prims, M: Module, c: Config)
    ensures StepN(P, M, c, 0) == c
  {
  }

  lemma TestStep(P: Prims, M: Module, c: Config, opt: Id, t: nat) returns (o: Val)
    requires c.Run? && Step(P, M, c).Run? && InstAt(M, c.top.block, c.top.pc).Some?
    requires var inst := InstAt(M, c.top.block, c.top.pc).value; inst.op == OpOptionalIsPresent(opt) && inst.result == Some(t)
    ensures Tests(M, c, opt, o) && Holds(Step(P, M, c).top, t, BoolV(o.SomeV?))
  {
    o := Read(c.top, opt).value;
  }

  // ---- The test's place in the finished module --------------------------------------------

  /** The finished block ends in the test, then in the terminator given after it. */
  lemma TestPlace(W: World, x: Lowered, term: Term)
    requires x.v.Some? && OpenAt(x.b, x.cur) && Code(W, x.b, x.cur, PresenceTest(x).b, Some(x.cur))
    requires ClosedBy(W, PresenceTest(x).b, x.cur, term)
    ensures PresenceTest(x).v == Some(|x.b.mod.values|) && OpenAt(PresenceTest(x).b, x.cur)
    ensures x.cur < |W.M.blocks| && W.M.blocks[x.cur].term == Some(term) && EndsInTest(W.M, x.cur, x.v, |x.b.mod.values|)
  {
    var t := PresenceTest(x);
    var iid := |x.b.mod.insts|;
    assert t.b.mod.blocks[x.cur].insts == x.b.mod.blocks[x.cur].insts + [iid];
    assert W.M.insts[iid] == t.b.mod.insts[iid];
  }

  lemma Starts(P: Prims, S: Program, fi: nat, vs: seq<Val>, g: seq<Val>, k: nat)
    requires Machine(P, S, fi, vs, g, k).Run?
    ensures var c0 := Start(S, fi, vs, g); c0.Run? && c0.rest == Bottom && c0.top.pc == 0
  {
    hide LowerProgram;
    if !Start(S, fi, vs, g).Run? {
      StepNFinal(P, LowerProgram(S).mod, Start(S, fi, vs, g), k);
    }
  }

  // ---- `switch` --------------------------------------------------------------------------

  predicate IsNullCase(c: Case) { !c.isDefault && c.pat.NullPat? }

  lemma {:induction false} FirstNull(cases: seq<Case>, v: Val, i: nat)
    requires i <= |cases|
    ensures var r := FirstTaking(cases, true, v, i);
            && (r.Some? ==> IsNullCase(cases[r.value]) && v.NoneV?)
            && (r.None? ==> !v.NoneV? || forall j :: i <= j < |cases| ==> !IsNullCase(cases[j]))
    decreases |cases| - i
  {
    if i < |cases| {
      FirstNull(cases, v, i + 1);
    }
  }

  lemma {:induction false} LastIsDefault(cases: seq<Case>, i: nat)
    requires i <= |cases|
    ensures var r := LastDefault(cases, i); r.Some? ==> cases[r.value].isDefault
    decreases |cases| - i
  {
    if i < |cases| {
      LastIsDefault(cases, i + 1);
    }
  }

  /** Which case the source selects on an optional: a null case if and only if it is absent. */
  lemma SelectsNull(cases: seq<Case>, v: Val)
    requires v.NoneV? || v.SomeV?
    requires exists i :: 0 <= i < |cases| && IsNullCase(cases[i])
    ensures var r := SelectCase(cases, true, v); v.NoneV? <==> r.Some? && IsNullCase(cases[r.value])
  {
    FirstNull(cases, v, 0);
    LastIsDefault(cases, 0);
  }

  /** The block in which the body of case `i` is lowered, for a scrutinee lowered to `x`. */
  function CaseBlock(x: Lowered, i: nat): nat { |x.b.mod.blocks| + 1 + i }

  /** A switch over an optional, lowered at a place of the finished module, and its scrutinee. */
  ghost predicate OptionalSwitch(W: World, b: Bld, st: FuncState, cur: nat, s: Stmt, x: Lowered) {
    && s.Switch? && s.scrutinee.ty.Optional? && x == LowerValue(W.S, b, st.scope, cur, s.scrutinee) && x.v.Some?
    && StmtSite(W, b, st, cur, s)
  }

  /** The finished module at such a switch: the test, and a switch whose targets are the cases' blocks. */
  lemma SwitchPlace(W: World, b: Bld, st: FuncState, cur: nat, s: Stmt, x: Lowered, v: Val) returns (term: Term)
    requires VerifyOk(W.M) && OptionalSwitch(W, b, st, cur, s, x) && (v.NoneV? || v.SomeV?)
    ensures s.Switch?
    ensures x.cur < |W.M.blocks| && W.M.blocks[x.cur].term == Some(term) && EndsInTest(W.M, x.cur, x.v, |x.b.mod.values|)
    ensures term.TermSwitch? && term.scrutinee == Some(|x.b.mod.values|)
    ensures var i := SelectCase(s.cases, true, v);
            SwitchTarget(term, if v.SomeV? then 1 else 0) == if i.Some? then CaseBlock(x, i.value) else |x.b.mod.blocks|
  {
    hide LowerValue, LowerSwitch, VerifyOk, GlobalsOk, ScopeOk, SelectCase, EndsInTest, ClosedBy, AddCases, SwitchableType, PresenceTest;
    var ls := LowerStmt(W.S, b, st, cur, s);
    var t := LowerScrutinee(W.S, b, st.scope, cur, s.scrutinee);
    assert ls == LowerSwitch(W.S, b, st, cur, s);
    StmtSimulation.CodeOfSwitch(W, b, st, cur, s, ls, t);
    StmtSimulation.CodeOfScrutinee(W, b, st.scope, cur, s.scrutinee, t, x);
    assert t == PresenceTest(x) by { ScrutineeTest(W.S, b, st.scope, cur, s.scrutinee, x, t); }
    StaysOpen(W, b, st.scope, cur, s.scrutinee, x);
    TestOpen(x);
    var cs, b1 := StmtSimulation.CodeOfSwitchArms(W, t.b, st, t.cur, s, t.v, ls);
    term := TermSwitch(t.v, cs.defaultBb, cs.arms);
    TestPlace(W, x, term);
    TargetSelected(t.b, st.scope.owner, s, v, cs, x);
  }

  lemma ScrutineeTest(S: Program, b: Bld, sc: Scope, cur: nat, e: Expr, x: Lowered, t: Lowered)
    requires x == LowerValue(S, b, sc, cur, e) && x.v.Some? && e.ty.Optional? && t == LowerScrutinee(S, b, sc, cur, e)
    ensures t == PresenceTest(x)
  {
  }

  lemma TargetSelected(b: Bld, owner: nat, s: Stmt, v: Val, cs: CaseBlocks, x: Lowered)
    requires s.Switch? && s.scrutinee.ty.Optional? && (v.NoneV? || v.SomeV?) && |b.mod.blocks| == |x.b.mod.blocks|
    requires cs == AddCases(AddBlock(b, owner), owner, s.scrutinee.ty, s.cases, 0, |b.mod.blocks|, []) && cs.ok
    ensures var i := SelectCase(s.cases, true, v);
            StmtSimulation.TargetOf(cs.arms, cs.defaultBb, if v.SomeV? then 1 else 0) ==
              if i.Some? then CaseBlock(x, i.value) else |x.b.mod.blocks|
  {
    hide AddCases;
    StmtSimulation.ArmsSelect(AddBlock(b, owner), owner, s.scrutinee.ty, s.cases, 0, |b.mod.blocks|, [], v, if v.SomeV? then 1 else 0);
  }

  /** From the end of a block that branches on a test's answer the run goes on where the answer says. */
  lemma SwitchStep(P: Prims, M: Module, c: Config, bb: nat, t: nat, present: bool, term: Term)
    requires VerifyOk(M) && AtEnd(M, c, bb) && M.blocks[bb].term == Some(term) && Holds(c.top, t, BoolV(present))
    requires (term.TermSwitch? && term.scrutinee == Some(t)) || (term.TermCondBr? && term.cond == Some(t))
    ensures var target := if term.TermSwitch? then SwitchTarget(term, if present then 1 else 0)
                          else if present then term.thenBb else term.elseBb;
            Step(P, M, c) == Run(Moved(c.top, target), c.rest, c.globals)
  {
    assert BlockOk(M, M.blocks[bb]);
    var target := if term.TermSwitch? then SwitchTarget(term, if present then 1 else 0)
                  else if present then term.thenBb else term.elseBb;
    assert EdgeOk(M, target, []);
    assert ReadAll(c.top, []) == Some([]);
  }

  /** In every run of an accepted well-typed program: whenever it stands at the switch that a switch
      over an optional with a `case null` became, it tested an optional `o` one step before, and its
      next block is that of a `case null` if and only if `o` is absent. Which block it is, is settled
      by the case the source selects for `o`. */
  lemma NullCaseIffAbsent(P: Prims, S: Program, fi: nat, vs: seq<Val>, g: seq<Val>, k: nat,
                          b: Bld, st: FuncState, cur: nat, s: Stmt, x: Lowered) returns (o: Val)
    requires Accepted(S) && WellTyped(S) && Callable(S, fi, vs, g)
    requires OptionalSwitch(World(P, S, LowerProgram(S).mod), b, st, cur, s, x)
    requires exists i :: 0 <= i < |s.cases| && IsNullCase(s.cases[i])
    requires AtEnd(LowerProgram(S).mod, Machine(P, S, fi, vs, g, k), x.cur)
    ensures k > 0 && Tests(LowerProgram(S).mod, Machine(P, S, fi, vs, g, k - 1), x.v, o)
    ensures var c := Machine(P, S, fi, vs, g, k);
            var i := SelectCase(s.cases, true, o);
            Machine(P, S, fi, vs, g, k + 1) ==
              Run(Moved(c.top, if i.Some? then CaseBlock(x, i.value) else |x.b.mod.blocks|), c.rest, c.globals)
    ensures o.NoneV? <==>
              exists j :: 0 <= j < |s.cases| && IsNullCase(s.cases[j]) && Machine(P, S, fi, vs, g, k + 1).top.block == CaseBlock(x, j)
  {
    hide LowerProgram, VerifyOk, WellTyped, OptionalSwitch, StepN, Step, SelectCase, EndsInTest, Tests, AtEnd, SwitchTarget;
    var M := LowerProgram(S).mod;
    var W := World(P, S, M);
    var c := Machine(P, S, fi, vs, g, k);
    assert c.Run? by { EndRuns(M, c, x.cur); }
    Starts(P, S, fi, vs, g, k);
    var term := SwitchPlace(W, b, st, cur, s, x, NoneV);
    o := TestFound(P, M, Start(S, fi, vs, g), k, x.cur, x.v, |x.b.mod.values|);
    assert o.NoneV? || o.SomeV? by { TestedOptional(M, Machine(P, S, fi, vs, g, k - 1), x.v, o); }
    var term2 := SwitchPlace(W, b, st, cur, s, x, o);
    SwitchStep(P, M, c, x.cur, |x.b.mod.values|, o.SomeV?, term);
    LastStep(P, M, Start(S, fi, vs, g), k + 1);
    SelectsNull(s.cases, o);
    NextIsNull(s.cases, o, x, Machine(P, S, fi, vs, g, k + 1).top.block);
  }

  lemma TestedOptional(M: Module, c: Config, opt: Id, o: Val)
    requires Tests(M, c, opt, o)
    ensures o.NoneV? || o.SomeV?
  {
  }

  lemma NextIsNull(cases: seq<Case>, o: Val, x: Lowered, next: nat)
    requires o.NoneV? || o.SomeV?
    requires var i := SelectCase(cases, true, o);
             && next == (if i.Some? then CaseBlock(x, i.value) else |x.b.mod.blocks|)
             && (o.NoneV? <==> i.Some? && IsNullCase(cases[i.value]))
    ensures o.NoneV? <==> exists j :: 0 <= j < |cases| && IsNullCase(cases[j]) && next == CaseBlock(x, j)
  {
    hide SelectCase;
  }

  /** And this is so of every switch over an optional that has a value to test, wherever it stands in a function. */
  lemma EverySwitch(P: Prims, S: Program, fi: nat, p: Part) returns (b: Bld, st: FuncState, cur: nat, x: Lowered)
    requires Accepted(S) && WellTyped(S) && fi < |S.funcs| && !S.funcs[fi].isExtern
    requires InList(S, OpenBlock.ParamNames(S.funcs[fi].params), S.funcs[fi].body, p)
    requires p.StmtPart? && p.stmt.Switch? && p.stmt.scrutinee.ty.Optional? && HasId(S, p.names, p.stmt.scrutinee)
    ensures OptionalSwitch(World(P, S, LowerProgram(S).mod), b, st, cur, p.stmt, x)
    ensures st.scope.owner == fi && NamesOf(st.scope.locals) == p.names
  {
    hide LowerProgram, WellTyped, StmtSite, ValueSite, NamesOf, HasId, InList, LowerValue;
    EveryPlace(P, S, fi, p);
    var W := World(P, S, LowerProgram(S).mod);
    b, st, cur :| StmtSite(W, b, st, cur, p.stmt) && st.scope.owner == fi && NamesOf(st.scope.locals) == p.names;
    x := LowerValue(S, b, st.scope, cur, p.stmt.scrutinee);
    DirectSite(W, b, st, cur, p.stmt);
    SiteId(W, b, st.scope, cur, p.stmt.scrutinee, x);
  }

  lemma SiteId(W: World, b: Bld, sc: Scope, cur: nat, e: Expr, x: Lowered)
    requires ValueSite(W, b, sc, cur, e) && x == LowerValue(W.S, b, sc, cur, e)
    ensures x.v.Some? <==> HasId(W.S, NamesOf(sc.locals), e)
  {
    hide LowerValue, GlobalsOk, ScopeOk, NamesOf, HasId;
    ValueId(W.S, b, sc, cur, e, x);
  }

  // ---- `??` ------------------------------------------------------------------------------

  /** `a ?? b`, lowered at a place of the finished module, and its left side. */
  ghost predicate Fallback(W: World, b: Bld, sc: Scope, cur: nat, e: Expr, x: Lowered) {
    && e.Binary? && e.tok == QuestionQuestion && x == LowerValue(W.S, b, sc, cur, e.a) && x.v.Some?
    && ValueSite(W, b, sc, cur, e)
  }

  /** The block in which `b` is lowered, for a left side lowered to `x`. */
  function AbsentBlock(x: Lowered): nat { |x.b.mod.blocks| + 1 }

  lemma FallbackPlace(W: World, b: Bld, sc: Scope, cur: nat, e: Expr, x: Lowered) returns (term: Term)
    requires VerifyOk(W.M) && Fallback(W, b, sc, cur, e, x)
    ensures x.cur < |W.M.blocks| && W.M.blocks[x.cur].term == Some(term) && EndsInTest(W.M, x.cur, x.v, |x.b.mod.values|)
    ensures term == TermCondBr(Some(|x.b.mod.values|), |x.b.mod.blocks|, AbsentBlock(x))
  {
    hide LowerValue, LowerCoalesce, LowerCoalesceArms, VerifyOk, GlobalsOk, ScopeOk, EndsInTest, ClosedBy, PresenceTest, Code;
    var lo := LowerValue(W.S, b, sc, cur, e);
    assert lo == LowerCoalesce(W.S, b, sc, cur, e) by { IsCoalesce(W.S, b, sc, cur, e); }
    LeftSite(W, b, sc, cur, e);
    var t := PresenceTest(x);
    Simulation.CodeOfCoalesce(W, b, sc, cur, e, lo, x, t);
    StaysOpen(W, b, sc, cur, e.a, x);
    TestOpen(x);
    var a := Simulation.CodeOfCoalesceArms(W, t.b, sc, x.cur, e, x.v, t.v, lo);
    term := TermCondBr(t.v, |x.b.mod.blocks|, AbsentBlock(x));
    assert ClosedBy(W, t.b, x.cur, term) by { ArmsClose(W, t.b, x.cur, e, x.v, t.v, lo, a); }
    TestPlace(W, x, term);
  }

  lemma ArmsClose(W: World, b: Bld, cur: nat, e: Expr, opt: Id, present: Id, lo: Lowered, a: ArmsCode)
    requires e.Binary? && e.a.ty.Optional? && Simulation.ArmsAt(W, b, cur, e, opt, present, lo, a) && a.s == |b.mod.blocks|
    ensures ClosedBy(W, b, cur, TermCondBr(present, |b.mod.blocks|, |b.mod.blocks| + 1))
  {
  }

  /** In every run: whenever it stands at the branch of an `a ?? b`, it tested an optional `o` one step
      before, and goes to the code of `b` if and only if `o` is absent, else to unwrapping `o`. */
  lemma FallbackIffAbsent(P: Prims, S: Program, fi: nat, vs: seq<Val>, g: seq<Val>, k: nat,
                          b: Bld, sc: Scope, cur: nat, e: Expr, x: Lowered) returns (o: Val)
    requires Accepted(S) && WellTyped(S) && Callable(S, fi, vs, g)
    requires Fallback(World(P, S, LowerProgram(S).mod), b, sc, cur, e, x)
    requires AtEnd(LowerProgram(S).mod, Machine(P, S, fi, vs, g, k), x.cur)
    ensures k > 0 && Tests(LowerProgram(S).mod, Machine(P, S, fi, vs, g, k - 1), x.v, o)
    ensures var c := Machine(P, S, fi, vs, g, k);
            Machine(P, S, fi, vs, g, k + 1) ==
              Run(Moved(c.top, if o.NoneV? then AbsentBlock(x) else |x.b.mod.blocks|), c.rest, c.globals)
  {
    hide LowerProgram, VerifyOk, WellTyped, Fallback, StepN, Step, EndsInTest, Tests, AtEnd;
    var M := LowerProgram(S).mod;
    var c := Machine(P, S, fi, vs, g, k);
    assert c.Run? by { EndRuns(M, c, x.cur); }
    Starts(P, S, fi, vs, g, k);
    var term := FallbackPlace(World(P, S, M), b, sc, cur, e, x);
    o := TestFound(P, M, Start(S, fi, vs, g), k, x.cur, x.v, |x.b.mod.values|);
    assert o.NoneV? || o.SomeV? by { TestedOptional(M, Machine(P, S, fi, vs, g, k - 1), x.v, o); }
    SwitchStep(P, M, c, x.cur, |x.b.mod.values|, o.SomeV?, term);
    LastStep(P, M, Start(S, fi, vs, g), k + 1);
  }

  /** And this is so of every `a ?? b` whose `a` has a value to test, wherever it stands in a function: as
      a statement, an initial value, a right side, a condition, a scrutinee, an argument, an operand, a returned
      value, or in another `??`. */
  lemma EveryFallback(P: Prims, S: Program, fi: nat, p: Part) returns (b: Bld, sc: Scope, cur: nat, x: Lowered)
    requires Accepted(S) && WellTyped(S) && fi < |S.funcs| && !S.funcs[fi].isExtern
    requires InList(S, OpenBlock.ParamNames(S.funcs[fi].params), S.funcs[fi].body, p)
    requires p.ExprPart? && p.expr.Binary? && p.expr.tok == QuestionQuestion && HasId(S, p.names, p.expr.a)
    ensures Fallback(World(P, S, LowerProgram(S).mod), b, sc, cur, p.expr, x)
    ensures sc.owner == fi && NamesOf(sc.locals) == p.names
  {
    hide LowerProgram, WellTyped, ValueSite, NamesOf, HasId, InList, LowerValue;
    EveryPlace(P, S, fi, p);
    var W := World(P, S, LowerProgram(S).mod);
    b, sc, cur :| ValueSite(W, b, sc, cur, p.expr) && sc.owner == fi && NamesOf(sc.locals) == p.names;
    x := LowerValue(S, b, sc, cur, p.expr.a);
    LeftSite(W, b, sc, cur, p.expr);
    SiteId(W, b, sc, cur, p.expr.a, x);
  }
}
