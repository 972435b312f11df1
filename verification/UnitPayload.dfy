/** Where building does not preserve meaning: a value without an id that is to be stored is dropped, and
    no diagnostic says so. Such values are unit results taken as optionals. Exactly when a store is
    dropped is stated for every declaration and every assignment; three programs show what follows. */
module UnitPayload {
  import opened Wrappers
  import opened Sir
  import opened SirSemantics
  import opened Goir
  import opened GoirMachine
  import opened GoirVerify
  import opened Lowering
  import opened Growth
  import opened Typing
  import opened ValueIds
  import opened Fragments
  import opened Correctness
  import OpenBlock
  import SimulationBase
  import BlockEdges

  /** A declaration of a `set` or `mut` local, whatever initializes it, makes a slot and stores the
      first value there if and only if the initializer has an id. */
  lemma DeclStored(S: Program, b: Bld, st: FuncState, cur: nat, s: Stmt, ls: LoweredStmt)
    requires Ground(S, b, st.scope, cur) && s.VarDecl? && (s.isSet || s.isMut)
    requires ls == LowerStmt(S, b, st, cur, s) && ls.b.errs == []
    ensures s.init.Some? && BindingType(s).Some?
    ensures var ty := BindingType(s).value;
            var x := LowerValueAs(S, b, st.scope, cur, s.init.value, ty);
            var slot := Some(|x.b.mod.values|);
            && ls.st.scope.locals[s.sym].value == slot
            && ls.b.mod.insts == x.b.mod.insts + [Inst(OpLocalSlot, Pure, slot)]
                                 + if HasIdAs(S, NamesOf(st.scope.locals), s.init.value, ty)
                                   then [Inst(OpStore(slot, x.v), MayWrite, None)] else []
  {
    hide LowerValueAs, GlobalsOk, ScopeOk, NamesOf, HasIdAs, SupportedType;
    VarDeclParts(S, b, st, cur, s, ls);
    var ty := BindingType(s).value;
    var x := LowerValueAs(S, b, st.scope, cur, s.init.value, ty);
    ValueAsId(S, b, st.scope, cur, s.init.value, ty, x);
  }

  /** An assignment, whatever its right side, stores if and only if the right side has an id. */
  lemma AssignStored(S: Program, b: Bld, sc: Scope, cur: nat, e: Expr, lo: Lowered)
    requires Ground(S, b, sc, cur) && e.Assign? && lo == LowerValue(S, b, sc, cur, e) && lo.b.errs == []
    ensures var p := LowerPlace(S, b, sc, cur, e.place);
            var ty := PlaceType(S, NamesOf(sc.locals), e.place);
            var r := LowerValueAs(S, p.b, sc, cur, e.rhs, ty);
            lo.b.mod.insts == r.b.mod.insts + if HasIdAs(S, NamesOf(sc.locals), e.rhs, ty)
                                              then [Inst(OpStore(p.v, r.v), MayWrite, None)] else []
  {
    hide LowerValueAs, LowerAssign, LowerPlace, GlobalsOk, ScopeOk, NamesOf, HasIdAs;
    var p := LowerPlace(S, b, sc, cur, e.place);
    var ty := PlaceType(S, NamesOf(sc.locals), e.place);
    var r := LowerValueAs(S, p.b, sc, cur, e.rhs, ty);
    AssignParts(S, b, sc, cur, e, lo, p, ty, r);
    ValueAsId(S, p.b, sc, cur, e.rhs, ty, r);
  }

  // ---- When nothing is lost ---------------------------------------------------------------

  /** Only names of unit type have no id. */
  predicate Honest(N: Names) { forall s :: s in N && !N[s].hasId ==> N[s].ty == Unit }

  ghost predicate Sound(S: Program, b: Bld, sc: Scope, cur: nat, e: Expr) {
    && Ground(S, b, sc, cur) && Honest(NamesOf(sc.locals))
    && TypedExpr(S, SimulationBase.TypesOf(sc.locals), e) && OpenBlock.Joins(S, NamesOf(sc.locals), e)
  }

  /** A well-typed expression whose `??` join and that lowers without a message has an id, unless its
      type is unit. */
  lemma {:induction false} OnlyUnitsLost(S: Program, b: Bld, sc: Scope, cur: nat, e: Expr, lo: Lowered)
    requires Sound(S, b, sc, cur, e) == true && lo == LowerValue(S, b, sc, cur, e) && lo.b.errs == []
    ensures HasId(S, NamesOf(sc.locals), e) || e.ty == Unit
    decreases e, 1
  {
    hide LowerValueAs, LowerOperand, LowerBinary, LowerCall, LowerLiteral, LowerAssign, LowerCoalesce, GlobalsOk, ScopeOk;
    if e.Local? || e.Global? {
      if e.Local? && e.sym in sc.locals {
        assert NamesOf(sc.locals)[e.sym].ty == SimulationBase.TypesOf(sc.locals)[e.sym];
      } else {
        GlobalId(S, b, cur, e.sym, lo);
      }
    } else if e.Binary? && e.tok == QuestionQuestion {
      JoinNotLost(S, b, sc, cur, e, lo);
    } else if e.Assign? {
      AssignNotLost(S, b, sc, cur, e, lo);
    }
  }

  lemma {:induction false} JoinNotLost(S: Program, b: Bld, sc: Scope, cur: nat, e: Expr, lo: Lowered)
    requires Sound(S, b, sc, cur, e) == true && e.Binary? && e.tok == QuestionQuestion
    requires lo == LowerCoalesce(S, b, sc, cur, e) && lo.b.errs == []
    ensures HasId(S, NamesOf(sc.locals), e)
    decreases e, 0
  {
    hide LowerValue, LowerCoalesceArms, GlobalsOk, ScopeOk, NamesOf;
    if e.a.ty.Optional? {
      var x := LowerValue(S, b, sc, cur, e.a);
      CoalesceParts(S, b, sc, cur, e, lo, x);
      OnlyUnitsLost(S, b, sc, cur, e.a, x);
    }
  }

  lemma {:induction false} AssignNotLost(S: Program, b: Bld, sc: Scope, cur: nat, e: Expr, lo: Lowered)
    requires Sound(S, b, sc, cur, e) == true && e.Assign? && lo == LowerAssign(S, b, sc, cur, e) && lo.b.errs == []
    ensures HasId(S, NamesOf(sc.locals), e) || e.ty == Unit
    decreases e, 0
  {
    hide LowerValue, LowerPlace, LowerAssign, GlobalsOk, ScopeOk, NamesOf;
    var p := LowerPlace(S, b, sc, cur, e.place);
    var ty := PlaceType(S, NamesOf(sc.locals), e.place);
    var r := LowerValueAs(S, p.b, sc, cur, e.rhs, ty);
    AssignParts(S, b, sc, cur, e, lo, p, ty, r);
    RightSideKept(S, p.b, sc, cur, e.rhs, ty, r);
  }

  lemma {:induction false} RightSideKept(S: Program, b: Bld, sc: Scope, cur: nat, e: Expr, target: Ty, lo: Lowered)
    requires Sound(S, b, sc, cur, e) == true && lo == LowerValueAs(S, b, sc, cur, e, target) && lo.b.errs == []
    ensures HasIdAs(S, NamesOf(sc.locals), e, target) || e.ty == Unit
    decreases e, 2
  {
    hide LowerValue, GlobalsOk, ScopeOk, NamesOf;
    ValueAsParts(S, b, sc, cur, e, target, lo);
    if !(e.ty != target && target.Optional? && e.NullLit?) {
      OnlyUnitsLost(S, b, sc, cur, e, LowerValue(S, b, sc, cur, e));
    }
  }

  /** So a well-typed program drops no store of a type other than unit: not in a declaration, after
      which again only names of unit type have no id, and not in an assignment. */
  lemma NothingLost(S: Program, b: Bld, st: FuncState, cur: nat, s: Stmt, ls: LoweredStmt)
    requires Ground(S, b, st.scope, cur) && Honest(NamesOf(st.scope.locals))
    requires TypedStmt(S, SimulationBase.TypesOf(st.scope.locals), s) && OpenBlock.StmtJoins(S, NamesOf(st.scope.locals), s)
    requires ls == LowerStmt(S, b, st, cur, s) && ls.b.errs == []
    ensures Honest(NamesAfter(S, NamesOf(st.scope.locals), s))
    ensures s.VarDecl? && BindingType(s).value != Unit ==> HasIdAs(S, NamesOf(st.scope.locals), s.init.value, BindingType(s).value)
    ensures s.ExprStmt? && s.expr.Some? && s.expr.value.Assign? && s.expr.value.ty != Unit ==>
              HasId(S, NamesOf(st.scope.locals), s.expr.value)
  {
    hide LowerValueAs, LowerValue, GlobalsOk, ScopeOk, NamesOf, TypedExpr, HasIdAs, HasId, SupportedType;
    if s.VarDecl? {
      VarDeclParts(S, b, st, cur, s, ls);
      var ty := BindingType(s).value;
      var x := LowerValueAs(S, b, st.scope, cur, s.init.value, ty);
      RightSideKept(S, b, st.scope, cur, s.init.value, ty, x);
    } else if s.ExprStmt? && s.expr.Some? {
      OnlyUnitsLost(S, b, st.scope, cur, s.expr.value, LowerValue(S, b, st.scope, cur, s.expr.value));
    }
  }

  // ---- Programs that are accepted and go wrong ---------------------------------------------

  const UNIT_OPT := Ty.Optional(Unit)
  const CALL_F := Call(Unit, 0, [], false, false, false)
  const F := Func("f", 0, [], Unit, [], Parus, false, false, false, false, false)

  /** `f` does nothing and yields unit; `g` has the body given and yields an optional unit. */
  function Prog(body: seq<Stmt>): Program {
    Program([], [F, Func("g", 1, [], UNIT_OPT, body, Parus, false, false, false, false, false)])
  }

  /** `mut x: unit? = f(); return x;` */
  const DECL := VarDecl(2, false, false, true, Some(UNIT_OPT), Some(CALL_F))
  const RET := Return(Some(Local(UNIT_OPT, 2)))
  const DECLARED := [DECL, RET]

  /** `mut x: unit? = null; x = f(); return x;` */
  const NULL_DECL := VarDecl(2, false, false, true, Some(UNIT_OPT), Some(NullLit(UNIT_OPT)))
  const ASSIGN := ExprStmt(Some(Assign(UNIT_OPT, Local(UNIT_OPT, 2), CALL_F)))
  const ASSIGNED := [NULL_DECL, ASSIGN, RET]

  /** `let y: unit? = f(); mut x: unit? = y; return x;` */
  const LET := VarDecl(3, false, false, false, Some(UNIT_OPT), Some(CALL_F))
  const ALIAS := VarDecl(2, false, false, true, Some(UNIT_OPT), Some(Local(UNIT_OPT, 3)))
  const ALIASED := [LET, ALIAS, RET]

  function SlotValue(): Value { PlaceValue(UNIT_OPT, LocalSlot, true) }
  function LoadedValue(): Value { PlainValue(UNIT_OPT, MayRead, ClassifyLayout(UNIT_OPT)) }
  function NullValue(): Value { PlainValue(UNIT_OPT, Pure, OptionalScalar) }
  const INVOKE := Inst(OpSemanticInvoke(0, []), CallEffect, None)
  const NEW_SLOT := Inst(OpLocalSlot, Pure, Some(0))
  const LOAD := Inst(OpLoad(Some(0)), MayRead, Some(1))
  const F_BLOCK := Block([], [], Some(TermRet(false, None)))

  /** The module while it is built: its values, instructions, blocks, and whether the bodies of `f`
      and `g` have been opened. */
  function Stage0(values: seq<Value>, insts: seq<Inst>, blocks: seq<Block>, f: bool, g: bool): Module {
    Module(Open, values, insts, blocks,
           [Sig([], Unit), Sig([], UNIT_OPT)], [Computation(0, [0]), Computation(1, [1])],
           [Realization(0, Core, Parus, Internal, false, false, if f then [0] else [], if f then Some(0) else None, 0),
            Realization(1, Core, Parus, Internal, false, false, if g then [1] else [], if g then Some(1) else None, 1)],
           [])
  }

  /** The parts of a stage, one by one. */
  predicate AtStage(b: Bld, values: seq<Value>, insts: seq<Inst>, blocks: seq<Block>, f: bool, g: bool) {
    var m := Stage0(values, insts, blocks, f, g);
    && b.errs == [] && b.mod == m.(values := b.mod.values, insts := b.mod.insts, blocks := b.mod.blocks, reals := b.mod.reals)
    && b.mod.values == values && b.mod.insts == insts && b.mod.blocks == blocks && b.mod.reals == m.reals
  }

  lemma BuiltTables(body: seq<Stmt>)
    ensures Declare(Prog(body)) == Bld(Stage0([], [], [], false, false), [])
  {
    var b := Bld(EMPTY_MODULE, []);
    var S := Prog(body);
    assert DeclareGlobals(b, [], 0) == b;
    assert SupportedFunc(F) && SupportedFunc(S.funcs[1]);
    var b1 := DeclareFunc(b, F, 0);
    assert ParamTypes([]) == [];
    assert DeclareFuncs(b, S.funcs, 0) == b;
    assert DeclareFuncs(b, S.funcs, 1) == b1;
    assert DeclareFuncs(b, S.funcs, 2) == DeclareFunc(b1, S.funcs[1], 1);
  }

  lemma BuiltF(body: seq<Stmt>)
    ensures LowerFunc(Prog(body), Bld(Stage0([], [], [], false, false), []), 0) == Bld(Stage0([], [], [F_BLOCK], true, false), [])
  {
    var b := Bld(Stage0([], [], [], false, false), []);
    var o := OpenBody(b, F, 0);
    assert o.b.mod.blocks == [EMPTY_BLOCK] && o.b.mod.reals[0].blocks == [0];
    assert AtStage(o.b, [], [], [EMPTY_BLOCK], true, false);
    assert LowerBlock(Prog(body), o.b, o.st, []) == o;
  }

  function Scope0(): Scope { Scope(1, UNIT_OPT, map[]) }
  function SlotScope(sc: Scope, v: nat): Scope { sc.(locals := sc.locals[2 := Binding(Some(v), UNIT_OPT, OptionalScalar, true, true)]) }
  function LetScope(): Scope { Scope(1, UNIT_OPT, map[3 := Binding(None, UNIT_OPT, OptionalScalar, false, false)]) }

  function StageG(values: seq<Value>, insts: seq<Inst>, iids: seq<nat>, term: Option<Term>): Bld {
    Bld(Stage0(values, insts, [F_BLOCK, Block([], iids, term)], true, true), [])
  }

  lemma FindF(body: seq<Stmt>)
    ensures FindFunc(Prog(body).funcs, 0) == Some(0)
  {
    assert FindFunc([F], 0) == Some(0);
    assert Prog(body).funcs[..1] == [F];
  }

  /** The call yields no id, and wrapping it into the optional is given up without a word. */
  lemma BuiltCall(body: seq<Stmt>, sc: Scope, values: seq<Value>, insts: seq<Inst>, iids: seq<nat>)
    ensures LowerValueAs(Prog(body), StageG(values, insts, iids, None), sc, 1, CALL_F, UNIT_OPT)
         == Lowered(StageG(values, insts + [INVOKE], iids + [|insts|], None), 1, None)
  {
    var S := Prog(body);
    var b := StageG(values, insts, iids, None);
    FindF(body);
    assert LowerArgs(S, b, sc, 1, [], []) == LoweredArgs(b, 1, []);
    var x := LowerCall(S, b, sc, 1, CALL_F);
    assert x.b.mod.blocks[1].insts == iids + [|insts|];
    assert AtStage(x.b, values, insts + [INVOKE], [F_BLOCK, Block([], iids + [|insts|], None)], true, true) && x.v == None;
    assert LowerValue(S, b, sc, 1, CALL_F) == x;
  }

  /** A slot for `x` that nothing is stored to. */
  lemma BuiltSlot(b: Bld, sc: Scope, s: Stmt, insts: seq<Inst>, iids: seq<nat>)
    requires s.VarDecl? && s.isMut && s.sym == 2 && b == StageG([], insts, iids, None)
    ensures BindLocal(b, FuncState(sc, Some(1)), 1, s, UNIT_OPT, None)
         == LoweredStmt(StageG([SlotValue()], insts + [NEW_SLOT], iids + [|insts|], None), FuncState(SlotScope(sc, 0), Some(1)))
  {
    var l := BindLocal(b, FuncState(sc, Some(1)), 1, s, UNIT_OPT, None);
    assert l.b.mod.blocks[1].insts == iids + [|insts|];
    assert AtStage(l.b, [SlotValue()], insts + [NEW_SLOT], [F_BLOCK, Block([], iids + [|insts|], None)], true, true);
  }

  /** `return x` loads the slot `v`. */
  lemma BuiltReturn(body: seq<Stmt>, sc: Scope, v: nat, values: seq<Value>, insts: seq<Inst>, iids: seq<nat>)
    requires 2 in sc.locals && sc.locals[2] == Binding(Some(v), UNIT_OPT, OptionalScalar, true, true) && sc.ret == UNIT_OPT
    ensures LowerStmt(Prog(body), StageG(values, insts, iids, None), FuncState(sc, Some(1)), 1, RET)
         == LoweredStmt(StageG(values + [LoadedValue()], insts + [Inst(OpLoad(Some(v)), MayRead, Some(|values|))], iids + [|insts|],
                               Some(TermRet(true, Some(|values|)))), FuncState(sc, None))
  {
    var b := StageG(values, insts, iids, None);
    var y := LowerLocal(Prog(body), b, sc, 1, 2);
    var load := Inst(OpLoad(Some(v)), MayRead, Some(|values|));
    assert y.b.mod.blocks[1].insts == iids + [|insts|];
    assert AtStage(y.b, values + [LoadedValue()], insts + [load], [F_BLOCK, Block([], iids + [|insts|], None)], true, true);
    assert LowerValueAs(Prog(body), b, sc, 1, Local(UNIT_OPT, 2), UNIT_OPT) == y by {
      assert LowerValue(Prog(body), b, sc, 1, Local(UNIT_OPT, 2)) == y;
    }
    var l := LowerStmt(Prog(body), b, FuncState(sc, Some(1)), 1, RET);
    var term := Some(TermRet(true, Some(|values|)));
    assert AtStage(l.b, values + [LoadedValue()], insts + [load], [F_BLOCK, Block([], iids + [|insts|], term)], true, true);
  }

  /** The module of a body that closes its path, from the module the body's statements leave. */
  lemma BuiltProgram(body: seq<Stmt>, b: Bld, sc: Scope)
    requires LowerBlock(Prog(body), StageG([], [], [], None), FuncState(Scope0(), Some(1)), body) == LoweredStmt(b, FuncState(sc, None))
    ensures LowerProgram(Prog(body)) == b
  {
    var S := Prog(body);
    BuiltTables(body);
    BuiltF(body);
    var b0 := Bld(Stage0([], [], [F_BLOCK], true, false), []);
    var o := OpenBody(b0, S.funcs[1], 1);
    assert o.b.mod.blocks == [F_BLOCK, EMPTY_BLOCK] && o.b.mod.reals[1].blocks == [1];
    assert AtStage(o.b, [], [], [F_BLOCK, EMPTY_BLOCK], true, true) && o.st == FuncState(Scope0(), Some(1));
    var d := Declare(S);
    assert LowerFuncs(S, d, 0) == d;
    assert LowerFuncs(S, d, 1) == LowerFunc(S, d, 0);
    assert LowerFuncs(S, d, 2) == LowerFunc(S, LowerFuncs(S, d, 1), 1);
  }

  lemma TwoStmts(S: Program, b: Bld, st: FuncState, s1: Stmt, s2: Stmt, l1: LoweredStmt, l2: LoweredStmt)
    requires st.cur == Some(1) && l1 == LowerStmt(S, b, st, 1, s1) && l1.st.cur == Some(1) && l2 == LowerStmt(S, l1.b, l1.st, 1, s2)
    ensures l2.st.cur == None ==> LowerBlock(S, b, st, [s1, s2]) == l2
  {
    assert [s1, s2][1..] == [s2] && [s2][1..] == [];
    assert LowerBlock(S, l2.b, l2.st, []) == l2;
    assert LowerBlock(S, l1.b, l1.st, [s2]) == LowerBlock(S, l2.b, l2.st, []);
    assert LowerBlock(S, b, st, [s1, s2]) == LowerBlock(S, l1.b, l1.st, [s2]);
  }

  lemma ThreeStmts(S: Program, b: Bld, st: FuncState, s1: Stmt, s2: Stmt, s3: Stmt, l1: LoweredStmt, l2: LoweredStmt, l3: LoweredStmt)
    requires st.cur == Some(1) && l1 == LowerStmt(S, b, st, 1, s1) && l1.st.cur == Some(1)
    requires l2 == LowerStmt(S, l1.b, l1.st, 1, s2) && l2.st.cur == Some(1) && l3 == LowerStmt(S, l2.b, l2.st, 1, s3)
    ensures l3.st.cur == None ==> LowerBlock(S, b, st, [s1, s2, s3]) == l3
  {
    assert [s1, s2, s3][1..] == [s2, s3];
    TwoStmts(S, l1.b, l1.st, s2, s3, l2, l3);
    assert LowerBlock(S, b, st, [s1, s2, s3]) == LowerBlock(S, l1.b, l1.st, [s2, s3]);
  }

  /** What two of the programs become: `g` loads from a slot that nothing has stored to. */
  function Unstored(): Bld {
    StageG([SlotValue(), LoadedValue()], [INVOKE, NEW_SLOT, LOAD], [0, 1, 2], Some(TermRet(true, Some(1))))
  }

  lemma BuiltDeclared()
    ensures LowerProgram(Prog(DECLARED)) == Unstored()
  {
    hide LowerValueAs, LowerProgram;
    var S := Prog(DECLARED);
    var st := FuncState(Scope0(), Some(1));
    var b := StageG([], [], [], None);
    BuiltCall(DECLARED, Scope0(), [], [], []);
    BuiltSlot(StageG([], [INVOKE], [0], None), Scope0(), DECL, [INVOKE], [0]);
    var insts: seq<Inst>, ids: seq<nat> := [], [];
    assert insts + [INVOKE] == [INVOKE] && ids + [0] == [0] && [INVOKE] + [NEW_SLOT] == [INVOKE, NEW_SLOT] && [0] + [1] == [0, 1];
    var l1 := LowerStmt(S, b, st, 1, DECL);
    assert l1 == LoweredStmt(StageG([SlotValue()], [INVOKE, NEW_SLOT], [0, 1], None), FuncState(SlotScope(Scope0(), 0), Some(1)));
    EndsUnstored(DECLARED, l1.st.scope);
    TwoStmts(S, b, st, DECL, RET, l1, LowerStmt(S, l1.b, l1.st, 1, RET));
    BuiltProgram(DECLARED, Unstored(), l1.st.scope);
  }

  lemma EndsUnstored(body: seq<Stmt>, sc: Scope)
    requires 2 in sc.locals && sc.locals[2] == Binding(Some(0), UNIT_OPT, OptionalScalar, true, true) && sc.ret == UNIT_OPT
    ensures LowerStmt(Prog(body), StageG([SlotValue()], [INVOKE, NEW_SLOT], [0, 1], None), FuncState(sc, Some(1)), 1, RET)
         == LoweredStmt(Unstored(), FuncState(sc, None))
  {
    hide LowerStmt;
    BuiltReturn(body, sc, 0, [SlotValue()], [INVOKE, NEW_SLOT], [0, 1]);
    assert [SlotValue()] + [LoadedValue()] == [SlotValue(), LoadedValue()];
    assert [INVOKE, NEW_SLOT] + [LOAD] == [INVOKE, NEW_SLOT, LOAD] && [0, 1] + [2] == [0, 1, 2];
  }

  lemma BuiltLet()
    ensures LowerStmt(Prog(ALIASED), StageG([], [], [], None), FuncState(Scope0(), Some(1)), 1, LET)
         == LoweredStmt(StageG([], [INVOKE], [0], None), FuncState(LetScope(), Some(1)))
  {
    hide LowerValueAs;
    BuiltCall(ALIASED, Scope0(), [], [], []);
    var insts: seq<Inst>, ids: seq<nat> := [], [];
    assert insts + [INVOKE] == [INVOKE] && ids + [0] == [0];
    var l := LowerStmt(Prog(ALIASED), StageG([], [], [], None), FuncState(Scope0(), Some(1)), 1, LET);
    assert l.st.scope.locals == LetScope().locals;
  }

  lemma BuiltAlias()
    ensures LowerStmt(Prog(ALIASED), StageG([], [INVOKE], [0], None), FuncState(LetScope(), Some(1)), 1, ALIAS)
         == LoweredStmt(StageG([SlotValue()], [INVOKE, NEW_SLOT], [0, 1], None), FuncState(SlotScope(LetScope(), 0), Some(1)))
  {
    var b := StageG([], [INVOKE], [0], None);
    assert [INVOKE] + [NEW_SLOT] == [INVOKE, NEW_SLOT] && [0] + [1] == [0, 1];
    BuiltSlot(b, LetScope(), ALIAS, [INVOKE], [0]);
    assert LowerValueAs(Prog(ALIASED), b, LetScope(), 1, Local(UNIT_OPT, 3), UNIT_OPT) == Lowered(b, 1, None) by {
      assert LowerValue(Prog(ALIASED), b, LetScope(), 1, Local(UNIT_OPT, 3)) == Lowered(b, 1, None);
    }
  }

  lemma BuiltAliased()
    ensures LowerProgram(Prog(ALIASED)) == Unstored()
  {
    hide LowerProgram, LowerStmt;
    var S := Prog(ALIASED);
    var st := FuncState(Scope0(), Some(1));
    var b := StageG([], [], [], None);
    BuiltLet();
    BuiltAlias();
    var l1 := LowerStmt(S, b, st, 1, LET);
    var l2 := LowerStmt(S, l1.b, l1.st, 1, ALIAS);
    EndsUnstored(ALIASED, l2.st.scope);
    ThreeStmts(S, b, st, LET, ALIAS, RET, l1, l2, LowerStmt(S, l2.b, l2.st, 1, RET));
    BuiltProgram(ALIASED, Unstored(), l2.st.scope);
  }

  const NULL := Inst(OpOptionalNone, Pure, Some(0))
  const SLOT_1 := Inst(OpLocalSlot, Pure, Some(1))
  const STORE_NULL := Inst(OpStore(Some(1), Some(0)), MayWrite, None)
  const LOAD_1 := Inst(OpLoad(Some(1)), MayRead, Some(2))

  /** What the third becomes: the only store is that of `null`. */
  function NullStored(): Bld {
    StageG([NullValue(), SlotValue(), LoadedValue()], [NULL, SLOT_1, STORE_NULL, INVOKE, LOAD_1], [0, 1, 2, 3, 4],
           Some(TermRet(true, Some(2))))
  }

  lemma BuiltNullDecl()
    ensures LowerStmt(Prog(ASSIGNED), StageG([], [], [], None), FuncState(Scope0(), Some(1)), 1, NULL_DECL)
         == LoweredStmt(StageG([NullValue(), SlotValue()], [NULL, SLOT_1, STORE_NULL], [0, 1, 2], None),
                        FuncState(SlotScope(Scope0(), 1), Some(1)))
  {
    var S := Prog(ASSIGNED);
    var b := StageG([], [], [], None);
    var x := LowerLiteral(b, 1, NullLit(UNIT_OPT));
    assert x.b.mod.blocks[1].insts == [0];
    assert AtStage(x.b, [NullValue()], [NULL], [F_BLOCK, Block([], [0], None)], true, true) && x.v == Some(0);
    assert LowerValueAs(S, b, Scope0(), 1, NullLit(UNIT_OPT), UNIT_OPT) == x by {
      assert LowerValue(S, b, Scope0(), 1, NullLit(UNIT_OPT)) == x;
    }
    var l := BindLocal(x.b, FuncState(Scope0(), Some(1)), 1, NULL_DECL, UNIT_OPT, x.v);
    assert l.b.mod.blocks[1].insts == [0, 1, 2];
    assert AtStage(l.b, [NullValue(), SlotValue()], [NULL, SLOT_1, STORE_NULL], [F_BLOCK, Block([], [0, 1, 2], None)], true, true);
  }

  function NullSlot(): Bld { StageG([NullValue(), SlotValue()], [NULL, SLOT_1, STORE_NULL], [0, 1, 2], None) }

  /** The assignment: the call is made, and its result goes nowhere. */
  lemma BuiltAssign()
    ensures LowerStmt(Prog(ASSIGNED), NullSlot(), FuncState(SlotScope(Scope0(), 1), Some(1)), 1, ASSIGN)
         == LoweredStmt(StageG([NullValue(), SlotValue()], [NULL, SLOT_1, STORE_NULL, INVOKE], [0, 1, 2, 3], None),
                        FuncState(SlotScope(Scope0(), 1), Some(1)))
  {
    hide LowerValueAs;
    var S := Prog(ASSIGNED);
    var b := NullSlot();
    var sc := SlotScope(Scope0(), 1);
    var e := ASSIGN.expr.value;
    BuiltCall(ASSIGNED, sc, [NullValue(), SlotValue()], [NULL, SLOT_1, STORE_NULL], [0, 1, 2]);
    assert [NULL, SLOT_1, STORE_NULL] + [INVOKE] == [NULL, SLOT_1, STORE_NULL, INVOKE] && [0, 1, 2] + [3] == [0, 1, 2, 3];
    var b2 := StageG([NullValue(), SlotValue()], [NULL, SLOT_1, STORE_NULL, INVOKE], [0, 1, 2, 3], None);
    assert LowerPlace(S, b, sc, 1, e.place) == Lowered(b, 1, Some(1)) && ElemType(b.mod, Some(1)) == UNIT_OPT;
    assert LowerValue(S, b, sc, 1, e) == Lowered(b2, 1, None);
  }

  lemma BuiltAssigned()
    ensures LowerProgram(Prog(ASSIGNED)) == NullStored()
  {
    hide LowerProgram, LowerStmt;
    var S := Prog(ASSIGNED);
    var st := FuncState(Scope0(), Some(1));
    var b := StageG([], [], [], None);
    var sc := SlotScope(Scope0(), 1);
    BuiltNullDecl();
    BuiltAssign();
    var l1 := LowerStmt(S, b, st, 1, NULL_DECL);
    var l2 := LowerStmt(S, l1.b, l1.st, 1, ASSIGN);
    BuiltReturn(ASSIGNED, sc, 1, [NullValue(), SlotValue()], [NULL, SLOT_1, STORE_NULL, INVOKE], [0, 1, 2, 3]);
    assert [NullValue(), SlotValue()] + [LoadedValue()] == [NullValue(), SlotValue(), LoadedValue()];
    assert [NULL, SLOT_1, STORE_NULL, INVOKE] + [LOAD_1] == [NULL, SLOT_1, STORE_NULL, INVOKE, LOAD_1] && [0, 1, 2, 3] + [4] == [0, 1, 2, 3, 4];
    ThreeStmts(S, b, st, NULL_DECL, ASSIGN, RET, l1, l2, LowerStmt(S, l2.b, l2.st, 1, RET));
    BuiltProgram(ASSIGNED, NullStored(), sc);
  }

  /** The module checks accept all three, although none is well typed in the sense used here. */
  lemma AcceptedAnyway()
    ensures Accepted(Prog(DECLARED)) && Accepted(Prog(ALIASED)) && Accepted(Prog(ASSIGNED))
    ensures !WellTyped(Prog(DECLARED)) && !WellTyped(Prog(ALIASED)) && !WellTyped(Prog(ASSIGNED))
  {
    hide TypedExpr, SupportedType, LowerProgram, ParamMap, TypedBlock;
    BuiltDeclared();
    BuiltAliased();
    BuiltAssigned();
    UnstoredOk();
    NullStoredOk();
    IllTyped(DECLARED);
    IllTyped(ALIASED);
    AssignedIllTyped();
  }

  lemma UnstoredOk()
    ensures VerifyOk(Unstored().mod)
  {
    assert Unstored().mod.values == [SlotValue(), LoadedValue()];
  }

  lemma NullStoredOk()
    ensures VerifyOk(NullStored().mod)
  {
    var m := NullStored().mod;
    assert m.values == [NullValue(), SlotValue(), LoadedValue()] && m.insts == [NULL, SLOT_1, STORE_NULL, INVOKE, LOAD_1];
    assert m.blocks[1].insts == [0, 1, 2, 3, 4];
    forall i | 0 <= i < |m.insts|
      ensures InstOk(m, m.insts[i])
    {
    }
    assert BlockOk(m, m.blocks[0]) && BlockOk(m, m.blocks[1]) by { hide InstOk; }
  }

  lemma IllTyped(body: seq<Stmt>)
    requires body == DECLARED || body == ALIASED
    ensures !WellTyped(Prog(body))
  {
    hide TypedExpr, ParamMap;
    assert !TypedStmt(Prog(body), ParamMap([]), body[0]);
    assert !TypedBlock(Prog(body), ParamMap(Prog(body).funcs[1].params), Prog(body).funcs[1].body);
  }

  lemma AssignedIllTyped()
    ensures !WellTyped(Prog(ASSIGNED))
  {
    hide ParamMap;
    var S := Prog(ASSIGNED);
    var G := TypesAfter(ParamMap([]), NULL_DECL);
    assert ASSIGNED[1..][0] == ASSIGN;
    assert !TypedStmt(S, G, ASSIGN);
    assert !TypedBlock(S, G, ASSIGNED[1..]);
    assert !TypedBlock(S, ParamMap(S.funcs[1].params), S.funcs[1].body);
  }

  // ---- What their runs come to ------------------------------------------------------------

  /** One step of a run of `n + 1`. */
  lemma First(P: Prims, M: Module, c: Config, c1: Config, n: nat)
    requires Step(P, M, c) == c1
    ensures StepN(P, M, c, n + 1) == StepN(P, M, c1, n)
  {
  }

  function FrameAt(pc: nat): Frame { Frame(1, pc, map[], map[]) }

  lemma UnstoredRun(P: Prims)
    ensures StepN(P, Unstored().mod, Run(FrameAt(0), Bottom, []), 4) == Stuck
  {
    var M := Unstored().mod;
    var c1 := Run(Frame(0, 0, map[], map[]), Caller(FrameAt(1), None, Bottom), []);
    var c2 := Run(FrameAt(1), Bottom, []);
    var c3 := Run(Frame(1, 2, map[0 := LocalPlace(0)], map[]), Bottom, []);
    assert ReadAll(FrameAt(0), []) == Some([]);
    assert M.blocks[1].insts == [0, 1, 2] && M.insts == [INVOKE, NEW_SLOT, LOAD];
    First(P, M, Run(FrameAt(0), Bottom, []), c1, 3);
    First(P, M, c1, c2, 2);
    var none: map<nat, Val> := map[];
    assert none - {0} == none;
    First(P, M, c2, c3, 1);
    First(P, M, c3, Stuck, 0);
  }

  lemma NullStoredRun(P: Prims)
    ensures StepN(P, NullStored().mod, Run(FrameAt(0), Bottom, []), 7) == Halt(NoneV, [])
  {
    hide Step, StepN;
    var M := NullStored().mod;
    var c3 := NullStoredStart(P, M);
    var back := c3.top.(pc := 4);
    var r3 := c3.top.regs[2 := Datum(NoneV)];
    var c4 := Run(Frame(0, 0, map[], map[]), Caller(back, None, Bottom), []);
    var c5 := Run(back, Bottom, []);
    var c6 := Run(Frame(1, 5, r3, c3.top.slots), Bottom, []);
    assert Step(P, M, c3) == c4 by { InvokesF(P, M, c3); }
    First(P, M, c3, c4, 3);
    assert Step(P, M, c4) == c5 by { LeavesF(P, M, c4); }
    First(P, M, c4, c5, 2);
    assert Step(P, M, c5) == c6 by { LoadsNull(P, M, c5, c6); }
    First(P, M, c5, c6, 1);
    assert Step(P, M, c6) == Halt(NoneV, []) by { ReturnsNull(P, M, c6); }
    First(P, M, c6, Halt(NoneV, []), 0);
    StepNFinal(P, M, Halt(NoneV, []), 0);
  }

  /** `null` is stored to the slot. */
  lemma NullStoredStart(P: Prims, M: Module) returns (c3: Config)
    requires M == NullStored().mod
    ensures c3 == Run(Frame(1, 3, map[0 := Datum(NoneV), 1 := LocalPlace(1)], map[1 := NoneV]), Bottom, [])
    ensures StepN(P, M, Run(FrameAt(0), Bottom, []), 7) == StepN(P, M, c3, 4)
  {
    hide StepN, Step;
    var r1 := map[0 := Datum(NoneV)];
    var r2 := map[0 := Datum(NoneV), 1 := LocalPlace(1)];
    var none: map<nat, Val> := map[];
    var c1 := Run(Frame(1, 1, r1, none), Bottom, []);
    var c2 := Run(Frame(1, 2, r2, none), Bottom, []);
    c3 := Run(Frame(1, 3, r2, map[1 := NoneV]), Bottom, []);
    assert Step(P, M, Run(FrameAt(0), Bottom, [])) == c1 by { MakesNull(P, M, c1); }
    First(P, M, Run(FrameAt(0), Bottom, []), c1, 6);
    assert Step(P, M, c1) == c2 by { MakesSlot(P, M, c1, c2); }
    First(P, M, c1, c2, 5);
    assert Step(P, M, c2) == c3 by { StoresNull(P, M, c2, c3); }
    First(P, M, c2, c3, 4);
  }

  lemma MakesNull(P: Prims, M: Module, c: Config)
    requires M == NullStored().mod && c == Run(Frame(1, 1, map[0 := Datum(NoneV)], map[]), Bottom, [])
    ensures Step(P, M, Run(FrameAt(0), Bottom, [])) == c
  {
    assert M.blocks[1].insts == [0, 1, 2, 3, 4] && M.insts == [NULL, SLOT_1, STORE_NULL, INVOKE, LOAD_1];
  }

  lemma MakesSlot(P: Prims, M: Module, c: Config, c': Config)
    requires M == NullStored().mod && c == Run(Frame(1, 1, map[0 := Datum(NoneV)], map[]), Bottom, [])
    requires c' == Run(Frame(1, 2, map[0 := Datum(NoneV), 1 := LocalPlace(1)], map[]), Bottom, [])
    ensures Step(P, M, c) == c'
  {
    assert M.blocks[1].insts == [0, 1, 2, 3, 4] && M.insts == [NULL, SLOT_1, STORE_NULL, INVOKE, LOAD_1];
    assert c.top.slots - {1} == map[];
  }

  lemma StoresNull(P: Prims, M: Module, c: Config, c': Config)
    requires M == NullStored().mod && c == Run(Frame(1, 2, map[0 := Datum(NoneV), 1 := LocalPlace(1)], map[]), Bottom, [])
    requires c' == Run(Frame(1, 3, c.top.regs, map[1 := NoneV]), Bottom, [])
    ensures Step(P, M, c) == c'
  {
    assert M.blocks[1].insts == [0, 1, 2, 3, 4] && M.insts == [NULL, SLOT_1, STORE_NULL, INVOKE, LOAD_1];
  }

  lemma InvokesF(P: Prims, M: Module, c: Config)
    requires M == NullStored().mod && c.Run? && c.top.block == 1 && c.top.pc == 3 && c.rest == Bottom && c.globals == []
    ensures Step(P, M, c) == Run(Frame(0, 0, map[], map[]), Caller(c.top.(pc := 4), None, Bottom), [])
  {
    assert M.blocks[1].insts == [0, 1, 2, 3, 4] && M.insts == [NULL, SLOT_1, STORE_NULL, INVOKE, LOAD_1];
    assert ReadAll(c.top, []) == Some([]);
  }

  lemma LeavesF(P: Prims, M: Module, c: Config)
    requires M == NullStored().mod && c.Run? && c.top.block == 0 && c.top.pc == 0 && c.rest.Caller? && c.rest.dest == None
    ensures Step(P, M, c) == Run(c.rest.frame, c.rest.below, c.globals)
  {
  }

  lemma LoadsNull(P: Prims, M: Module, c: Config, c': Config)
    requires M == NullStored().mod && c == Run(Frame(1, 4, map[0 := Datum(NoneV), 1 := LocalPlace(1)], map[1 := NoneV]), Bottom, [])
    requires c' == Run(Frame(1, 5, c.top.regs[2 := Datum(NoneV)], c.top.slots), Bottom, [])
    ensures Step(P, M, c) == c'
  {
    assert M.blocks[1].insts == [0, 1, 2, 3, 4] && M.insts == [NULL, SLOT_1, STORE_NULL, INVOKE, LOAD_1];
  }

  lemma ReturnsNull(P: Prims, M: Module, c: Config)
    requires M == NullStored().mod && c.Run? && c.top.block == 1 && c.top.pc == 5 && c.rest == Bottom && Holds(c.top, 2, NoneV)
    ensures Step(P, M, c) == Halt(NoneV, c.globals)
  {
    assert M.blocks[1].insts == [0, 1, 2, 3, 4];
  }

  /** The source calls return a present optional of unit. The compiled ones do not: two get stuck at
      the load of a slot without a value, the third returns the `null` it was to replace. */
  lemma GoesWrong(P: Prims)
    ensures CallFunc(P, Prog(DECLARED), 1, 1, [], []) == Result(SomeV(UnitV), []) && Machine(P, Prog(DECLARED), 1, [], [], 4) == Stuck
    ensures CallFunc(P, Prog(ALIASED), 1, 1, [], []) == Result(SomeV(UnitV), []) && Machine(P, Prog(ALIASED), 1, [], [], 4) == Stuck
    ensures CallFunc(P, Prog(ASSIGNED), 1, 1, [], []) == Result(SomeV(UnitV), [])
    ensures Machine(P, Prog(ASSIGNED), 1, [], [], 7) == Halt(NoneV, [])
  {
    hide LowerProgram, StepN, CallFunc;
    BuiltDeclared();
    BuiltAliased();
    BuiltAssigned();
    UnstoredRun(P);
    NullStoredRun(P);
    assert Start(Prog(DECLARED), 1, [], []) == Run(FrameAt(0), Bottom, []);
    assert Start(Prog(ALIASED), 1, [], []) == Run(FrameAt(0), Bottom, []);
    assert Start(Prog(ASSIGNED), 1, [], []) == Run(FrameAt(0), Bottom, []);
    SourceDeclared(P);
    SourceAliased(P);
    SourceAssigned(P);
  }

  /** Calling `f` for an optional gives a present one. */
  lemma SourceCall(P: Prims, body: seq<Stmt>, env: Env, st: St)
    requires st.globals == []
    ensures EvalAs(P, Prog(body), 1, env, st, CALL_F, UNIT_OPT) == Ev(SomeV(UnitV), st)
  {
    var S := Prog(body);
    FindF(body);
    assert CallFunc(P, S, 0, 0, [], []) == Result(UnitV, []) by {
      assert ExecBlock(P, S, 0, Unit, map[], St([], []), []) == Next(map[], St([], []));
    }
    assert EvalCall(P, S, 1, env, st, CALL_F) == Ev(UnitV, st) by {
      assert EvalArgs(P, S, 1, env, st, [], []) == EvArgs([], st);
    }
    assert Eval(P, S, 1, env, st, CALL_F) == Ev(UnitV, st);
  }

  lemma SourceReturn(P: Prims, body: seq<Stmt>, env: Env, st: St)
    requires 2 in env && env[2] == Cell(0) && st == St([SomeV(UnitV)], [])
    ensures ExecBlock(P, Prog(body), 1, UNIT_OPT, env, st, [RET]) == Returned(SomeV(UnitV), [])
  {
    assert EvalAs(P, Prog(body), 1, env, st, Local(UNIT_OPT, 2), UNIT_OPT) == Ev(SomeV(UnitV), st);
    assert Exec(P, Prog(body), 1, UNIT_OPT, env, st, RET) == Returned(SomeV(UnitV), []);
  }

  lemma SourceEndsWith(P: Prims, body: seq<Stmt>)
    requires ExecBlock(P, Prog(body), 1, UNIT_OPT, map[], St([], []), body) == Returned(SomeV(UnitV), [])
    ensures CallFunc(P, Prog(body), 1, 1, [], []) == Result(SomeV(UnitV), [])
  {
    hide ExecBlock;
    var S := Prog(body);
    assert BindParams(S.funcs[1].params, []) == map[];
  }

  lemma SourceDeclared(P: Prims)
    ensures CallFunc(P, Prog(DECLARED), 1, 1, [], []) == Result(SomeV(UnitV), [])
  {
    hide EvalAs, CallFunc;
    var S := Prog(DECLARED);
    var env: Env := map[2 := Cell(0)];
    SourceCall(P, DECLARED, map[], St([], []));
    assert Exec(P, S, 1, UNIT_OPT, map[], St([], []), DECL) == Next(env, St([SomeV(UnitV)], []));
    SourceReturn(P, DECLARED, env, St([SomeV(UnitV)], []));
    assert DECLARED[1..] == [RET];
    SourceEndsWith(P, DECLARED);
  }

  lemma SourceAliased(P: Prims)
    ensures CallFunc(P, Prog(ALIASED), 1, 1, [], []) == Result(SomeV(UnitV), [])
  {
    hide CallFunc;
    var S := Prog(ALIASED);
    var st := St([], []);
    var env1: Env := map[3 := Imm(SomeV(UnitV))];
    var env2: Env := map[3 := Imm(SomeV(UnitV)), 2 := Cell(0)];
    SourceCall(P, ALIASED, map[], st);
    assert Exec(P, S, 1, UNIT_OPT, map[], st, LET) == Next(env1, st);
    assert EvalAs(P, S, 1, env1, st, Local(UNIT_OPT, 3), UNIT_OPT) == Ev(SomeV(UnitV), st);
    assert Exec(P, S, 1, UNIT_OPT, env1, st, ALIAS) == Next(env2, St([SomeV(UnitV)], []));
    SourceReturn(P, ALIASED, env2, St([SomeV(UnitV)], []));
    assert ALIASED[1..] == [ALIAS, RET] && [ALIAS, RET][1..] == [RET];
    assert ExecBlock(P, S, 1, UNIT_OPT, env1, st, [ALIAS, RET]) == Returned(SomeV(UnitV), []);
    SourceEndsWith(P, ALIASED);
  }

  lemma SourceAssigned(P: Prims)
    ensures CallFunc(P, Prog(ASSIGNED), 1, 1, [], []) == Result(SomeV(UnitV), [])
  {
    hide CallFunc;
    var S := Prog(ASSIGNED);
    var st, st1, st2 := St([], []), St([NoneV], []), St([SomeV(UnitV)], []);
    var env: Env := map[2 := Cell(0)];
    assert Exec(P, S, 1, UNIT_OPT, map[], st, NULL_DECL) == Next(env, st1);
    SourceCall(P, ASSIGNED, env, st1);
    assert Exec(P, S, 1, UNIT_OPT, env, st1, ASSIGN) == Next(env, st2) by {
      assert [NoneV][0 := SomeV(UnitV)] == [SomeV(UnitV)];
      assert WritePlace(S, env, st1, Local(UNIT_OPT, 2), SomeV(UnitV)) == Some(st2);
    }
    SourceReturn(P, ASSIGNED, env, st2);
    assert ASSIGNED[1..] == [ASSIGN, RET] && [ASSIGN, RET][1..] == [RET];
    assert ExecBlock(P, S, 1, UNIT_OPT, env, st1, [ASSIGN, RET]) == Returned(SomeV(UnitV), []);
    SourceEndsWith(P, ASSIGNED);
  }

  // ---- A program whose blocks are left open -----------------------------------------------

  /** `p ?? f()` where `p: unit?`: unwrapping gives no id, so neither way is ever brought to the join. */
  const UNWRAP := Binary(Unit, QuestionQuestion, Local(UNIT_OPT, 2), CALL_F)
  const H := Func("h", 1, [Param(2, UNIT_OPT)], Unit, [ExprStmt(Some(UNWRAP))], Parus, false, false, false, false, false)
  const UNWRAPPED := Program([], [F, H])

  /** The builder has nothing to say about it, and it is well typed; but it leaves blocks open, so the
      module checks reject what was built. */
  lemma UnwrapLeftOpen()
    ensures LowerProgram(UNWRAPPED).errs == [] && WellTyped(UNWRAPPED) && BlockEdges.ProgramPayloads(UNWRAPPED)
    ensures !OpenBlock.ProgramJoins(UNWRAPPED) && !Accepted(UNWRAPPED)
  {
    hide LowerFunc, OpenBlock.BlockJoins, TypedBlock, BlockEdges.BlockPayloads;
    UnwrapTyped();
    UnwrapOpen();
    var d := Declare(UNWRAPPED);
    UnwrapTables(d);
    var b1 := LowerFunc(UNWRAPPED, d, 0);
    assert LowerFuncs(UNWRAPPED, d, 0) == d && LowerFuncs(UNWRAPPED, d, 1) == b1;
    assert LowerFuncs(UNWRAPPED, d, 2) == LowerFunc(UNWRAPPED, b1, 1);
    assert b1.errs == [] by { EmptyBody(d); }
    UnwrapSilent(b1);
    OpenBlock.OneOpenBlock(UNWRAPPED);
    assert !OpenBlock.FuncJoins(UNWRAPPED, 1);
    var m := LowerProgram(UNWRAPPED).mod;
    var x :| 0 <= x < |m.blocks| && m.blocks[x].term.None?;
    assert !BlockOk(m, m.blocks[x]);
  }

  lemma UnwrapTyped()
    ensures WellTyped(UNWRAPPED) && BlockEdges.ProgramPayloads(UNWRAPPED)
  {
    var G := ParamMap(H.params);
    assert 2 in G && G[2] == UNIT_OPT;
    assert ArityOk(UNWRAPPED, 0, 0) by {
      assert FindFunc([F], 0) == Some(0) && UNWRAPPED.funcs[..1] == [F];
    }
    assert TypedExpr(UNWRAPPED, G, UNWRAP);
    assert TypedBlock(UNWRAPPED, TypesAfter(G, H.body[0]), H.body[1..]);
    assert TypedBlock(UNWRAPPED, G, H.body) && TypedBlock(UNWRAPPED, ParamMap(F.params), F.body);
    assert BlockEdges.BlockPayloads(F.body) && BlockEdges.StmtPayloads(H.body[0]) && BlockEdges.BlockPayloads(H.body);
  }

  lemma UnwrapOpen()
    ensures !OpenBlock.BlockJoins(UNWRAPPED, OpenBlock.ParamNames(H.params), H.body)
  {
    var N := OpenBlock.ParamNames(H.params);
    assert 2 in N && N[2] == Name(UNIT_OPT, true);
    assert !OpenBlock.Joins(UNWRAPPED, N, UNWRAP);
    assert !OpenBlock.StmtJoins(UNWRAPPED, N, H.body[0]);
  }

  lemma UnwrapTables(d: Bld)
    requires d == Declare(UNWRAPPED)
    ensures d.errs == []
  {
    var b := Bld(EMPTY_MODULE, []);
    assert DeclareGlobals(b, [], 0) == b;
    assert SupportedFunc(F) && SupportedFunc(H);
    assert DeclareFuncs(b, UNWRAPPED.funcs, 0) == b;
    assert DeclareFuncs(b, UNWRAPPED.funcs, 1) == DeclareFunc(b, F, 0);
    assert DeclareFuncs(b, UNWRAPPED.funcs, 2) == DeclareFunc(DeclareFunc(b, F, 0), H, 1);
  }

  lemma EmptyBody(b: Bld)
    requires b.errs == []
    ensures LowerFunc(UNWRAPPED, b, 0).errs == []
  {
    var o := OpenBody(b, F, 0);
    assert LowerBlock(UNWRAPPED, o.b, o.st, []) == o;
  }

  lemma UnwrapSilent(b: Bld)
    requires b.errs == []
    ensures LowerFunc(UNWRAPPED, b, 1).errs == []
  {
    hide OpenBody, LowerCoalesceArms, GlobalsOk, ScopeOk, OpenBlock.ParamNames;
    var S := UNWRAPPED;
    var cur := |b.mod.blocks|;
    var o := OpenBody(b, H, 1);
    UnwrapOpened(b, o);
    var sc := o.st.scope;
    var x := LowerLocal(S, o.b, sc, cur, 2);
    assert x == Lowered(o.b, cur, sc.locals[2].value) && x == LowerValue(S, o.b, sc, cur, UNWRAP.a);
    var t := PresenceTest(x);
    var lo := LowerCoalesceArms(S, t.b, sc, cur, UNWRAP, x.v, t.v);
    assert lo == LowerValue(S, o.b, sc, cur, UNWRAP);
    assert lo.b.errs == [] by { SilentArms(S, t.b, sc, cur, x.v, t.v); }
    var l := LowerStmt(S, o.b, o.st, cur, H.body[0]);
    assert LowerBlock(S, o.b, o.st, H.body) == l by {
      assert LowerBlock(S, l.b, l.st, []) == l && H.body[1..] == [];
    }
  }

  lemma UnwrapOpened(b: Bld, o: LoweredStmt)
    requires b.errs == [] && o == OpenBody(b, H, 1)
    ensures o.b.errs == [] && o.st.cur == Some(|b.mod.blocks|) && |b.mod.blocks| < |o.b.mod.blocks|
    ensures 2 in o.st.scope.locals && o.st.scope.locals[2].value.Some? && !o.st.scope.locals[2].isPlace
  {
    var b0 := SetEntry(AddBlock(b, 1), 1, |b.mod.blocks|);
    OpenBlock.ParamsScope(b0, |b.mod.blocks|, H.params, 1, Unit);
  }

  lemma SilentArms(S: Program, b: Bld, sc: Scope, cur: nat, opt: Id, present: Id)
    requires b.errs == [] && cur < |b.mod.blocks|
    ensures LowerCoalesceArms(S, b, sc, cur, UNWRAP, opt, present).b.errs == []
  {
    GrowsCoalesceBlocks(b, sc.owner, cur, Unit, present);
  }
}
