/** Where in the finished module a part of a program is lowered. Every expression and every statement
    of an accepted well-typed program that the builder lowers at all has such a place: what is proved
    of a part at its place is proved of every part. */
module Sites {
  import opened Wrappers
  import opened Sir
  import opened SirSemantics
  import opened Goir
  import opened GoirMachine
  import opened GoirVerify
  import opened Lowering
  import opened Growth
  import opened Typing
  import opened SimulationBase
  import opened Correctness
  import opened ValueIds
  import Fragments
  import OpenBlock
  import Simulation
  import StmtSimulation

  // ---- Places ----------------------------------------------------------------------------

  /** The builder lowers something in scope `sc` from block `cur` of `b`, on the way to `b'`. */
  ghost predicate Site(W: World, b: Bld, sc: Scope, cur: nat, b': Bld, end: Option<nat>) {
    Ground(W.S, b, sc, cur) && OpenAt(b, cur) && Code(W, b, cur, b', end)
  }

  ghost predicate ValueSite(W: World, b: Bld, sc: Scope, cur: nat, e: Expr) {
    var lo := LowerValue(W.S, b, sc, cur, e); Site(W, b, sc, cur, lo.b, Some(lo.cur))
  }

  /** The expression is converted to type `ty`. */
  ghost predicate ValueAsSite(W: World, b: Bld, sc: Scope, cur: nat, e: Expr, ty: Ty) {
    var lo := LowerValueAs(W.S, b, sc, cur, e, ty); Site(W, b, sc, cur, lo.b, Some(lo.cur))
  }

  ghost predicate ArgsSite(W: World, b: Bld, sc: Scope, cur: nat, args: seq<Expr>, tys: seq<Ty>) {
    var xs := LowerArgs(W.S, b, sc, cur, args, tys); Site(W, b, sc, cur, xs.b, Some(xs.cur))
  }

  ghost predicate StmtSite(W: World, b: Bld, st: FuncState, cur: nat, s: Stmt) {
    var ls := LowerStmt(W.S, b, st, cur, s); Site(W, b, st.scope, cur, ls.b, ls.st.cur)
  }

  /** A list of statements is lowered from block `bb`. */
  ghost predicate ListSite(W: World, b: Bld, st: FuncState, bb: nat, body: seq<Stmt>) {
    var ls := LowerBlock(W.S, b, st.(cur := Some(bb)), body); Site(W, b, st.scope, bb, ls.b, ls.st.cur)
  }

  lemma StrayRejected(W: World, b: Bld, cur: nat, b': Bld, end: nat)
    requires OpenBlock.Stray(b, b', Some(end)) && Code(W, b, cur, b', Some(end))
    ensures !VerifyOk(W.M)
  {
    var y :| |b.mod.blocks| <= y && OpenAt(b', y) && Some(end) != Some(y);
    assert !BlockOk(W.M, W.M.blocks[y]);
  }

  /** In a module that passes the checks the builder's current block is open after any expression. */
  lemma StaysOpen(W: World, b: Bld, sc: Scope, cur: nat, e: Expr, x: Lowered)
    requires VerifyOk(W.M) && x == LowerValue(W.S, b, sc, cur, e) && Site(W, b, sc, cur, x.b, Some(x.cur))
    ensures OpenAt(x.b, x.cur)
  {
    hide LowerValue, OpenBlock.Joins, GlobalsOk, ScopeOk, NamesOf;
    OpenBlock.ValueShuts(W.S, b, sc, cur, e, x);
    if !OpenBlock.Joins(W.S, NamesOf(sc.locals), e) {
      StrayRejected(W, b, cur, x.b, x.cur);
      assert false;
    }
  }

  lemma StaysOpenAs(W: World, b: Bld, sc: Scope, cur: nat, e: Expr, ty: Ty, x: Lowered)
    requires VerifyOk(W.M) && x == LowerValueAs(W.S, b, sc, cur, e, ty) && Site(W, b, sc, cur, x.b, Some(x.cur))
    ensures OpenAt(x.b, x.cur)
  {
    hide LowerValueAs, OpenBlock.Joins, GlobalsOk, ScopeOk, NamesOf;
    OpenBlock.ValueAsShuts(W.S, b, sc, cur, e, ty, x);
    if !OpenBlock.Joins(W.S, NamesOf(sc.locals), e) {
      StrayRejected(W, b, cur, x.b, x.cur);
      assert false;
    }
  }

  // ---- Expressions -----------------------------------------------------------------------

  /** A fragment with a place gives one to the part it begins with, */
  lemma HeadSite(W: World, b: Bld, sc: Scope, cur: nat, b1: Bld, c1: nat, b2: Bld, end: Option<nat>)
    requires Site(W, b, sc, cur, b2, end) && Grows(b, cur, b1, c1) && GrowsSt(b1, c1, b2, end)
    ensures Site(W, b, sc, cur, b1, Some(c1))
  {
    hide GlobalsOk, ScopeOk;
    CodeHead(W, b, cur, b1, c1, b2, end);
  }

  /** and to what goes on from there, if the block is open still. */
  lemma TailSite(W: World, b: Bld, sc: Scope, cur: nat, b1: Bld, c1: nat, b2: Bld, end: Option<nat>)
    requires Site(W, b, sc, cur, b2, end) && Grows(b, cur, b1, c1) && GrowsSt(b1, c1, b2, end) && OpenAt(b1, c1)
    ensures Site(W, b1, sc, c1, b2, end)
  {
    hide GlobalsOk, ScopeOk;
    GroundLater(W.S, b, sc, cur, b1, c1);
    CodeTail(W, b, cur, b1, c1, b2, end);
  }

  /** An expression that is converted has a place itself, but for a `null` of another type. */
  lemma CoercedSite(W: World, b: Bld, sc: Scope, cur: nat, e: Expr, ty: Ty)
    requires ValueAsSite(W, b, sc, cur, e, ty) && !e.NullLit?
    ensures ValueSite(W, b, sc, cur, e)
  {
    hide LowerValue, GlobalsOk, ScopeOk;
    var lo, x := LowerValueAs(W.S, b, sc, cur, e, ty), LowerValue(W.S, b, sc, cur, e);
    Fragments.ValueAsParts(W.S, b, sc, cur, e, ty, lo);
    HeadSite(W, b, sc, cur, x.b, x.cur, lo.b, Some(lo.cur));
  }

  /** The operand of a unary operator or a cast, */
  lemma OperandSite(W: World, b: Bld, sc: Scope, cur: nat, e: Expr)
    requires ValueSite(W, b, sc, cur, e) && (e.Unary? || e.Cast?)
    ensures ValueSite(W, b, sc, cur, e.a)
  {
    hide LowerOperand, GlobalsOk, ScopeOk;
    var lo, x := LowerOperand(W.S, b, sc, cur, e), LowerValue(W.S, b, sc, cur, e.a);
    assert lo == LowerValue(W.S, b, sc, cur, e);
    Fragments.OperandParts(W.S, b, sc, cur, e, lo, x);
    HeadSite(W, b, sc, cur, x.b, x.cur, lo.b, Some(lo.cur));
  }

  /** both operands of a binary operator, */
  lemma BinarySites(W: World, b: Bld, sc: Scope, cur: nat, e: Expr, x: Lowered)
    requires VerifyOk(W.M) && ValueSite(W, b, sc, cur, e) && e.Binary? && e.tok != QuestionQuestion
    requires x == LowerValue(W.S, b, sc, cur, e.a)
    ensures ValueSite(W, b, sc, cur, e.a) && ValueSite(W, x.b, sc, x.cur, e.b)
  {
    hide LowerBinary, GlobalsOk, ScopeOk, VerifyOk;
    var lo, y := LowerBinary(W.S, b, sc, cur, e), LowerValue(W.S, x.b, sc, x.cur, e.b);
    assert lo == LowerValue(W.S, b, sc, cur, e);
    Fragments.BinaryParts(W.S, b, sc, cur, e, lo, x, y);
    GrowsTrans(x.b, x.cur, y.b, y.cur, lo.b, lo.cur);
    HeadSite(W, b, sc, cur, x.b, x.cur, lo.b, Some(lo.cur));
    StaysOpen(W, b, sc, cur, e.a, x);
    TailSite(W, b, sc, cur, x.b, x.cur, lo.b, Some(lo.cur));
    HeadSite(W, x.b, sc, x.cur, y.b, y.cur, lo.b, Some(lo.cur));
  }

  /** the left side of a `??`, */
  lemma LeftSite(W: World, b: Bld, sc: Scope, cur: nat, e: Expr)
    requires ValueSite(W, b, sc, cur, e) && e.Binary? && e.tok == QuestionQuestion
    ensures e.a.ty.Optional? && ValueSite(W, b, sc, cur, e.a)
  {
    hide LowerCoalesce, LowerCoalesceArms, GlobalsOk, ScopeOk, PresenceTest;
    var lo, x := LowerCoalesce(W.S, b, sc, cur, e), LowerValue(W.S, b, sc, cur, e.a);
    assert lo == LowerValue(W.S, b, sc, cur, e);
    if !e.a.ty.Optional? {
      NotAnOptional(W.S, b, sc, cur, e, lo);
      assert false;
    } else {
      Simulation.CodeOfCoalesce(W, b, sc, cur, e, lo, x, PresenceTest(x));
    }
  }

  lemma NotAnOptional(S: Program, b: Bld, sc: Scope, cur: nat, e: Expr, lo: Lowered)
    requires e.Binary? && lo == LowerCoalesce(S, b, sc, cur, e) && !e.a.ty.Optional?
    ensures lo.b.errs != []
  {
  }

  /** and, if that has an id, the fallback, */
  lemma FallbackSite(W: World, b: Bld, sc: Scope, cur: nat, e: Expr) returns (b': Bld, cur': nat)
    requires VerifyOk(W.M) && ValueSite(W, b, sc, cur, e) && e.Binary? && e.tok == QuestionQuestion
    requires HasId(W.S, NamesOf(sc.locals), e.a)
    ensures ValueAsSite(W, b', sc, cur', e.b, e.ty)
  {
    hide LowerValue, LowerValueAs, LowerCoalesce, LowerCoalesceArms, GlobalsOk, ScopeOk, PresenceTest, VerifyOk, HasId, NamesOf, ClosedBy;
    LeftSite(W, b, sc, cur, e);
    var lo, x := LowerCoalesce(W.S, b, sc, cur, e), LowerValue(W.S, b, sc, cur, e.a);
    assert lo == LowerValue(W.S, b, sc, cur, e) by { IsCoalesce(W.S, b, sc, cur, e); }
    var t := PresenceTest(x);
    ValueId(W.S, b, sc, cur, e.a, x);
    Simulation.CodeOfCoalesce(W, b, sc, cur, e, lo, x, t);
    StaysOpen(W, b, sc, cur, e.a, x);
    TestOpen(x);
    var a := Simulation.CodeOfCoalesceArms(W, t.b, sc, x.cur, e, x.v, t.v, lo);
    GrowsValue(W.S, b, sc, cur, e.a);
    TestValues(x);
    ScopeLater(b.mod.values, a.b2.mod.values, sc);
    b', cur' := a.b2, a.s + 1;
  }

  lemma IsCoalesce(S: Program, b: Bld, sc: Scope, cur: nat, e: Expr)
    requires e.Binary? && e.tok == QuestionQuestion
    ensures LowerValue(S, b, sc, cur, e) == LowerCoalesce(S, b, sc, cur, e)
  {
  }

  lemma TestValues(x: Lowered)
    ensures x.b.mod.values <= PresenceTest(x).b.mod.values
  {
  }

  /** the right side of an assignment, */
  lemma RightSite(W: World, b: Bld, sc: Scope, cur: nat, e: Expr) returns (b': Bld)
    requires ValueSite(W, b, sc, cur, e) && e.Assign?
    ensures ValueAsSite(W, b', sc, cur, e.rhs, PlaceType(W.S, NamesOf(sc.locals), e.place))
  {
    hide LowerAssign, LowerPlace, LowerValueAs, GlobalsOk, ScopeOk, NamesOf, PlaceType, EmitStore;
    var lo, p := LowerAssign(W.S, b, sc, cur, e), LowerPlace(W.S, b, sc, cur, e.place);
    var ty := PlaceType(W.S, NamesOf(sc.locals), e.place);
    var r := LowerValueAs(W.S, p.b, sc, cur, e.rhs, ty);
    assert lo == LowerValue(W.S, b, sc, cur, e) by { IsAssign(W.S, b, sc, cur, e); }
    Fragments.AssignParts(W.S, b, sc, cur, e, lo, p, ty, r);
    GrowsTrans(p.b, cur, r.b, r.cur, lo.b, lo.cur);
    TailSite(W, b, sc, cur, p.b, cur, lo.b, Some(lo.cur));
    HeadSite(W, p.b, sc, cur, r.b, r.cur, lo.b, Some(lo.cur));
    b' := p.b;
  }

  lemma IsAssign(S: Program, b: Bld, sc: Scope, cur: nat, e: Expr)
    requires e.Assign?
    ensures LowerValue(S, b, sc, cur, e) == LowerAssign(S, b, sc, cur, e)
  {
  }

  /** and the arguments of a call, one after the other. */
  lemma CallSite(W: World, b: Bld, sc: Scope, cur: nat, e: Expr)
    requires ValueSite(W, b, sc, cur, e) && e.Call?
    ensures ArgsSite(W, b, sc, cur, e.args, Fragments.ArgTypes(W.S, e.callee))
  {
    hide LowerCall, LowerArgs, GlobalsOk, ScopeOk, Fragments.ArgTypes;
    var lo, xs := LowerCall(W.S, b, sc, cur, e), LowerArgs(W.S, b, sc, cur, e.args, Fragments.ArgTypes(W.S, e.callee));
    assert lo == LowerValue(W.S, b, sc, cur, e);
    Fragments.CallParts(W.S, b, sc, cur, e, lo, xs);
    HeadSite(W, b, sc, cur, xs.b, xs.cur, lo.b, Some(lo.cur));
  }

  lemma ArgSite(W: World, b: Bld, sc: Scope, cur: nat, args: seq<Expr>, tys: seq<Ty>, ty: Ty, rest: seq<Ty>, x: Lowered)
    requires VerifyOk(W.M) && ArgsSite(W, b, sc, cur, args, tys) && args != []
    requires ty == (if tys == [] then args[0].ty else tys[0]) && rest == if tys == [] then [] else tys[1..]
    requires x == LowerValueAs(W.S, b, sc, cur, args[0], ty)
    ensures ValueAsSite(W, b, sc, cur, args[0], ty) && ArgsSite(W, x.b, sc, x.cur, args[1..], rest)
  {
    hide LowerValueAs, GlobalsOk, ScopeOk, VerifyOk;
    var xs, ys := LowerArgs(W.S, b, sc, cur, args, tys), LowerArgs(W.S, x.b, sc, x.cur, args[1..], rest);
    Fragments.ArgsParts(W.S, b, sc, cur, args, tys, ty, rest, xs, x, ys);
    HeadSite(W, b, sc, cur, x.b, x.cur, ys.b, Some(ys.cur));
    StaysOpenAs(W, b, sc, cur, args[0], ty, x);
    TailSite(W, b, sc, cur, x.b, x.cur, ys.b, Some(ys.cur));
  }

  lemma TestOpen(x: Lowered)
    requires OpenAt(x.b, x.cur)
    ensures OpenAt(PresenceTest(x).b, x.cur) && PresenceTest(x).cur == x.cur && PresenceTest(x).v == Some(|x.b.mod.values|)
    ensures |PresenceTest(x).b.mod.blocks| == |x.b.mod.blocks|
  {
  }

  // ---- Statements ------------------------------------------------------------------------

  /** Every function's body is lowered at a place of the finished module. */
  lemma BodySite(P: Prims, S: Program, fi: nat) returns (b: Bld)
    requires Accepted(S) && WellTyped(S) && fi < |S.funcs| && !S.funcs[fi].isExtern
    ensures var o := OpenBody(b, S.funcs[fi], fi);
            && ListSite(World(P, S, LowerProgram(S).mod), o.b, o.st, |b.mod.blocks|, S.funcs[fi].body)
            && o.st.cur == Some(|b.mod.blocks|) && o.st.scope.owner == fi
            && NamesOf(o.st.scope.locals) == OpenBlock.ParamNames(S.funcs[fi].params)
  {
    hide LowerProgram, WellTyped, OpenBody, LowerBlock, VerifyOk, GlobalsOk, ScopeOk, SupportedFunc, NamesOf, OpenBlock.ParamNames;
    var W := World(P, S, LowerProgram(S).mod);
    AcceptedBuilt(P, S);
    var d := OpenBlock.DeclaredTables(S);
    assert HasBody(W, fi);
    b :| BodyIn(W, fi, b);
    var o := OpenBody(b, S.funcs[fi], fi);
    OpenBlock.OpenedBody(S, b, fi, o);
    CodeOfBody(W, o.b, o.st, |b.mod.blocks|, S.funcs[fi], LowerBlock(S, o.b, o.st, S.funcs[fi].body));
    assert o.st == o.st.(cur := Some(|b.mod.blocks|));
  }

  /** So are, with a list of statements, its first statement and, unless that is a `return`, the others. */
  lemma BlockSite(W: World, b: Bld, st: FuncState, cur: nat, stmts: seq<Stmt>, l1: LoweredStmt)
    requires VerifyOk(W.M) && ListSite(W, b, st, cur, stmts) && stmts != []
    requires l1 == LowerStmt(W.S, b, st.(cur := Some(cur)), cur, stmts[0])
    ensures StmtSite(W, b, st.(cur := Some(cur)), cur, stmts[0])
    ensures NamesOf(l1.st.scope.locals) == NamesAfter(W.S, NamesOf(st.scope.locals), stmts[0])
    ensures l1.st.scope.owner == st.scope.owner
    ensures !stmts[0].Return? ==> l1.st.cur.Some? && ListSite(W, l1.b, l1.st, l1.st.cur.value, stmts[1..])
  {
    hide LowerStmt, VerifyOk, GlobalsOk, ScopeOk, NamesOf, OpenBlock.StmtJoins, NamesAfter;
    var st' := st.(cur := Some(cur));
    var ls := LowerBlock(W.S, b, st', stmts);
    StmtSimulation.CodeOfBlock(W, b, st', cur, stmts, l1, ls);
    Fragments.BlockParts(W.S, b, st', cur, stmts, l1, ls);
    OwnerKept(W.S, b, st', cur, stmts[0]);
    OpenBlock.StmtShuts(W.S, b, st', cur, stmts[0], l1);
    if l1.st.cur.Some? {
      if !OpenBlock.StmtJoins(W.S, NamesOf(st.scope.locals), stmts[0]) {
        StrayRejected(W, b, cur, l1.b, l1.st.cur.value);
        assert false;
      }
      assert l1.st == l1.st.(cur := Some(l1.st.cur.value));
    }
  }

  lemma OwnerKept(S: Program, b: Bld, st: FuncState, cur: nat, s: Stmt)
    ensures LowerStmt(S, b, st, cur, s).st.scope.owner == st.scope.owner
  {
    hide LowerValueAs, LowerValue, LowerIf, LowerWhile, LowerSwitch;
    if !s.VarDecl? {
      SameScopeAfter(S, b, st, cur, s, LowerStmt(S, b, st, cur, s));
    }
  }

  lemma ArmSite(W: World, b0: Bld, b: Bld, st: FuncState, cur: nat, bb: nat, body: seq<Stmt>, b': Bld, target: nat)
    requires Ground(W.S, b0, st.scope, cur) && b0.mod.values <= b.mod.values && OpenAt(b, bb)
    requires b' == LowerArm(W.S, b, st, bb, body, target) && Code(W, b, bb, b', None) == true
    ensures ListSite(W, b, st, bb, body)
  {
    hide LowerArm, LowerBlock, GlobalsOk;
    ScopeLater(b0.mod.values, b.mod.values, st.scope);
    StmtSimulation.CodeOfArm(W, b, st, bb, body, LowerBlock(W.S, b, st.(cur := Some(bb)), body), b', target);
  }

  /** So are, with an `if`, both its branches, */
  lemma IfSites(W: World, b: Bld, st: FuncState, cur: nat, s: Stmt) returns (t: nat, b1: Bld, b2: Bld)
    requires VerifyOk(W.M) && s.If?
    requires StmtSite(W, b, st, cur, s)
    ensures ListSite(W, b1, st, t, s.thn) && ListSite(W, b2, st, t + 1, s.els)
  {
    hide LowerValue, LowerIf, LowerIfArms, LowerArm, VerifyOk, GlobalsOk, ScopeOk, ListSite, ClosedBy;
    var ls := LowerStmt(W.S, b, st, cur, s);
    assert ls == LowerIf(W.S, b, st, cur, s);
    var x := LowerValue(W.S, b, st.scope, cur, s.cond);
    StmtSimulation.CodeOfIf(W, b, st, cur, s, ls, x);
    StaysOpen(W, b, st.scope, cur, s.cond, x);
    GrowsValue(W.S, b, st.scope, cur, s.cond);
    var b3;
    b1, b2, b3 := StmtSimulation.CodeOfIfArms(W, x.b, st, x.cur, s, x.v, ls);
    t := |x.b.mod.blocks|;
    ArmSite(W, b, b1, st, cur, t, s.thn, b2, t + 2);
    ArmSite(W, b, b2, st, cur, t + 1, s.els, b3, t + 2);
  }

  /** with a `while`, its condition and its body, */
  lemma WhileSite(W: World, b: Bld, st: FuncState, cur: nat, s: Stmt) returns (b1: Bld, t: nat, b2: Bld)
    requires VerifyOk(W.M) && s.While? && StmtSite(W, b, st, cur, s)
    ensures ValueSite(W, b1, st.scope, t, s.cond) && ListSite(W, b2, st, t + 1, s.body)
  {
    hide LowerValue, LowerWhile, LowerArm, VerifyOk, GlobalsOk, ScopeOk, ListSite, ClosedBy;
    var ls := LowerStmt(W.S, b, st, cur, s);
    assert ls == LowerWhile(W.S, b, st, cur, s);
    t := |b.mod.blocks|;
    b1, b2 := StmtSimulation.CodeOfWhile(W, b, st, cur, s, ls);
    ScopeLater(b.mod.values, b1.mod.values, st.scope);
    GrowsValue(W.S, b1, st.scope, t, s.cond);
    ArmSite(W, b, b2, st, cur, t + 1, s.body, ls.b, t);
  }

  /** and with a `switch` that has a value to test, every case. */
  lemma CaseSite(W: World, b: Bld, st: FuncState, cur: nat, s: Stmt, i: nat) returns (bb: nat, bi: Bld)
    requires VerifyOk(W.M) && s.Switch? && i < |s.cases| && HasId(W.S, NamesOf(st.scope.locals), s.scrutinee)
    requires StmtSite(W, b, st, cur, s)
    ensures ListSite(W, bi, st, bb, s.cases[i].body)
  {
    hide LowerValue, LowerSwitch, LowerSwitchArms, LowerArm, LowerCases, AddCases, VerifyOk, GlobalsOk, ScopeOk, ListSite, ClosedBy,
      LowerScrutinee, SwitchableType, HasId, NamesOf;
    var ls := LowerStmt(W.S, b, st, cur, s);
    assert ls == LowerSwitch(W.S, b, st, cur, s);
    var t := LowerScrutinee(W.S, b, st.scope, cur, s.scrutinee);
    StmtSimulation.CodeOfSwitch(W, b, st, cur, s, ls, t);
    ScrutineeId(W, b, st.scope, cur, s.scrutinee, t);
    GrowsScrutinee(W.S, b, st.scope, cur, s.scrutinee);
    ScrutineeOpen(W, b, st.scope, cur, s.scrutinee, t);
    var cs, b1 := StmtSimulation.CodeOfSwitchArms(W, t.b, st, t.cur, s, t.v, ls);
    var after := |t.b.mod.blocks|;
    var bj;
    bi, bj := StmtSimulation.CodeOfCase(W, b1, st, after + 1, s.cases, i, after, ls.b);
    bb := after + 1 + i;
    ArmSite(W, b, bi, st, cur, bb, s.cases[i].body, bj, after);
  }

  lemma ScrutineeOpen(W: World, b: Bld, sc: Scope, cur: nat, e: Expr, t: Lowered)
    requires VerifyOk(W.M) && t == LowerScrutinee(W.S, b, sc, cur, e) && Site(W, b, sc, cur, t.b, Some(t.cur))
    ensures OpenAt(t.b, t.cur)
  {
    hide LowerValue, VerifyOk, GlobalsOk, ScopeOk, PresenceTest;
    var x := LowerValue(W.S, b, sc, cur, e);
    StmtSimulation.CodeOfScrutinee(W, b, sc, cur, e, t, x);
    StaysOpen(W, b, sc, cur, e, x);
    TestOpen(x);
  }

  lemma ScrutineeId(W: World, b: Bld, sc: Scope, cur: nat, e: Expr, t: Lowered)
    requires t == LowerScrutinee(W.S, b, sc, cur, e) && Site(W, b, sc, cur, t.b, Some(t.cur))
    ensures t.v.Some? <==> HasId(W.S, NamesOf(sc.locals), e)
  {
    hide LowerValue, GlobalsOk, ScopeOk, HasId, NamesOf;
    var x := LowerValue(W.S, b, sc, cur, e);
    StmtSimulation.CodeOfScrutinee(W, b, sc, cur, e, t, x);
    ValueId(W.S, b, sc, cur, e, x);
  }

  /** The expression a declaration, an expression statement, a `return` or an `if` begins with. */
  lemma DirectSite(W: World, b: Bld, st: FuncState, cur: nat, s: Stmt)
    requires StmtSite(W, b, st, cur, s)
    ensures s.ExprStmt? && s.expr.Some? ==> ValueSite(W, b, st.scope, cur, s.expr.value)
    ensures s.VarDecl? && s.init.Some? ==> BindingType(s).Some? && ValueAsSite(W, b, st.scope, cur, s.init.value, BindingType(s).value)
    ensures s.Return? && s.expr.Some? ==> ValueAsSite(W, b, st.scope, cur, s.expr.value, st.scope.ret)
    ensures s.If? ==> ValueSite(W, b, st.scope, cur, s.cond)
    ensures s.Switch? ==> ValueSite(W, b, st.scope, cur, s.scrutinee)
  {
    hide LowerValue, LowerValueAs, LowerIf, LowerWhile, LowerSwitch, LowerScrutinee, BindLocal, SupportedType, GlobalsOk, ScopeOk, SwitchableType;
    var ls := LowerStmt(W.S, b, st, cur, s);
    if s.VarDecl? {
      DeclSite(W, b, st, cur, s, ls);
    } else if s.Return? && s.expr.Some? {
      var x := LowerValueAs(W.S, b, st.scope, cur, s.expr.value, st.scope.ret);
      StmtSimulation.CodeOfReturn(W, b, st.scope, cur, s.expr.value, x, ls.b);
    } else if s.If? {
      StmtSimulation.CodeOfIf(W, b, st, cur, s, ls, LowerValue(W.S, b, st.scope, cur, s.cond));
    } else if s.Switch? {
      var t := LowerScrutinee(W.S, b, st.scope, cur, s.scrutinee);
      StmtSimulation.CodeOfSwitch(W, b, st, cur, s, ls, t);
      StmtSimulation.CodeOfScrutinee(W, b, st.scope, cur, s.scrutinee, t, LowerValue(W.S, b, st.scope, cur, s.scrutinee));
    }
  }

  lemma DeclSite(W: World, b: Bld, st: FuncState, cur: nat, s: Stmt, ls: LoweredStmt)
    requires s.VarDecl? && ls == LowerStmt(W.S, b, st, cur, s) && Site(W, b, st.scope, cur, ls.b, ls.st.cur)
    ensures s.init.Some? && BindingType(s).Some? && ValueAsSite(W, b, st.scope, cur, s.init.value, BindingType(s).value)
  {
    hide LowerStmt, LowerValueAs, BindLocal, SupportedType, GlobalsOk, ScopeOk;
    VarDeclParts(W.S, b, st, cur, s, ls);
    var ty := BindingType(s).value;
    StmtSimulation.CodeOfVarDecl(W, b, st, cur, s, ty, ls, LowerValueAs(W.S, b, st.scope, cur, s.init.value, ty));
  }

  // ---- All of a function -----------------------------------------------------------------

  /** A part of a function, and the names in scope there. */
  datatype Part = ExprPart(names: Names, expr: Expr) | StmtPart(names: Names, stmt: Stmt)

  /** The part is the expression or in it. The fallback of an `a ?? b` is lowered only where `a` has an id, and
      `null` is no part of its own, since what is made of it depends on the type wanted. */
  predicate InValue(S: Program, N: Names, e: Expr, p: Part)
    decreases e
  {
    (p == ExprPart(N, e) && !e.NullLit?) ||
    match e
    case Unary(_, _, a) => InValue(S, N, a, p)
    case Cast(_, _, _, a) => InValue(S, N, a, p)
    case Binary(_, tok, a, b) => InValue(S, N, a, p) || ((tok == QuestionQuestion ==> HasId(S, N, a)) && InValue(S, N, b, p))
    case Call(_, _, args, _, _, _) => exists i :: 0 <= i < |args| && InValue(S, N, args[i], p)
    case Assign(_, _, rhs) => InValue(S, N, rhs, p)
    case _ => false
  }

  /** The cases of a `switch` are lowered only where its scrutinee has an id. */
  predicate InStmt(S: Program, N: Names, s: Stmt, p: Part)
    decreases s, 1
  {
    p == StmtPart(N, s) ||
    match s
    case ExprStmt(e) => e.Some? && InValue(S, N, e.value, p)
    case VarDecl(_, _, _, _, _, init) => init.Some? && InValue(S, N, init.value, p)
    case If(cond, thn, els) => InValue(S, N, cond, p) || InList(S, N, thn, p) || InList(S, N, els, p)
    case While(cond, body) => InValue(S, N, cond, p) || InList(S, N, body, p)
    case Switch(e, cases) =>
      InValue(S, N, e, p) || (HasId(S, N, e) && exists i :: 0 <= i < |cases| && InList(S, N, cases[i].body, p))
    case Return(e) => e.Some? && InValue(S, N, e.value, p)
    case OtherStmt => false
  }

  /** Statements after a `return` are not lowered. */
  predicate InList(S: Program, N: Names, stmts: seq<Stmt>, p: Part)
    decreases stmts, 0
  {
    stmts != [] &&
    (InStmt(S, N, stmts[0], p) || (!stmts[0].Return? && InList(S, NamesAfter(S, N, stmts[0]), stmts[1..], p)))
  }

  /** The part has a place, in function `fi` and with its names in scope. */
  ghost predicate HasSite(W: World, fi: nat, p: Part) {
    match p
    case ExprPart(N, e) =>
      exists b: Bld, sc: Scope, cur: nat :: ValueSite(W, b, sc, cur, e) && sc.owner == fi && NamesOf(sc.locals) == N
    case StmtPart(N, s) =>
      exists b: Bld, st: FuncState, cur: nat :: StmtSite(W, b, st, cur, s) && st.scope.owner == fi && NamesOf(st.scope.locals) == N
  }

  lemma {:induction false} ValuePlaces(W: World, b: Bld, sc: Scope, cur: nat, e: Expr, p: Part)
    requires VerifyOk(W.M) && ValueSite(W, b, sc, cur, e) && InValue(W.S, NamesOf(sc.locals), e, p)
    ensures HasSite(W, sc.owner, p)
    decreases e, 1
  {
    hide VerifyOk, ValueSite, ValueAsSite, ArgsSite, NamesOf, HasId, LowerValue, HasSite, PlaceType;
    var N := NamesOf(sc.locals);
    if p == ExprPart(N, e) && !e.NullLit? {
      assert HasSite(W, sc.owner, p) by { Found(W, b, sc, cur, e, p); }
    } else if e.Unary? || e.Cast? {
      OperandSite(W, b, sc, cur, e);
      ValuePlaces(W, b, sc, cur, e.a, p);
    } else if e.Binary? && e.tok == QuestionQuestion {
      CoalescePlaces(W, b, sc, cur, e, p);
    } else if e.Binary? {
      var x := LowerValue(W.S, b, sc, cur, e.a);
      BinarySites(W, b, sc, cur, e, x);
      if InValue(W.S, N, e.a, p) {
        ValuePlaces(W, b, sc, cur, e.a, p);
      } else {
        ValuePlaces(W, x.b, sc, x.cur, e.b, p);
      }
    } else if e.Call? {
      CallSite(W, b, sc, cur, e);
      var i :| 0 <= i < |e.args| && InValue(W.S, N, e.args[i], p);
      ArgsPlaces(W, b, sc, cur, e.args, Fragments.ArgTypes(W.S, e.callee), i, p);
    } else if e.Assign? {
      var b' := RightSite(W, b, sc, cur, e);
      ValueAsPlaces(W, b', sc, cur, e.rhs, PlaceType(W.S, N, e.place), p);
    }
  }

  lemma Found(W: World, b: Bld, sc: Scope, cur: nat, e: Expr, p: Part)
    requires ValueSite(W, b, sc, cur, e) && p == ExprPart(NamesOf(sc.locals), e)
    ensures HasSite(W, sc.owner, p)
  {
    hide ValueSite, NamesOf;
  }

  lemma {:induction false} ValueAsPlaces(W: World, b: Bld, sc: Scope, cur: nat, e: Expr, ty: Ty, p: Part)
    requires VerifyOk(W.M) && ValueAsSite(W, b, sc, cur, e, ty) && InValue(W.S, NamesOf(sc.locals), e, p)
    ensures HasSite(W, sc.owner, p)
    decreases e, 2
  {
    hide VerifyOk, ValueSite, ValueAsSite, NamesOf, HasId, HasSite;
    CoercedSite(W, b, sc, cur, e, ty);
    ValuePlaces(W, b, sc, cur, e, p);
  }

  lemma {:induction false} CoalescePlaces(W: World, b: Bld, sc: Scope, cur: nat, e: Expr, p: Part)
    requires VerifyOk(W.M) && ValueSite(W, b, sc, cur, e) && e.Binary? && e.tok == QuestionQuestion
    requires InValue(W.S, NamesOf(sc.locals), e.a, p) || (HasId(W.S, NamesOf(sc.locals), e.a) && InValue(W.S, NamesOf(sc.locals), e.b, p))
    ensures HasSite(W, sc.owner, p)
    decreases e, 0
  {
    hide VerifyOk, ValueSite, ValueAsSite, NamesOf, HasId, LowerValue, HasSite;
    if InValue(W.S, NamesOf(sc.locals), e.a, p) {
      LeftSite(W, b, sc, cur, e);
      ValuePlaces(W, b, sc, cur, e.a, p);
    } else {
      var b', cur' := FallbackSite(W, b, sc, cur, e);
      ValueAsPlaces(W, b', sc, cur', e.b, e.ty, p);
    }
  }

  lemma {:induction false} ArgsPlaces(W: World, b: Bld, sc: Scope, cur: nat, args: seq<Expr>, tys: seq<Ty>, i: nat, p: Part)
    requires VerifyOk(W.M) && ArgsSite(W, b, sc, cur, args, tys) && i < |args| && InValue(W.S, NamesOf(sc.locals), args[i], p)
    ensures HasSite(W, sc.owner, p)
    decreases args, 0
  {
    hide VerifyOk, ArgsSite, ValueAsSite, NamesOf, LowerValueAs, HasSite, InValue;
    var ty := if tys == [] then args[0].ty else tys[0];
    var x := LowerValueAs(W.S, b, sc, cur, args[0], ty);
    ArgSite(W, b, sc, cur, args, tys, ty, if tys == [] then [] else tys[1..], x);
    if i == 0 {
      ValueAsPlaces(W, b, sc, cur, args[0], ty, p);
    } else {
      ArgsPlaces(W, x.b, sc, x.cur, args[1..], if tys == [] then [] else tys[1..], i - 1, p);
    }
  }

  lemma {:induction false} StmtPlaces(W: World, b: Bld, st: FuncState, cur: nat, s: Stmt, p: Part)
    requires VerifyOk(W.M) && StmtSite(W, b, st, cur, s) && InStmt(W.S, NamesOf(st.scope.locals), s, p)
    ensures HasSite(W, st.scope.owner, p)
    decreases s, 1
  {
    hide VerifyOk, StmtSite, ListSite, ValueSite, ValueAsSite, NamesOf, HasId, HasSite, InValue, InList;
    var N := NamesOf(st.scope.locals);
    DirectSite(W, b, st, cur, s);
    if p == StmtPart(N, s) {
      assert HasSite(W, st.scope.owner, p) by { FoundStmt(W, b, st, cur, s, p); }
    } else if s.ExprStmt? {
      ValuePlaces(W, b, st.scope, cur, s.expr.value, p);
    } else if s.VarDecl? {
      ValueAsPlaces(W, b, st.scope, cur, s.init.value, BindingType(s).value, p);
    } else if s.Return? {
      ValueAsPlaces(W, b, st.scope, cur, s.expr.value, st.scope.ret, p);
    } else if s.If? {
      IfPlaces(W, b, st, cur, s, p);
    } else if s.While? {
      WhilePlaces(W, b, st, cur, s, p);
    } else if s.Switch? {
      SwitchPlaces(W, b, st, cur, s, p);
    }
  }

  lemma FoundStmt(W: World, b: Bld, st: FuncState, cur: nat, s: Stmt, p: Part)
    requires StmtSite(W, b, st, cur, s) && p == StmtPart(NamesOf(st.scope.locals), s)
    ensures HasSite(W, st.scope.owner, p)
  {
    hide StmtSite, NamesOf;
  }

  lemma {:induction false} IfPlaces(W: World, b: Bld, st: FuncState, cur: nat, s: Stmt, p: Part)
    requires VerifyOk(W.M) && StmtSite(W, b, st, cur, s) && s.If? && ValueSite(W, b, st.scope, cur, s.cond)
    requires var N := NamesOf(st.scope.locals); InValue(W.S, N, s.cond, p) || InList(W.S, N, s.thn, p) || InList(W.S, N, s.els, p)
    ensures HasSite(W, st.scope.owner, p)
    decreases s, 0
  {
    hide VerifyOk, StmtSite, ListSite, ValueSite, NamesOf, HasSite, InValue, InList;
    var N := NamesOf(st.scope.locals);
    if InValue(W.S, N, s.cond, p) {
      ValuePlaces(W, b, st.scope, cur, s.cond, p);
    } else {
      var t, b1, b2 := IfSites(W, b, st, cur, s);
      if InList(W.S, N, s.thn, p) {
        ListPlaces(W, b1, st, t, s.thn, p);
      } else {
        ListPlaces(W, b2, st, t + 1, s.els, p);
      }
    }
  }

  lemma {:induction false} WhilePlaces(W: World, b: Bld, st: FuncState, cur: nat, s: Stmt, p: Part)
    requires VerifyOk(W.M) && StmtSite(W, b, st, cur, s) && s.While?
    requires var N := NamesOf(st.scope.locals); InValue(W.S, N, s.cond, p) || InList(W.S, N, s.body, p)
    ensures HasSite(W, st.scope.owner, p)
    decreases s, 0
  {
    hide VerifyOk, StmtSite, ListSite, ValueSite, NamesOf, HasSite, InValue, InList;
    var b1, t, b2 := WhileSite(W, b, st, cur, s);
    if InValue(W.S, NamesOf(st.scope.locals), s.cond, p) {
      ValuePlaces(W, b1, st.scope, t, s.cond, p);
    } else {
      ListPlaces(W, b2, st, t + 1, s.body, p);
    }
  }

  lemma {:induction false} SwitchPlaces(W: World, b: Bld, st: FuncState, cur: nat, s: Stmt, p: Part)
    requires VerifyOk(W.M) && StmtSite(W, b, st, cur, s) && s.Switch? && ValueSite(W, b, st.scope, cur, s.scrutinee)
    requires var N := NamesOf(st.scope.locals);
             InValue(W.S, N, s.scrutinee, p) ||
             (HasId(W.S, N, s.scrutinee) && exists i :: 0 <= i < |s.cases| && InList(W.S, N, s.cases[i].body, p))
    ensures HasSite(W, st.scope.owner, p)
    decreases s, 0
  {
    hide VerifyOk, StmtSite, ListSite, ValueSite, NamesOf, HasId, HasSite, InValue, InList;
    var N := NamesOf(st.scope.locals);
    if InValue(W.S, N, s.scrutinee, p) {
      ValuePlaces(W, b, st.scope, cur, s.scrutinee, p);
    } else {
      var i :| 0 <= i < |s.cases| && InList(W.S, N, s.cases[i].body, p);
      var bb, bi := CaseSite(W, b, st, cur, s, i);
      ListPlaces(W, bi, st, bb, s.cases[i].body, p);
    }
  }

  lemma {:induction false} ListPlaces(W: World, b: Bld, st: FuncState, bb: nat, body: seq<Stmt>, p: Part)
    requires VerifyOk(W.M) && ListSite(W, b, st, bb, body) && InList(W.S, NamesOf(st.scope.locals), body, p)
    ensures HasSite(W, st.scope.owner, p)
    decreases body, 0
  {
    hide VerifyOk, StmtSite, ListSite, NamesOf, NamesAfter, HasSite, InStmt, LowerStmt;
    var st' := st.(cur := Some(bb));
    var l1 := LowerStmt(W.S, b, st', bb, body[0]);
    BlockSite(W, b, st, bb, body, l1);
    if InStmt(W.S, NamesOf(st.scope.locals), body[0], p) {
      StmtPlaces(W, b, st', bb, body[0], p);
    } else {
      ListPlaces(W, l1.b, l1.st, l1.st.cur.value, body[1..], p);
    }
  }

  /** Every part of an accepted well-typed program that is lowered has a place in the finished module. */
  lemma EveryPlace(P: Prims, S: Program, fi: nat, p: Part)
    requires Accepted(S) && WellTyped(S) && fi < |S.funcs| && !S.funcs[fi].isExtern
    requires InList(S, OpenBlock.ParamNames(S.funcs[fi].params), S.funcs[fi].body, p)
    ensures HasSite(World(P, S, LowerProgram(S).mod), fi, p)
  {
    hide LowerProgram, WellTyped, OpenBody, VerifyOk, NamesOf, ListSite, InList, HasSite, OpenBlock.ParamNames;
    var b := BodySite(P, S, fi);
    var o := OpenBody(b, S.funcs[fi], fi);
    ListPlaces(World(P, S, LowerProgram(S).mod), o.b, o.st, |b.mod.blocks|, S.funcs[fi].body, p);
  }
}
