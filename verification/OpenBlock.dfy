/** The builder's central discipline: while a function is lowered, of all the blocks made for it
    exactly the current one is open, and the others are closed and never change again. Where the
    builder keeps it is decided exactly, from the source alone and without the module checks: it
    breaks where an `a ?? b` is lowered whose payload is of unit type or whose `b` has no id. */
module OpenBlock {
  import opened Wrappers
  import opened Sir
  import opened SirSemantics
  import opened Goir
  import opened GoirVerify
  import opened Lowering
  import opened Growth
  import opened ValueIds
  import opened Fragments
  import opened SimulationBase
  import opened Correctness
  import opened Typing

  // ---- The condition ---------------------------------------------------------------------

  /** Both ways of every `??` that is lowered reach its join. */
  predicate Joins(S: Program, N: Names, e: Expr)
    decreases e
  {
    match e
    case Unary(_, _, a) => Joins(S, N, a)
    case Cast(_, _, _, a) => Joins(S, N, a)
    case Binary(ty, tok, a, b) =>
      if tok == QuestionQuestion then
        && Joins(S, N, a)
        && (HasId(S, N, a) && a.ty.Optional? ==> a.ty.elem != Unit && Joins(S, N, b) && HasIdAs(S, N, b, ty))
      else Joins(S, N, a) && Joins(S, N, b)
    case Call(_, _, args, _, _, _) => JoinsAll(S, N, args)
    case Assign(_, _, rhs) => Joins(S, N, rhs)
    case _ => true
  }

  predicate JoinsAll(S: Program, N: Names, args: seq<Expr>)
    decreases args
  {
    args == [] || (Joins(S, N, args[0]) && JoinsAll(S, N, args[1..]))
  }

  predicate StmtJoins(S: Program, N: Names, s: Stmt)
    decreases s, 0
  {
    match s
    case ExprStmt(e) => e.Some? ==> Joins(S, N, e.value)
    case VarDecl(_, _, _, _, _, init) => init.Some? ==> Joins(S, N, init.value)
    case If(cond, thn, els) => Joins(S, N, cond) && BlockJoins(S, N, thn) && BlockJoins(S, N, els)
    case While(cond, body) => Joins(S, N, cond) && BlockJoins(S, N, body)
    case Switch(e, cases) => Joins(S, N, e) && (HasId(S, N, e) ==> CasesJoin(S, N, cases))
    case Return(e) => e.Some? ==> Joins(S, N, e.value)
    case OtherStmt => true
  }

  /** Statements after a `return` are not lowered. */
  predicate BlockJoins(S: Program, N: Names, stmts: seq<Stmt>)
    decreases stmts, 0
  {
    stmts == [] || (StmtJoins(S, N, stmts[0]) && (stmts[0].Return? || BlockJoins(S, NamesAfter(S, N, stmts[0]), stmts[1..])))
  }

  predicate CasesJoin(S: Program, N: Names, cases: seq<Case>)
    decreases cases, 1
  {
    cases == [] || (BlockJoins(S, N, cases[0].body) && CasesJoin(S, N, cases[1..]))
  }

  // ---- The discipline --------------------------------------------------------------------

  /** Of the blocks of a fragment, from block `cur` of `b` to block `end` of `b'`, only `end` is open. */
  ghost predicate OneOpen(b: Bld, cur: nat, b': Bld, end: Option<nat>) {
    && (forall x :: 0 <= x < |b'.mod.blocks| && (x == cur || |b.mod.blocks| <= x) && end != Some(x) ==>
          b'.mod.blocks[x].term.Some?)
    && (end.Some? ==> OpenAt(b', end.value))
  }

  /** A block of the fragment was left open that is not the current one. */
  ghost predicate Stray(b: Bld, b': Bld, end: Option<nat>) {
    exists x :: |b.mod.blocks| <= x && OpenAt(b', x) && end != Some(x)
  }

  ghost predicate Shuts(b: Bld, cur: nat, b': Bld, end: Option<nat>, joins: bool) {
    if joins then OneOpen(b, cur, b', end) else Stray(b, b', end)
  }

  lemma InstsShut(b: Bld, cur: nat, b': Bld)
    requires OnlyInsts(b, cur, b') && OpenAt(b, cur)
    ensures Shuts(b, cur, b', Some(cur), true)
  {
  }

  lemma TermShuts(b: Bld, cur: nat, term: Term)
    requires OpenAt(b, cur)
    ensures Shuts(b, cur, Terminate(b, cur, term), None, true)
  {
  }

  /** A block left behind stays open, whatever is lowered next. */
  lemma StrayLater(b: Bld, b1: Bld, end1: Option<nat>, b2: Bld, end2: Option<nat>)
    requires Stray(b, b1, end1) && Touches(b1, b2, if end1.Some? then {end1.value} else {})
    requires end2.None? || end2 == end1 || |b1.mod.blocks| <= end2.value
    ensures Stray(b, b2, end2)
  {
    var x :| |b.mod.blocks| <= x && OpenAt(b1, x) && end1 != Some(x);
    assert OpenAt(b2, x) && end2 != Some(x);
  }

  /** Two fragments, the second going on where the first ends. */
  lemma ShutsSeq(b: Bld, cur: nat, b1: Bld, c1: nat, b2: Bld, end: Option<nat>, j1: bool, j2: bool)
    requires Grows(b, cur, b1, c1) && GrowsSt(b1, c1, b2, end)
    requires Shuts(b, cur, b1, Some(c1), j1) && (j1 ==> Shuts(b1, c1, b2, end, j2))
    ensures Shuts(b, cur, b2, end, j1 && j2)
  {
    if !j1 {
      StrayLater(b, b1, Some(c1), b2, end);
    } else if !j2 {
      var x :| |b1.mod.blocks| <= x && OpenAt(b2, x) && end != Some(x);
      assert |b.mod.blocks| <= x;
    }
  }

  // ---- Expressions ----------------------------------------------------------------------

  lemma {:induction false} ValueAsShuts(S: Program, b: Bld, sc: Scope, cur: nat, e: Expr, target: Ty, lo: Lowered)
    requires Ground(S, b, sc, cur) == true && OpenAt(b, cur) && lo == LowerValueAs(S, b, sc, cur, e, target) && lo.b.errs == []
    ensures Shuts(b, cur, lo.b, Some(lo.cur), Joins(S, NamesOf(sc.locals), e))
    decreases e, 2
  {
    hide LowerValue, LowerValueAs, GlobalsOk, ScopeOk, NamesOf, OnlyInsts, Shuts, OneOpen, Stray, Grows;
    ValueAsParts(S, b, sc, cur, e, target, lo);
    if e.ty != target && target.Optional? && e.NullLit? {
      InstsShut(b, cur, lo.b);
    } else {
      var x := LowerValue(S, b, sc, cur, e);
      ValueShuts(S, b, sc, cur, e, x);
      TailShuts(b, cur, x.b, x.cur, lo.b, Joins(S, NamesOf(sc.locals), e));
    }
  }

  /** Some instructions more. */
  lemma TailShuts(b: Bld, cur: nat, b1: Bld, c1: nat, b2: Bld, j: bool)
    requires Grows(b, cur, b1, c1) && Grows(b1, c1, b2, c1) && OnlyInsts(b1, c1, b2) && Shuts(b, cur, b1, Some(c1), j)
    ensures Shuts(b, cur, b2, Some(c1), j)
  {
    if j {
      InstsShut(b1, c1, b2);
    }
    ShutsSeq(b, cur, b1, c1, b2, Some(c1), j, true);
  }

  /** Lowering an expression from an open block: of the blocks made only the current one is open if
      and only if every `??` lowered joins. */
  lemma {:induction false} ValueShuts(S: Program, b: Bld, sc: Scope, cur: nat, e: Expr, lo: Lowered)
    requires Ground(S, b, sc, cur) == true && OpenAt(b, cur) && lo == LowerValue(S, b, sc, cur, e) && lo.b.errs == []
    ensures Shuts(b, cur, lo.b, Some(lo.cur), Joins(S, NamesOf(sc.locals), e))
    decreases e, 1
  {
    hide LowerLocal, LowerGlobal, LowerLiteral, LowerOperand, LowerBinary, LowerCoalesce, LowerCall, LowerAssign, Emit,
      GlobalsOk, ScopeOk, NamesOf, OnlyInsts, Shuts, OneOpen, Stray, Grows, HasId, HasIdAs;
    if Leaf(e) {
      LeafOnly(S, b, sc, cur, e, lo);
      InstsShut(b, cur, lo.b);
    } else if e.Unary? || e.Cast? {
      var x := LowerValue(S, b, sc, cur, e.a);
      OperandParts(S, b, sc, cur, e, lo, x);
      ValueShuts(S, b, sc, cur, e.a, x);
      TailShuts(b, cur, x.b, x.cur, lo.b, Joins(S, NamesOf(sc.locals), e.a));
    } else if e.Binary? && e.tok == QuestionQuestion {
      CoalesceShuts(S, b, sc, cur, e, lo);
    } else if e.Binary? {
      BinaryShuts(S, b, sc, cur, e, lo);
    } else if e.Call? {
      var xs := LowerArgs(S, b, sc, cur, e.args, ArgTypes(S, e.callee));
      CallParts(S, b, sc, cur, e, lo, xs);
      ArgsShut(S, b, sc, cur, e.args, ArgTypes(S, e.callee), xs);
      TailShuts(b, cur, xs.b, xs.cur, lo.b, JoinsAll(S, NamesOf(sc.locals), e.args));
    } else {
      AssignShuts(S, b, sc, cur, e, lo);
    }
  }

  lemma {:induction false} BinaryShuts(S: Program, b: Bld, sc: Scope, cur: nat, e: Expr, lo: Lowered)
    requires Ground(S, b, sc, cur) == true && OpenAt(b, cur) && e.Binary? && lo == LowerBinary(S, b, sc, cur, e) && lo.b.errs == []
    ensures Shuts(b, cur, lo.b, Some(lo.cur), Joins(S, NamesOf(sc.locals), e.a) && Joins(S, NamesOf(sc.locals), e.b))
    decreases e, 0
  {
    hide LowerValue, LowerBinary, GlobalsOk, ScopeOk, NamesOf, OnlyInsts, Touches, Stray, Joins;
    var x := LowerValue(S, b, sc, cur, e.a);
    var y := LowerValue(S, x.b, sc, x.cur, e.b);
    var ja, jb := Joins(S, NamesOf(sc.locals), e.a), Joins(S, NamesOf(sc.locals), e.b);
    BinaryParts(S, b, sc, cur, e, lo, x, y);
    ValueShuts(S, b, sc, cur, e.a, x);
    if ja {
      ValueShuts(S, x.b, sc, x.cur, e.b, y);
    }
    ShutsSeq(b, cur, x.b, x.cur, y.b, Some(y.cur), ja, jb);
    GrowsTrans(b, cur, x.b, x.cur, y.b, y.cur);
    TailShuts(b, cur, y.b, y.cur, lo.b, ja && jb);
  }

  lemma {:induction false} AssignShuts(S: Program, b: Bld, sc: Scope, cur: nat, e: Expr, lo: Lowered)
    requires Ground(S, b, sc, cur) == true && OpenAt(b, cur) && e.Assign? && lo == LowerAssign(S, b, sc, cur, e) && lo.b.errs == []
    ensures Shuts(b, cur, lo.b, Some(lo.cur), Joins(S, NamesOf(sc.locals), e.rhs))
    decreases e, 0
  {
    hide LowerValueAs, LowerAssign, LowerPlace, GlobalsOk, ScopeOk, NamesOf, Touches, Stray, Joins, EmitStore;
    var p := LowerPlace(S, b, sc, cur, e.place);
    var ty := PlaceType(S, NamesOf(sc.locals), e.place);
    var r := LowerValueAs(S, p.b, sc, cur, e.rhs, ty);
    var j := Joins(S, NamesOf(sc.locals), e.rhs);
    AssignParts(S, b, sc, cur, e, lo, p, ty, r);
    InstsShut(b, cur, p.b);
    ValueAsShuts(S, p.b, sc, cur, e.rhs, ty, r);
    ShutsSeq(b, cur, p.b, cur, r.b, Some(r.cur), true, j);
    GrowsTrans(b, cur, p.b, cur, r.b, r.cur);
    TailShuts(b, cur, r.b, r.cur, lo.b, j);
  }

  lemma {:induction false} ArgsShut(S: Program, b: Bld, sc: Scope, cur: nat, args: seq<Expr>, tys: seq<Ty>, xs: LoweredArgs)
    requires Ground(S, b, sc, cur) == true && OpenAt(b, cur) && xs == LowerArgs(S, b, sc, cur, args, tys) && xs.b.errs == []
    ensures Shuts(b, cur, xs.b, Some(xs.cur), JoinsAll(S, NamesOf(sc.locals), args))
    decreases args, 0
  {
    hide LowerValueAs, GlobalsOk, ScopeOk, NamesOf, Touches, Stray, Joins;
    if args != [] {
      var ty := if tys == [] then args[0].ty else tys[0];
      var rest := if tys == [] then [] else tys[1..];
      var x := LowerValueAs(S, b, sc, cur, args[0], ty);
      var ys := LowerArgs(S, x.b, sc, x.cur, args[1..], rest);
      var j, js := Joins(S, NamesOf(sc.locals), args[0]), JoinsAll(S, NamesOf(sc.locals), args[1..]);
      ArgsParts(S, b, sc, cur, args, tys, ty, rest, xs, x, ys);
      ValueAsShuts(S, b, sc, cur, args[0], ty, x);
      if j {
        ArgsShut(S, x.b, sc, x.cur, args[1..], rest, ys);
      }
      ShutsSeq(b, cur, x.b, x.cur, ys.b, Some(ys.cur), j, js);
    }
  }

  lemma {:induction false} CoalesceShuts(S: Program, b: Bld, sc: Scope, cur: nat, e: Expr, lo: Lowered)
    requires Ground(S, b, sc, cur) == true && OpenAt(b, cur) && e.Binary? && lo == LowerCoalesce(S, b, sc, cur, e) && lo.b.errs == []
    requires e.tok == QuestionQuestion
    ensures Shuts(b, cur, lo.b, Some(lo.cur), Joins(S, NamesOf(sc.locals), e))
    decreases e, 0, 1
  {
    hide LowerValue, LowerCoalesceArms, GlobalsOk, ScopeOk, NamesOf, Touches, Stray, OneOpen, OnlyInsts, HasIdAs, HasId, PresenceTest;
    var N := NamesOf(sc.locals);
    if e.a.ty.Optional? {
      var x := LowerValue(S, b, sc, cur, e.a);
      CoalesceParts(S, b, sc, cur, e, lo, x);
      ValueId(S, b, sc, cur, e.a, x);
      ValueShuts(S, b, sc, cur, e.a, x);
      if x.v.Some? {
        var t := PresenceTest(x);
        var j := e.a.ty.elem != Unit && Joins(S, N, e.b) && HasIdAs(S, N, e.b, e.ty);
        TestShuts(b, cur, x, t, Joins(S, N, e.a));
        if Joins(S, N, e.a) {
          OneOpenEnd(b, cur, t.b, t.cur);
          ArmsShut(S, t.b, sc, t.cur, e, x.v, t.v, lo);
        }
        GrowsCoalesceArms(S, t.b, sc, t.cur, e, x.v, t.v);
        ShutsSeq(b, cur, t.b, t.cur, lo.b, Some(lo.cur), Joins(S, N, e.a), j);
      }
    }
  }

  lemma OneOpenEnd(b: Bld, cur: nat, b': Bld, end: nat)
    requires Shuts(b, cur, b', Some(end), true)
    ensures OpenAt(b', end)
  {
  }

  lemma TestShuts(b: Bld, cur: nat, x: Lowered, t: Lowered, j: bool)
    requires Grows(b, cur, x.b, x.cur) && t == PresenceTest(x) && Shuts(b, cur, x.b, Some(x.cur), j)
    ensures Grows(b, cur, t.b, t.cur) && t.cur == x.cur && Shuts(b, cur, t.b, Some(t.cur), j)
  {
    hide Stray, OneOpen, Shuts;
    EmitOnly(x.b, x.cur, Bool, Pure, OpOptionalIsPresent(x.v), LayoutClass.Scalar);
    GrowsEmit(x.b, x.cur, Bool, Pure, OpOptionalIsPresent(x.v), LayoutClass.Scalar);
    GrowsTrans(b, cur, x.b, x.cur, t.b, t.cur);
    TailShuts(b, cur, x.b, x.cur, t.b, j);
  }

  /** The two ways of `a ?? b`: both reach the join, or a block is left open. */
  lemma {:induction false} ArmsShut(S: Program, b: Bld, sc: Scope, cur: nat, e: Expr, opt: Id, present: Id, lo: Lowered)
    requires Ground(S, b, sc, cur) == true && OpenAt(b, cur) && e.Binary? && e.a.ty.Optional?
    requires lo == LowerCoalesceArms(S, b, sc, cur, e, opt, present) && lo.b.errs == []
    ensures var N := NamesOf(sc.locals);
            Shuts(b, cur, lo.b, Some(lo.cur), e.a.ty.elem != Unit && Joins(S, N, e.b) && HasIdAs(S, N, e.b, e.ty))
    decreases e, 0, 0
  {
    hide LowerCoalesceArms, CoalesceStages, LowerValueAs, GlobalsOk, ScopeOk, NamesOf, Joins, HasIdAs, Ground, Shuts,
      OnlyInsts, CoalesceBlocks, Touches, Terminate, Stray;
    var N := NamesOf(sc.locals);
    var a := CoalesceStages(S, b, sc, cur, e, opt, present);
    ArmsParts(S, b, sc, cur, e, opt, present, lo, a);
    GrowsCoalesceBlocks(b, sc.owner, cur, e.ty, present);
    if a.got.v.None? {
      NoPayload(b, cur, a);
    } else {
      FirstWay(b, cur, a);
      ValueAsShuts(S, a.b2, sc, a.s + 1, e.b, e.ty, a.y);
      ValueAsId(S, a.b2, sc, a.s + 1, e.b, e.ty, a.y);
      BothWays(b, cur, a, lo, Joins(S, N, e.b));
    }
  }

  lemma NoPayload(b: Bld, cur: nat, a: ArmsCode)
    requires StagesGrow(b, cur, a) && a.b1.mod.blocks[a.s + 1] == EMPTY_BLOCK
    ensures Shuts(b, cur, a.got.b, Some(cur), false)
  {
    assert a.got.b.mod.blocks[a.s + 1] == EMPTY_BLOCK;
    assert OpenAt(a.got.b, a.s + 1);
  }

  /** After the present way its block is closed; the absent way's and the join are open. */
  lemma FirstWay(b: Bld, cur: nat, a: ArmsCode)
    requires StagesGrow(b, cur, a) && OpenAt(b, cur) && a.b1.mod.blocks[a.s] == EMPTY_BLOCK && a.b1.mod.blocks[a.s + 1] == EMPTY_BLOCK
    requires a.b1.mod.blocks[a.s + 2].term.None? && a.b1.mod.blocks[cur].term.Some?
    requires OnlyInsts(a.b1, a.s, a.got.b) && a.got.v.Some? && a.b2 == Terminate(a.got.b, a.s, TermBr(a.s + 2, [a.got.v]))
    ensures OpenAt(a.b2, a.s + 1) && OpenAt(a.b2, a.s + 2) && a.b2.mod.blocks[a.s].term.Some? && a.b2.mod.blocks[cur].term.Some?
  {
  }

  lemma BothWays(b: Bld, cur: nat, a: ArmsCode, lo: Lowered, j: bool)
    requires StagesGrow(b, cur, a) == true && OpenAt(a.b2, a.s + 1) && OpenAt(a.b2, a.s + 2)
    requires a.b2.mod.blocks[a.s].term.Some? && a.b2.mod.blocks[cur].term.Some?
    requires Shuts(a.b2, a.s + 1, a.y.b, Some(a.y.cur), j)
    requires lo == if a.y.v.None? then Lowered(a.y.b, cur, None)
                   else Lowered(Terminate(a.y.b, a.y.cur, TermBr(a.s + 2, [a.y.v])), a.s + 2, Some(|b.mod.values|))
    ensures Shuts(b, cur, lo.b, Some(lo.cur), j && a.y.v.Some?)
  {
    if a.y.v.None? {
      assert OpenAt(a.y.b, a.s + 2);
    } else if !j {
      var x :| |a.b2.mod.blocks| <= x && OpenAt(a.y.b, x) && Some(a.y.cur) != Some(x);
      assert OpenAt(lo.b, x);
    } else {
      forall x | 0 <= x < |lo.b.mod.blocks| && (x == cur || |b.mod.blocks| <= x) && x != a.s + 2
        ensures lo.b.mod.blocks[x].term.Some?
      {
        if x != a.y.cur && x < |a.b2.mod.blocks| && x != a.s + 1 {
          assert a.y.b.mod.blocks[x] == a.b2.mod.blocks[x];
        }
      }
    }
  }

  // ---- Statements -----------------------------------------------------------------------

  /** Lowering a statement from an open block: of the blocks made only the current one, if the path
      goes on, is open, if and only if every `??` lowered joins. */
  lemma {:induction false} StmtShuts(S: Program, b: Bld, st: FuncState, cur: nat, s: Stmt, ls: LoweredStmt)
    requires Ground(S, b, st.scope, cur) == true && OpenAt(b, cur) && ls == LowerStmt(S, b, st, cur, s) && ls.b.errs == []
    ensures Shuts(b, cur, ls.b, ls.st.cur, StmtJoins(S, NamesOf(st.scope.locals), s))
    ensures ls.st.cur.None? <==> s.Return?
    decreases s, 1
  {
    hide LowerValue, LowerValueAs, LowerIf, LowerWhile, LowerSwitch, GlobalsOk, ScopeOk, NamesOf, Joins, Touches, Stray, Ground,
      HasId, HasIdAs, BlockJoins, SupportedType, CasesJoin;
    var N := NamesOf(st.scope.locals);
    match s
    case ExprStmt(Some(e)) => ValueShuts(S, b, st.scope, cur, e, LowerValue(S, b, st.scope, cur, e));
    case VarDecl(_, _, _, _, _, _) => DeclShuts(S, b, st, cur, s, ls);
    case If(_, _, _) =>
      var c := LowerValue(S, b, st.scope, cur, s.cond);
      IfParts(S, b, st, cur, s, ls, c);
      ValueShuts(S, b, st.scope, cur, s.cond, c);
      if Joins(S, N, s.cond) {
        OneOpenEnd(b, cur, c.b, c.cur);
        IfArmsShut(S, c.b, st, c.cur, s, c.v, ls);
      }
      ShutsSeq(b, cur, c.b, c.cur, ls.b, ls.st.cur, Joins(S, N, s.cond), BlockJoins(S, N, s.thn) && BlockJoins(S, N, s.els));
      IfEnds(S, b, st, cur, s, ls);
    case While(_, _) => WhileShuts(S, b, st, cur, s, ls);
    case Switch(_, _) => SwitchShuts(S, b, st, cur, s, ls);
    case Return(Some(e)) => ReturnShuts(S, b, st, cur, s, e, ls);
    case _ =>
  }

  lemma IfEnds(S: Program, b: Bld, st: FuncState, cur: nat, s: Stmt, ls: LoweredStmt)
    requires s.If? && ls == LowerIf(S, b, st, cur, s)
    ensures ls.st.cur.Some?
  {
    hide LowerValue, LowerArm;
  }

  lemma {:induction false} DeclShuts(S: Program, b: Bld, st: FuncState, cur: nat, s: Stmt, ls: LoweredStmt)
    requires Ground(S, b, st.scope, cur) == true && OpenAt(b, cur) && s.VarDecl? && ls == LowerStmt(S, b, st, cur, s) && ls.b.errs == []
    ensures Shuts(b, cur, ls.b, ls.st.cur, StmtJoins(S, NamesOf(st.scope.locals), s)) && ls.st.cur.Some?
    decreases s, 0
  {
    hide LowerStmt, LowerValueAs, BindLocal, GlobalsOk, ScopeOk, NamesOf, Joins, OneOpen, Stray, Ground, OnlyInsts, SupportedType;
    VarDeclParts(S, b, st, cur, s, ls);
    var ty := BindingType(s).value;
    var x := LowerValueAs(S, b, st.scope, cur, s.init.value, ty);
    ValueAsShuts(S, b, st.scope, cur, s.init.value, ty, x);
    BoundOnly(x.b, st, x.cur, s, ty, x.v);
    TailShuts(b, cur, x.b, x.cur, ls.b, Joins(S, NamesOf(st.scope.locals), s.init.value));
  }

  lemma {:induction false} ReturnShuts(S: Program, b: Bld, st: FuncState, cur: nat, s: Stmt, e: Expr, ls: LoweredStmt)
    requires Ground(S, b, st.scope, cur) == true && OpenAt(b, cur) && s == Return(Some(e))
    requires ls == LowerStmt(S, b, st, cur, s) && ls.b.errs == []
    ensures Shuts(b, cur, ls.b, None, Joins(S, NamesOf(st.scope.locals), e)) && ls.st.cur == None
    decreases s, 0
  {
    hide LowerValueAs, GlobalsOk, ScopeOk, NamesOf, Joins, Ground, Shuts;
    var x := LowerValueAs(S, b, st.scope, cur, e, st.scope.ret);
    GrowsValueAs(S, b, st.scope, cur, e, st.scope.ret);
    ValueAsShuts(S, b, st.scope, cur, e, st.scope.ret, x);
    CloseShuts(b, cur, x.b, x.cur, TermRet(true, x.v), Joins(S, NamesOf(st.scope.locals), e));
  }

  /** Closing the block a fragment ends in. */
  lemma CloseShuts(b: Bld, cur: nat, b1: Bld, c1: nat, term: Term, j: bool)
    requires Grows(b, cur, b1, c1) && Shuts(b, cur, b1, Some(c1), j)
    ensures Shuts(b, cur, Terminate(b1, c1, term), None, j)
  {
    if j {
      TermShuts(b1, c1, term);
    }
    GrowsTerminate(b1, c1, term);
    ShutsSeq(b, cur, b1, c1, Terminate(b1, c1, term), None, j, true);
  }

  lemma {:induction false} BlockShuts(S: Program, b: Bld, st: FuncState, cur: nat, stmts: seq<Stmt>, ls: LoweredStmt)
    requires Ground(S, b, st.scope, cur) == true && OpenAt(b, cur) && st.cur == Some(cur)
    requires ls == LowerBlock(S, b, st, stmts) && ls.b.errs == []
    ensures Shuts(b, cur, ls.b, ls.st.cur, BlockJoins(S, NamesOf(st.scope.locals), stmts))
    decreases stmts, 0
  {
    hide LowerStmt, GlobalsOk, ScopeOk, NamesOf, NamesAfter, StmtJoins, Touches, Stray, Ground;
    var N := NamesOf(st.scope.locals);
    if stmts != [] {
      var l1 := LowerStmt(S, b, st, cur, stmts[0]);
      BlockParts(S, b, st, cur, stmts, l1, ls);
      StmtShuts(S, b, st, cur, stmts[0], l1);
      if l1.st.cur.Some? {
        var j, js := StmtJoins(S, N, stmts[0]), BlockJoins(S, NamesOf(l1.st.scope.locals), stmts[1..]);
        if j {
          OneOpenEnd(b, cur, l1.b, l1.st.cur.value);
          BlockShuts(S, l1.b, l1.st, l1.st.cur.value, stmts[1..], ls);
        }
        ShutsSeq(b, cur, l1.b, l1.st.cur.value, ls.b, ls.st.cur, j, js);
      }
    }
  }

  lemma {:induction false} ArmShuts(S: Program, b: Bld, st: FuncState, bb: nat, body: seq<Stmt>, target: nat, b': Bld)
    requires Ground(S, b, st.scope, bb) == true && OpenAt(b, bb) && b' == LowerArm(S, b, st, bb, body, target) && b'.errs == []
    ensures Shuts(b, bb, b', None, BlockJoins(S, NamesOf(st.scope.locals), body))
    decreases body, 1
  {
    hide LowerBlock, GlobalsOk, ScopeOk, NamesOf, BlockJoins, Shuts, Touches;
    var r := LowerBlock(S, b, st.(cur := Some(bb)), body);
    ArmParts(S, b, st, bb, body, target, r, b');
    BlockShuts(S, b, st.(cur := Some(bb)), bb, body, r);
    if r.st.cur.Some? {
      CloseShuts(b, bb, r.b, r.st.cur.value, TermBr(target, []), BlockJoins(S, NamesOf(st.scope.locals), body));
    }
  }

  /** A fork, then work that closes the first two of the new blocks in turn: the third is left. */
  lemma ForkShuts(S: Program, b: Bld, sc: Scope, cur: nat, term: Term, k: Forked, j1: bool, j2: bool)
    requires ForkGrows(S, b, sc, cur, term, k) && OpenAt(b, cur) && ForkOpen(b, cur, k)
    requires Shuts(k.b1, k.t, k.b2, None, j1) && Shuts(k.b2, k.t + 1, k.b3, None, j2)
    ensures Shuts(b, cur, k.b3, Some(k.t + 2), j1 && j2)
  {
    hide AddThreeBlocks, Terminate, Ground;
    if !j1 {
      var x :| |k.b1.mod.blocks| <= x && OpenAt(k.b2, x) && None != Some(x);
      assert OpenAt(k.b3, x);
    } else if !j2 {
      var x :| |k.b2.mod.blocks| <= x && OpenAt(k.b3, x) && None != Some(x);
      assert |b.mod.blocks| <= x && Some(k.t + 2) != Some(x);
    } else {
      assert k.b3.mod.blocks[k.t + 2] == k.b2.mod.blocks[k.t + 2] == k.b1.mod.blocks[k.t + 2];
      forall x | 0 <= x < |k.b3.mod.blocks| && (x == cur || |b.mod.blocks| <= x) && x != k.t + 2
        ensures k.b3.mod.blocks[x].term.Some?
      {
        if x < |k.b2.mod.blocks| && x != k.t + 1 {
          assert k.b3.mod.blocks[x] == k.b2.mod.blocks[x];
          if x < |k.b1.mod.blocks| && x != k.t {
            assert k.b2.mod.blocks[x] == k.b1.mod.blocks[x];
          }
        }
      }
    }
  }

  ghost predicate ForkOpen(b: Bld, cur: nat, k: Forked) {
    && k.t + 2 < |k.b1.mod.blocks| && cur < |k.b1.mod.blocks| && k.b1.mod.blocks[cur].term.Some?
    && OpenAt(k.b1, k.t) && OpenAt(k.b1, k.t + 1) && OpenAt(k.b1, k.t + 2)
  }

  lemma ForkIsOpen(S: Program, b: Bld, sc: Scope, cur: nat, term: Term, k: Forked)
    requires ForkGrows(S, b, sc, cur, term, k) && OpenAt(b, cur)
    ensures ForkOpen(b, cur, k) && OpenAt(k.b2, k.t + 1)
  {
    hide AddThreeBlocks, Terminate, Ground;
    GrowsFork(b, sc.owner, cur, term);
    assert k.b2.mod.blocks[k.t + 1] == k.b1.mod.blocks[k.t + 1];
  }

  lemma {:induction false} IfArmsShut(S: Program, b: Bld, st: FuncState, cur: nat, s: Stmt, cond: Id, ls: LoweredStmt)
    requires Ground(S, b, st.scope, cur) == true && OpenAt(b, cur) && b.errs == [] && s.If?
    requires ls == LowerIfArms(S, b, st, cur, s, cond) && ls.b.errs == []
    ensures var N := NamesOf(st.scope.locals); Shuts(b, cur, ls.b, ls.st.cur, BlockJoins(S, N, s.thn) && BlockJoins(S, N, s.els))
    decreases s, 0
  {
    hide LowerArm, LowerIfArms, GlobalsOk, ScopeOk, NamesOf, BlockJoins, Shuts, Touches, Terminate, AddThreeBlocks, ForkOpen, Ground;
    var N := NamesOf(st.scope.locals);
    var k := IfArmsParts(S, b, st, cur, s, cond, ls);
    var term := TermCondBr(cond, k.t, k.t + 1);
    ForkIsOpen(S, b, st.scope, cur, term, k);
    assert OpenAt(k.b1, k.t) by { ForkOpens(b, cur, k); }
    ArmShuts(S, k.b1, st, k.t, s.thn, k.t + 2, k.b2);
    ArmShuts(S, k.b2, st, k.t + 1, s.els, k.t + 2, k.b3);
    ForkShuts(S, b, st.scope, cur, term, k, BlockJoins(S, N, s.thn), BlockJoins(S, N, s.els));
  }

  lemma ForkOpens(b: Bld, cur: nat, k: Forked)
    requires ForkOpen(b, cur, k)
    ensures OpenAt(k.b1, k.t)
  {
  }

  lemma NoMessageBefore(S: Program, b: Bld, st: FuncState, cur: nat, s: Stmt, ls: LoweredStmt)
    requires cur < |b.mod.blocks| && s.While? && ls == LowerWhile(S, b, st, cur, s) && ls.b.errs == []
    ensures b.errs == []
  {
    GrowsWhile(S, b, st, cur, s);
  }

  lemma {:induction false} WhileShuts(S: Program, b: Bld, st: FuncState, cur: nat, s: Stmt, ls: LoweredStmt)
    requires Ground(S, b, st.scope, cur) == true && OpenAt(b, cur) && s.While? && ls == LowerWhile(S, b, st, cur, s) && ls.b.errs == []
    ensures Shuts(b, cur, ls.b, ls.st.cur, StmtJoins(S, NamesOf(st.scope.locals), s)) && ls.st.cur.Some?
    decreases s, 0
  {
    hide LowerArm, LowerWhile, LowerWhileHead, GlobalsOk, ScopeOk, NamesOf, Joins, BlockJoins, Shuts, Touches, Terminate,
      AddThreeBlocks, ForkOpen, Ground;
    var N := NamesOf(st.scope.locals);
    NoMessageBefore(S, b, st, cur, s, ls);
    var k := WhileParts(S, b, st, cur, s, ls);
    ForkIsOpen(S, b, st.scope, cur, TermBr(k.t, []), k);
    assert OpenAt(k.b1, k.t) by { ForkOpens(b, cur, k); }
    var c := LowerValue(S, k.b1, st.scope, k.t, s.cond);
    HeadParts(S, k.b1, st, k.t, s, k.b2, c);
    ValueShuts(S, k.b1, st.scope, k.t, s.cond, c);
    CloseShuts(k.b1, k.t, c.b, c.cur, TermCondBr(c.v, k.t + 1, k.t + 2), Joins(S, N, s.cond));
    ArmShuts(S, k.b2, st, k.t + 1, s.body, k.t, k.b3);
    ForkShuts(S, b, st.scope, cur, TermBr(k.t, []), k, Joins(S, N, s.cond), BlockJoins(S, N, s.body));
  }

  lemma {:induction false} SwitchShuts(S: Program, b: Bld, st: FuncState, cur: nat, s: Stmt, ls: LoweredStmt)
    requires Ground(S, b, st.scope, cur) == true && OpenAt(b, cur) && s.Switch? && ls == LowerSwitch(S, b, st, cur, s) && ls.b.errs == []
    ensures Shuts(b, cur, ls.b, ls.st.cur, StmtJoins(S, NamesOf(st.scope.locals), s)) && ls.st.cur.Some?
    decreases s, 0, 1
  {
    hide LowerSwitch, LowerSwitchArms, LowerValue, GlobalsOk, ScopeOk, NamesOf, Joins, CasesJoin, HasId, Shuts, Touches, OnlyInsts,
      Ground, PresenceTest, SwitchableType;
    var N := NamesOf(st.scope.locals);
    var x := LowerValue(S, b, st.scope, cur, s.scrutinee);
    var v := if x.v.None? || !s.scrutinee.ty.Optional? then x else PresenceTest(x);
    SwitchParts(S, b, st, cur, s, ls, x, v);
    ValueId(S, b, st.scope, cur, s.scrutinee, x);
    ValueShuts(S, b, st.scope, cur, s.scrutinee, x);
    var j := Joins(S, N, s.scrutinee);
    TailShuts(b, cur, x.b, x.cur, v.b, j);
    if v.v.Some? {
      GrowsTrans(b, cur, x.b, x.cur, v.b, v.cur);
      if j {
        OneOpenEnd(b, cur, v.b, v.cur);
        SwitchArmsShut(S, v.b, st, v.cur, s, v.v, ls);
      }
      SwitchEnds(S, v.b, st, v.cur, s, v.v, ls);
      ShutsSeq(b, cur, v.b, v.cur, ls.b, ls.st.cur, j, CasesJoin(S, N, s.cases));
    }
  }

  lemma SwitchEnds(S: Program, b: Bld, st: FuncState, cur: nat, s: Stmt, v: Id, ls: LoweredStmt)
    requires s.Switch? && ls == LowerSwitchArms(S, b, st, cur, s, v)
    ensures ls.st.cur.Some?
  {
    hide AddCases, LowerCases;
  }

  lemma {:induction false} SwitchArmsShut(S: Program, b: Bld, st: FuncState, cur: nat, s: Stmt, v: Id, ls: LoweredStmt)
    requires Ground(S, b, st.scope, cur) == true && OpenAt(b, cur) && b.errs == [] && s.Switch?
    requires ls == LowerSwitchArms(S, b, st, cur, s, v) && ls.b.errs == []
    ensures Shuts(b, cur, ls.b, ls.st.cur, CasesJoin(S, NamesOf(st.scope.locals), s.cases))
    decreases s, 0, 0
  {
    hide LowerSwitchArms, AddCases, LowerCases, AddBlock, Terminate, GlobalsOk, ScopeOk, NamesOf, CasesJoin;
    var k := SwitchArmsParts(S, b, st, cur, s, v, ls);
    assert Ground(S, k.b1, st.scope, k.t + 1) || s.cases == [];
    CasesShut(S, k.b1, st, k.t + 1, s.cases, k.t, ls.b);
    GrowsCases(S, k.b1, st, k.t + 1, s.cases, k.t);
    CasesDone(b, cur, k, |s.cases|, ls.b, CasesJoin(S, NamesOf(st.scope.locals), s.cases));
  }

  lemma CasesDone(b: Bld, cur: nat, k: Switched, n: nat, b': Bld, j: bool)
    requires k.t == |b.mod.blocks| && |k.b1.mod.blocks| == k.t + 1 + n && cur < |b.mod.blocks|
    requires k.b1.mod.blocks[k.t] == EMPTY_BLOCK && k.b1.mod.blocks[cur].term.Some?
    requires Touches(k.b1, b', Span(k.t + 1, n)) && SpanShut(k.b1, k.t + 1, n, b', j)
    ensures Shuts(b, cur, b', Some(k.t), j)
  {
    assert b'.mod.blocks[k.t] == k.b1.mod.blocks[k.t] && b'.mod.blocks[cur] == k.b1.mod.blocks[cur];
    if !j {
      var x :| |k.b1.mod.blocks| <= x && OpenAt(b', x);
      assert Some(k.t) != Some(x);
    }
  }

  /** Blocks `first` to `first + n` and those made since `b` are closed, or one of the latter is not. */
  ghost predicate SpanShut(b: Bld, first: nat, n: nat, b': Bld, joins: bool) {
    if joins then
      forall x :: 0 <= x < |b'.mod.blocks| && (first <= x < first + n || |b.mod.blocks| <= x) ==> b'.mod.blocks[x].term.Some?
    else exists x :: |b.mod.blocks| <= x && OpenAt(b', x)
  }

  lemma {:induction false} CasesShut(S: Program, b: Bld, st: FuncState, first: nat, cases: seq<Case>, after: nat, b': Bld)
    requires first + |cases| <= |b.mod.blocks| && (cases != [] ==> Ground(S, b, st.scope, first) == true)
    requires forall x :: first <= x < first + |cases| ==> OpenAt(b, x)
    requires b' == LowerCases(S, b, st, first, cases, after) && b'.errs == []
    ensures SpanShut(b, first, |cases|, b', CasesJoin(S, NamesOf(st.scope.locals), cases))
    decreases cases, 1
  {
    hide LowerArm, GlobalsOk, ScopeOk, NamesOf, BlockJoins, Ground;
    if cases != [] {
      var b1 := LowerArm(S, b, st, first, cases[0].body, after);
      CasesParts(S, b, st, first, cases, after, b1, b');
      ArmShuts(S, b, st, first, cases[0].body, after, b1);
      forall x | first < x < first + |cases|
        ensures OpenAt(b1, x)
      {
        assert OpenAt(b, x) && b1.mod.blocks[x] == b.mod.blocks[x];
      }
      assert cases[1..] != [] ==> |cases| > 1;
      CasesShut(S, b1, st, first + 1, cases[1..], after, b');
      var N := NamesOf(st.scope.locals);
      SpanSeq(b, first, |cases|, b1, b', BlockJoins(S, N, cases[0].body), CasesJoin(S, N, cases[1..]));
    }
  }

  lemma SpanSeq(b: Bld, first: nat, n: nat, b1: Bld, b': Bld, j: bool, js: bool)
    requires 0 < n && first + n <= |b.mod.blocks| && Touches(b, b1, {first}) && Touches(b1, b', Span(first + 1, n - 1))
    requires Shuts(b, first, b1, None, j) && SpanShut(b1, first + 1, n - 1, b', js)
    ensures SpanShut(b, first, n, b', j && js)
  {
    if !j {
      var x :| |b.mod.blocks| <= x && OpenAt(b1, x) && None != Some(x);
      assert OpenAt(b', x);
    } else if !js {
      var x :| |b1.mod.blocks| <= x && OpenAt(b', x);
      assert |b.mod.blocks| <= x;
    } else {
      forall x | 0 <= x < |b'.mod.blocks| && (first <= x < first + n || |b.mod.blocks| <= x)
        ensures b'.mod.blocks[x].term.Some?
      {
        if x < |b1.mod.blocks| && !(first + 1 <= x < first + n) {
          assert b'.mod.blocks[x] == b1.mod.blocks[x];
        }
      }
    }
  }

  // ---- Functions and programs -----------------------------------------------------------

  function ParamNames(params: seq<Param>): Names {
    if params == [] then map[]
    else ParamNames(params[..|params| - 1])[params[|params| - 1].sym := Name(params[|params| - 1].ty, true)]
  }

  predicate FuncJoins(S: Program, i: nat)
    requires i < |S.funcs|
  {
    S.funcs[i].isExtern || BlockJoins(S, ParamNames(S.funcs[i].params), S.funcs[i].body)
  }

  /** No function has a `??` that unwraps a unit, or whose fallback has no id. */
  predicate ProgramJoins(S: Program) { forall i :: 0 <= i < |S.funcs| ==> FuncJoins(S, i) }

  lemma {:induction false} ParamsScope(b: Bld, bb: nat, params: seq<Param>, owner: nat, ret: Ty)
    requires bb < |b.mod.blocks| && forall j :: 0 <= j < |params| ==> SupportedType(params[j].ty)
    ensures var r := AddParams(b, bb, params);
            && ScopeOk(r.b.mod.values, Scope(owner, ret, r.locals)) && NamesOf(r.locals) == ParamNames(params)
            && r.b.mod.(values := b.mod.values, blocks := b.mod.blocks) == b.mod && r.b.errs == b.errs
            && |r.b.mod.blocks| == |b.mod.blocks| && r.b.mod.blocks[bb].term == b.mod.blocks[bb].term
            && forall x :: 0 <= x < |b.mod.blocks| && x != bb ==> r.b.mod.blocks[x] == b.mod.blocks[x]
    decreases |params|
  {
    if params != [] {
      var n := |params| - 1;
      var r0 := AddParams(b, bb, params[..n]);
      ParamsScope(b, bb, params[..n], owner, ret);
      ParamScope(r0, bb, params[n], owner, ret, AddParams(b, bb, params));
    }
  }

  lemma ParamScope(r0: Params, bb: nat, p: Param, owner: nat, ret: Ty, r: Params)
    requires bb < |r0.b.mod.blocks| && SupportedType(p.ty) && ScopeOk(r0.b.mod.values, Scope(owner, ret, r0.locals))
    requires r.b == AddBlockParam(r0.b, bb, p.ty)
    requires r.locals == r0.locals[p.sym := Binding(Some(|r0.b.mod.values|), p.ty, ClassifyLayout(p.ty), false, false)]
    ensures ScopeOk(r.b.mod.values, Scope(owner, ret, r.locals)) && NamesOf(r.locals) == NamesOf(r0.locals)[p.sym := Name(p.ty, true)]
  {
    hide ClassifyLayout;
    forall n | n in r.locals
      ensures BindingOk(r.b.mod.values, r.locals[n])
    {
      if n != p.sym {
        assert BindingOk(r0.b.mod.values, r0.locals[n]);
      }
    }
  }

  /** A body opened: one new block, open, with a scope of the parameters. */
  lemma OpenedBody(S: Program, b: Bld, i: nat, o: LoweredStmt)
    requires i < |S.funcs| && GlobalsOk(S) && SupportedFunc(S.funcs[i]) && !S.funcs[i].isExtern && o == OpenBody(b, S.funcs[i], i)
    ensures o.st.cur == Some(|b.mod.blocks|) && OpenAt(o.b, |b.mod.blocks|) && |o.b.mod.blocks| == |b.mod.blocks| + 1
    ensures o.b.errs == b.errs && o.st.scope.owner == i
    ensures Ground(S, o.b, o.st.scope, |b.mod.blocks|) && NamesOf(o.st.scope.locals) == ParamNames(S.funcs[i].params)
  {
    hide NamesOf, ScopeOk, GlobalsOk;
    var bb := |b.mod.blocks|;
    var b0 := SetEntry(AddBlock(b, i), i, bb);
    ParamsScope(b0, bb, S.funcs[i].params, i, S.funcs[i].ret);
  }

  /** A body closed: if nothing was said, its end, if it is reached, returns. */
  lemma ClosedBody(b: Bld, cur: nat, b1: Bld, end: Option<nat>, ret: Ty, b': Bld, j: bool)
    requires GrowsSt(b, cur, b1, end) && Shuts(b, cur, b1, end, j) && b' == CloseBody(b1, end, ret) && b'.errs == []
    ensures Shuts(b, cur, b', None, j) && |b1.mod.blocks| == |b'.mod.blocks|
  {
    if !j {
      var x :| |b.mod.blocks| <= x && OpenAt(b1, x) && end != Some(x);
      assert OpenAt(b', x) && None != Some(x);
    }
  }

  /** One function, lowered without a message: all of its blocks are closed if and only if every `??`
      of it joins; otherwise one of them is open. */
  lemma FuncShuts(S: Program, b: Bld, i: nat)
    requires i < |S.funcs| && GlobalsOk(S) && SupportedFunc(S.funcs[i]) && !S.funcs[i].isExtern && LowerFunc(S, b, i).errs == []
    ensures var b' := LowerFunc(S, b, i);
            (forall x :: |b.mod.blocks| <= x < |b'.mod.blocks| ==> b'.mod.blocks[x].term.Some?) <==> FuncJoins(S, i)
  {
    hide OpenBody, LowerBlock, CloseBody, GlobalsOk, NamesOf, ScopeOk, SupportedFunc, BlockJoins, Touches;
    var fn := S.funcs[i];
    var o := OpenBody(b, fn, i);
    var cur := |b.mod.blocks|;
    var l := LowerBlock(S, o.b, o.st, fn.body);
    var b' := CloseBody(l.b, l.st.cur, fn.ret);
    OpenedBody(S, b, i, o);
    GrowsBlock(S, o.b, o.st, fn.body);
    NoMessageInBody(l.b, l.st.cur, fn.ret);
    BlockShuts(S, o.b, o.st, cur, fn.body, l);
    ClosedBody(o.b, cur, l.b, l.st.cur, fn.ret, b', FuncJoins(S, i));
    if !FuncJoins(S, i) {
      var x :| |o.b.mod.blocks| <= x && OpenAt(b', x) && None != Some(x);
      assert |b.mod.blocks| <= x < |b'.mod.blocks| && b'.mod.blocks[x].term.None?;
    }
  }

  lemma NoMessageInBody(b: Bld, cur: Option<nat>, ret: Ty)
    ensures CloseBody(b, cur, ret).errs == [] ==> b.errs == []
  {
  }

  lemma {:induction false} FuncsShut(S: Program, d: Bld, n: nat)
    requires n <= |S.funcs| == |d.mod.reals| && d.mod.blocks == [] && LowerFuncs(S, d, n).errs == [] && GlobalsOk(S)
    requires forall i :: 0 <= i < |S.funcs| ==> SupportedFunc(S.funcs[i])
    ensures var b := LowerFuncs(S, d, n);
            (forall x :: 0 <= x < |b.mod.blocks| ==> b.mod.blocks[x].term.Some?) <==> forall i :: 0 <= i < n ==> FuncJoins(S, i)
    decreases n
  {
    hide SupportedFunc, GlobalsOk, BlockJoins, LowerFunc;
    if n > 0 {
      var b1 := LowerFuncs(S, d, n - 1);
      var b := LowerFuncs(S, d, n);
      GrowsFuncs(S, d, n - 1, n);
      FuncsShut(S, d, n - 1);
      if S.funcs[n - 1].isExtern {
        assert b == b1 by { ExternLowers(S, b1, n - 1); }
      } else {
        FuncShuts(S, b1, n - 1);
        assert forall x :: 0 <= x < |b1.mod.blocks| ==> b.mod.blocks[x] == b1.mod.blocks[x];
      }
      assert (forall i :: 0 <= i < n ==> FuncJoins(S, i)) <==> FuncJoins(S, n - 1) && forall i :: 0 <= i < n - 1 ==> FuncJoins(S, i);
    }
  }

  lemma ExternLowers(S: Program, b: Bld, i: nat)
    requires i < |S.funcs| && S.funcs[i].isExtern
    ensures LowerFunc(S, b, i) == b
  {
  }

  /** The tables a program that lowers without a message starts from. */
  lemma DeclaredTables(S: Program) returns (d: Bld)
    requires LowerProgram(S).errs == []
    ensures d == Declare(S) && d.errs == [] && d.mod.blocks == [] && |d.mod.reals| == |S.funcs| && GlobalsOk(S)
    ensures forall i :: 0 <= i < |S.funcs| ==> SupportedFunc(S.funcs[i]) && d.mod.reals[i] == RealizationOf(S.funcs[i], i, i)
    ensures LowerProgram(S) == LowerFuncs(S, d, |S.funcs|)
  {
    d := Declare(S);
    var d0 := DeclareGlobals(Bld(EMPTY_MODULE, []), S.globals, |S.globals|);
    DeclaredGlobals(Bld(EMPTY_MODULE, []), S.globals, |S.globals|);
    assert d0.errs == [] && d == DeclareFuncs(d0, S.funcs, |S.funcs|);
    DeclaredFuncs(d0, S.funcs, |S.funcs|);
    NoBlocksYet(d0, S.funcs, |S.funcs|);
  }

  lemma {:induction false} NoBlocksYet(b: Bld, funcs: seq<Func>, n: nat)
    requires n <= |funcs|
    ensures DeclareFuncs(b, funcs, n).mod.blocks == b.mod.blocks
    decreases n
  {
    if n > 0 {
      NoBlocksYet(b, funcs, n - 1);
    }
  }

  /** A whole program, lowered without a message: every block has a terminator if and only if every
      `??` joins. The module checks' message for a block without one comes in exactly the other case. */
  lemma OneOpenBlock(S: Program)
    requires LowerProgram(S).errs == []
    ensures var m := LowerProgram(S).mod; (forall x :: 0 <= x < |m.blocks| ==> m.blocks[x].term.Some?) <==> ProgramJoins(S)
  {
    var d := DeclaredTables(S);
    FuncsShut(S, d, |S.funcs|);
  }
}
