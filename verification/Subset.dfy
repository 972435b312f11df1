/** Which programs the builder can build, decided from the source alone. A program lowers without a message
    if and only if all of its declarations, statements and expressions are of the forms listed here. */
module Subset {
  import opened Wrappers
  import opened Literals
  import opened Sir
  import opened SirSemantics
  import opened Goir
  import opened Lowering
  import opened Growth
  import opened Typing
  import opened ValueIds
  import opened Fragments
  import opened SimulationBase
  import opened Correctness
  import opened BlockEdges
  import OpenBlock
  import Meanings

  // ---- The subset -------------------------------------------------------------------------

  /** The locals that have a slot, and so can be assigned to. */
  type Slots = set<Sym>

  function SlotsOf(locals: map<Sym, Binding>): Slots { set s | s in locals && locals[s].isPlace }

  predicate KnownGlobal(S: Program, sym: Sym) { FindGlobal(S.globals, sym).Some? }

  /** What can be assigned to: locals with a slot, and globals. */
  predicate Assignable(S: Program, N: Names, M: Slots, place: Expr) {
    if place.Local? && place.sym in N then place.sym in M else (place.Local? || place.Global?) && KnownGlobal(S, place.sym)
  }

  /** An expression of the subset. What has no id stops the lowering of what needs it, without a message. */
  predicate Fine(S: Program, N: Names, M: Slots, e: Expr)
    decreases e, 0
  {
    match e
    case CharLit(_, text) => CharLiteralCode(text).Some?
    case Local(_, sym) => sym in N || KnownGlobal(S, sym)
    case Global(_, sym) => KnownGlobal(S, sym)
    case Unary(_, tok, a) => tok in {Plus, Minus, KwNot, Bang} && Fine(S, N, M, a)
    case Binary(ty, tok, a, b) =>
      if tok == QuestionQuestion then
        && a.ty.Optional? && Fine(S, N, M, a)
        && (HasId(S, N, a) && a.ty.elem != Unit ==> FineAs(S, N, M, b, ty))
      else
        && tok in {Plus, Minus, Star, Slash, Percent, Lt, LtEq, Gt, GtEq, EqEq, BangEq, KwAnd, KwOr}
        && Fine(S, N, M, a) && Fine(S, N, M, b)
    case Cast(_, _, _, a) => Fine(S, N, M, a)
    case Call(_, callee, args, isCore, isThrowing, _) =>
      !isCore && !isThrowing && FindFunc(S.funcs, callee).Some? && FineArgs(S, N, M, args, ArgTypes(S, callee))
    case EnumCtor(ty, _, argCount) => argCount == 0 && ty.TagEnum?
    case Assign(_, place, rhs) => Assignable(S, N, M, place) && FineAs(S, N, M, rhs, PlaceType(S, N, place))
    case OtherExpr(_) => false
    case _ => true
  }

  /** Where a type is wanted: it is the expression's, or the supported optional of it or for a `null`. */
  predicate FineAs(S: Program, N: Names, M: Slots, e: Expr, target: Ty)
    decreases e, 1
  {
    if e.ty == target then Fine(S, N, M, e)
    else if target.Optional? then
      SupportedType(target) && (e.NullLit? || (Fine(S, N, M, e) && (HasId(S, N, e) ==> e.ty == target.elem)))
    else Fine(S, N, M, e) && !HasId(S, N, e)
  }

  predicate FineArgs(S: Program, N: Names, M: Slots, args: seq<Expr>, tys: seq<Ty>)
    decreases args, 0
  {
    args == []
    || (FineAs(S, N, M, args[0], if tys == [] then args[0].ty else tys[0])
        && FineArgs(S, N, M, args[1..], if tys == [] then [] else tys[1..]))
  }

  /** A pattern that a switch over this type can have. */
  predicate PatternFits(ty: Ty, pat: Pattern) {
    if ty.Optional? then pat.NullPat?
    else
      match pat
      case IntPat(text) => ParseI64Literal(text).Some?
      case BoolPat(_) => true
      case CharPat(text) => CharLiteralCode(text).Some?
      case EnumPat(_) => ty.TagEnum?
      case _ => false
  }

  function SlotsAfter(M: Slots, s: Stmt): Slots {
    if s.VarDecl? && s.init.Some? then if s.isSet || s.isMut then M + {s.sym} else M - {s.sym} else M
  }

  predicate FineStmt(S: Program, N: Names, M: Slots, ret: Ty, s: Stmt)
    decreases s, 0
  {
    match s
    case ExprStmt(e) => e.Some? ==> Fine(S, N, M, e.value)
    case VarDecl(_, isStatic, _, _, _, init) =>
      && !isStatic && BindingType(s).Some? && SupportedType(BindingType(s).value)
      && init.Some? && FineAs(S, N, M, init.value, BindingType(s).value)
    case If(cond, thn, els) => Fine(S, N, M, cond) && FineBlock(S, N, M, ret, thn) && FineBlock(S, N, M, ret, els)
    case While(cond, body) => Fine(S, N, M, cond) && FineBlock(S, N, M, ret, body)
    case Switch(e, cases) =>
      && (forall i :: 0 <= i < |cases| ==> cases[i].enumBinds == 0 && (cases[i].isDefault || !cases[i].pat.StringPat?))
      && (e.ty.TagEnum? || e.ty.Optional? || e.ty.Bool? || e.ty.Char? || e.ty.Int?)
      && Fine(S, N, M, e)
      && (HasId(S, N, e) ==>
            && (forall i :: 0 <= i < |cases| ==> cases[i].isDefault || PatternFits(e.ty, cases[i].pat))
            && FineCases(S, N, M, ret, cases))
    case Return(e) => e.Some? ==> FineAs(S, N, M, e.value, ret)
    case OtherStmt => false
  }

  /** Statements after a `return` do not matter. */
  predicate FineBlock(S: Program, N: Names, M: Slots, ret: Ty, stmts: seq<Stmt>)
    decreases stmts, 0
  {
    stmts == []
    || (FineStmt(S, N, M, ret, stmts[0])
        && (stmts[0].Return? || FineBlock(S, NamesAfter(S, N, stmts[0]), SlotsAfter(M, stmts[0]), ret, stmts[1..])))
  }

  predicate FineCases(S: Program, N: Names, M: Slots, ret: Ty, cases: seq<Case>)
    decreases cases, 1
  {
    cases == [] || (FineBlock(S, N, M, ret, cases[0].body) && FineCases(S, N, M, ret, cases[1..]))
  }

  // ---- Expressions ------------------------------------------------------------------------

  lemma Later(S: Program, b: Bld, sc: Scope, cur: nat, b': Bld, cur': nat)
    requires Typed(S, b, sc, cur) && Grows(b, cur, b', cur')
    ensures Typed(S, b', sc, cur')
  {
    hide GlobalsOk;
    TypedLater(S, b, sc, cur, b', cur');
  }

  lemma FinePlace(S: Program, b: Bld, sc: Scope, cur: nat, place: Expr, p: Lowered)
    requires Typed(S, b, sc, cur) && b.errs == [] && p == LowerPlace(S, b, sc, cur, place)
    ensures p.b.errs == [] <==> Assignable(S, NamesOf(sc.locals), SlotsOf(sc.locals), place)
    ensures p.cur == cur
  {
  }

  lemma FineName(S: Program, b: Bld, sc: Scope, cur: nat, e: Expr, lo: Lowered)
    requires Typed(S, b, sc, cur) && b.errs == [] && (e.Local? || e.Global?) && lo == LowerValue(S, b, sc, cur, e)
    ensures lo.b.errs == [] <==> Fine(S, NamesOf(sc.locals), SlotsOf(sc.locals), e)
  {
    hide GlobalsOk, ScopeOk, ScopeTyped;
    var p := GlobalPlaceOf(S, b, cur, e.sym);
    assert p.b.errs == [] <==> KnownGlobal(S, e.sym);
  }

  lemma {:induction false} FineValueAs(S: Program, b: Bld, sc: Scope, cur: nat, e: Expr, target: Ty, lo: Lowered)
    requires Typed(S, b, sc, cur) && b.errs == [] && TypedExpr(S, TypesOf(sc.locals), e)
    requires lo == LowerValueAs(S, b, sc, cur, e, target)
    ensures lo.b.errs == [] <==> FineAs(S, NamesOf(sc.locals), SlotsOf(sc.locals), e, target)
    decreases e, 2
  {
    hide LowerValue, GlobalsOk, ScopeOk, ScopeTyped, HasId, Fine, TypedExpr, TypesOf, NamesOf, SlotsOf;
    if e.ty == target || !(target.Optional? && (ClassifyLayout(target) != OptionalScalar || e.NullLit?)) {
      var x := LowerValue(S, b, sc, cur, e);
      FineValue(S, b, sc, cur, e, x);
      if x.b.errs == [] {
        ValueId(S, b, sc, cur, e, x);
        ValueTy(S, b, sc, cur, e, x);
      }
    }
  }

  /** An expression lowers without a message if and only if it is of the subset. */
  lemma {:induction false} FineValue(S: Program, b: Bld, sc: Scope, cur: nat, e: Expr, lo: Lowered)
    requires Typed(S, b, sc, cur) && b.errs == [] && TypedExpr(S, TypesOf(sc.locals), e)
    requires lo == LowerValue(S, b, sc, cur, e)
    ensures lo.b.errs == [] <==> Fine(S, NamesOf(sc.locals), SlotsOf(sc.locals), e)
    decreases e, 1
  {
    hide LowerLocal, LowerGlobal, LowerOperand, LowerBinary, LowerCoalesce, LowerCall, LowerAssign,
      GlobalsOk, ScopeOk, ScopeTyped, HasId, HasIdAs, TypesOf, NamesOf, SlotsOf;
    match e
    case Local(_, _) => FineName(S, b, sc, cur, e, lo);
    case Global(_, _) => FineName(S, b, sc, cur, e, lo);
    case Unary(_, _, _) => FineOperand(S, b, sc, cur, e, lo);
    case Cast(_, _, _, _) => FineOperand(S, b, sc, cur, e, lo);
    case Binary(_, tok, _, _) =>
      if tok == QuestionQuestion {
        FineCoalesce(S, b, sc, cur, e, lo);
      } else {
        FineBinary(S, b, sc, cur, e, lo);
      }
    case Call(_, _, _, _, _, _) => FineCall(S, b, sc, cur, e, lo);
    case Assign(_, _, _) => FineAssign(S, b, sc, cur, e, lo);
    case _ =>
  }

  lemma {:induction false} FineOperand(S: Program, b: Bld, sc: Scope, cur: nat, e: Expr, lo: Lowered)
    requires Typed(S, b, sc, cur) && b.errs == [] && TypedExpr(S, TypesOf(sc.locals), e)
    requires (e.Unary? || e.Cast?) && lo == LowerOperand(S, b, sc, cur, e)
    ensures lo.b.errs == [] <==> Fine(S, NamesOf(sc.locals), SlotsOf(sc.locals), e)
    decreases e, 0
  {
    hide LowerValue, GlobalsOk, ScopeOk, ScopeTyped, HasId, TypesOf, NamesOf, SlotsOf;
    FineValue(S, b, sc, cur, e.a, LowerValue(S, b, sc, cur, e.a));
  }

  lemma {:induction false} FineBinary(S: Program, b: Bld, sc: Scope, cur: nat, e: Expr, lo: Lowered)
    requires Typed(S, b, sc, cur) && b.errs == [] && TypedExpr(S, TypesOf(sc.locals), e)
    requires e.Binary? && e.tok != QuestionQuestion && lo == LowerBinary(S, b, sc, cur, e)
    ensures lo.b.errs == [] <==> Fine(S, NamesOf(sc.locals), SlotsOf(sc.locals), e)
    decreases e, 0
  {
    hide LowerValue, GlobalsOk, ScopeOk, ScopeTyped, HasId, TypesOf, NamesOf, SlotsOf;
    var x := LowerValue(S, b, sc, cur, e.a);
    var y := LowerValue(S, x.b, sc, x.cur, e.b);
    FineValue(S, b, sc, cur, e.a, x);
    GrowsValue(S, b, sc, cur, e.a);
    GrowsValue(S, x.b, sc, x.cur, e.b);
    if x.b.errs == [] {
      Later(S, b, sc, cur, x.b, x.cur);
      FineValue(S, x.b, sc, x.cur, e.b, y);
    }
  }

  lemma {:induction false} FineCall(S: Program, b: Bld, sc: Scope, cur: nat, e: Expr, lo: Lowered)
    requires Typed(S, b, sc, cur) && b.errs == [] && TypedExpr(S, TypesOf(sc.locals), e)
    requires e.Call? && lo == LowerCall(S, b, sc, cur, e)
    ensures lo.b.errs == [] <==> Fine(S, NamesOf(sc.locals), SlotsOf(sc.locals), e)
    decreases e, 0
  {
    hide LowerArgs, GlobalsOk, ScopeOk, ScopeTyped, HasId, TypesOf, NamesOf, SlotsOf, FineArgs;
    var fi := FindFunc(S.funcs, e.callee);
    if fi.Some? {
      FineArgList(S, b, sc, cur, e.args, ArgTypes(S, e.callee), LowerArgs(S, b, sc, cur, e.args, ArgTypes(S, e.callee)));
    }
  }

  lemma {:induction false} FineArgList(S: Program, b: Bld, sc: Scope, cur: nat, args: seq<Expr>, tys: seq<Ty>, xs: LoweredArgs)
    requires Typed(S, b, sc, cur) && b.errs == [] && (forall i :: 0 <= i < |args| ==> TypedExpr(S, TypesOf(sc.locals), args[i]))
    requires xs == LowerArgs(S, b, sc, cur, args, tys)
    ensures xs.b.errs == [] <==> FineArgs(S, NamesOf(sc.locals), SlotsOf(sc.locals), args, tys)
    decreases args, 0
  {
    hide LowerValueAs, GlobalsOk, ScopeOk, ScopeTyped, FineAs, TypesOf, NamesOf, SlotsOf, TypedExpr;
    if args != [] {
      var ty, rest := if tys == [] then args[0].ty else tys[0], if tys == [] then [] else tys[1..];
      var x := LowerValueAs(S, b, sc, cur, args[0], ty);
      FineValueAs(S, b, sc, cur, args[0], ty, x);
      GrowsValueAs(S, b, sc, cur, args[0], ty);
      GrowsArgs(S, x.b, sc, x.cur, args[1..], rest);
      if x.b.errs == [] {
        Later(S, b, sc, cur, x.b, x.cur);
        FineArgList(S, x.b, sc, x.cur, args[1..], rest, LowerArgs(S, x.b, sc, x.cur, args[1..], rest));
      }
    }
  }

  lemma {:induction false} FineAssign(S: Program, b: Bld, sc: Scope, cur: nat, e: Expr, lo: Lowered)
    requires Typed(S, b, sc, cur) && b.errs == [] && TypedExpr(S, TypesOf(sc.locals), e)
    requires e.Assign? && lo == LowerAssign(S, b, sc, cur, e)
    ensures lo.b.errs == [] <==> Fine(S, NamesOf(sc.locals), SlotsOf(sc.locals), e)
    decreases e, 0
  {
    hide LowerValue, LowerValueAs, LowerPlace, GlobalsOk, ScopeOk, ScopeTyped, FineAs, HasId, TypesOf, NamesOf, SlotsOf, Assignable;
    var p := LowerPlace(S, b, sc, cur, e.place);
    FinePlace(S, b, sc, cur, e.place, p);
    GrowsPlace(S, b, sc, cur, e.place);
    if p.b.errs == [] {
      PlaceId(S, b, sc, cur, e.place, p);
      var ty := ElemType(p.b.mod, p.v);
      Later(S, b, sc, cur, p.b, cur);
      FineValueAs(S, p.b, sc, p.cur, e.rhs, ty, LowerValueAs(S, p.b, sc, p.cur, e.rhs, ty));
    } else {
      GrowsValue(S, p.b, sc, p.cur, e.rhs);
      GrowsValueAs(S, p.b, sc, p.cur, e.rhs, ElemType(p.b.mod, p.v));
    }
  }

  lemma {:induction false} FineCoalesce(S: Program, b: Bld, sc: Scope, cur: nat, e: Expr, lo: Lowered)
    requires Typed(S, b, sc, cur) && b.errs == [] && TypedExpr(S, TypesOf(sc.locals), e)
    requires e.Binary? && e.tok == QuestionQuestion && lo == LowerCoalesce(S, b, sc, cur, e)
    ensures lo.b.errs == [] <==> Fine(S, NamesOf(sc.locals), SlotsOf(sc.locals), e)
    decreases e, 0, 1
  {
    hide LowerValue, LowerCoalesceArms, GlobalsOk, ScopeOk, ScopeTyped, FineAs, HasId, TypesOf, NamesOf, SlotsOf;
    if e.a.ty.Optional? {
      var x := LowerValue(S, b, sc, cur, e.a);
      FineValue(S, b, sc, cur, e.a, x);
      GrowsValue(S, b, sc, cur, e.a);
      var t := PresenceTest(x);
      GrowsEmit(x.b, x.cur, Bool, Pure, OpOptionalIsPresent(x.v), LayoutClass.Scalar);
      if x.b.errs == [] {
        ValueId(S, b, sc, cur, e.a, x);
        Later(S, b, sc, cur, x.b, x.cur);
        Later(S, x.b, sc, x.cur, t.b, t.cur);
        FineArms(S, t.b, sc, t.cur, e, x.v, t.v, LowerCoalesceArms(S, t.b, sc, t.cur, e, x.v, t.v));
      } else {
        GrowsCoalesceArms(S, t.b, sc, t.cur, e, x.v, t.v);
      }
    }
  }

  lemma {:induction false} FineArms(S: Program, b: Bld, sc: Scope, cur: nat, e: Expr, opt: Id, present: Id, lo: Lowered)
    requires Typed(S, b, sc, cur) && b.errs == [] && e.Binary? && e.a.ty.Optional? && TypedExpr(S, TypesOf(sc.locals), e.b)
    requires lo == LowerCoalesceArms(S, b, sc, cur, e, opt, present)
    ensures lo.b.errs == [] <==> (e.a.ty.elem != Unit ==> FineAs(S, NamesOf(sc.locals), SlotsOf(sc.locals), e.b, e.ty))
    decreases e, 0, 0
  {
    hide LowerValueAs, GlobalsOk, ScopeOk, ScopeTyped, FineAs, TypesOf, NamesOf, SlotsOf, AddThreeBlocks, AddBlockParam;
    var a := CoalesceStages(S, b, sc, cur, e, opt, present);
    GrowsStages(S, b, sc, cur, e, opt, present);
    GrowsCoalesceBlocks(b, sc.owner, cur, e.ty, present);
    if a.got.v.Some? {
      TypedLater(S, b, sc, cur, a.b2, a.s + 1);
      FineValueAs(S, a.b2, sc, a.s + 1, e.b, e.ty, a.y);
    }
  }

  // ---- Statements -------------------------------------------------------------------------

  lemma SlotsKept(S: Program, b: Bld, st: FuncState, cur: nat, s: Stmt, ls: LoweredStmt)
    requires Typed(S, b, st.scope, cur) && ls == LowerStmt(S, b, st, cur, s) && ls.b.errs == []
    ensures SlotsOf(ls.st.scope.locals) == SlotsAfter(SlotsOf(st.scope.locals), s) && ls.st.scope.ret == st.scope.ret
  {
    hide LowerValueAs, LowerValue, SupportedType, GlobalsOk, ScopeOk, LowerStmt, ScopeTyped, HasIdAs;
    if s.VarDecl? {
      VarDeclParts(S, b, st, cur, s, ls);
      var x := LowerValueAs(S, b, st.scope, cur, s.init.value, BindingType(s).value);
      ValueAsId(S, b, st.scope, cur, s.init.value, BindingType(s).value, x);
      SlotsBound(x, st, s, BindingType(s).value, ls);
    } else {
      SameScopeAfter(S, b, st, cur, s, ls);
    }
  }

  lemma SlotsBound(x: Lowered, st: FuncState, s: Stmt, ty: Ty, ls: LoweredStmt)
    requires s.VarDecl? && s.init.Some? && PlainId(x.b, x.v) && ls == BindLocal(x.b, st, x.cur, s, ty, x.v)
    ensures SlotsOf(ls.st.scope.locals) == SlotsAfter(SlotsOf(st.scope.locals), s) && ls.st.scope.ret == st.scope.ret
  {
    var l0, l1 := st.scope.locals, ls.st.scope.locals;
    assert l1 == l0[s.sym := l1[s.sym]] && (l1[s.sym].isPlace <==> s.isSet || s.isMut);
    forall n
      ensures n in SlotsOf(l1) <==> n in SlotsAfter(SlotsOf(l0), s)
    {
    }
  }

  lemma EndsAtReturn(S: Program, b: Bld, st: FuncState, cur: nat, s: Stmt)
    ensures LowerStmt(S, b, st, cur, s).st.cur.None? <==> s.Return?
  {
    hide LowerValue, LowerValueAs, LowerIf, LowerWhile, LowerSwitch, SupportedType;
    match s
    case If(_, _, _) => OpenBlock.IfEnds(S, b, st, cur, s, LowerIf(S, b, st, cur, s));
    case While(_, _) => WhileEnds(S, b, st, cur, s);
    case Switch(_, _) => SwitchEnds(S, b, st, cur, s);
    case _ =>
  }

  lemma WhileEnds(S: Program, b: Bld, st: FuncState, cur: nat, s: Stmt)
    requires s.While?
    ensures LowerWhile(S, b, st, cur, s).st.cur.Some?
  {
    hide LowerArm, LowerWhileHead, AddThreeBlocks;
  }

  lemma SwitchEnds(S: Program, b: Bld, st: FuncState, cur: nat, s: Stmt)
    requires s.Switch?
    ensures LowerSwitch(S, b, st, cur, s).st.cur.Some?
  {
    hide LowerScrutinee, AddCases, LowerCases, RejectedCase, SwitchableType;
  }

  lemma {:induction false} FineStmtIff(S: Program, b: Bld, st: FuncState, cur: nat, s: Stmt, ls: LoweredStmt)
    requires Typed(S, b, st.scope, cur) && b.errs == [] && TypedStmt(S, TypesOf(st.scope.locals), s)
    requires ls == LowerStmt(S, b, st, cur, s)
    ensures ls.b.errs == [] <==> FineStmt(S, NamesOf(st.scope.locals), SlotsOf(st.scope.locals), st.scope.ret, s)
    decreases s, 1
  {
    hide LowerValue, LowerValueAs, LowerIf, LowerWhile, LowerSwitch, GlobalsOk, ScopeOk, ScopeTyped, Fine, FineAs, HasId, TypesOf,
      NamesOf, SlotsOf, TypedExpr, TypedBlock, SupportedType;
    match s
    case ExprStmt(Some(e)) => FineValue(S, b, st.scope, cur, e, LowerValue(S, b, st.scope, cur, e));
    case VarDecl(_, _, _, _, _, init) =>
      if init.Some? && BindingType(s).Some? {
        var ty := BindingType(s).value;
        FineValueAs(S, b, st.scope, cur, init.value, ty, LowerValueAs(S, b, st.scope, cur, init.value, ty));
      }
    case If(_, _, _) => FineIf(S, b, st, cur, s, ls);
    case While(_, _) => FineWhile(S, b, st, cur, s, ls);
    case Switch(_, _) => FineSwitch(S, b, st, cur, s, ls);
    case Return(Some(e)) => FineValueAs(S, b, st.scope, cur, e, st.scope.ret, LowerValueAs(S, b, st.scope, cur, e, st.scope.ret));
    case _ =>
  }

  lemma {:induction false} FineBlockIff(S: Program, b: Bld, st: FuncState, cur: nat, stmts: seq<Stmt>, ls: LoweredStmt)
    requires Typed(S, b, st.scope, cur) && b.errs == [] && TypedBlock(S, TypesOf(st.scope.locals), stmts)
    requires st.cur == Some(cur) && ls == LowerBlock(S, b, st, stmts)
    ensures ls.b.errs == [] <==> FineBlock(S, NamesOf(st.scope.locals), SlotsOf(st.scope.locals), st.scope.ret, stmts)
    decreases stmts, 0
  {
    hide LowerStmt, GlobalsOk, ScopeOk, ScopeTyped, FineStmt, TypesOf, NamesOf, SlotsOf, TypedStmt, NamesAfter, SlotsAfter, TypesAfter;
    if stmts != [] {
      var l1 := LowerStmt(S, b, st, cur, stmts[0]);
      FineStmtIff(S, b, st, cur, stmts[0], l1);
      EndsAtReturn(S, b, st, cur, stmts[0]);
      if l1.b.errs == [] {
        TypesKept(S, b, st, cur, stmts[0], l1);
        ScopeAfter(S, b, st, cur, stmts[0], l1);
        SlotsKept(S, b, st, cur, stmts[0], l1);
        if l1.st.cur.Some? {
          FineBlockIff(S, l1.b, l1.st, l1.st.cur.value, stmts[1..], LowerBlock(S, l1.b, l1.st, stmts[1..]));
        }
      } else if l1.st.cur.Some? {
        GrowsStmt(S, b, st, cur, stmts[0]);
        GrowsBlock(S, l1.b, l1.st, stmts[1..]);
      }
    }
  }

  lemma {:induction false} FineArm(S: Program, b: Bld, st: FuncState, bb: nat, body: seq<Stmt>, target: nat, b': Bld)
    requires Typed(S, b, st.scope, bb) && b.errs == [] && TypedBlock(S, TypesOf(st.scope.locals), body)
    requires b' == LowerArm(S, b, st, bb, body, target)
    ensures b'.errs == [] <==> FineBlock(S, NamesOf(st.scope.locals), SlotsOf(st.scope.locals), st.scope.ret, body)
    decreases body, 1
  {
    hide LowerBlock, GlobalsOk, ScopeOk, ScopeTyped, FineBlock, TypesOf, NamesOf, SlotsOf, TypedBlock;
    var st1 := st.(cur := Some(bb));
    FineBlockIff(S, b, st1, bb, body, LowerBlock(S, b, st1, body));
  }

  lemma {:induction false} FineIf(S: Program, b: Bld, st: FuncState, cur: nat, s: Stmt, ls: LoweredStmt)
    requires Typed(S, b, st.scope, cur) && b.errs == [] && s.If? && TypedStmt(S, TypesOf(st.scope.locals), s)
    requires ls == LowerIf(S, b, st, cur, s)
    ensures ls.b.errs == [] <==> FineStmt(S, NamesOf(st.scope.locals), SlotsOf(st.scope.locals), st.scope.ret, s)
    decreases s, 0
  {
    hide LowerValue, LowerArm, AddThreeBlocks, Terminate, GlobalsOk, ScopeOk, ScopeTyped, Fine, FineBlock, TypesOf, NamesOf, SlotsOf,
      TypedExpr, TypedBlock;
    var c := LowerValue(S, b, st.scope, cur, s.cond);
    var t := |c.b.mod.blocks|;
    FineValue(S, b, st.scope, cur, s.cond, c);
    GrowsValue(S, b, st.scope, cur, s.cond);
    var b1 := Terminate(AddThreeBlocks(c.b, st.scope.owner), c.cur, TermCondBr(c.v, t, t + 1));
    var b2 := LowerArm(S, b1, st, t, s.thn, t + 2);
    GrowsFork(c.b, st.scope.owner, c.cur, TermCondBr(c.v, t, t + 1));
    GrowsArm(S, b1, st, t, s.thn, t + 2);
    GrowsArm(S, b2, st, t + 1, s.els, t + 2);
    if c.b.errs == [] {
      Later(S, b, st.scope, cur, c.b, c.cur);
      SameMessages(c.b, st.scope.owner, c.cur, TermCondBr(c.v, t, t + 1));
      TypedLater(S, c.b, st.scope, c.cur, b1, t);
      FineArm(S, b1, st, t, s.thn, t + 2, b2);
      if b2.errs == [] {
        TypedLater(S, b1, st.scope, t, b2, t + 1);
        FineArm(S, b2, st, t + 1, s.els, t + 2, LowerArm(S, b2, st, t + 1, s.els, t + 2));
      }
    }
  }

  lemma SameMessages(b: Bld, owner: nat, cur: nat, term: Term)
    ensures Terminate(AddThreeBlocks(b, owner), cur, term).errs == b.errs
  {
  }

  lemma {:induction false} FineWhile(S: Program, b: Bld, st: FuncState, cur: nat, s: Stmt, ls: LoweredStmt)
    requires Typed(S, b, st.scope, cur) && b.errs == [] && s.While? && TypedStmt(S, TypesOf(st.scope.locals), s)
    requires ls == LowerWhile(S, b, st, cur, s)
    ensures ls.b.errs == [] <==> FineStmt(S, NamesOf(st.scope.locals), SlotsOf(st.scope.locals), st.scope.ret, s)
    decreases s, 0
  {
    hide LowerValue, LowerArm, LowerWhileHead, AddThreeBlocks, Terminate, GlobalsOk, ScopeOk, ScopeTyped, Fine, FineBlock, TypesOf,
      NamesOf, SlotsOf, TypedExpr, TypedBlock;
    var t := |b.mod.blocks|;
    var b1 := Terminate(AddThreeBlocks(b, st.scope.owner), cur, TermBr(t, []));
    var b2 := LowerWhileHead(S, b1, st, t, s);
    var c := LowerValue(S, b1, st.scope, t, s.cond);
    GrowsFork(b, st.scope.owner, cur, TermBr(t, []));
    SameMessages(b, st.scope.owner, cur, TermBr(t, []));
    TypedLater(S, b, st.scope, cur, b1, t);
    FineValue(S, b1, st.scope, t, s.cond, c);
    HeadParts(S, b1, st, t, s, b2, c);
    GrowsWhileHead(S, b1, st, t, s);
    GrowsArm(S, b2, st, t + 1, s.body, t);
    if b2.errs == [] {
      TypedLater(S, b1, st.scope, t, b2, t + 1);
      FineArm(S, b2, st, t + 1, s.body, t, LowerArm(S, b2, st, t + 1, s.body, t));
    }
  }

  /** Keys are found for exactly the patterns that fit. */
  lemma KeyFits(ty: Ty, c: Case)
    requires c.enumBinds == 0
    ensures CaseKey(ty, c).Some? <==> PatternFits(ty, c.pat)
  {
  }

  lemma {:induction false} FineKeys(b: Bld, owner: nat, ty: Ty, cases: seq<Case>, i: nat, dflt: nat, arms: seq<Arm>)
    requires i <= |cases| && forall j :: 0 <= j < |cases| ==> cases[j].enumBinds == 0
    ensures var r := AddCases(b, owner, ty, cases, i, dflt, arms);
            && (r.ok <==> forall j :: i <= j < |cases| ==> cases[j].isDefault || PatternFits(ty, cases[j].pat))
            && (b.errs == [] ==> (r.b.errs == [] <==> r.ok))
    decreases |cases| - i
  {
    hide CaseKey, PatternFits;
    if i < |cases| {
      KeyFits(ty, cases[i]);
      var bb := |b.mod.blocks|;
      var b1 := AddBlock(b, owner);
      if cases[i].isDefault {
        FineKeys(b1, owner, ty, cases, i + 1, bb, arms);
      } else if CaseKey(ty, cases[i]).Some? {
        FineKeys(b1, owner, ty, cases, i + 1, dflt, arms + [Arm(CaseKey(ty, cases[i]).value, bb)]);
      }
    }
  }

  lemma {:induction false} FineBodies(S: Program, b: Bld, st: FuncState, first: nat, cases: seq<Case>, after: nat, b': Bld)
    requires cases != [] ==> Typed(S, b, st.scope, first)
    requires b.errs == [] && first + |cases| <= |b.mod.blocks| && b' == LowerCases(S, b, st, first, cases, after)
    requires forall j :: 0 <= j < |cases| ==> TypedBlock(S, TypesOf(st.scope.locals), cases[j].body)
    ensures b'.errs == [] <==> FineCases(S, NamesOf(st.scope.locals), SlotsOf(st.scope.locals), st.scope.ret, cases)
    decreases cases, 1
  {
    hide LowerArm, GlobalsOk, ScopeOk, ScopeTyped, FineBlock, TypesOf, NamesOf, SlotsOf, TypedBlock;
    if cases != [] {
      var b1 := LowerArm(S, b, st, first, cases[0].body, after);
      FineArm(S, b, st, first, cases[0].body, after, b1);
      GrowsArm(S, b, st, first, cases[0].body, after);
      GrowsCases(S, b1, st, first + 1, cases[1..], after);
      if b1.errs == [] {
        if cases[1..] != [] {
          TypedLater(S, b, st.scope, first, b1, first + 1);
        }
        FineBodies(S, b1, st, first + 1, cases[1..], after, LowerCases(S, b1, st, first + 1, cases[1..], after));
      }
    }
  }

  lemma {:induction false} FineSwitch(S: Program, b: Bld, st: FuncState, cur: nat, s: Stmt, ls: LoweredStmt)
    requires Typed(S, b, st.scope, cur) && b.errs == [] && s.Switch? && TypedStmt(S, TypesOf(st.scope.locals), s)
    requires ls == LowerSwitch(S, b, st, cur, s)
    ensures ls.b.errs == [] <==> FineStmt(S, NamesOf(st.scope.locals), SlotsOf(st.scope.locals), st.scope.ret, s)
    decreases s, 0, 1
  {
    hide LowerValue, LowerSwitchArms, GlobalsOk, ScopeOk, ScopeTyped, Fine, FineCases, HasId, TypesOf, NamesOf, SlotsOf, TypedExpr,
      TypedBlock, PatternFits;
    var x := LowerValue(S, b, st.scope, cur, s.scrutinee);
    var v := LowerScrutinee(S, b, st.scope, cur, s.scrutinee);
    FineValue(S, b, st.scope, cur, s.scrutinee, x);
    GrowsScrutinee(S, b, st.scope, cur, s.scrutinee);
    assert v.b.errs == x.b.errs;
    if !exists i :: 0 <= i < |s.cases| && RejectedCase(s.cases[i]) {
      assert forall i :: 0 <= i < |s.cases| ==> !RejectedCase(s.cases[i]);
      if x.b.errs == [] {
        ValueId(S, b, st.scope, cur, s.scrutinee, x);
        Later(S, b, st.scope, cur, v.b, v.cur);
        FineSwitchArms(S, v.b, st, v.cur, s, v.v, LowerSwitchArms(S, v.b, st, v.cur, s, v.v));
      } else {
        GrowsSwitchArms(S, v.b, st, v.cur, s, v.v);
      }
    }
  }

  lemma {:induction false} FineSwitchArms(S: Program, b: Bld, st: FuncState, cur: nat, s: Stmt, v: Id, ls: LoweredStmt)
    requires Typed(S, b, st.scope, cur) && b.errs == [] && s.Switch? && TypedStmt(S, TypesOf(st.scope.locals), s)
    requires (forall j :: 0 <= j < |s.cases| ==> s.cases[j].enumBinds == 0) && ls == LowerSwitchArms(S, b, st, cur, s, v)
    ensures ls.b.errs == [] <==>
              && (forall j :: 0 <= j < |s.cases| ==> s.cases[j].isDefault || PatternFits(s.scrutinee.ty, s.cases[j].pat))
              && FineCases(S, NamesOf(st.scope.locals), SlotsOf(st.scope.locals), st.scope.ret, s.cases)
    decreases s, 0, 0
  {
    hide AddCases, LowerCases, GlobalsOk, ScopeOk, ScopeTyped, FineCases, TypesOf, NamesOf, SlotsOf, TypedExpr, TypedBlock, PatternFits;
    var t := |b.mod.blocks|;
    var b0 := AddBlock(b, st.scope.owner);
    var cs := AddCases(b0, st.scope.owner, s.scrutinee.ty, s.cases, 0, t, []);
    FineKeys(b0, st.scope.owner, s.scrutinee.ty, s.cases, 0, t, []);
    GrowsSwitchBlocks(b, st.scope.owner, s.scrutinee.ty, s.cases);
    if cs.ok {
      var b1 := Terminate(cs.b, cur, TermSwitch(v, cs.defaultBb, cs.arms));
      GrowsTerminate(cs.b, cur, TermSwitch(v, cs.defaultBb, cs.arms));
      if s.cases != [] {
        TypedLater(S, b, st.scope, cur, b1, t + 1);
      }
      FineBodies(S, b1, st, t + 1, s.cases, t, LowerCases(S, b1, st, t + 1, s.cases, t));
    }
  }

  // ---- Programs ---------------------------------------------------------------------------

  /** A body whose end can be reached is that of a function without a result. */
  predicate FineFunc(S: Program, fn: Func) {
    fn.isExtern
    || (FineBlock(S, OpenBlock.ParamNames(fn.params), {}, fn.ret, fn.body)
        && ((exists i :: 0 <= i < |fn.body| && fn.body[i].Return?) || fn.ret == Unit))
  }

  lemma {:induction false} ParamSlots(b: Bld, bb: nat, params: seq<Param>)
    ensures SlotsOf(AddParams(b, bb, params).locals) == {}
    decreases |params|
  {
    if params != [] {
      ParamSlots(b, bb, params[..|params| - 1]);
    }
  }

  /** The path through a body ends at the first `return` of its list. */
  lemma {:induction false} PathEnds(S: Program, b: Bld, st: FuncState, stmts: seq<Stmt>)
    requires st.cur.Some?
    ensures LowerBlock(S, b, st, stmts).st.cur.None? <==> exists i :: 0 <= i < |stmts| && stmts[i].Return?
    decreases |stmts|
  {
    hide LowerStmt;
    if stmts != [] {
      EndsAtReturn(S, b, st, st.cur.value, stmts[0]);
      var l1 := LowerStmt(S, b, st, st.cur.value, stmts[0]);
      if l1.st.cur.Some? {
        PathEnds(S, l1.b, l1.st, stmts[1..]);
        assert forall i :: 0 < i < |stmts| ==> stmts[i] == stmts[1..][i - 1];
        assert forall i :: 0 <= i < |stmts| - 1 ==> stmts[1..][i] == stmts[i + 1];
      }
    }
  }

  lemma {:induction false} FineFuncIff(S: Program, b: Bld, i: nat)
    requires i < |S.funcs| && GlobalsOk(S) && SupportedFunc(S.funcs[i]) && b.errs == []
    requires TypedBlock(S, ParamMap(S.funcs[i].params), S.funcs[i].body) && OpenBlock.FuncJoins(S, i)
    ensures LowerFunc(S, b, i).errs == [] <==> FineFunc(S, S.funcs[i])
  {
    hide OpenBody, LowerBlock, GlobalsOk, ScopeOk, ScopeTyped, SupportedFunc, TypedBlock, TypesOf, NamesOf, SlotsOf, ParamMap, FineBlock,
      LinkedAt, OpenBlock.BlockJoins, OpenBlock.Stray, Touches;
    var fn := S.funcs[i];
    if !fn.isExtern {
      var o := OpenBody(b, fn, i);
      var cur := |b.mod.blocks|;
      var l := LowerBlock(S, o.b, o.st, fn.body);
      OpenBlock.OpenedBody(S, b, i, o);
      SupportedParams(fn);
      OpenedScope(b, fn, i, o);
      FineBlockIff(S, o.b, o.st, cur, fn.body, l);
      PathEnds(S, o.b, o.st, fn.body);
      if l.b.errs == [] {
        OpenBlock.BlockShuts(S, o.b, o.st, cur, fn.body, l);
      }
      GrowsBlock(S, o.b, o.st, fn.body);
    }
  }

  lemma OpenedScope(b: Bld, fn: Func, i: nat, o: LoweredStmt)
    requires o == OpenBody(b, fn, i) && forall j :: 0 <= j < |fn.params| ==> SupportedType(fn.params[j].ty)
    ensures SlotsOf(o.st.scope.locals) == {} && o.st.scope.ret == fn.ret
    ensures ScopeTyped(o.b.mod.values, o.st.scope) && TypesOf(o.st.scope.locals) == ParamMap(fn.params)
  {
    var bb := |b.mod.blocks|;
    var b0 := SetEntry(AddBlock(b, i), i, bb);
    ParamSlots(b0, bb, fn.params);
    ParamsTyped(b0, bb, fn.params, i, fn.ret);
  }

  /** Everything of a program is of the subset. */
  predicate InSubset(S: Program) {
    && (forall i :: 0 <= i < |S.globals| ==> Meanings.GlobalFits(S.globals[i]))
    && (forall i :: 0 <= i < |S.funcs| ==> Meanings.FuncFits(S.funcs[i]))
    && forall i :: 0 <= i < |S.funcs| ==> FineFunc(S, S.funcs[i])
  }

  lemma {:induction false} FineFuncs(S: Program, d: Bld, n: nat)
    requires n <= |S.funcs| && d.errs == [] && |d.mod.reals| == |S.funcs| && GlobalsOk(S) && WellTyped(S) && OpenBlock.ProgramJoins(S)
    requires forall i :: 0 <= i < |S.funcs| ==> SupportedFunc(S.funcs[i])
    ensures LowerFuncs(S, d, n).errs == [] <==> forall i :: 0 <= i < n ==> FineFunc(S, S.funcs[i])
    decreases n
  {
    hide SupportedFunc, GlobalsOk, TypedBlock, LowerFunc, FineFunc, OpenBlock.FuncJoins;
    if n > 0 {
      var b1 := LowerFuncs(S, d, n - 1);
      FineFuncs(S, d, n - 1);
      GrowsFuncs(S, d, n - 1, n);
      if b1.errs == [] {
        assert OpenBlock.FuncJoins(S, n - 1);
        FineFuncIff(S, b1, n - 1);
      }
    }
  }

  /** A well-typed program whose `??` all join lowers without a message if and only if it is of the subset. */
  lemma LowersExactly(S: Program)
    requires WellTyped(S) && OpenBlock.ProgramJoins(S)
    ensures LowerProgram(S).errs == [] <==> InSubset(S)
  {
    hide LowerFuncs, FineFunc, Meanings.GlobalFits, Meanings.FuncFits, SupportedGlobal, SupportedFunc, OpenBlock.ProgramJoins, WellTyped;
    Meanings.Declared(S);
    var d := Declare(S);
    if d.errs == [] {
      FreshTables(S);
      FineFuncs(S, d, |S.funcs|);
    }
  }

  lemma FreshTables(S: Program)
    requires Declare(S).errs == []
    ensures var d := Declare(S);
            && |d.mod.reals| == |S.funcs| && GlobalsOk(S)
            && forall i :: 0 <= i < |S.funcs| ==> SupportedFunc(S.funcs[i])
  {
    hide SupportedGlobal, SupportedFunc;
    var d0 := DeclareGlobals(Bld(EMPTY_MODULE, []), S.globals, |S.globals|);
    DeclaredGlobals(Bld(EMPTY_MODULE, []), S.globals, |S.globals|);
    DeclaredFuncs(d0, S.funcs, |S.funcs|);
  }
}
