/** The code of a construct, taken apart: what its parts are lowered to when no message came of the
    whole, and that each part grows the module the one before it left. */
module Fragments {
  import opened Wrappers
  import opened Sir
  import opened SirSemantics
  import opened Goir
  import opened Lowering
  import opened Growth
  import opened ValueIds

  /** `b'` is `b` with more instructions in block `cur`. */
  ghost predicate OnlyInsts(b: Bld, cur: nat, b': Bld) {
    && cur < |b.mod.blocks| && |b'.mod.blocks| == |b.mod.blocks|
    && b.mod.values <= b'.mod.values && b'.mod.reals == b.mod.reals
    && (forall x :: 0 <= x < |b.mod.blocks| && x != cur ==> b'.mod.blocks[x] == b.mod.blocks[x])
    && b'.mod.blocks[cur].(insts := b.mod.blocks[cur].insts) == b.mod.blocks[cur]
  }

  lemma AppendOnly(b: Bld, cur: nat, op: Op, eff: Effect, result: Option<Value>)
    requires cur < |b.mod.blocks|
    ensures OnlyInsts(b, cur, Append(b, cur, op, eff, result).b)
  {
  }

  lemma EmitOnly(b: Bld, cur: nat, ty: Ty, eff: Effect, op: Op, layout: LayoutClass)
    requires cur < |b.mod.blocks|
    ensures OnlyInsts(b, cur, Emit(b, cur, ty, eff, op, layout).b)
  {
    AppendOnly(b, cur, op, eff, if ty == Unit then None else Some(PlainValue(ty, eff, layout)));
  }

  // ---- Expressions ----------------------------------------------------------------------

  predicate Leaf(e: Expr) { IsLiteral(e) || e.Local? || e.Global? || e.EnumCtor? || e.OtherExpr? }

  lemma GlobalOnly(S: Program, b: Bld, cur: nat, sym: Sym)
    requires cur < |b.mod.blocks|
    ensures OnlyInsts(b, cur, GlobalPlaceOf(S, b, cur, sym).b) && GlobalPlaceOf(S, b, cur, sym).cur == cur
    ensures OnlyInsts(b, cur, LowerGlobal(S, b, cur, sym).b) && LowerGlobal(S, b, cur, sym).cur == cur
  {
    var p := GlobalPlaceOf(S, b, cur, sym);
    var ty := ElemType(p.b.mod, p.v);
    EmitOnly(p.b, cur, ty, MayRead, OpLoad(p.v), ClassifyLayout(ty));
  }

  lemma LeafOnly(S: Program, b: Bld, sc: Scope, cur: nat, e: Expr, lo: Lowered)
    requires cur < |b.mod.blocks| && Leaf(e) && lo == LowerValue(S, b, sc, cur, e)
    ensures OnlyInsts(b, cur, lo.b) && lo.cur == cur
  {
    hide LowerGlobal;
    if e.Local? || e.Global? {
      GlobalOnly(S, b, cur, e.sym);
    }
  }

  /** A converted value: `null` alone, or the value and perhaps one instruction more. */
  lemma ValueAsParts(S: Program, b: Bld, sc: Scope, cur: nat, e: Expr, target: Ty, lo: Lowered)
    requires Ground(S, b, sc, cur) == true && lo == LowerValueAs(S, b, sc, cur, e, target) && lo.b.errs == []
    ensures var x := LowerValue(S, b, sc, cur, e);
            if e.ty != target && target.Optional? && e.NullLit? then OnlyInsts(b, cur, lo.b) && lo.cur == cur
            else && x.b.errs == [] && Grows(b, cur, x.b, x.cur) && Grows(x.b, x.cur, lo.b, lo.cur)
                 && OnlyInsts(x.b, x.cur, lo.b) && lo.cur == x.cur
  {
    hide LowerValue, GlobalsOk, ScopeOk;
    var x := LowerValue(S, b, sc, cur, e);
    GrowsValue(S, b, sc, cur, e);
    GrowsRefl(x.b, x.cur);
    GrowsEmit(x.b, x.cur, target, Pure, OpOptionalSome(x.v), OptionalScalar);
  }

  lemma OperandParts(S: Program, b: Bld, sc: Scope, cur: nat, e: Expr, lo: Lowered, x: Lowered)
    requires Ground(S, b, sc, cur) == true && (e.Unary? || e.Cast?) && lo == LowerOperand(S, b, sc, cur, e) && lo.b.errs == []
    requires x == LowerValue(S, b, sc, cur, e.a)
    ensures x.b.errs == [] && Grows(b, cur, x.b, x.cur) && Grows(x.b, x.cur, lo.b, lo.cur)
    ensures OnlyInsts(x.b, x.cur, lo.b) && lo.cur == x.cur
  {
    hide LowerValue, GlobalsOk, ScopeOk;
    GrowsValue(S, b, sc, cur, e.a);
    if e.Cast? || MapUnOp(e.tok).Some? {
      GrowsEmit(x.b, x.cur, e.ty, OperandEffect(e), OperandOp(e, x.v), UnknownLayout);
      EmitOnly(x.b, x.cur, e.ty, OperandEffect(e), OperandOp(e, x.v), UnknownLayout);
    }
  }

  lemma BinaryParts(S: Program, b: Bld, sc: Scope, cur: nat, e: Expr, lo: Lowered, x: Lowered, y: Lowered)
    requires Ground(S, b, sc, cur) == true && e.Binary? && lo == LowerBinary(S, b, sc, cur, e) && lo.b.errs == []
    requires x == LowerValue(S, b, sc, cur, e.a) && y == LowerValue(S, x.b, sc, x.cur, e.b)
    ensures x.b.errs == [] && Grows(b, cur, x.b, x.cur) && Ground(S, x.b, sc, x.cur)
    ensures y.b.errs == [] && Grows(x.b, x.cur, y.b, y.cur) && Grows(y.b, y.cur, lo.b, lo.cur)
    ensures OnlyInsts(y.b, y.cur, lo.b) && lo.cur == y.cur
  {
    hide LowerValue, GlobalsOk, ScopeOk;
    GrowsValue(S, b, sc, cur, e.a);
    GroundLater(S, b, sc, cur, x.b, x.cur);
    GrowsValue(S, x.b, sc, x.cur, e.b);
    if MapBinOp(e.tok).Some? {
      GrowsEmit(y.b, y.cur, e.ty, Pure, OpBinary(MapBinOp(e.tok).value, x.v, y.v), UnknownLayout);
      EmitOnly(y.b, y.cur, e.ty, Pure, OpBinary(MapBinOp(e.tok).value, x.v, y.v), UnknownLayout);
    }
  }

  /** The types a call's arguments are converted to. */
  function ArgTypes(S: Program, callee: Sym): seq<Ty> {
    var fi := FindFunc(S.funcs, callee);
    if fi.Some? then ParamTypes(S.funcs[fi.value].params) else []
  }

  lemma CallParts(S: Program, b: Bld, sc: Scope, cur: nat, e: Expr, lo: Lowered, xs: LoweredArgs)
    requires Ground(S, b, sc, cur) == true && e.Call? && lo == LowerCall(S, b, sc, cur, e) && lo.b.errs == []
    requires xs == LowerArgs(S, b, sc, cur, e.args, ArgTypes(S, e.callee))
    ensures xs.b.errs == [] && Grows(b, cur, xs.b, xs.cur) && Grows(xs.b, xs.cur, lo.b, lo.cur)
    ensures OnlyInsts(xs.b, xs.cur, lo.b) && lo.cur == xs.cur
  {
    hide LowerArgs, GlobalsOk, ScopeOk;
    var fi := FindFunc(S.funcs, e.callee);
    if !(e.isCore || e.isThrowing || fi.None?) {
      GrowsArgs(S, b, sc, cur, e.args, ArgTypes(S, e.callee));
      GrowsEmit(xs.b, xs.cur, e.ty, CallEffect, CallOp(S, e, fi.value, xs.vs), ClassifyLayout(e.ty));
      EmitOnly(xs.b, xs.cur, e.ty, CallEffect, CallOp(S, e, fi.value, xs.vs), ClassifyLayout(e.ty));
    }
  }

  lemma ArgsParts(S: Program, b: Bld, sc: Scope, cur: nat, args: seq<Expr>, tys: seq<Ty>, ty: Ty, rest: seq<Ty>,
                  xs: LoweredArgs, x: Lowered, ys: LoweredArgs)
    requires Ground(S, b, sc, cur) == true && args != [] && xs == LowerArgs(S, b, sc, cur, args, tys) && xs.b.errs == []
    requires ty == (if tys == [] then args[0].ty else tys[0]) && rest == if tys == [] then [] else tys[1..]
    requires x == LowerValueAs(S, b, sc, cur, args[0], ty) && ys == LowerArgs(S, x.b, sc, x.cur, args[1..], rest)
    ensures x.b.errs == [] && Grows(b, cur, x.b, x.cur) && Ground(S, x.b, sc, x.cur)
    ensures ys.b.errs == [] && Grows(x.b, x.cur, ys.b, ys.cur) && xs.b == ys.b && xs.cur == ys.cur
  {
    hide LowerValueAs, GlobalsOk, ScopeOk;
    GrowsValueAs(S, b, sc, cur, args[0], ty);
    GroundLater(S, b, sc, cur, x.b, x.cur);
    GrowsArgs(S, x.b, sc, x.cur, args[1..], rest);
  }

  lemma AssignParts(S: Program, b: Bld, sc: Scope, cur: nat, e: Expr, lo: Lowered, p: Lowered, ty: Ty, r: Lowered)
    requires Ground(S, b, sc, cur) == true && e.Assign? && lo == LowerAssign(S, b, sc, cur, e) && lo.b.errs == []
    requires p == LowerPlace(S, b, sc, cur, e.place) && ty == PlaceType(S, NamesOf(sc.locals), e.place)
    requires r == LowerValueAs(S, p.b, sc, cur, e.rhs, ty)
    ensures p.b.errs == [] && p.v.Some? && p.cur == cur && OnlyInsts(b, cur, p.b) && Grows(b, cur, p.b, cur) && Ground(S, p.b, sc, cur)
    ensures r.b.errs == [] && Grows(p.b, cur, r.b, r.cur)
    ensures lo.cur == r.cur && lo.v == r.v && lo.b == if r.v.None? then r.b else EmitStore(r.b, r.cur, p.v, r.v).b
    ensures Grows(r.b, r.cur, lo.b, lo.cur) && OnlyInsts(r.b, r.cur, lo.b)
  {
    hide LowerValueAs, LowerValue, GlobalsOk, ScopeOk;
    AssignPlace(S, b, sc, cur, e, lo, p);
    GrowsValueAs(S, p.b, sc, cur, e.rhs, ty);
    GrowsRefl(r.b, r.cur);
    GrowsAppend(r.b, r.cur, OpStore(p.v, r.v), MayWrite, None);
    AppendOnly(r.b, r.cur, OpStore(p.v, r.v), MayWrite, None);
  }

  lemma AssignPlace(S: Program, b: Bld, sc: Scope, cur: nat, e: Expr, lo: Lowered, p: Lowered)
    requires Ground(S, b, sc, cur) == true && e.Assign? && lo == LowerAssign(S, b, sc, cur, e) && lo.b.errs == []
    requires p == LowerPlace(S, b, sc, cur, e.place)
    ensures p.b.errs == [] && p.v.Some? && p.cur == cur && OnlyInsts(b, cur, p.b) && Grows(b, cur, p.b, cur) && Ground(S, p.b, sc, cur)
    ensures ElemType(p.b.mod, p.v) == PlaceType(S, NamesOf(sc.locals), e.place)
  {
    hide LowerValueAs, LowerValue;
    GrowsPlace(S, b, sc, cur, e.place);
    GlobalOnly(S, b, cur, if e.place.Local? || e.place.Global? then e.place.sym else 0);
    GroundLater(S, b, sc, cur, p.b, cur);
    assert p.b.errs <= lo.b.errs by {
      GrowsValue(S, p.b, sc, cur, e.rhs);
      GrowsValueAs(S, p.b, sc, cur, e.rhs, ElemType(p.b.mod, p.v));
    }
    PlaceId(S, b, sc, cur, e.place, p);
  }

  /** The two ways of `a ?? b`, from the module with the test on. */
  lemma ArmsParts(S: Program, b: Bld, sc: Scope, cur: nat, e: Expr, opt: Id, present: Id, lo: Lowered, a: ArmsCode)
    requires Ground(S, b, sc, cur) == true && e.Binary? && e.a.ty.Optional?
    requires lo == LowerCoalesceArms(S, b, sc, cur, e, opt, present) && lo.b.errs == []
    requires a == CoalesceStages(S, b, sc, cur, e, opt, present)
    ensures StagesGrow(b, cur, a) && Grows(b, cur, lo.b, lo.cur)
    ensures a.b1 == CoalesceBlocks(b, sc.owner, cur, e.ty, present) && OnlyInsts(a.b1, a.s, a.got.b)
    ensures a.got.v.None? <==> e.a.ty.elem == Unit
    ensures a.got.v.None? ==> lo == Lowered(a.got.b, cur, None)
    ensures a.got.v.Some? ==> && a.b2 == Terminate(a.got.b, a.s, TermBr(a.s + 2, [a.got.v])) && Ground(S, a.b2, sc, a.s + 1)
                              && a.y == LowerValueAs(S, a.b2, sc, a.s + 1, e.b, e.ty) && a.y.b.errs == []
    ensures a.got.v.Some? && a.y.v.None? ==> lo == Lowered(a.y.b, cur, None)
    ensures a.got.v.Some? && a.y.v.Some? ==>
              lo == Lowered(Terminate(a.y.b, a.y.cur, TermBr(a.s + 2, [a.y.v])), a.s + 2, Some(|b.mod.values|))
    ensures a.got.v.Some? ==> a.got.v.value < |a.got.b.mod.values| && a.got.b.mod.values[a.got.v.value].ty == e.a.ty.elem
  {
    hide AddThreeBlocks, AddBlockParam, LowerValueAs, GlobalsOk, ScopeOk;
    GrowsStages(S, b, sc, cur, e, opt, present);
    GrowsCoalesceArms(S, b, sc, cur, e, opt, present);
    EmitOnly(a.b1, a.s, e.a.ty.elem, Pure, OpOptionalGet(opt), ClassifyLayout(e.a.ty.elem));
    if a.got.v.Some? {
      GrowsStagesEnd(b, cur, a);
      ScopeLater(b.mod.values, a.b2.mod.values, sc);
    }
  }

  // ---- Statements -----------------------------------------------------------------------

  lemma BoundOnly(b: Bld, st: FuncState, cur: nat, s: Stmt, ty: Ty, init: Id)
    requires cur < |b.mod.blocks| && s.VarDecl?
    ensures var ls := BindLocal(b, st, cur, s, ty, init); OnlyInsts(b, cur, ls.b) && ls.st.cur == Some(cur)
  {
    if s.isSet || s.isMut {
      var slot := EmitPlace(b, cur, ty, OpLocalSlot, LocalSlot, true);
      AppendOnly(b, cur, OpLocalSlot, Pure, Some(PlaceValue(ty, LocalSlot, true)));
      AppendOnly(slot.b, cur, OpStore(slot.v, init), MayWrite, None);
    }
  }

  /** The first statement of a block and the others. */
  lemma BlockParts(S: Program, b: Bld, st: FuncState, cur: nat, stmts: seq<Stmt>, l1: LoweredStmt, ls: LoweredStmt)
    requires Ground(S, b, st.scope, cur) == true && st.cur == Some(cur) && stmts != []
    requires ls == LowerBlock(S, b, st, stmts) && ls.b.errs == [] && l1 == LowerStmt(S, b, st, cur, stmts[0])
    ensures l1.b.errs == [] && GrowsSt(b, cur, l1.b, l1.st.cur)
    ensures NamesOf(l1.st.scope.locals) == NamesAfter(S, NamesOf(st.scope.locals), stmts[0])
    ensures l1.st.cur.None? ==> ls == l1
    ensures l1.st.cur.Some? ==> && Ground(S, l1.b, l1.st.scope, l1.st.cur.value) && ls == LowerBlock(S, l1.b, l1.st, stmts[1..])
                                && GrowsSt(l1.b, l1.st.cur.value, ls.b, ls.st.cur)
  {
    hide LowerStmt, GlobalsOk, ScopeOk;
    GrowsStmt(S, b, st, cur, stmts[0]);
    if l1.st.cur.Some? {
      GrowsBlock(S, l1.b, l1.st, stmts[1..]);
    }
    ScopeAfter(S, b, st, cur, stmts[0], l1);
  }

  /** A nested block and the jump after it. */
  lemma ArmParts(S: Program, b: Bld, st: FuncState, bb: nat, body: seq<Stmt>, target: nat, r: LoweredStmt, b': Bld)
    requires bb < |b.mod.blocks| && r == LowerBlock(S, b, st.(cur := Some(bb)), body) && b' == LowerArm(S, b, st, bb, body, target)
    ensures GrowsSt(b, bb, r.b, r.st.cur) && r.b.errs == b'.errs && Touches(b, b', {bb})
    ensures b' == if r.st.cur.Some? then Terminate(r.b, r.st.cur.value, TermBr(target, [])) else r.b
  {
    hide LowerBlock;
    GrowsBlock(S, b, st.(cur := Some(bb)), body);
    GrowsArm(S, b, st, bb, body, target);
  }

  lemma IfParts(S: Program, b: Bld, st: FuncState, cur: nat, s: Stmt, ls: LoweredStmt, c: Lowered)
    requires Ground(S, b, st.scope, cur) == true && s.If? && ls == LowerIf(S, b, st, cur, s) && ls.b.errs == []
    requires c == LowerValue(S, b, st.scope, cur, s.cond)
    ensures c.b.errs == [] && Grows(b, cur, c.b, c.cur) && Ground(S, c.b, st.scope, c.cur)
    ensures ls == LowerIfArms(S, c.b, st, c.cur, s, c.v) && GrowsSt(c.b, c.cur, ls.b, ls.st.cur)
  {
    hide LowerValue, LowerIfArms, GlobalsOk, ScopeOk;
    GrowsValue(S, b, st.scope, cur, s.cond);
    GroundLater(S, b, st.scope, cur, c.b, c.cur);
    GrowsIfArms(S, c.b, st, c.cur, s, c.v);
  }

  /** Three new blocks, a fork to them, and work in the first two of them, one after the other. */
  datatype Forked = Forked(t: nat, b1: Bld, b2: Bld, b3: Bld)

  ghost predicate ForkGrows(S: Program, b: Bld, sc: Scope, cur: nat, term: Term, k: Forked) {
    && k.t == |b.mod.blocks| && k.b1 == Terminate(AddThreeBlocks(b, sc.owner), cur, term) && |k.b1.mod.blocks| == k.t + 3
    && Grows(b, cur, k.b1, cur) && Touches(k.b1, k.b2, {k.t}) && Touches(k.b2, k.b3, {k.t + 1}) && Touches(b, k.b3, {cur})
    && k.b1.errs == [] && k.b2.errs == [] && k.b3.errs == []
    && Ground(S, k.b1, sc, k.t) && Ground(S, k.b2, sc, k.t + 1)
  }

  lemma ForkParts(S: Program, b: Bld, sc: Scope, cur: nat, term: Term, k: Forked)
    requires Ground(S, b, sc, cur) == true && b.errs == [] && k.b3.errs == []
    requires k.t == |b.mod.blocks| && k.b1 == Terminate(AddThreeBlocks(b, sc.owner), cur, term)
    requires Touches(k.b1, k.b2, {k.t}) == true && Touches(k.b2, k.b3, {k.t + 1}) == true
    ensures ForkGrows(S, b, sc, cur, term, k)
  {
    hide AddThreeBlocks, Terminate, GlobalsOk;
    GrowsFork(b, sc.owner, cur, term);
    ForkTwice(b, cur, k.b1, k.b2, k.b3, k.t, k.t + 1);
    ScopeLater(b.mod.values, k.b1.mod.values, sc);
    ScopeLater(k.b1.mod.values, k.b2.mod.values, sc);
  }

  lemma IfArmsParts(S: Program, b: Bld, st: FuncState, cur: nat, s: Stmt, cond: Id, ls: LoweredStmt) returns (k: Forked)
    requires Ground(S, b, st.scope, cur) == true && b.errs == [] && s.If?
    requires ls == LowerIfArms(S, b, st, cur, s, cond) && ls.b.errs == []
    ensures ForkGrows(S, b, st.scope, cur, TermCondBr(cond, k.t, k.t + 1), k)
    ensures k.b2 == LowerArm(S, k.b1, st, k.t, s.thn, k.t + 2) && k.b3 == LowerArm(S, k.b2, st, k.t + 1, s.els, k.t + 2)
    ensures ls == LoweredStmt(k.b3, st.(cur := Some(k.t + 2)))
  {
    hide AddThreeBlocks, Terminate, LowerArm, GlobalsOk, ScopeOk;
    var t := |b.mod.blocks|;
    var b1 := Terminate(AddThreeBlocks(b, st.scope.owner), cur, TermCondBr(cond, t, t + 1));
    var b2 := LowerArm(S, b1, st, t, s.thn, t + 2);
    GrowsFork(b, st.scope.owner, cur, TermCondBr(cond, t, t + 1));
    GrowsArm(S, b1, st, t, s.thn, t + 2);
    GrowsArm(S, b2, st, t + 1, s.els, t + 2);
    k := Forked(t, b1, b2, ls.b);
    ForkParts(S, b, st.scope, cur, TermCondBr(cond, t, t + 1), k);
  }

  lemma WhileParts(S: Program, b: Bld, st: FuncState, cur: nat, s: Stmt, ls: LoweredStmt) returns (k: Forked)
    requires Ground(S, b, st.scope, cur) == true && b.errs == [] && s.While? && ls == LowerWhile(S, b, st, cur, s) && ls.b.errs == []
    ensures ForkGrows(S, b, st.scope, cur, TermBr(k.t, []), k)
    ensures k.b2 == LowerWhileHead(S, k.b1, st, k.t, s) && k.b3 == LowerArm(S, k.b2, st, k.t + 1, s.body, k.t)
    ensures ls == LoweredStmt(k.b3, st.(cur := Some(k.t + 2)))
  {
    hide AddThreeBlocks, Terminate, LowerArm, LowerWhileHead, GlobalsOk, ScopeOk;
    var t := |b.mod.blocks|;
    var b1 := Terminate(AddThreeBlocks(b, st.scope.owner), cur, TermBr(t, []));
    var b2 := LowerWhileHead(S, b1, st, t, s);
    GrowsFork(b, st.scope.owner, cur, TermBr(t, []));
    GrowsWhileHead(S, b1, st, t, s);
    GrowsArm(S, b2, st, t + 1, s.body, t);
    k := Forked(t, b1, b2, ls.b);
    ForkParts(S, b, st.scope, cur, TermBr(t, []), k);
  }

  lemma HeadParts(S: Program, b: Bld, st: FuncState, t: nat, s: Stmt, b': Bld, c: Lowered)
    requires t < |b.mod.blocks| && s.While? && b' == LowerWhileHead(S, b, st, t, s) && c == LowerValue(S, b, st.scope, t, s.cond)
    ensures Grows(b, t, c.b, c.cur) && c.b.errs == b'.errs && b' == Terminate(c.b, c.cur, TermCondBr(c.v, t + 1, t + 2))
  {
    hide LowerValue;
    GrowsValue(S, b, st.scope, t, s.cond);
  }

  /** A switch: the scrutinee, then the value tested, then, if there is one, the cases. */
  lemma SwitchParts(S: Program, b: Bld, st: FuncState, cur: nat, s: Stmt, ls: LoweredStmt, x: Lowered, v: Lowered)
    requires Ground(S, b, st.scope, cur) == true && s.Switch? && ls == LowerSwitch(S, b, st, cur, s) && ls.b.errs == []
    requires x == LowerValue(S, b, st.scope, cur, s.scrutinee)
    requires v == if x.v.None? || !s.scrutinee.ty.Optional? then x else PresenceTest(x)
    ensures SwitchableType(s.scrutinee.ty)
    ensures x.b.errs == [] && Grows(b, cur, x.b, x.cur) && v.b.errs == [] && Grows(x.b, x.cur, v.b, v.cur)
    ensures OnlyInsts(x.b, x.cur, v.b) && v.cur == x.cur && (v.v.Some? <==> x.v.Some?) && Ground(S, v.b, st.scope, v.cur)
    ensures ls == if v.v.None? then LoweredStmt(v.b, st.(cur := Some(v.cur))) else LowerSwitchArms(S, v.b, st, v.cur, s, v.v)
    ensures GrowsSt(v.b, v.cur, ls.b, ls.st.cur)
  {
    hide LowerValue, LowerSwitchArms, GlobalsOk, ScopeOk, SwitchableType, RejectedCase;
    GrowsValue(S, b, st.scope, cur, s.scrutinee);
    GroundLater(S, b, st.scope, cur, x.b, x.cur);
    GrowsRefl(x.b, x.cur);
    GrowsEmit(x.b, x.cur, Bool, Pure, OpOptionalIsPresent(x.v), LayoutClass.Scalar);
    EmitOnly(x.b, x.cur, Bool, Pure, OpOptionalIsPresent(x.v), LayoutClass.Scalar);
    GroundLater(S, x.b, st.scope, x.cur, v.b, x.cur);
    assert v == LowerScrutinee(S, b, st.scope, cur, s.scrutinee);
    GrowsRefl(v.b, v.cur);
    GrowsSwitchArms(S, v.b, st, v.cur, s, v.v);
  }

  /** The blocks of a switch, `t` where it ends and `t + 1` on for the cases, and the module with the
      switch on. */
  datatype Switched = Switched(t: nat, cs: CaseBlocks, b1: Bld)

  ghost predicate SwitchGrows(S: Program, b: Bld, sc: Scope, cur: nat, s: Stmt, v: Id, k: Switched)
    requires s.Switch?
  {
    && k.t == |b.mod.blocks|
    && k.cs == AddCases(AddBlock(b, sc.owner), sc.owner, s.scrutinee.ty, s.cases, 0, k.t, []) && k.cs.ok
    && k.b1 == Terminate(k.cs.b, cur, TermSwitch(v, k.cs.defaultBb, k.cs.arms))
    && |k.b1.mod.blocks| == k.t + 1 + |s.cases| && Grows(b, cur, k.b1, cur) && k.b1.errs == [] && Ground(S, k.b1, sc, k.t)
    && (forall x :: k.t <= x < |k.b1.mod.blocks| ==> k.b1.mod.blocks[x] == EMPTY_BLOCK)
    && (b.mod.blocks[cur].term.None? ==> k.b1.mod.blocks[cur].term.Some?)
  }

  lemma SwitchArmsParts(S: Program, b: Bld, st: FuncState, cur: nat, s: Stmt, v: Id, ls: LoweredStmt) returns (k: Switched)
    requires Ground(S, b, st.scope, cur) == true && b.errs == [] && s.Switch?
    requires ls == LowerSwitchArms(S, b, st, cur, s, v) && ls.b.errs == []
    ensures SwitchGrows(S, b, st.scope, cur, s, v, k)
    ensures ls == LoweredStmt(LowerCases(S, k.b1, st, k.t + 1, s.cases, k.t), st.(cur := Some(k.t)))
  {
    hide AddCases, AddBlock, LowerCases, GlobalsOk, ScopeOk;
    var t := |b.mod.blocks|;
    var cs := AddCases(AddBlock(b, st.scope.owner), st.scope.owner, s.scrutinee.ty, s.cases, 0, t, []);
    GrowsSwitchBlocks(b, st.scope.owner, s.scrutinee.ty, s.cases);
    if !cs.ok {
      CasesOk(AddBlock(b, st.scope.owner), st.scope.owner, s.scrutinee.ty, s.cases, 0, t, []);
    }
    var b1 := Terminate(cs.b, cur, TermSwitch(v, cs.defaultBb, cs.arms));
    GrowsTerminate(cs.b, cur, TermSwitch(v, cs.defaultBb, cs.arms));
    TouchesTrans(b, cs.b, b1, {cur}, {cur});
    GroundLater(S, b, st.scope, cur, b1, cur);
    k := Switched(t, cs, b1);
  }

  lemma CasesParts(S: Program, b: Bld, st: FuncState, first: nat, cases: seq<Case>, after: nat, b1: Bld, b': Bld)
    requires cases != [] && Ground(S, b, st.scope, first) == true && first + |cases| <= |b.mod.blocks|
    requires b1 == LowerArm(S, b, st, first, cases[0].body, after) && b' == LowerCases(S, b, st, first, cases, after) && b'.errs == []
    ensures b1.errs == [] && Touches(b, b1, {first}) && |b.mod.blocks| <= |b1.mod.blocks|
    ensures b' == LowerCases(S, b1, st, first + 1, cases[1..], after) && Touches(b1, b', Span(first + 1, |cases| - 1))
    ensures |cases| > 1 ==> Ground(S, b1, st.scope, first + 1)
  {
    hide LowerArm, GlobalsOk;
    GrowsArm(S, b, st, first, cases[0].body, after);
    GrowsCases(S, b1, st, first + 1, cases[1..], after);
    ScopeLater(b.mod.values, b1.mod.values, st.scope);
  }
}
