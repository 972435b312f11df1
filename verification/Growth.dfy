/** Lowering only ever adds: values, instructions and blocks are appended, and of the existing
    blocks only the one being filled changes, by appended instructions and one terminator. */
module Growth {
  import opened Wrappers
  import opened Sir
  import opened SirSemantics
  import opened Goir
  import opened Lowering

  /** `y` is `x` with more instructions, and with `x`'s terminator if it had one. */
  predicate BlockExt(x: Block, y: Block) {
    x.params == y.params && x.insts <= y.insts && (x.term.Some? ==> y.term == x.term)
  }

  predicate RealExt(r: Realization, r': Realization) {
    r'.(blocks := r.blocks) == r && r.blocks <= r'.blocks
  }

  predicate SameTables(m: Module, m': Module) {
    && m'.stage == m.stage && m'.sigs == m.sigs && m'.comps == m.comps && m'.globals == m.globals
    && |m'.reals| == |m.reals|
    && forall i :: 0 <= i < |m.reals| ==> RealExt(m.reals[i], m'.reals[i])
  }

  /** From `b` to `b'` things were only added, and of the old blocks only those in `T` changed. */
  ghost predicate Touches(b: Bld, b': Bld, T: set<nat>) {
    && b.errs <= b'.errs
    && b.mod.values <= b'.mod.values
    && b.mod.insts <= b'.mod.insts
    && |b.mod.blocks| <= |b'.mod.blocks|
    && SameTables(b.mod, b'.mod)
    && (forall x :: 0 <= x < |b.mod.blocks| && x !in T ==> b'.mod.blocks[x] == b.mod.blocks[x])
    && (forall x :: 0 <= x < |b.mod.blocks| && x in T ==> BlockExt(b.mod.blocks[x], b'.mod.blocks[x]))
  }

  /** `Touches` for a routine that starts filling block `cur` and ends filling block `cur'`. */
  ghost predicate Grows(b: Bld, cur: nat, b': Bld, cur': nat) {
    && cur < |b.mod.blocks|
    && Touches(b, b', {cur})
    && (cur' == cur || |b.mod.blocks| <= cur' < |b'.mod.blocks|)
  }

  lemma TouchesTrans(b: Bld, b1: Bld, b2: Bld, T: set<nat>, T1: set<nat>)
    requires Touches(b, b1, T) && Touches(b1, b2, T1)
    requires forall x :: x in T1 && x < |b.mod.blocks| ==> x in T
    ensures Touches(b, b2, T)
  {
    forall x | 0 <= x < |b.mod.blocks| && x !in T
      ensures b2.mod.blocks[x] == b.mod.blocks[x]
    {
      assert x !in T1;
    }
    forall x | 0 <= x < |b.mod.blocks| && x in T
      ensures BlockExt(b.mod.blocks[x], b2.mod.blocks[x])
    {
      assert BlockExt(b.mod.blocks[x], b1.mod.blocks[x]);
      assert if x in T1 then BlockExt(b1.mod.blocks[x], b2.mod.blocks[x]) else b2.mod.blocks[x] == b1.mod.blocks[x];
    }
    forall i | 0 <= i < |b.mod.reals|
      ensures RealExt(b.mod.reals[i], b2.mod.reals[i])
    {
      assert RealExt(b.mod.reals[i], b1.mod.reals[i]) && RealExt(b1.mod.reals[i], b2.mod.reals[i]);
    }
  }

  lemma TouchesWiden(b: Bld, b': Bld, T: set<nat>, T': set<nat>)
    requires Touches(b, b', T) && T <= T'
    ensures Touches(b, b', T')
  {
  }

  lemma GrowsTrans(b: Bld, c: nat, b1: Bld, c1: nat, b2: Bld, c2: nat)
    requires Grows(b, c, b1, c1) && Grows(b1, c1, b2, c2)
    ensures Grows(b, c, b2, c2)
  {
    TouchesTrans(b, b1, b2, {c}, {c1});
  }

  /** A fork at `cur` followed by work in two of the new blocks, in turn. */
  lemma ForkTwice(b: Bld, cur: nat, b1: Bld, b2: Bld, b3: Bld, x: nat, y: nat)
    requires cur < |b.mod.blocks| <= x && |b.mod.blocks| <= y
    requires Touches(b, b1, {cur}) && Touches(b1, b2, {x}) && Touches(b2, b3, {y})
    ensures Touches(b, b3, {cur}) && |b1.mod.blocks| <= |b3.mod.blocks|
  {
    TouchesTrans(b, b1, b2, {cur}, {x});
    TouchesTrans(b, b2, b3, {cur}, {y});
  }

  // ---- The single updates ---------------------------------------------------------------

  lemma GrowsRefl(b: Bld, cur: nat)
    requires cur < |b.mod.blocks|
    ensures Grows(b, cur, b, cur)
  {
  }

  lemma GrowsError(b: Bld, cur: nat, msg: Message)
    requires cur < |b.mod.blocks|
    ensures Grows(b, cur, Error(b, msg), cur)
  {
  }

  lemma GrowsAppend(b: Bld, cur: nat, op: Op, eff: Effect, result: Option<Value>)
    requires cur < |b.mod.blocks|
    ensures Grows(b, cur, Append(b, cur, op, eff, result).b, cur)
  {
  }

  lemma GrowsTerminate(b: Bld, cur: nat, term: Term)
    requires cur < |b.mod.blocks|
    ensures Grows(b, cur, Terminate(b, cur, term), cur)
  {
  }

  lemma TouchesAddBlock(b: Bld, owner: nat)
    ensures Touches(b, AddBlock(b, owner), {})
    ensures AddBlock(b, owner).mod.blocks == b.mod.blocks + [EMPTY_BLOCK]
  {
  }

  lemma TouchesAddThree(b: Bld, owner: nat)
    ensures Touches(b, AddThreeBlocks(b, owner), {})
    ensures AddThreeBlocks(b, owner).mod.blocks == b.mod.blocks + [EMPTY_BLOCK, EMPTY_BLOCK, EMPTY_BLOCK]
    ensures AddThreeBlocks(b, owner).mod.values == b.mod.values
    ensures AddThreeBlocks(b, owner).errs == b.errs
  {
    var b1 := AddBlock(b, owner);
    var b2 := AddBlock(b1, owner);
    TouchesAddBlock(b, owner);
    TouchesAddBlock(b1, owner);
    TouchesAddBlock(b2, owner);
    TouchesTrans(b, b1, b2, {}, {});
    TouchesTrans(b, b2, AddBlock(b2, owner), {}, {});
  }

  /** Adding the blocks of `a ?? b` and branching to them. */
  lemma GrowsCoalesceBlocks(b: Bld, owner: nat, cur: nat, ty: Ty, present: Id)
    requires cur < |b.mod.blocks|
    ensures Grows(b, cur, CoalesceBlocks(b, owner, cur, ty, present), cur)
    ensures var b1 := CoalesceBlocks(b, owner, cur, ty, present);
            var s := |b.mod.blocks|;
            && |b1.mod.blocks| == s + 3 && b1.errs == b.errs
            && b1.mod.values == b.mod.values + [PlainValue(ty, Pure, UnknownLayout)]
            && b1.mod.blocks[s] == EMPTY_BLOCK && b1.mod.blocks[s + 1] == EMPTY_BLOCK
            && b1.mod.blocks[s + 2] == Block([|b.mod.values|], [], None)
            && (b.mod.blocks[cur].term.None? ==>
                  b1.mod.blocks[cur] == b.mod.blocks[cur].(term := Some(TermCondBr(present, s, s + 1))))
  {
    hide AddThreeBlocks, PlainValue;
    var s := |b.mod.blocks|;
    TouchesAddThree(b, owner);
    var b2 := AddThreeBlocks(b, owner);
    var b3 := AddBlockParam(b2, s + 2, ty);
    assert b2.mod.blocks[s + 2] == EMPTY_BLOCK && b3.mod.blocks[s + 2] == Block([|b.mod.values|], [], None);
    assert b3.mod.blocks == b.mod.blocks + [EMPTY_BLOCK, EMPTY_BLOCK, Block([|b.mod.values|], [], None)];
    assert Touches(b, b3, {cur});
    GrowsTerminate(b3, cur, TermCondBr(present, s, s + 1));
    TouchesTrans(b, b3, CoalesceBlocks(b, owner, cur, ty, present), {cur}, {cur});
  }

  /** Three new blocks and a terminator for the current one: the fork of `if` and `while`. */
  lemma GrowsFork(b: Bld, owner: nat, cur: nat, term: Term)
    requires cur < |b.mod.blocks|
    ensures var b1 := Terminate(AddThreeBlocks(b, owner), cur, term);
            var t := |b.mod.blocks|;
            && Grows(b, cur, b1, cur)
            && |b1.mod.blocks| == t + 3 && b1.errs == b.errs && b1.mod.values == b.mod.values
            && b1.mod.blocks[t] == EMPTY_BLOCK && b1.mod.blocks[t + 1] == EMPTY_BLOCK && b1.mod.blocks[t + 2] == EMPTY_BLOCK
            && (b.mod.blocks[cur].term.None? ==> b1.mod.blocks[cur] == b.mod.blocks[cur].(term := Some(term)))
  {
    var b0 := AddThreeBlocks(b, owner);
    TouchesAddThree(b, owner);
    assert b0.mod.blocks[cur] == b.mod.blocks[cur];
    GrowsTerminate(b0, cur, term);
    TouchesWiden(b, b0, {}, {cur});
    TouchesTrans(b, b0, Terminate(b0, cur, term), {cur}, {cur});
  }

  // ---- Expressions ----------------------------------------------------------------------

  lemma GrowsEmit(b: Bld, cur: nat, ty: Ty, eff: Effect, op: Op, layout: LayoutClass)
    requires cur < |b.mod.blocks|
    ensures Grows(b, cur, Emit(b, cur, ty, eff, op, layout).b, cur)
  {
    GrowsAppend(b, cur, op, eff, if ty == Unit then None else Some(PlainValue(ty, eff, layout)));
  }

  lemma GrowsGlobalPlace(S: Program, b: Bld, cur: nat, sym: Sym)
    requires cur < |b.mod.blocks|
    ensures var lo := GlobalPlaceOf(S, b, cur, sym); Grows(b, cur, lo.b, cur) && lo.cur == cur
  {
    match FindGlobal(S.globals, sym)
    case None => GrowsError(b, cur, UnknownSymbol);
    case Some(i) =>
      GrowsAppend(b, cur, OpGlobalSlot(i), Pure, Some(PlaceValue(S.globals[i].ty, GlobalSlot, S.globals[i].isMutable)));
  }

  lemma GrowsPlace(S: Program, b: Bld, sc: Scope, cur: nat, e: Expr)
    requires cur < |b.mod.blocks|
    ensures var lo := LowerPlace(S, b, sc, cur, e); Grows(b, cur, lo.b, cur) && lo.cur == cur
  {
    match e
    case Local(_, sym) => GrowsGlobalPlace(S, b, cur, sym); GrowsError(b, cur, NotAPlace); GrowsRefl(b, cur);
    case Global(_, sym) => GrowsGlobalPlace(S, b, cur, sym);
    case _ => GrowsError(b, cur, UnsupportedPlace);
  }

  lemma GrowsLoadFrom(b: Bld, cur: nat, place: Id, ty: Ty, layout: LayoutClass)
    requires cur < |b.mod.blocks|
    ensures var lo := LoadFrom(b, cur, place, ty, layout); Grows(b, cur, lo.b, cur) && lo.cur == cur
  {
    GrowsEmit(b, cur, ty, MayRead, OpLoad(place), ClassifyLayout(ty));
    GrowsRefl(b, cur);
  }

  lemma GrowsName(S: Program, b: Bld, sc: Scope, cur: nat, e: Expr)
    requires cur < |b.mod.blocks|
    requires e.Local? || e.Global?
    ensures var lo := LowerValue(S, b, sc, cur, e); Grows(b, cur, lo.b, cur) && lo.cur == cur
  {
    if e.Local? && e.sym in sc.locals {
      var bd := sc.locals[e.sym];
      GrowsLoadFrom(b, cur, bd.value, bd.ty, bd.layout);
      GrowsRefl(b, cur);
    } else {
      var p := GlobalPlaceOf(S, b, cur, e.sym);
      GrowsGlobalPlace(S, b, cur, e.sym);
      var ty := ElemType(p.b.mod, p.v);
      GrowsLoadFrom(p.b, cur, p.v, ty, ClassifyLayout(ty));
      GrowsTrans(b, cur, p.b, cur, LoadFrom(p.b, cur, p.v, ty, ClassifyLayout(ty)).b, cur);
    }
  }

  lemma GrowsLiteral(b: Bld, cur: nat, e: Expr)
    requires cur < |b.mod.blocks|
    requires e.IntLit? || e.FloatLit? || e.StringLit? || e.CharLit? || e.BoolLit? || e.NullLit?
    ensures var lo := LowerLiteral(b, cur, e); Grows(b, cur, lo.b, cur) && lo.cur == cur
  {
    var lo := LowerLiteral(b, cur, e);
    if lo.b == Error(b, BadLiteral) {
      GrowsError(b, cur, BadLiteral);
    } else {
      var inst := lo.b.mod.insts[|b.mod.insts|];
      var result := if e.ty == Unit then None else Some(lo.b.mod.values[|b.mod.values|]);
      GrowsAppend(b, cur, inst.op, inst.eff, result);
    }
  }

  lemma {:induction false} GrowsValueAs(S: Program, b: Bld, sc: Scope, cur: nat, e: Expr, target: Ty)
    requires cur < |b.mod.blocks|
    ensures var lo := LowerValueAs(S, b, sc, cur, e, target); Grows(b, cur, lo.b, lo.cur)
    decreases e, 2
  {
    var lo := LowerValue(S, b, sc, cur, e);
    GrowsValue(S, b, sc, cur, e);
    GrowsError(b, cur, UnsupportedOptional);
    GrowsEmit(b, cur, target, Pure, OpOptionalNone, OptionalScalar);
    GrowsError(lo.b, lo.cur, UnsupportedCoercion);
    GrowsTrans(b, cur, lo.b, lo.cur, Error(lo.b, UnsupportedCoercion), lo.cur);
    GrowsEmit(lo.b, lo.cur, target, Pure, OpOptionalSome(lo.v), OptionalScalar);
    GrowsTrans(b, cur, lo.b, lo.cur, Emit(lo.b, lo.cur, target, Pure, OpOptionalSome(lo.v), OptionalScalar).b, lo.cur);
  }

  lemma {:induction false} GrowsValue(S: Program, b: Bld, sc: Scope, cur: nat, e: Expr)
    requires cur < |b.mod.blocks|
    ensures var lo := LowerValue(S, b, sc, cur, e); Grows(b, cur, lo.b, lo.cur)
    decreases e, 1
  {
    match e
    case Local(_, _) => GrowsName(S, b, sc, cur, e);
    case Global(_, _) => GrowsName(S, b, sc, cur, e);
    case Unary(_, _, _) => GrowsOperand(S, b, sc, cur, e);
    case Cast(_, _, _, _) => GrowsOperand(S, b, sc, cur, e);
    case Binary(_, tok, _, _) => GrowsCoalesce(S, b, sc, cur, e); GrowsBinary(S, b, sc, cur, e);
    case Call(_, _, _, _, _, _) => GrowsCall(S, b, sc, cur, e);
    case EnumCtor(ty, tag, _) =>
      GrowsError(b, cur, UnsupportedEnumCtor);
      GrowsEmit(b, cur, ty, Pure, OpEnumTag(tag), TagEnumLayout);
    case Assign(_, _, _) => GrowsAssign(S, b, sc, cur, e);
    case OtherExpr(_) => GrowsError(b, cur, UnsupportedExpr);
    case _ => GrowsLiteral(b, cur, e);
  }

  lemma {:induction false} GrowsOperand(S: Program, b: Bld, sc: Scope, cur: nat, e: Expr)
    requires cur < |b.mod.blocks| && (e.Unary? || e.Cast?)
    ensures var lo := LowerOperand(S, b, sc, cur, e); Grows(b, cur, lo.b, lo.cur)
    decreases e, 0, 1
  {
    var x := LowerValue(S, b, sc, cur, e.a);
    var lo := LowerOperand(S, b, sc, cur, e);
    GrowsValue(S, b, sc, cur, e.a);
    if e.Unary? && MapUnOp(e.tok).None? {
      GrowsError(x.b, x.cur, UnsupportedOperator);
    } else {
      GrowsEmit(x.b, x.cur, e.ty, OperandEffect(e), OperandOp(e, x.v), UnknownLayout);
    }
    GrowsTrans(b, cur, x.b, x.cur, lo.b, lo.cur);
  }

  lemma {:induction false} GrowsBinary(S: Program, b: Bld, sc: Scope, cur: nat, e: Expr)
    requires cur < |b.mod.blocks| && e.Binary?
    ensures var lo := LowerBinary(S, b, sc, cur, e); Grows(b, cur, lo.b, lo.cur)
    decreases e, 0, 1
  {
    var x := LowerValue(S, b, sc, cur, e.a);
    var y := LowerValue(S, x.b, sc, x.cur, e.b);
    var lo := LowerBinary(S, b, sc, cur, e);
    GrowsValue(S, b, sc, cur, e.a);
    GrowsValue(S, x.b, sc, x.cur, e.b);
    GrowsTrans(b, cur, x.b, x.cur, y.b, y.cur);
    if MapBinOp(e.tok).None? {
      GrowsError(y.b, y.cur, UnsupportedOperator);
    } else {
      GrowsEmit(y.b, y.cur, e.ty, Pure, OpBinary(MapBinOp(e.tok).value, x.v, y.v), UnknownLayout);
    }
    GrowsTrans(b, cur, y.b, y.cur, lo.b, lo.cur);
  }

  lemma {:induction false} GrowsCall(S: Program, b: Bld, sc: Scope, cur: nat, e: Expr)
    requires cur < |b.mod.blocks| && e.Call?
    ensures var lo := LowerCall(S, b, sc, cur, e); Grows(b, cur, lo.b, lo.cur)
    decreases e, 0, 1
  {
    var fi := FindFunc(S.funcs, e.callee);
    if e.isCore || e.isThrowing || fi.None? {
      GrowsError(b, cur, UnsupportedCall);
    } else {
      var tys := ParamTypes(S.funcs[fi.value].params);
      var xs := LowerArgs(S, b, sc, cur, e.args, tys);
      var lo := LowerCall(S, b, sc, cur, e);
      GrowsArgs(S, b, sc, cur, e.args, tys);
      GrowsEmit(xs.b, xs.cur, e.ty, CallEffect, CallOp(S, e, fi.value, xs.vs), ClassifyLayout(e.ty));
      GrowsTrans(b, cur, xs.b, xs.cur, lo.b, lo.cur);
    }
  }

  lemma {:induction false} GrowsAssign(S: Program, b: Bld, sc: Scope, cur: nat, e: Expr)
    requires cur < |b.mod.blocks| && e.Assign?
    ensures var lo := LowerAssign(S, b, sc, cur, e); Grows(b, cur, lo.b, lo.cur)
    decreases e, 0, 1
  {
    var p := LowerPlace(S, b, sc, cur, e.place);
    GrowsPlace(S, b, sc, cur, e.place);
    GrowsValue(S, p.b, sc, p.cur, e.rhs);
    GrowsValueAs(S, p.b, sc, p.cur, e.rhs, ElemType(p.b.mod, p.v));
    var r :=
      if p.v.None? then LowerValue(S, p.b, sc, p.cur, e.rhs)
      else LowerValueAs(S, p.b, sc, p.cur, e.rhs, ElemType(p.b.mod, p.v));
    GrowsTrans(b, cur, p.b, cur, r.b, r.cur);
    GrowsAppend(r.b, r.cur, OpStore(p.v, r.v), MayWrite, None);
    GrowsTrans(b, cur, r.b, r.cur, EmitStore(r.b, r.cur, p.v, r.v).b, r.cur);
  }

  lemma {:induction false} GrowsCoalesce(S: Program, b: Bld, sc: Scope, cur: nat, e: Expr)
    requires cur < |b.mod.blocks|
    requires e.Binary?
    ensures var lo := LowerCoalesce(S, b, sc, cur, e); Grows(b, cur, lo.b, lo.cur)
    decreases e, 0, 2
  {
    GrowsError(b, cur, NotOptional);
    if e.a.ty.Optional? {
      var x := LowerValue(S, b, sc, cur, e.a);
      GrowsValue(S, b, sc, cur, e.a);
      if x.v.Some? {
        var t := Emit(x.b, x.cur, Bool, Pure, OpOptionalIsPresent(x.v), LayoutClass.Scalar);
        GrowsEmit(x.b, x.cur, Bool, Pure, OpOptionalIsPresent(x.v), LayoutClass.Scalar);
        GrowsTrans(b, cur, x.b, x.cur, t.b, t.cur);
        GrowsCoalesceArms(S, t.b, sc, t.cur, e, x.v, t.v);
        var lo := LowerCoalesceArms(S, t.b, sc, t.cur, e, x.v, t.v);
        GrowsTrans(b, cur, t.b, t.cur, lo.b, lo.cur);
      }
    }
  }

  /** The stages of the code of `a ?? b` after the test: the first of its blocks, the module once
      they exist, the payload, the module once the present way is closed, and the value of `b`. */
  datatype ArmsCode = ArmsCode(s: nat, b1: Bld, got: Lowered, b2: Bld, y: Lowered)

  function CoalesceStages(S: Program, b: Bld, sc: Scope, cur: nat, e: Expr, opt: Id, present: Id): ArmsCode
    requires e.Binary? && e.a.ty.Optional?
  {
    var s := |b.mod.blocks|;
    var b1 := CoalesceBlocks(b, sc.owner, cur, e.ty, present);
    var got := Emit(b1, s, e.a.ty.elem, Pure, OpOptionalGet(opt), ClassifyLayout(e.a.ty.elem));
    var b2 := if got.v.None? then got.b else Terminate(got.b, s, TermBr(s + 2, [got.v]));
    ArmsCode(s, b1, got, b2, LowerValueAs(S, b2, sc, s + 1, e.b, e.ty))
  }

  /** Each stage fills the block of its way; the blocks' numbers are known. */
  ghost predicate StagesGrow(b: Bld, cur: nat, a: ArmsCode) {
    && cur < a.s == |b.mod.blocks| && |a.b1.mod.blocks| == a.s + 3
    && Touches(b, a.b1, {cur}) && Touches(a.b1, a.b2, {a.s})
    && Touches(a.b1, a.got.b, {a.s}) && a.got.cur == a.s && Touches(a.got.b, a.b2, {a.s})
    && Grows(a.b2, a.s + 1, a.y.b, a.y.cur)
    && |a.got.b.mod.blocks| == a.s + 3 && |a.b2.mod.blocks| == a.s + 3
  }

  lemma {:induction false} GrowsStages(S: Program, b: Bld, sc: Scope, cur: nat, e: Expr, opt: Id, present: Id)
    requires cur < |b.mod.blocks| && e.Binary? && e.a.ty.Optional?
    ensures StagesGrow(b, cur, CoalesceStages(S, b, sc, cur, e, opt, present))
    decreases e, 0, 0
  {
    hide Emit, Terminate, CoalesceBlocks, LowerValueAs, ClassifyLayout, PlainValue, Touches;
    var a := CoalesceStages(S, b, sc, cur, e, opt, present);
    GrowsCoalesceBlocks(b, sc.owner, cur, e.ty, present);
    GrowsEmit(a.b1, a.s, e.a.ty.elem, Pure, OpOptionalGet(opt), ClassifyLayout(e.a.ty.elem));
    SameBlocks(a.b1, a.s, e.a.ty.elem, Pure, OpOptionalGet(opt), ClassifyLayout(e.a.ty.elem), TermBr(a.s + 2, [a.got.v]));
    if a.got.v.Some? {
      GrowsTerminate(a.got.b, a.s, TermBr(a.s + 2, [a.got.v]));
    } else {
      GrowsRefl(a.got.b, a.s);
    }
    TouchesTrans(a.b1, a.got.b, a.b2, {a.s}, {a.s});
    GrowsValueAs(S, a.b2, sc, a.s + 1, e.b, e.ty);
  }

  lemma SameBlocks(b: Bld, cur: nat, ty: Ty, eff: Effect, op: Op, layout: LayoutClass, term: Term)
    ensures var lo := Emit(b, cur, ty, eff, op, layout);
            lo.cur == cur && |lo.b.mod.blocks| == |b.mod.blocks| == |Terminate(lo.b, cur, term).mod.blocks|
  {
  }

  lemma {:induction false} GrowsCoalesceArms(S: Program, b: Bld, sc: Scope, cur: nat, e: Expr, opt: Id, present: Id)
    requires cur < |b.mod.blocks|
    requires e.Binary? && e.a.ty.Optional?
    ensures var lo := LowerCoalesceArms(S, b, sc, cur, e, opt, present); Grows(b, cur, lo.b, lo.cur)
    decreases e, 0, 1
  {
    var a := CoalesceStages(S, b, sc, cur, e, opt, present);
    var lo := LowerCoalesceArms(S, b, sc, cur, e, opt, present);
    GrowsStages(S, b, sc, cur, e, opt, present);
    assert Grows(b, cur, lo.b, lo.cur) by {
      GrowsStagesEnd(b, cur, a);
    }
  }

  /** Closing the second way, after the stages. */
  lemma GrowsStagesEnd(b: Bld, cur: nat, a: ArmsCode)
    requires StagesGrow(b, cur, a) == true
    ensures var b3 := Terminate(a.y.b, a.y.cur, TermBr(a.s + 2, [a.y.v]));
            && Touches(b, a.got.b, {cur}) && Touches(b, a.y.b, {cur})
            && Touches(a.y.b, b3, {a.y.cur}) && Touches(b, b3, {cur}) && |b3.mod.blocks| >= a.s + 3
  {
    TouchesTrans(b, a.b1, a.got.b, {cur}, {a.s});
    ForkTwice(b, cur, a.b1, a.b2, a.y.b, a.s, a.s + 1);
    GrowsTerminate(a.y.b, a.y.cur, TermBr(a.s + 2, [a.y.v]));
    TouchesTrans(b, a.y.b, Terminate(a.y.b, a.y.cur, TermBr(a.s + 2, [a.y.v])), {cur}, {a.y.cur});
  }

  lemma {:induction false} GrowsArgs(S: Program, b: Bld, sc: Scope, cur: nat, args: seq<Expr>, tys: seq<Ty>)
    requires cur < |b.mod.blocks|
    ensures var xs := LowerArgs(S, b, sc, cur, args, tys); Grows(b, cur, xs.b, xs.cur)
    decreases args, 0
  {
    if args == [] {
      GrowsRefl(b, cur);
    } else {
      var ty := if tys == [] then args[0].ty else tys[0];
      var x := LowerValueAs(S, b, sc, cur, args[0], ty);
      var tys1 := if tys == [] then [] else tys[1..];
      var xs := LowerArgs(S, x.b, sc, x.cur, args[1..], tys1);
      GrowsValueAs(S, b, sc, cur, args[0], ty);
      GrowsArgs(S, x.b, sc, x.cur, args[1..], tys1);
      GrowsTrans(b, cur, x.b, x.cur, xs.b, xs.cur);
    }
  }

  // ---- Statements -----------------------------------------------------------------------

  /** `Grows` for a statement, which may leave its path closed. */
  ghost predicate GrowsSt(b: Bld, cur: nat, b': Bld, cur': Option<nat>) {
    && cur < |b.mod.blocks|
    && Touches(b, b', {cur})
    && (cur'.Some? ==> cur'.value == cur || |b.mod.blocks| <= cur'.value < |b'.mod.blocks|)
  }

  lemma GrowsThenSt(b: Bld, c: nat, b1: Bld, c1: nat, b2: Bld, c2: Option<nat>)
    requires Grows(b, c, b1, c1) && GrowsSt(b1, c1, b2, c2)
    ensures GrowsSt(b, c, b2, c2)
  {
    TouchesTrans(b, b1, b2, {c}, {c1});
  }

  lemma GrowsBindLocal(b: Bld, st: FuncState, cur: nat, s: Stmt, ty: Ty, init: Id)
    requires cur < |b.mod.blocks| && s.VarDecl?
    ensures var r := BindLocal(b, st, cur, s, ty, init); GrowsSt(b, cur, r.b, r.st.cur) && r.st.cur == Some(cur)
  {
    if s.isSet || s.isMut {
      var slot := EmitPlace(b, cur, ty, OpLocalSlot, LocalSlot, true);
      GrowsAppend(b, cur, OpLocalSlot, Pure, Some(PlaceValue(ty, LocalSlot, true)));
      GrowsAppend(slot.b, cur, OpStore(slot.v, init), MayWrite, None);
      GrowsTrans(b, cur, slot.b, cur, EmitStore(slot.b, cur, slot.v, init).b, cur);
    } else {
      GrowsRefl(b, cur);
    }
  }

  /** Lowering a nested block changes only the block it starts in, among the old ones. */
  lemma {:induction false} GrowsArm(S: Program, b: Bld, st: FuncState, bb: nat, body: seq<Stmt>, target: nat)
    requires bb < |b.mod.blocks|
    ensures Touches(b, LowerArm(S, b, st, bb, body, target), {bb})
    decreases body, 1
  {
    var r := LowerBlock(S, b, st.(cur := Some(bb)), body);
    GrowsBlock(S, b, st.(cur := Some(bb)), body);
    if r.st.cur.Some? {
      var c := r.st.cur.value;
      GrowsTerminate(r.b, c, TermBr(target, []));
      TouchesTrans(b, r.b, LowerArm(S, b, st, bb, body, target), {bb}, {c});
    }
  }

  lemma {:induction false} GrowsBlock(S: Program, b: Bld, st: FuncState, stmts: seq<Stmt>)
    requires st.cur.Some? && st.cur.value < |b.mod.blocks|
    ensures var r := LowerBlock(S, b, st, stmts); GrowsSt(b, st.cur.value, r.b, r.st.cur)
    decreases stmts, 0
  {
    if stmts == [] {
      GrowsRefl(b, st.cur.value);
    } else {
      var r := LowerStmt(S, b, st, st.cur.value, stmts[0]);
      GrowsStmt(S, b, st, st.cur.value, stmts[0]);
      if r.st.cur.Some? {
        var r2 := LowerBlock(S, r.b, r.st, stmts[1..]);
        GrowsBlock(S, r.b, r.st, stmts[1..]);
        GrowsThenSt(b, st.cur.value, r.b, r.st.cur.value, r2.b, r2.st.cur);
      }
    }
  }

  lemma {:induction false} GrowsStmt(S: Program, b: Bld, st: FuncState, cur: nat, s: Stmt)
    requires cur < |b.mod.blocks|
    ensures var r := LowerStmt(S, b, st, cur, s); GrowsSt(b, cur, r.b, r.st.cur)
    decreases s, 1
  {
    var r := LowerStmt(S, b, st, cur, s);
    match s
    case ExprStmt(None) => GrowsRefl(b, cur);
    case ExprStmt(Some(e)) => GrowsValue(S, b, st.scope, cur, e);
    case VarDecl(_, isStatic, _, _, _, init) =>
      GrowsError(b, cur, UnsupportedBinding);
      GrowsError(b, cur, UnsupportedType);
      GrowsError(b, cur, MissingInit);
      if !isStatic && BindingType(s).Some? && SupportedType(BindingType(s).value) && init.Some? {
        var ty := BindingType(s).value;
        var x := LowerValueAs(S, b, st.scope, cur, init.value, ty);
        GrowsValueAs(S, b, st.scope, cur, init.value, ty);
        GrowsBindLocal(x.b, st, x.cur, s, ty, x.v);
        GrowsThenSt(b, cur, x.b, x.cur, r.b, r.st.cur);
      }
    case If(_, _, _) => GrowsIf(S, b, st, cur, s);
    case While(_, _) => GrowsWhile(S, b, st, cur, s);
    case Switch(_, _) => GrowsSwitch(S, b, st, cur, s);
    case Return(None) => GrowsTerminate(b, cur, TermRet(false, None));
    case Return(Some(e)) =>
      var x := LowerValueAs(S, b, st.scope, cur, e, st.scope.ret);
      GrowsValueAs(S, b, st.scope, cur, e, st.scope.ret);
      GrowsTerminate(x.b, x.cur, TermRet(true, x.v));
      GrowsTrans(b, cur, x.b, x.cur, r.b, x.cur);
    case OtherStmt => GrowsError(b, cur, UnsupportedStmt);
  }

  lemma {:induction false} GrowsIf(S: Program, b: Bld, st: FuncState, cur: nat, s: Stmt)
    requires cur < |b.mod.blocks| && s.If?
    ensures var r := LowerIf(S, b, st, cur, s); GrowsSt(b, cur, r.b, r.st.cur)
    decreases s, 0, 1
  {
    var c := LowerValue(S, b, st.scope, cur, s.cond);
    GrowsValue(S, b, st.scope, cur, s.cond);
    var r := LowerIfArms(S, c.b, st, c.cur, s, c.v);
    GrowsIfArms(S, c.b, st, c.cur, s, c.v);
    GrowsThenSt(b, cur, c.b, c.cur, r.b, r.st.cur);
  }

  lemma {:induction false} GrowsIfArms(S: Program, b: Bld, st: FuncState, cur: nat, s: Stmt, cond: Id)
    requires cur < |b.mod.blocks| && s.If?
    ensures var r := LowerIfArms(S, b, st, cur, s, cond); GrowsSt(b, cur, r.b, r.st.cur)
    decreases s, 0, 0
  {
    hide AddThreeBlocks, LowerArm, Terminate;
    var t := |b.mod.blocks|;
    var b1 := Terminate(AddThreeBlocks(b, st.scope.owner), cur, TermCondBr(cond, t, t + 1));
    GrowsFork(b, st.scope.owner, cur, TermCondBr(cond, t, t + 1));
    var b2 := LowerArm(S, b1, st, t, s.thn, t + 2);
    GrowsArm(S, b1, st, t, s.thn, t + 2);
    GrowsArm(S, b2, st, t + 1, s.els, t + 2);
    ForkTwice(b, cur, b1, b2, LowerArm(S, b2, st, t + 1, s.els, t + 2), t, t + 1);
  }

  lemma {:induction false} GrowsWhile(S: Program, b: Bld, st: FuncState, cur: nat, s: Stmt)
    requires cur < |b.mod.blocks| && s.While?
    ensures var r := LowerWhile(S, b, st, cur, s); GrowsSt(b, cur, r.b, r.st.cur)
    decreases s, 0, 1
  {
    hide SupportedType, AddThreeBlocks, LowerArm, LowerWhileHead;
    var t := |b.mod.blocks|;
    var b1 := Terminate(AddThreeBlocks(b, st.scope.owner), cur, TermBr(t, []));
    GrowsFork(b, st.scope.owner, cur, TermBr(t, []));
    var b2 := LowerWhileHead(S, b1, st, t, s);
    GrowsWhileHead(S, b1, st, t, s);
    GrowsArm(S, b2, st, t + 1, s.body, t);
    ForkTwice(b, cur, b1, b2, LowerArm(S, b2, st, t + 1, s.body, t), t, t + 1);
  }

  lemma {:induction false} GrowsWhileHead(S: Program, b: Bld, st: FuncState, t: nat, s: Stmt)
    requires t < |b.mod.blocks| && s.While?
    ensures Touches(b, LowerWhileHead(S, b, st, t, s), {t})
    decreases s, 0, 0
  {
    var c := LowerValue(S, b, st.scope, t, s.cond);
    GrowsValue(S, b, st.scope, t, s.cond);
    GrowsTerminate(c.b, c.cur, TermCondBr(c.v, t + 1, t + 2));
    TouchesTrans(b, c.b, LowerWhileHead(S, b, st, t, s), {t}, {c.cur});
  }

  /** Allocating the case blocks appends one empty block a case. */
  lemma {:induction false} GrowsCaseBlocks(b: Bld, owner: nat, ty: Ty, cases: seq<Case>, i: nat, dflt: nat, arms: seq<Arm>)
    requires i <= |cases|
    ensures var r := AddCases(b, owner, ty, cases, i, dflt, arms);
            && Touches(b, r.b, {})
            && (r.ok ==> && |r.b.mod.blocks| == |b.mod.blocks| + |cases| - i
                         && r.b.errs == b.errs && r.b.mod.values == b.mod.values)
            && forall x :: |b.mod.blocks| <= x < |r.b.mod.blocks| ==> r.b.mod.blocks[x] == EMPTY_BLOCK
    decreases |cases| - i
  {
    if i < |cases| {
      var r := AddCases(b, owner, ty, cases, i, dflt, arms);
      var bb := |b.mod.blocks|;
      var b1 := AddBlock(b, owner);
      TouchesAddBlock(b, owner);
      if cases[i].isDefault {
        GrowsCaseBlocks(b1, owner, ty, cases, i + 1, bb, arms);
        TouchesTrans(b, b1, r.b, {}, {});
      } else if CaseKey(ty, cases[i]).Some? {
        GrowsCaseBlocks(b1, owner, ty, cases, i + 1, dflt, arms + [Arm(CaseKey(ty, cases[i]).value, bb)]);
        TouchesTrans(b, b1, r.b, {}, {});
      } else {
        TouchesTrans(b, b1, r.b, {}, {});
      }
    }
  }

  /** A pattern the builder cannot lower leaves a diagnostic. */
  lemma {:induction false} CasesOk(b: Bld, owner: nat, ty: Ty, cases: seq<Case>, i: nat, dflt: nat, arms: seq<Arm>)
    requires i <= |cases|
    ensures var r := AddCases(b, owner, ty, cases, i, dflt, arms); !r.ok ==> r.b.errs != []
    decreases |cases| - i
  {
    if i < |cases| {
      var b1 := AddBlock(b, owner);
      if cases[i].isDefault {
        CasesOk(b1, owner, ty, cases, i + 1, |b.mod.blocks|, arms);
      } else if CaseKey(ty, cases[i]).Some? {
        CasesOk(b1, owner, ty, cases, i + 1, dflt, arms + [Arm(CaseKey(ty, cases[i]).value, |b.mod.blocks|)]);
      }
    }
  }

  /** The `n` ids from `lo` on. */
  ghost function Span(lo: nat, n: nat): (r: set<nat>)
    ensures forall x :: x in r <==> lo <= x < lo + n
    decreases n
  {
    if n == 0 then {} else {lo} + Span(lo + 1, n - 1)
  }

  lemma {:induction false} GrowsCases(S: Program, b: Bld, st: FuncState, first: nat, cases: seq<Case>, after: nat)
    requires first + |cases| <= |b.mod.blocks|
    ensures Touches(b, LowerCases(S, b, st, first, cases, after), Span(first, |cases|))
    decreases cases, 1
  {
    if cases != [] {
      var b1 := LowerArm(S, b, st, first, cases[0].body, after);
      GrowsArm(S, b, st, first, cases[0].body, after);
      GrowsCases(S, b1, st, first + 1, cases[1..], after);
      var T := Span(first, |cases|);
      TouchesWiden(b, b1, {first}, T);
      TouchesTrans(b, b1, LowerCases(S, b, st, first, cases, after), T, Span(first + 1, |cases| - 1));
    }
  }

  lemma {:induction false} GrowsScrutinee(S: Program, b: Bld, sc: Scope, cur: nat, e: Expr)
    requires cur < |b.mod.blocks|
    ensures var x := LowerScrutinee(S, b, sc, cur, e); Grows(b, cur, x.b, x.cur)
  {
    var x := LowerValue(S, b, sc, cur, e);
    GrowsValue(S, b, sc, cur, e);
    if x.v.Some? && e.ty.Optional? {
      GrowsEmit(x.b, x.cur, Bool, Pure, OpOptionalIsPresent(x.v), LayoutClass.Scalar);
      GrowsTrans(b, cur, x.b, x.cur, LowerScrutinee(S, b, sc, cur, e).b, x.cur);
    }
  }

  lemma {:induction false} GrowsSwitch(S: Program, b: Bld, st: FuncState, cur: nat, s: Stmt)
    requires cur < |b.mod.blocks| && s.Switch?
    ensures var r := LowerSwitch(S, b, st, cur, s); GrowsSt(b, cur, r.b, r.st.cur)
    decreases s, 0, 1
  {
    GrowsError(b, cur, UnsupportedPattern);
    GrowsError(b, cur, UnsupportedScrutinee);
    var x := LowerScrutinee(S, b, st.scope, cur, s.scrutinee);
    GrowsScrutinee(S, b, st.scope, cur, s.scrutinee);
    var r := LowerSwitchArms(S, x.b, st, x.cur, s, x.v);
    GrowsSwitchArms(S, x.b, st, x.cur, s, x.v);
    GrowsThenSt(b, cur, x.b, x.cur, r.b, r.st.cur);
  }

  lemma {:induction false} GrowsSwitchArms(S: Program, b: Bld, st: FuncState, cur: nat, s: Stmt, v: Id)
    requires cur < |b.mod.blocks| && s.Switch?
    ensures var r := LowerSwitchArms(S, b, st, cur, s, v); GrowsSt(b, cur, r.b, r.st.cur)
    decreases s, 0, 0
  {
    var after := |b.mod.blocks|;
    var cs := AddCases(AddBlock(b, st.scope.owner), st.scope.owner, s.scrutinee.ty, s.cases, 0, after, []);
    GrowsSwitchBlocks(b, st.scope.owner, s.scrutinee.ty, s.cases);
    TouchesWiden(b, cs.b, {}, {cur});
    if cs.ok {
      var b1 := Terminate(cs.b, cur, TermSwitch(v, cs.defaultBb, cs.arms));
      assert Touches(b, b1, {cur}) && |b1.mod.blocks| == |cs.b.mod.blocks| by {
        GrowsTerminate(cs.b, cur, TermSwitch(v, cs.defaultBb, cs.arms));
        TouchesTrans(b, cs.b, b1, {cur}, {cur});
      }
      var b2 := LowerCases(S, b1, st, after + 1, s.cases, after);
      assert Touches(b, b2, {cur}) && |b1.mod.blocks| <= |b2.mod.blocks| by {
        GrowsCases(S, b1, st, after + 1, s.cases, after);
        TouchesTrans(b, b1, b2, {cur}, Span(after + 1, |s.cases|));
      }
    }
  }

  /** The blocks of a switch: where it ends, then one a case. */
  lemma GrowsSwitchBlocks(b: Bld, owner: nat, ty: Ty, cases: seq<Case>)
    ensures var t := |b.mod.blocks|;
            var cs := AddCases(AddBlock(b, owner), owner, ty, cases, 0, t, []);
            && Touches(b, cs.b, {})
            && (cs.ok ==> |cs.b.mod.blocks| == t + 1 + |cases| && cs.b.errs == b.errs && cs.b.mod.values == b.mod.values)
            && forall x :: t <= x < |cs.b.mod.blocks| ==> cs.b.mod.blocks[x] == EMPTY_BLOCK
  {
    var t := |b.mod.blocks|;
    var b0 := AddBlock(b, owner);
    TouchesAddBlock(b, owner);
    var cs := AddCases(b0, owner, ty, cases, 0, t, []);
    GrowsCaseBlocks(b0, owner, ty, cases, 0, t, []);
    TouchesTrans(b, b0, cs.b, {}, {});
  }
}
