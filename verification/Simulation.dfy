/** The simulation: running the code a routine appended does what the source construct does, in
    a number of steps that grows with the fuel the source needed. The lemmas follow the routines;
    each takes what was lowered (`lo`) and what the source does (`r`) by name. */
module Simulation {
  import opened Wrappers
  import opened Literals
  import opened Sir
  import opened SirSemantics
  import opened Goir
  import opened GoirMachine
  import opened GoirVerify
  import opened Lowering
  import opened Growth
  import opened Typing
  import opened SimulationBase

  // ---- Literals and names ---------------------------------------------------------------

  lemma SimLiteral(W: World, fuel: nat, p: Point, e: Expr, lo: Lowered, r: EvalResult, rest: Stack) returns (k: nat, f': Frame)
    requires VerifyOk(W.M) == true && Here(W, p) == true
    requires IsLiteral(e)
    requires lo == LowerLiteral(p.b, p.cur, e) && r == ReadResult(LiteralValue(e), p.st)
    requires Code(W, p.b, p.cur, lo.b, Some(p.cur)) == true
    ensures SimEv(W, fuel, p, r, lo, e.ty, rest, k, f')
  {
    if e.CharLit? && CharLiteralCode(e.text).None? {
      assert false;
    } else {
      var op, layout := LiteralOp(W, fuel, p, e, lo, r, rest);
      k, f' := SimEmit(W, fuel, p, e.ty, Pure, op, layout, Some(r.v), lo, r, rest);
    }
  }

  /** The constant instruction of a literal produces the literal's value. */
  lemma LiteralOp(W: World, fuel: nat, p: Point, e: Expr, lo: Lowered, r: EvalResult, rest: Stack) returns (op: Op, layout: LayoutClass)
    requires IsLiteral(e) && (e.CharLit? ==> CharLiteralCode(e.text).Some?)
    requires lo == LowerLiteral(p.b, p.cur, e) && r == ReadResult(LiteralValue(e), p.st)
    ensures lo == Emit(p.b, p.cur, e.ty, Pure, op, layout) && r.Ev? && r.st == p.st
    ensures Computes(W, p.f, rest, p.st.globals, op, Pure, lo.v, e.ty, Some(r.v))
  {
    op := lo.b.mod.insts[|p.b.mod.insts|].op;
    layout :=
      if e.StringLit? then TextView
      else if e.CharLit? then LayoutClass.Scalar
      else if op.OpOptionalNone? then OptionalScalar
      else UnknownLayout;
    if e.CharLit? {
      NatTextRoundTrip(CharLiteralCode(e.text).value);
    }
  }

  /** Reading a global: naming its slot, then a load. */
  lemma SimGlobal(W: World, fuel: nat, p: Point, ty: Ty, sym: Sym, lo: Lowered, r: EvalResult, rest: Stack)
    returns (k: nat, f': Frame)
    requires VerifyOk(W.M) == true && TablesOk(W.S, W.M) == true && Here(W, p) == true
    requires GlobalTyped(W.S, sym, ty)
    requires lo == LowerGlobal(W.S, p.b, p.cur, sym) && r == ReadResult(ReadGlobal(W.S, p.st, sym), p.st)
    requires Code(W, p.b, p.cur, lo.b, Some(p.cur)) == true
    ensures SimEv(W, fuel, p, r, lo, ty, rest, k, f')
  {
    if FindGlobal(W.S.globals, sym).None? {
      assert false;
    } else {
      var i := FindGlobal(W.S.globals, sym).value;
      var g := GlobalPlaceOf(W.S, p.b, p.cur, sym);
      GlobalShape(W, p.b, p.cur, sym, ty);
      CodeHead(W, p.b, p.cur, g.b, p.cur, lo.b, Some(p.cur));
      SimGlobalPlace(W, p, sym, g, rest);
      CodeTail(W, p.b, p.cur, g.b, p.cur, lo.b, Some(p.cur));
      var q := AfterAppend(p, g, GlobalPlace(i));
      LoadComputes(W, q.f, rest, p.st.globals, g.v, lo.v, ty, p.st.globals[i]);
      k, f' := SimEmitAfter(W, fuel, 1, p, q, ty, MayRead, OpLoad(g.v), ClassifyLayout(ty),
                            Some(p.st.globals[i]), lo, r, rest);
    }
  }

  lemma GlobalShape(W: World, b: Bld, cur: nat, sym: Sym, ty: Ty)
    requires cur < |b.mod.blocks| && TablesOk(W.S, W.M) == true
    requires FindGlobal(W.S.globals, sym).Some? && GlobalTyped(W.S, sym, ty)
    ensures var g := GlobalPlaceOf(W.S, b, cur, sym);
            var lo := Emit(g.b, cur, ty, MayRead, OpLoad(g.v), ClassifyLayout(ty));
            && g.v.Some? && LowerGlobal(W.S, b, cur, sym) == lo
            && Grows(b, cur, g.b, cur) && Grows(g.b, cur, lo.b, cur)
  {
    var g := GlobalPlaceOf(W.S, b, cur, sym);
    assert SupportedGlobal(W.S.globals[FindGlobal(W.S.globals, sym).value]);
    GrowsGlobalPlace(W.S, b, cur, sym);
    GrowsEmit(g.b, cur, ty, MayRead, OpLoad(g.v), ClassifyLayout(ty));
  }

  /** Naming a global's slot. */
  lemma SimGlobalPlace(W: World, p: Point, sym: Sym, g: Lowered, rest: Stack)
    requires VerifyOk(W.M) == true && Here(W, p) == true
    requires FindGlobal(W.S.globals, sym).Some?
    requires g == GlobalPlaceOf(W.S, p.b, p.cur, sym) && Code(W, p.b, p.cur, g.b, Some(p.cur)) == true
    ensures var i := FindGlobal(W.S.globals, sym).value;
            var q := AfterAppend(p, g, GlobalPlace(i));
            && g.v == Some(|p.b.mod.values|) && g.v.value < |g.b.mod.values|
            && Reaches(W, p, q, rest, 1)
            && g.v.value in q.f.regs && q.f.regs[g.v.value] == GlobalPlace(i)
  {
    var i := FindGlobal(W.S.globals, sym).value;
    var v := Some(PlaceValue(W.S.globals[i].ty, GlobalSlot, W.S.globals[i].isMutable));
    StepAppend(W, p, OpGlobalSlot(i), Pure, v, rest);
    HereAppend(W, p, OpGlobalSlot(i), Pure, v, p.st.globals, GlobalPlace(i));
  }

  lemma SimLocal(W: World, fuel: nat, p: Point, e: Expr, lo: Lowered, r: EvalResult, rest: Stack) returns (k: nat, f': Frame)
    requires VerifyOk(W.M) == true && TablesOk(W.S, W.M) == true && Here(W, p) == true
    requires e.Local? && TypedExpr(W.S, TypesOf(p.sc.locals), e)
    requires lo == LowerLocal(W.S, p.b, p.sc, p.cur, e.sym) && r == ReadResult(ReadName(W.S, p.env, p.st, e.sym), p.st)
    requires Code(W, p.b, p.cur, lo.b, Some(p.cur)) == true
    ensures SimEv(W, fuel, p, r, lo, e.ty, rest, k, f')
  {
    if e.sym !in p.sc.locals {
      k, f' := SimGlobal(W, fuel, p, e.ty, e.sym, lo, r, rest);
    } else {
      var bd := p.sc.locals[e.sym];
      assert BindRel(|p.b.mod.values|, bd, p.env[e.sym], p.mu, p.st.store, p.f);
      if bd.isPlace {
        k, f' := SimSlotRead(W, fuel, p, bd, p.env[e.sym].loc, lo, r, rest);
      } else {
        k, f' := 0, p.f;
      }
    }
  }

  /** Reading a slot; a slot of unit type is not read at all. */
  lemma SimSlotRead(W: World, fuel: nat, p: Point, bd: Binding, l: nat, lo: Lowered, r: EvalResult, rest: Stack)
    returns (k: nat, f': Frame)
    requires VerifyOk(W.M) == true && Here(W, p) == true
    requires BindRel(|p.b.mod.values|, bd, Cell(l), p.mu, p.st.store, p.f)
    requires lo == LoadFrom(p.b, p.cur, bd.value, bd.ty, bd.layout) && r == Ev(p.st.store[l], p.st)
    requires Code(W, p.b, p.cur, lo.b, Some(p.cur)) == true
    ensures SimEv(W, fuel, p, r, lo, bd.ty, rest, k, f')
  {
    assert Computes(W, p.f, rest, p.st.globals, OpLoad(bd.value), MayRead, lo.v, bd.ty, Some(p.st.store[l])) by {
      if bd.ty != Unit {
        LoadComputes(W, p.f, rest, p.st.globals, bd.value, lo.v, bd.ty, p.st.store[l]);
      }
    }
    k, f' := SimEmit(W, fuel, p, bd.ty, MayRead, OpLoad(bd.value), ClassifyLayout(bd.ty), Some(p.st.store[l]), lo, r, rest);
  }

  // ---- Operators ------------------------------------------------------------------------

  lemma {:induction false} SimValueAs(W: World, fuel: nat, p: Point, e: Expr, target: Ty, lo: Lowered, r: EvalResult, rest: Stack)
    returns (k: nat, f': Frame)
    requires Ready(W, fuel) == true && Here(W, p) == true
    requires TypedExpr(W.S, TypesOf(p.sc.locals), e)
    requires lo == LowerValueAs(W.S, p.b, p.sc, p.cur, e, target) && r == EvalAs(W.P, W.S, fuel, p.env, p.st, e, target)
    requires Code(W, p.b, p.cur, lo.b, Some(lo.cur)) == true
    ensures SimEv(W, fuel, p, r, lo, YieldType(e.ty, target), rest, k, f')
    decreases e, 2
  {
    hide VerifyOk, TypedExpr, TypedStmt, TypedBlock, LowerValue, TypesOf, TablesOk, SimEv, YieldType, Eval, CallsOk, Related;
    if e.ty != target && target.Optional? && e.NullLit? {
      k, f' := SimNone(W, fuel, p, target, YieldType(e.ty, target), lo, r, rest);
    } else {
      var x := LowerValue(W.S, p.b, p.sc, p.cur, e);
      var rx := Eval(W.P, W.S, fuel, p.env, p.st, e);
      CodeOfCoercion(W, p.b, p.sc, p.cur, e, target, lo, x);
      k, f' := SimValue(W, fuel, p, e, x, rx, rest);
      assert r == (if rx.Ev? && Wraps(e, target) then Ev(SomeV(rx.v), rx.st) else rx);
      k, f' := FinishCoercion(W, fuel, p, rx, x, e, k, f', target, lo, r, rest);
    }
  }

  predicate Wraps(e: Expr, target: Ty) { e.ty != target && target.Optional? && e.ty == target.elem }

  /** `null` where an optional is wanted. */
  lemma SimNone(W: World, fuel: nat, p: Point, target: Ty, ty: Ty, lo: Lowered, r: EvalResult, rest: Stack)
    returns (k: nat, f': Frame)
    requires VerifyOk(W.M) == true && Here(W, p) == true && r == Ev(NoneV, p.st) && target != Unit
    requires lo == Emit(p.b, p.cur, target, Pure, OpOptionalNone, OptionalScalar)
    requires Code(W, p.b, p.cur, lo.b, Some(p.cur)) == true
    ensures SimEv(W, fuel, p, r, lo, ty, rest, k, f')
  {
    NoneComputes(W, p.f, rest, p.st.globals, lo.v, target);
    k, f' := SimEmit(W, fuel, p, target, Pure, OpOptionalNone, OptionalScalar, Some(NoneV), lo, r, rest);
    SimEvAs(W, fuel, p, r, lo, target, r, ty, rest, k, f');
  }

  /** The expression has been run: wrapping its value may remain. */
  lemma FinishCoercion(W: World, fuel: nat, p: Point, rx: EvalResult, x: Lowered, e: Expr, k1: nat, f1: Frame, target: Ty,
                       lo: Lowered, r: EvalResult, rest: Stack) returns (k: nat, f': Frame)
    requires VerifyOk(W.M) == true && r == if rx.Ev? && Wraps(e, target) then Ev(SomeV(rx.v), rx.st) else rx
    requires SimEv(W, fuel, p, rx, x, e.ty, rest, k1, f1) == true
    requires if x.v.Some? && Wraps(e, target) then
               lo == Emit(x.b, x.cur, target, Pure, OpOptionalSome(x.v), OptionalScalar) && Code(W, x.b, x.cur, lo.b, Some(x.cur))
             else lo == x
    ensures SimEv(W, fuel, p, r, lo, YieldType(e.ty, target), rest, k, f')
  {
    k, f' := k1, f1;
    if !rx.Ev? {
      SimEvStop(W, fuel, p, rx, x, e.ty, lo, YieldType(e.ty, target), rest, k, f');
    } else if x.v.Some? && Wraps(e, target) {
      SimEvPoint(W, fuel, p, rx, x, e.ty, rest, k1, f1);
      SomeComputes(W, f1, rest, rx.st.globals, x.v, lo.v, target, rx.v);
      k, f' := SimEmitAfter(W, fuel, k1, p, AfterEv(p, x, rx.st, f1), target, Pure, OpOptionalSome(x.v),
                            OptionalScalar, Some(SomeV(rx.v)), lo, r, rest);
      SimEvAs(W, fuel, p, r, lo, target, r, YieldType(e.ty, target), rest, k, f');
    } else {
      SimEvAs(W, fuel, p, rx, x, e.ty, r, YieldType(e.ty, target), rest, k, f');
    }
  }

  /** The operand's code, inside the code of its coercion. */
  lemma CodeOfCoercion(W: World, b: Bld, sc: Scope, cur: nat, e: Expr, target: Ty, lo: Lowered, x: Lowered)
    requires cur < |b.mod.blocks|
    requires !(e.ty != target && target.Optional? && e.NullLit?)
    requires x == LowerValue(W.S, b, sc, cur, e) && lo == LowerValueAs(W.S, b, sc, cur, e, target)
    requires Code(W, b, cur, lo.b, Some(lo.cur)) == true
    ensures Code(W, b, cur, x.b, Some(x.cur))
    ensures if x.v.Some? && Wraps(e, target) then
              lo == Emit(x.b, x.cur, target, Pure, OpOptionalSome(x.v), OptionalScalar) && Code(W, x.b, x.cur, lo.b, Some(lo.cur))
            else lo == x
  {
    GrowsValue(W.S, b, sc, cur, e);
    if lo != x {
      assert lo == Emit(x.b, x.cur, target, Pure, OpOptionalSome(x.v), OptionalScalar);
      GrowsEmit(x.b, x.cur, target, Pure, OpOptionalSome(x.v), OptionalScalar);
      CodeHead(W, b, cur, x.b, x.cur, lo.b, Some(lo.cur));
    }
  }

  lemma {:induction false} SimValue(W: World, fuel: nat, p: Point, e: Expr, lo: Lowered, r: EvalResult, rest: Stack)
    returns (k: nat, f': Frame)
    requires Ready(W, fuel) == true && Here(W, p) == true
    requires TypedExpr(W.S, TypesOf(p.sc.locals), e)
    requires lo == LowerValue(W.S, p.b, p.sc, p.cur, e) && r == Eval(W.P, W.S, fuel, p.env, p.st, e)
    requires Code(W, p.b, p.cur, lo.b, Some(lo.cur)) == true
    ensures SimEv(W, fuel, p, r, lo, e.ty, rest, k, f')
    decreases e, 1
  {
    if e.Unary? || e.Cast? {
      k, f' := SimOperand(W, fuel, p, e, lo, r, rest);
    } else if e.Binary? && e.tok == QuestionQuestion {
      k, f' := SimCoalesce(W, fuel, p, e, lo, r, rest);
    } else if e.Binary? {
      k, f' := SimBinary(W, fuel, p, e, lo, r, rest);
    } else if e.Call? {
      k, f' := SimCall(W, fuel, p, e, lo, r, rest);
    } else if e.Assign? {
      k, f' := SimAssign(W, fuel, p, e, lo, r, rest);
    } else {
      k, f' := SimLeaf(W, fuel, p, e, lo, r, rest);
    }
  }

  predicate IsLeaf(e: Expr) { !(e.Unary? || e.Cast? || e.Binary? || e.Call? || e.Assign?) }

  lemma SimLeaf(W: World, fuel: nat, p: Point, e: Expr, lo: Lowered, r: EvalResult, rest: Stack) returns (k: nat, f': Frame)
    requires VerifyOk(W.M) == true && TablesOk(W.S, W.M) == true && Here(W, p) == true
    requires IsLeaf(e) && TypedExpr(W.S, TypesOf(p.sc.locals), e)
    requires lo == LowerValue(W.S, p.b, p.sc, p.cur, e) && r == Eval(W.P, W.S, fuel, p.env, p.st, e)
    requires Code(W, p.b, p.cur, lo.b, Some(lo.cur)) == true
    ensures SimEv(W, fuel, p, r, lo, e.ty, rest, k, f')
  {
    hide VerifyOk;
    if IsLiteral(e) {
      k, f' := SimLiteral(W, fuel, p, e, lo, r, rest);
    } else if e.Local? {
      GrowsName(W.S, p.b, p.sc, p.cur, e);
      k, f' := SimLocal(W, fuel, p, e, lo, r, rest);
    } else if e.Global? {
      GrowsName(W.S, p.b, p.sc, p.cur, e);
      k, f' := SimGlobal(W, fuel, p, e.ty, e.sym, lo, r, rest);
    } else if e.EnumCtor? {
      k, f' := SimEmit(W, fuel, p, e.ty, Pure, OpEnumTag(e.tag), TagEnumLayout, Some(EnumV(e.tag)), lo, r, rest);
    } else {
      assert false;
    }
  }

  lemma OperandComputes(W: World, f: Frame, rest: Stack, g: seq<Val>, e: Expr, src: Id, x: Id, v: Val)
    requires e.Cast? || (e.Unary? && MapUnOp(e.tok).Some?)
    requires Operand(f, src, v)
    ensures Computes(W, f, rest, g, OperandOp(e, src), OperandEffect(e), x, e.ty, OperandValue(W.P, e, v))
  {
    if e.Cast? {
      CastComputes(W, f, rest, g, e.kind, e.to, OperandEffect(e), src, x, e.ty, v);
    } else {
      UnaryComputes(W, f, rest, g, MapUnOp(e.tok).value, src, x, e.ty, v);
    }
  }

  /** Unary operators and casts. */
  lemma {:induction false} SimOperand(W: World, fuel: nat, p: Point, e: Expr, lo: Lowered, r: EvalResult, rest: Stack)
    returns (k: nat, f': Frame)
    requires Ready(W, fuel) == true && Here(W, p) == true
    requires (e.Unary? || e.Cast?) && TypedExpr(W.S, TypesOf(p.sc.locals), e.a)
    requires lo == LowerOperand(W.S, p.b, p.sc, p.cur, e) && r == EvalOperand(W.P, W.S, fuel, p.env, p.st, e)
    requires Code(W, p.b, p.cur, lo.b, Some(lo.cur)) == true
    ensures SimEv(W, fuel, p, r, lo, e.ty, rest, k, f')
    decreases e, 0
  {
    var x := LowerValue(W.S, p.b, p.sc, p.cur, e.a);
    var rx := Eval(W.P, W.S, fuel, p.env, p.st, e.a);
    CodeOfOperand(W, p.b, p.sc, p.cur, e, lo, x);
    k, f' := SimValue(W, fuel, p, e.a, x, rx, rest);
    if rx.Ev? {
      SimEvPoint(W, fuel, p, rx, x, e.a.ty, rest, k, f');
      OperandComputes(W, f', rest, rx.st.globals, e, x.v, lo.v, rx.v);
      k, f' := SimEmitAfter(W, fuel, k, p, AfterEv(p, x, rx.st, f'), e.ty, OperandEffect(e), OperandOp(e, x.v),
                            UnknownLayout, OperandValue(W.P, e, rx.v), lo, r, rest);
    }
  }

  lemma CodeOfOperand(W: World, b: Bld, sc: Scope, cur: nat, e: Expr, lo: Lowered, x: Lowered)
    requires cur < |b.mod.blocks| && (e.Unary? || e.Cast?)
    requires lo == LowerOperand(W.S, b, sc, cur, e) && x == LowerValue(W.S, b, sc, cur, e.a)
    requires Code(W, b, cur, lo.b, Some(lo.cur)) == true
    ensures e.Unary? ==> MapUnOp(e.tok).Some?
    ensures lo == Emit(x.b, x.cur, e.ty, OperandEffect(e), OperandOp(e, x.v), UnknownLayout)
    ensures Code(W, b, cur, x.b, Some(x.cur)) && Code(W, x.b, x.cur, lo.b, Some(x.cur))
  {
    GrowsValue(W.S, b, sc, cur, e.a);
    assert e.Unary? ==> MapUnOp(e.tok).Some?;
    GrowsEmit(x.b, x.cur, e.ty, OperandEffect(e), OperandOp(e, x.v), UnknownLayout);
    CodeHead(W, b, cur, x.b, x.cur, lo.b, Some(lo.cur));
  }

  lemma {:induction false} SimBinary(W: World, fuel: nat, p: Point, e: Expr, lo: Lowered, r: EvalResult, rest: Stack)
    returns (k: nat, f': Frame)
    requires Ready(W, fuel) == true && Here(W, p) == true
    requires e.Binary? && TypedExpr(W.S, TypesOf(p.sc.locals), e)
    requires lo == LowerBinary(W.S, p.b, p.sc, p.cur, e) && r == EvalBinary(W.P, W.S, fuel, p.env, p.st, e)
    requires Code(W, p.b, p.cur, lo.b, Some(lo.cur)) == true
    ensures SimEv(W, fuel, p, r, lo, e.ty, rest, k, f')
    decreases e, 0
  {
    var x := LowerValue(W.S, p.b, p.sc, p.cur, e.a);
    var y := LowerValue(W.S, x.b, p.sc, x.cur, e.b);
    var rx := Eval(W.P, W.S, fuel, p.env, p.st, e.a);
    CodeOfBinary(W, p.b, p.sc, p.cur, e, lo, x, y);
    k, f' := SimValue(W, fuel, p, e.a, x, rx, rest);
    if !rx.Ev? {
      assert r == rx;
    } else {
      var q := AfterEv(p, x, rx.st, f');
      SimEvPoint(W, fuel, p, rx, x, e.a.ty, rest, k, f');
      var ry := Eval(W.P, W.S, fuel, p.env, rx.st, e.b);
      var k2, f2 := SimValue(W, fuel, q, e.b, y, ry, rest);
      var op := MapBinOp(e.tok).value;
      assert r == (if ry.Ev? then ReadResult(W.P.bin(op, e.ty, rx.v, ry.v), ry.st) else ry);
      k, f' := FinishBinary(W, fuel, p, rx, x, e.a.ty, k, f', ry, y, e.b.ty, k2, f2, op, e.ty, lo, r, rest);
    }
  }

  /** Both operands have been run: the operator's instruction remains. */
  lemma FinishBinary(W: World, fuel: nat, p: Point, rx: EvalResult, x: Lowered, tx: Ty, k1: nat, f1: Frame,
                     ry: EvalResult, y: Lowered, ty: Ty, k2: nat, f2: Frame, op: BinOp, target: Ty, lo: Lowered,
                     r: EvalResult, rest: Stack)
    returns (k: nat, f': Frame)
    requires VerifyOk(W.M) == true && rx.Ev?
    requires SimEv(W, fuel, p, rx, x, tx, rest, k1, f1) == true
    requires var q := AfterEv(p, x, rx.st, f1); SimEv(W, fuel, q, ry, y, ty, rest, k2, f2) == true
    requires lo == Emit(y.b, y.cur, target, Pure, OpBinary(op, x.v, y.v), UnknownLayout)
    requires Code(W, y.b, y.cur, lo.b, Some(y.cur)) == true
    requires r == if ry.Ev? then ReadResult(W.P.bin(op, target, rx.v, ry.v), ry.st) else ry
    ensures SimEv(W, fuel, p, r, lo, target, rest, k, f')
  {
    var q := AfterEv(p, x, rx.st, f1);
    SimEvPoint(W, fuel, p, rx, x, tx, rest, k1, f1);
    k := SimEvAfter(W, fuel, k1, p, q, ry, y, ty, rest, k2, f2);
    f' := f2;
    if ry.Ev? {
      SimEvPoint(W, fuel, p, ry, y, ty, rest, k, f2);
      BinaryComputes(W, f2, rest, ry.st.globals, op, x.v, y.v, lo.v, target, rx.v, ry.v);
      k, f' := SimEmitAfter(W, fuel, k, p, AfterEv(p, y, ry.st, f2), target, Pure, OpBinary(op, x.v, y.v),
                            UnknownLayout, W.P.bin(op, target, rx.v, ry.v), lo, r, rest);
    } else {
      assert SimEv(W, fuel, p, r, lo, target, rest, k, f');
    }
  }

  lemma CodeOfBinary(W: World, b: Bld, sc: Scope, cur: nat, e: Expr, lo: Lowered, x: Lowered, y: Lowered)
    requires cur < |b.mod.blocks| && e.Binary?
    requires lo == LowerBinary(W.S, b, sc, cur, e) && x == LowerValue(W.S, b, sc, cur, e.a) && y == LowerValue(W.S, x.b, sc, x.cur, e.b)
    requires Code(W, b, cur, lo.b, Some(lo.cur)) == true
    ensures MapBinOp(e.tok).Some?
    ensures lo == Emit(y.b, y.cur, e.ty, Pure, OpBinary(MapBinOp(e.tok).value, x.v, y.v), UnknownLayout)
    ensures Code(W, b, cur, x.b, Some(x.cur)) && Code(W, x.b, x.cur, y.b, Some(y.cur)) && Code(W, y.b, y.cur, lo.b, Some(y.cur))
  {
    GrowsValue(W.S, b, sc, cur, e.a);
    GrowsValue(W.S, x.b, sc, x.cur, e.b);
    assert MapBinOp(e.tok).Some?;
    GrowsEmit(y.b, y.cur, e.ty, Pure, OpBinary(MapBinOp(e.tok).value, x.v, y.v), UnknownLayout);
    GrowsTrans(x.b, x.cur, y.b, y.cur, lo.b, y.cur);
    CodeHead(W, b, cur, x.b, x.cur, lo.b, Some(y.cur));
    CodeHead(W, x.b, x.cur, y.b, y.cur, lo.b, Some(y.cur));
  }

  // ---- Assignment -----------------------------------------------------------------------

  lemma {:induction false} SimAssign(W: World, fuel: nat, p: Point, e: Expr, lo: Lowered, r: EvalResult, rest: Stack)
    returns (k: nat, f': Frame)
    requires Ready(W, fuel) == true && Here(W, p) == true
    requires e.Assign? && TypedExpr(W.S, TypesOf(p.sc.locals), e)
    requires lo == LowerAssign(W.S, p.b, p.sc, p.cur, e) && r == EvalAssign(W.P, W.S, fuel, p.env, p.st, e)
    requires Code(W, p.b, p.cur, lo.b, Some(lo.cur)) == true
    ensures SimEv(W, fuel, p, r, lo, e.ty, rest, k, f')
    decreases e, 0
  {
    var g := LowerPlace(W.S, p.b, p.sc, p.cur, e.place);
    var x := LowerValueAs(W.S, g.b, p.sc, p.cur, e.rhs, e.place.ty);
    CodeOfAssign(W, p, e, lo, g, x);
    var k1, q := SimPlace(W, p, e.place, g, rest);
    var rx := EvalAs(W.P, W.S, fuel, p.env, p.st, e.rhs, e.place.ty);
    var k2, f2 := SimValueAs(W, fuel, q, e.rhs, e.place.ty, x, rx, rest);
    if rx.Ev? {
      assert r == StoreResult(W.S, p.env, rx.st, e.place, rx.v);
      k, f' := FinishAssign(W, fuel, k1, p, q, e.place, YieldType(e.rhs.ty, e.place.ty), g.v, rx, x, k2, f2, lo, r, rest);
    } else {
      f' := f2;
      assert r == rx;
      k := SimEvAfter(W, fuel, k1, p, q, rx, x, YieldType(e.rhs.ty, e.place.ty), rest, k2, f2);
      SimEvStop(W, fuel, p, rx, x, YieldType(e.rhs.ty, e.place.ty), lo, e.ty, rest, k, f');
    }
  }

  /** The target has been named and the value computed: the store remains. */
  lemma FinishAssign(W: World, fuel: nat, k1: nat, p: Point, q: Point, place: Expr, ty: Ty, pv: Id, rx: EvalResult, x: Lowered,
                     k2: nat, f2: Frame, lo: Lowered, r: EvalResult, rest: Stack) returns (k: nat, f': Frame)
    requires VerifyOk(W.M) == true && TablesOk(W.S, W.M) == true && rx.Ev? && r == StoreResult(W.S, p.env, rx.st, place, rx.v)
    requires Reaches(W, p, q, rest, k1) == true
    requires TypedExpr(W.S, TypesOf(p.sc.locals), place) && (ty == Unit ==> place.ty == Unit)
    requires PlaceAt(W, p.sc, place, pv, q.f) == true && pv.value < |q.b.mod.values|
    requires SimEv(W, fuel, q, rx, x, ty, rest, k2, f2) == true
    requires if x.v.None? then lo == Lowered(x.b, x.cur, None)
             else lo == Lowered(EmitStore(x.b, x.cur, pv, x.v).b, x.cur, x.v) && Code(W, x.b, x.cur, lo.b, Some(x.cur))
    ensures SimEv(W, fuel, p, r, lo, place.ty, rest, k, f')
  {
    k := SimEvAfter(W, fuel, k1, p, q, rx, x, ty, rest, k2, f2);
    SimEvPoint(W, fuel, p, rx, x, ty, rest, k, f2);
    SimEvPoint(W, fuel, q, rx, x, ty, rest, k2, f2);
    var t := AfterEv(p, x, rx.st, f2);
    assert t == AfterEv(q, x, rx.st, f2);
    if x.v.Some? {
      k, f' := SimStoreAfter(W, fuel, k, p, t, x.v, pv, place, rx.v, lo, r, rest);
    } else {
      f' := f2;
      UnitPlace(W, t, place, pv, rx.v);
      assert r == rx && lo == x;
      SimEvAs(W, fuel, p, rx, x, ty, r, place.ty, rest, k, f');
    }
  }

  /** Naming the target: a local's slot is known, a global's is named by an instruction. */
  lemma SimPlace(W: World, p: Point, place: Expr, g: Lowered, rest: Stack) returns (k: nat, q: Point)
    requires VerifyOk(W.M) == true && Here(W, p) == true
    requires g == LowerPlace(W.S, p.b, p.sc, p.cur, place) && Code(W, p.b, p.cur, g.b, Some(p.cur)) == true
    ensures Reaches(W, p, q, rest, k) && Here(W, q)
    ensures q == p.(b := g.b, f := q.f)
    ensures PlaceAt(W, p.sc, place, g.v, q.f) && g.v.value < |g.b.mod.values|
  {
    if place.Local? && place.sym in p.sc.locals {
      assert BindRel(|p.b.mod.values|, p.sc.locals[place.sym], p.env[place.sym], p.mu, p.st.store, p.f);
      k, q := 0, p;
    } else {
      SimGlobalPlace(W, p, place.sym, g, rest);
      k, q := 1, AfterAppend(p, g, GlobalPlace(FindGlobal(W.S.globals, place.sym).value));
    }
  }

  /** The parts of an assignment's code, and that its target stores the type its name has. */
  lemma CodeOfAssign(W: World, p: Point, e: Expr, lo: Lowered, g: Lowered, x: Lowered)
    requires Here(W, p) == true && e.Assign? && TypedExpr(W.S, TypesOf(p.sc.locals), e)
    requires lo == LowerAssign(W.S, p.b, p.sc, p.cur, e) && g == LowerPlace(W.S, p.b, p.sc, p.cur, e.place)
    requires x == LowerValueAs(W.S, g.b, p.sc, p.cur, e.rhs, e.place.ty)
    requires Code(W, p.b, p.cur, lo.b, Some(lo.cur)) == true
    ensures g.v.Some? && g.cur == p.cur
    ensures Code(W, p.b, p.cur, g.b, Some(p.cur)) && Code(W, g.b, p.cur, x.b, Some(x.cur))
    ensures if x.v.None? then lo == Lowered(x.b, x.cur, None)
            else lo == Lowered(EmitStore(x.b, x.cur, g.v, x.v).b, x.cur, x.v) && Code(W, x.b, x.cur, lo.b, Some(x.cur))
  {
    AssignShape(W, p, e, lo, g);
    GrowsPlace(W.S, p.b, p.sc, p.cur, e.place);
    GrowsValueAs(W.S, g.b, p.sc, p.cur, e.rhs, e.place.ty);
    if x.v.Some? {
      GrowsAppend(x.b, x.cur, OpStore(g.v, x.v), MayWrite, None);
      GrowsTrans(g.b, p.cur, x.b, x.cur, lo.b, x.cur);
      CodeTail(W, p.b, p.cur, g.b, p.cur, lo.b, Some(x.cur));
      CodeHead(W, g.b, p.cur, x.b, x.cur, lo.b, Some(x.cur));
    }
    CodeHead(W, p.b, p.cur, g.b, p.cur, lo.b, Some(lo.cur));
  }

  lemma AssignShape(W: World, p: Point, e: Expr, lo: Lowered, g: Lowered)
    requires Here(W, p) == true && e.Assign? && TypedExpr(W.S, TypesOf(p.sc.locals), e)
    requires lo == LowerAssign(W.S, p.b, p.sc, p.cur, e) && g == LowerPlace(W.S, p.b, p.sc, p.cur, e.place)
    requires lo.b.errs == []
    ensures g.v.Some? && g.cur == p.cur && ElemType(g.b.mod, g.v) == e.place.ty
  {
    GrowsPlace(W.S, p.b, p.sc, p.cur, e.place);
    if g.b.errs != [] {
      GrowsValue(W.S, g.b, p.sc, p.cur, e.rhs);
      GrowsValueAs(W.S, g.b, p.sc, p.cur, e.rhs, ElemType(g.b.mod, g.v));
      assert false;
    } else if e.place.Local? && e.place.sym in p.sc.locals {
      assert BindRel(|p.b.mod.values|, p.sc.locals[e.place.sym], p.env[e.place.sym], p.mu, p.st.store, p.f);
    }
  }

  /** The store of an assignment, after the target has been named and the value computed. */
  lemma SimStoreAfter(W: World, fuel: nat, k1: nat, p: Point, q: Point, xv: Id, pv: Id, place: Expr, v: Val, lo: Lowered,
                      r: EvalResult, rest: Stack) returns (k: nat, f': Frame)
    requires VerifyOk(W.M) == true && TablesOk(W.S, W.M) == true && r == StoreResult(W.S, p.env, q.st, place, v)
    requires Reaches(W, p, q, rest, k1) == true
    requires PlaceAt(W, p.sc, place, pv, q.f) == true && TypedExpr(W.S, TypesOf(p.sc.locals), place)
    requires xv.Some? && Yields(q.b, xv.value, q.f, v)
    requires lo == Lowered(EmitStore(q.b, q.cur, pv, xv).b, q.cur, xv) && Code(W, q.b, q.cur, lo.b, Some(q.cur)) == true
    ensures SimEv(W, fuel, p, r, lo, place.ty, rest, k, f')
  {
    var t := StepStore(W, q, pv, xv, v, rest, place);
    f' := t.f;
    k := ReachesTrans(W, p, q, t, rest, k1, 1);
    assert t == AfterEv(p, lo, t.st, t.f);
  }

  /** Only a local can have unit type, and assigning to it does nothing. */
  lemma UnitPlace(W: World, q: Point, place: Expr, pv: Id, v: Val)
    requires TablesOk(W.S, W.M) == true && Here(W, q) == true
    requires place.ty == Unit && TypedExpr(W.S, TypesOf(q.sc.locals), place)
    requires PlaceAt(W, q.sc, place, pv, q.f) == true
    ensures WritePlace(W.S, q.env, q.st, place, v) == Some(q.st)
  {
    if place.Local? && place.sym in q.sc.locals {
      assert BindRel(|q.b.mod.values|, q.sc.locals[place.sym], q.env[place.sym], q.mu, q.st.store, q.f);
    } else {
      assert false;
    }
  }

  // ---- Arguments and calls --------------------------------------------------------------

  lemma {:induction false} SimArgs(W: World, fuel: nat, p: Point, args: seq<Expr>, tys: seq<Ty>, xs: LoweredArgs, r: ArgsResult, rest: Stack)
    returns (k: nat, f': Frame)
    requires Ready(W, fuel) == true && Here(W, p) == true
    requires forall i :: 0 <= i < |args| ==> TypedExpr(W.S, TypesOf(p.sc.locals), args[i])
    requires xs == LowerArgs(W.S, p.b, p.sc, p.cur, args, tys) && r == EvalArgs(W.P, W.S, fuel, p.env, p.st, args, tys)
    requires Code(W, p.b, p.cur, xs.b, Some(xs.cur)) == true
    ensures SimArgsEv(W, fuel, p, r, xs, rest, k, f')
    decreases args, 0
  {
    hide VerifyOk, TablesOk, Ready, TypedExpr, TypedStmt, TypedBlock, Code, SupportedType, ConsArg, EvalAs,
         LowerValueAs, SimArgsEv, StopArgs, TypesOf, YieldType;
    if args == [] {
      k, f' := 0, p.f;
      SimArgsNil(W, fuel, p, rest);
    } else {
      var ty := if tys == [] then args[0].ty else tys[0];
      var tys1 := if tys == [] then [] else tys[1..];
      var x := LowerValueAs(W.S, p.b, p.sc, p.cur, args[0], ty);
      var ys := LowerArgs(W.S, x.b, p.sc, x.cur, args[1..], tys1);
      var rx := EvalAs(W.P, W.S, fuel, p.env, p.st, args[0], ty);
      CodeOfArgs(W, p.b, p.sc, p.cur, args, tys, xs, x, ys);
      k, f' := SimValueAs(W, fuel, p, args[0], ty, x, rx, rest);
      if rx.Ev? {
        var ry := EvalArgs(W.P, W.S, fuel, p.env, rx.st, args[1..], tys1);
        var k2, f2 := SimArgs(W, fuel, AfterEv(p, x, rx.st, f'), args[1..], tys1, ys, ry, rest);
        assert r == ConsArg(rx.v, ry);
        k := SimArgsCons(W, fuel, p, rx, x, YieldType(args[0].ty, ty), k, f', ry, ys, k2, f2, r, xs, rest);
        f' := f2;
      } else {
        assert r == StopArgs(rx);
        SimArgsStop(W, fuel, p, rx, x, YieldType(args[0].ty, ty), xs, rest, k, f');
      }
    }
  }

  lemma CodeOfArgs(W: World, b: Bld, sc: Scope, cur: nat, args: seq<Expr>, tys: seq<Ty>, xs: LoweredArgs, x: Lowered, ys: LoweredArgs)
    requires cur < |b.mod.blocks| && args != []
    requires xs == LowerArgs(W.S, b, sc, cur, args, tys)
    requires x == LowerValueAs(W.S, b, sc, cur, args[0], if tys == [] then args[0].ty else tys[0])
    requires ys == LowerArgs(W.S, x.b, sc, x.cur, args[1..], if tys == [] then [] else tys[1..])
    requires Code(W, b, cur, xs.b, Some(xs.cur)) == true
    ensures xs == LoweredArgs(ys.b, ys.cur, [x.v] + ys.vs)
    ensures Code(W, b, cur, x.b, Some(x.cur)) && Code(W, x.b, x.cur, ys.b, Some(ys.cur))
  {
    GrowsValueAs(W.S, b, sc, cur, args[0], if tys == [] then args[0].ty else tys[0]);
    GrowsArgs(W.S, x.b, sc, x.cur, args[1..], if tys == [] then [] else tys[1..]);
    CodeHead(W, b, cur, x.b, x.cur, ys.b, Some(ys.cur));
  }

  lemma {:induction false} SimCall(W: World, fuel: nat, p: Point, e: Expr, lo: Lowered, r: EvalResult, rest: Stack)
    returns (k: nat, f': Frame)
    requires Ready(W, fuel) == true && Here(W, p) == true
    requires e.Call? && TypedExpr(W.S, TypesOf(p.sc.locals), e)
    requires lo == LowerCall(W.S, p.b, p.sc, p.cur, e) && r == EvalCall(W.P, W.S, fuel, p.env, p.st, e)
    requires Code(W, p.b, p.cur, lo.b, Some(lo.cur)) == true
    ensures SimEv(W, fuel, p, r, lo, e.ty, rest, k, f')
    decreases e, 0
  {
    var i := FindFunc(W.S.funcs, e.callee);
    if e.isCore || e.isThrowing || i.None? {
      assert false;
    } else {
      var fi := i.value;
      var tys := ParamTypes(W.S.funcs[fi].params);
      var xs := LowerArgs(W.S, p.b, p.sc, p.cur, e.args, tys);
      var ra := EvalArgs(W.P, W.S, fuel, p.env, p.st, e.args, tys);
      CodeOfCall(W, p.b, p.sc, p.cur, e, fi, lo, xs);
      k, f' := SimArgs(W, fuel, p, e.args, tys, xs, ra, rest);
      if ra.EvArgs? {
        assert r == AfterCall(ra.st, CallOutcome(W, fuel, fi, ra.vs, ra.st.globals));
        k, f' := FinishCall(W, fuel, p, ra, xs, k, f', e, fi, lo, r, rest);
      } else {
        assert r == if ra.ArgsFault? then EvFault(ra.globals) else EvTimeout;
        SimCallStop(W, fuel, p, ra, xs, k, f', lo, r, e.ty, rest);
      }
    }
  }

  /** What calling function `fi` comes to, with `fuel` for the call and its body. */
  function CallOutcome(W: World, fuel: nat, fi: nat, vs: seq<Val>, g: seq<Val>): CallResult
    requires fi < |W.S.funcs|
  {
    if W.S.funcs[fi].isExtern then CallExternal(W.P, fi, vs, g)
    else if fuel == 0 then CallTimeout
    else CallFunc(W.P, W.S, fuel - 1, fi, vs, g)
  }

  lemma CodeOfCall(W: World, b: Bld, sc: Scope, cur: nat, e: Expr, fi: nat, lo: Lowered, xs: LoweredArgs)
    requires cur < |b.mod.blocks| && e.Call? && FindFunc(W.S.funcs, e.callee) == Some(fi)
    requires lo == LowerCall(W.S, b, sc, cur, e) && lo.b.errs == []
    requires xs == LowerArgs(W.S, b, sc, cur, e.args, ParamTypes(W.S.funcs[fi].params))
    requires Code(W, b, cur, lo.b, Some(lo.cur)) == true
    ensures lo == Emit(xs.b, xs.cur, e.ty, CallEffect, CallOp(W.S, e, fi, xs.vs), ClassifyLayout(e.ty))
    ensures Code(W, b, cur, xs.b, Some(xs.cur)) && Code(W, xs.b, xs.cur, lo.b, Some(xs.cur))
  {
    GrowsArgs(W.S, b, sc, cur, e.args, ParamTypes(W.S.funcs[fi].params));
    GrowsEmit(xs.b, xs.cur, e.ty, CallEffect, CallOp(W.S, e, fi, xs.vs), ClassifyLayout(e.ty));
    CodeHead(W, b, cur, xs.b, xs.cur, lo.b, Some(xs.cur));
  }

  lemma SimCallStop(W: World, fuel: nat, p: Point, ra: ArgsResult, xs: LoweredArgs, k: nat, f': Frame, lo: Lowered,
                    r: EvalResult, ty: Ty, rest: Stack)
    requires SimArgsEv(W, fuel, p, ra, xs, rest, k, f') == true && !ra.EvArgs?
    requires r == if ra.ArgsFault? then EvFault(ra.globals) else EvTimeout
    ensures SimEv(W, fuel, p, r, lo, ty, rest, k, f')
  {
  }

  /** The arguments have been run: the call remains. */
  lemma FinishCall(W: World, fuel: nat, p: Point, ra: ArgsResult, xs: LoweredArgs, k1: nat, f1: Frame, e: Expr, fi: nat,
                   lo: Lowered, r: EvalResult, rest: Stack) returns (k: nat, f': Frame)
    requires Ready(W, fuel) == true && ra.EvArgs?
    requires SimArgsEv(W, fuel, p, ra, xs, rest, k1, f1) == true
    requires e.Call? && fi < |W.S.funcs| && (!W.S.funcs[fi].isExtern ==> |ra.vs| == |W.S.funcs[fi].params|)
    requires lo == Emit(xs.b, xs.cur, e.ty, CallEffect, CallOp(W.S, e, fi, xs.vs), ClassifyLayout(e.ty))
    requires Code(W, xs.b, xs.cur, lo.b, Some(xs.cur)) == true
    requires r == AfterCall(ra.st, CallOutcome(W, fuel, fi, ra.vs, ra.st.globals))
    ensures SimEv(W, fuel, p, r, lo, e.ty, rest, k, f')
  {
    var q := AfterArgs(p, xs, ra.st, f1);
    k, f' := SimCallAt(W, fuel, q, e, fi, xs.vs, ra.vs, lo, r, rest);
    k := SimEvAfter(W, fuel, k1, p, q, r, lo, e.ty, rest, k, f');
  }

  /** The call itself, from the point where its arguments have been run. */
  lemma SimCallAt(W: World, fuel: nat, q: Point, e: Expr, fi: nat, xs: seq<Id>, vs: seq<Val>, lo: Lowered, r: EvalResult, rest: Stack)
    returns (k: nat, f': Frame)
    requires Ready(W, fuel) == true && Here(W, q) == true
    requires e.Call? && fi < |W.S.funcs| && (!W.S.funcs[fi].isExtern ==> |vs| == |W.S.funcs[fi].params|) && |xs| == |vs|
    requires forall i :: 0 <= i < |vs| ==> Operand(q.f, xs[i], vs[i])
    requires lo == Emit(q.b, q.cur, e.ty, CallEffect, CallOp(W.S, e, fi, xs), ClassifyLayout(e.ty))
    requires Code(W, q.b, q.cur, lo.b, Some(q.cur)) == true
    requires r == AfterCall(q.st, CallOutcome(W, fuel, fi, vs, q.st.globals))
    ensures SimEv(W, fuel, q, r, lo, e.ty, rest, k, f')
  {
    var o := CallOutcome(W, fuel, fi, vs, q.st.globals);
    var c1 := StepCall(W, q, e, fi, xs, vs, lo, rest);
    if W.S.funcs[fi].isExtern {
      k, f' := SimReturn(W, fuel, q, 1, e, fi, xs, lo, o, r, rest);
    } else if fuel == 0 {
      k, f' := 0, q.f;
      assert StepN(W.P, W.M, Conf(q, rest), 0) == Conf(q, rest);
    } else {
      var dest := Caller(q.f.(pc := q.f.pc + 1), lo.v, rest);
      assert CallSim(W, fuel - 1, fi, vs, q.st.globals, dest);
      var k2: nat :| RunsAs(W, fuel - 1, c1, o, dest, k2);
      k := RunsAfterStep(W, fuel - 1, Conf(q, rest), c1, o, dest, k2);
      k, f' := SimReturn(W, fuel, q, k, e, fi, xs, lo, o, r, rest);
    }
  }

  /** The call instruction: an external function is done at once, another is entered. */
  lemma StepCall(W: World, q: Point, e: Expr, fi: nat, xs: seq<Id>, vs: seq<Val>, lo: Lowered, rest: Stack) returns (c1: Config)
    requires VerifyOk(W.M) == true && TablesOk(W.S, W.M) == true && Here(W, q) == true
    requires e.Call? && fi < |W.S.funcs| && |xs| == |vs|
    requires forall i :: 0 <= i < |vs| ==> Operand(q.f, xs[i], vs[i])
    requires lo == Emit(q.b, q.cur, e.ty, CallEffect, CallOp(W.S, e, fi, xs), ClassifyLayout(e.ty))
    requires Code(W, q.b, q.cur, lo.b, Some(q.cur)) == true
    ensures StepN(W.P, W.M, Conf(q, rest), 1) == c1
    ensures c1 == if W.S.funcs[fi].isExtern then AfterExternal(q, lo, CallExternal(W.P, fi, vs, q.st.globals), rest)
                  else Enter(W.M, fi, vs, Caller(q.f.(pc := q.f.pc + 1), lo.v, rest), q.st.globals)
  {
    hide VerifyOk, Ready, TypedExpr, TypedStmt, TypedBlock, Enter, Operand, StepN;
    var op := CallOp(W.S, e, fi, xs);
    StepAppend(W, q, op, CallEffect, if e.ty == Unit then None else Some(PlainValue(e.ty, CallEffect, ClassifyLayout(e.ty))), rest);
    ReadAllHolds(q.f, xs, vs);
    c1 := StepN(W.P, W.M, Conf(q, rest), 1);
    assert SupportedFunc(W.S.funcs[fi]);
    assert W.M.reals[fi].source == fi && W.M.comps[fi].realizations == [fi];
  }

  function AfterExternal(q: Point, lo: Lowered, r: CallResult, rest: Stack): Config {
    match r
    case Result(v, g) => Run(Advance(q.f, lo.v, Datum(v)), rest, g)
    case CallFault(g) => Fault(g)
    case CallTimeout => Stuck
  }

  /** A call that ended left its result in the call's id, and the globals as it set them. */
  lemma SimReturn(W: World, fuel: nat, q: Point, k1: nat, e: Expr, fi: nat, xs: seq<Id>, lo: Lowered, o: CallResult, r: EvalResult, rest: Stack)
    returns (k: nat, f': Frame)
    requires VerifyOk(W.M) == true && Here(W, q) == true && e.Call? && fi < |W.S.funcs|
    requires lo == Emit(q.b, q.cur, e.ty, CallEffect, CallOp(W.S, e, fi, xs), ClassifyLayout(e.ty))
    requires r == AfterCall(q.st, o)
    requires o.CallTimeout? ==> k1 >= fuel && StepN(W.P, W.M, Conf(q, rest), k1).Run?
    requires !o.CallTimeout? ==> StepN(W.P, W.M, Conf(q, rest), k1) == AfterExternal(q, lo, o, rest)
    requires o.Result? ==> |o.globals| == |q.st.globals|
    ensures SimEv(W, fuel, q, r, lo, e.ty, rest, k, f')
  {
    k, f' := k1, q.f;
    if o.Result? {
      var result := if e.ty == Unit then None else Some(PlainValue(e.ty, CallEffect, ClassifyLayout(e.ty)));
      f' := Advance(q.f, lo.v, Datum(o.v));
      HereAppend(W, q, CallOp(W.S, e, fi, xs), CallEffect, result, o.globals, Datum(o.v));
    }
  }

  // ---- `a ?? b` -------------------------------------------------------------------------

  lemma {:induction false} SimCoalesce(W: World, fuel: nat, p: Point, e: Expr, lo: Lowered, r: EvalResult, rest: Stack)
    returns (k: nat, f': Frame)
    requires Ready(W, fuel) == true && Here(W, p) == true
    requires e.Binary? && TypedExpr(W.S, TypesOf(p.sc.locals), e)
    requires lo == LowerCoalesce(W.S, p.b, p.sc, p.cur, e) && r == EvalCoalesce(W.P, W.S, fuel, p.env, p.st, e)
    requires Code(W, p.b, p.cur, lo.b, Some(lo.cur)) == true
    ensures SimEv(W, fuel, p, r, lo, e.ty, rest, k, f')
    decreases e, 0, 3
  {
    if !e.a.ty.Optional? {
      assert false;
    } else {
      var x := LowerValue(W.S, p.b, p.sc, p.cur, e.a);
      var rx := Eval(W.P, W.S, fuel, p.env, p.st, e.a);
      var t := PresenceTest(x);
      CodeOfCoalesce(W, p.b, p.sc, p.cur, e, lo, x, t);
      k, f' := SimValue(W, fuel, p, e.a, x, rx, rest);
      assert r == if !rx.Ev? then rx else EvalFallback(W.P, W.S, fuel, p.env, rx.st, e, rx.v);
      if !rx.Ev? {
        SimEvStop(W, fuel, p, rx, x, e.a.ty, lo, e.ty, rest, k, f');
      } else {
        SimEvPoint(W, fuel, p, rx, x, e.a.ty, rest, k, f');
        var q := AfterEv(p, x, rx.st, f');
        var k2, f2 := SimLeft(W, fuel, q, e, x, t, rx.v, lo, r, rest);
        k := SimEvAfter(W, fuel, k, p, q, r, lo, e.ty, rest, k2, f2);
        f' := f2;
      }
    }
  }

  lemma CodeOfCoalesce(W: World, b: Bld, sc: Scope, cur: nat, e: Expr, lo: Lowered, x: Lowered, t: Lowered)
    requires cur < |b.mod.blocks| && e.Binary? && e.a.ty.Optional?
    requires lo == LowerCoalesce(W.S, b, sc, cur, e) && x == LowerValue(W.S, b, sc, cur, e.a) && t == PresenceTest(x)
    requires Code(W, b, cur, lo.b, Some(lo.cur)) == true
    ensures Code(W, b, cur, x.b, Some(x.cur))
    ensures if x.v.None? then lo == x
            else (lo == LowerCoalesceArms(W.S, t.b, sc, x.cur, e, x.v, t.v)
                  && Code(W, x.b, x.cur, t.b, Some(x.cur)) && Code(W, t.b, x.cur, lo.b, Some(lo.cur)))
  {
    hide VerifyOk, TablesOk, Ready, TypedExpr, TypedStmt, TypedBlock, Here, SupportedType, LowerCoalesceArms,
         LowerValue;
    GrowsValue(W.S, b, sc, cur, e.a);
    if x.v.Some? {
      GrowsEmit(x.b, x.cur, Bool, Pure, OpOptionalIsPresent(x.v), LayoutClass.Scalar);
      GrowsCoalesceArms(W.S, t.b, sc, x.cur, e, x.v, t.v);
      GrowsTrans(x.b, x.cur, t.b, x.cur, lo.b, lo.cur);
      CodeTail(W, b, cur, x.b, x.cur, lo.b, Some(lo.cur));
      CodeHead(W, x.b, x.cur, t.b, x.cur, lo.b, Some(lo.cur));
    }
    CodeHead(W, b, cur, x.b, x.cur, lo.b, Some(lo.cur));
  }

  /** From the value of `a`: the test, then one of the two ways. */
  lemma {:induction false} SimLeft(W: World, fuel: nat, q: Point, e: Expr, x: Lowered, t: Lowered, v: Val, lo: Lowered, r: EvalResult, rest: Stack)
    returns (k: nat, f': Frame)
    requires Ready(W, fuel) == true && Here(W, q) == true
    requires e.Binary? && e.a.ty.Optional? && TypedExpr(W.S, TypesOf(q.sc.locals), e.b)
    requires q.b == x.b && q.cur == x.cur && t == PresenceTest(x)
    requires x.v.Some? && Yields(x.b, x.v.value, q.f, v)
    requires r == EvalFallback(W.P, W.S, fuel, q.env, q.st, e, v)
    requires lo == LowerCoalesceArms(W.S, t.b, q.sc, x.cur, e, x.v, t.v)
    requires Code(W, x.b, x.cur, t.b, Some(x.cur)) == true && Code(W, t.b, x.cur, lo.b, Some(lo.cur)) == true
    ensures SimEv(W, fuel, q, r, lo, e.ty, rest, k, f')
    decreases e, 0, 2
  {
    var present := ReadResult(Presence(v), q.st);
    PresentComputes(W, q.f, rest, q.st.globals, x.v, t.v, Bool, v);
    k, f' := SimEmit(W, fuel, q, Bool, Pure, OpOptionalIsPresent(x.v), LayoutClass.Scalar, Presence(v), t, present, rest);
    if !present.Ev? {
      SimEvStop(W, fuel, q, present, t, Bool, lo, e.ty, rest, k, f');
    } else {
      SimEvPoint(W, fuel, q, present, t, Bool, rest, k, f');
      var u := AfterEv(q, t, q.st, f');
      var k2, f2 := SimWays(W, fuel, u, e, x.v, t.v, v, lo, r, rest);
      k := SimEvAfter(W, fuel, k, q, u, r, lo, e.ty, rest, k2, f2);
      f' := f2;
    }
  }

  /** After the test: the payload, or the value of `b`. */
  lemma {:induction false} SimWays(W: World, fuel: nat, u: Point, e: Expr, opt: Id, present: Id, v: Val, lo: Lowered, r: EvalResult, rest: Stack)
    returns (k: nat, f': Frame)
    requires Ready(W, fuel) == true && Here(W, u) == true
    requires e.Binary? && e.a.ty.Optional? && TypedExpr(W.S, TypesOf(u.sc.locals), e.b)
    requires v.SomeV? || v.NoneV?
    requires opt.Some? && Holds(u.f, opt.value, v)
    requires present.Some? ==> Holds(u.f, present.value, BoolV(v.SomeV?))
    requires r == if v.SomeV? then Ev(v.inner, u.st) else EvalAs(W.P, W.S, fuel, u.env, u.st, e.b, e.ty)
    requires lo == LowerCoalesceArms(W.S, u.b, u.sc, u.cur, e, opt, present)
    requires Code(W, u.b, u.cur, lo.b, Some(lo.cur)) == true
    ensures SimEv(W, fuel, u, r, lo, e.ty, rest, k, f')
    decreases e, 0, 1
  {
    var a := CodeOfCoalesceArms(W, u.b, u.sc, u.cur, e, opt, present, lo);
    if v.SomeV? {
      k, f' := SimPresent(W, fuel, u, e, opt, present, v, lo, a, r, rest);
    } else {
      k, f' := SimAbsent(W, fuel, u, e, present, lo, a, r, rest);
    }
  }

  /** The absent way: `b` is evaluated, here only, and its value goes to the join. */
  lemma {:induction false} SimAbsent(W: World, fuel: nat, u: Point, e: Expr, present: Id, lo: Lowered, a: ArmsCode, r: EvalResult, rest: Stack)
    returns (k: nat, f': Frame)
    requires Ready(W, fuel) == true && Here(W, u) == true
    requires e.Binary? && TypedExpr(W.S, TypesOf(u.sc.locals), e.b)
    requires r == EvalAs(W.P, W.S, fuel, u.env, u.st, e.b, e.ty)
    requires present.Some? ==> Holds(u.f, present.value, BoolV(false))
    requires ForkAt(W, u.b, u.cur, present, false, a.s, a.s + 1, a.b2) == true
    requires a.y == LowerValueAs(W.S, a.b2, u.sc, a.s + 1, e.b, e.ty)
    requires Code(W, a.b2, a.s + 1, a.y.b, Some(a.y.cur)) == true
    requires EndsIn(W, a.y, lo) == true && JoinBlock(W, u.b, lo) == true
    ensures SimEv(W, fuel, u, r, lo, e.ty, rest, k, f')
    decreases e, 0, 0
  {
    hide VerifyOk, TablesOk, TypedExpr, TypedStmt, TypedBlock, Code, SupportedType, EndsIn, EvalAs, ForkAt,
         Holds, JoinBlock, LowerValueAs, SimEv, TypesOf, YieldType;
    var w := SimFork(W, u, present, false, a.s, a.s + 1, a.b2, rest);
    k, f' := SimValueAs(W, fuel, w, e.b, e.ty, a.y, r, rest);
    k, f' := FinishWay(W, fuel, u, w, r, a.y, YieldType(e.b.ty, e.ty), k, f', lo, e.ty, rest);
  }

  /** The present way: the payload goes to the join. */
  lemma SimPresent(W: World, fuel: nat, u: Point, e: Expr, opt: Id, present: Id, v: Val, lo: Lowered, a: ArmsCode, r: EvalResult, rest: Stack)
    returns (k: nat, f': Frame)
    requires VerifyOk(W.M) == true && Here(W, u) == true && e.Binary? && e.a.ty.Optional?
    requires v.SomeV? && r == Ev(v.inner, u.st) && opt.Some? && Holds(u.f, opt.value, v)
    requires present.Some? ==> Holds(u.f, present.value, BoolV(true))
    requires ForkAt(W, u.b, u.cur, present, true, a.s, a.s + 1, a.b1) == true
    requires a.got == Emit(a.b1, a.s, e.a.ty.elem, Pure, OpOptionalGet(opt), ClassifyLayout(e.a.ty.elem))
    requires Code(W, a.b1, a.s, a.got.b, Some(a.s)) == true
    requires EndsIn(W, a.got, lo) == true && JoinBlock(W, u.b, lo) == true
    ensures SimEv(W, fuel, u, r, lo, e.ty, rest, k, f')
  {
    hide VerifyOk;
    var w := SimFork(W, u, present, true, a.s, a.s + 1, a.b1, rest);
    k, f' := SimPayload(W, fuel, w, opt, e.a.ty.elem, v, a.got, r, rest);
    k, f' := FinishWay(W, fuel, u, w, r, a.got, e.a.ty.elem, k, f', lo, e.ty, rest);
  }

  /** `optional.get`, which runs only on a present optional. */
  lemma SimPayload(W: World, fuel: nat, w: Point, opt: Id, ty: Ty, v: Val, got: Lowered, r: EvalResult, rest: Stack)
    returns (k: nat, f': Frame)
    requires VerifyOk(W.M) == true && Here(W, w) == true
    requires v.SomeV? && r == Ev(v.inner, w.st) && opt.Some? && Holds(w.f, opt.value, v)
    requires got == Emit(w.b, w.cur, ty, Pure, OpOptionalGet(opt), ClassifyLayout(ty))
    requires Code(W, w.b, w.cur, got.b, Some(w.cur)) == true
    ensures SimEv(W, fuel, w, r, got, ty, rest, k, f')
  {
    GetComputes(W, w.f, rest, w.st.globals, opt, got.v, ty, v.inner);
    k, f' := SimEmit(W, fuel, w, ty, Pure, OpOptionalGet(opt), ClassifyLayout(ty), Some(v.inner), got, r, rest);
  }

  /** Where the code of the two ways is in the finished module. */
  ghost predicate ArmsAt(W: World, b: Bld, cur: nat, e: Expr, opt: Id, present: Id, lo: Lowered, a: ArmsCode)
    requires e.Binary? && e.a.ty.Optional?
  {
    && ForkAt(W, b, cur, present, true, a.s, a.s + 1, a.b1)
    && a.got == Emit(a.b1, a.s, e.a.ty.elem, Pure, OpOptionalGet(opt), ClassifyLayout(e.a.ty.elem))
    && Code(W, a.b1, a.s, a.got.b, Some(a.s)) && EndsIn(W, a.got, lo)
    && ForkAt(W, b, cur, present, false, a.s, a.s + 1, a.b2)
    && Code(W, a.b2, a.s + 1, a.y.b, Some(a.y.cur)) && EndsIn(W, a.y, lo)
    && JoinBlock(W, b, lo)
  }

  /** The code of the two ways, in a module the checks accept: there every block is closed, so the
      payload and the fallback have ids. */
  lemma CodeOfCoalesceArms(W: World, b: Bld, sc: Scope, cur: nat, e: Expr, opt: Id, present: Id, lo: Lowered) returns (a: ArmsCode)
    requires VerifyOk(W.M) == true && OpenAt(b, cur) && e.Binary? && e.a.ty.Optional?
    requires lo == LowerCoalesceArms(W.S, b, sc, cur, e, opt, present)
    requires Code(W, b, cur, lo.b, Some(lo.cur)) == true
    ensures ArmsAt(W, b, cur, e, opt, present, lo, a)
    ensures a.y == LowerValueAs(W.S, a.b2, sc, a.s + 1, e.b, e.ty) && a.s == |b.mod.blocks|
  {
    a := CoalesceStages(W.S, b, sc, cur, e, opt, present);
    GrowsStages(W.S, b, sc, cur, e, opt, present);
    StagesForked(W.S, b, sc, cur, e, opt, present, a);
    StagesShape(W.S, b, sc, cur, e, opt, present, lo, a);
    BothWays(W, b, cur, lo, a);
    CodeOfWays(W, b, cur, e, opt, present, lo, a);
  }

  lemma StagesForked(S: Program, b: Bld, sc: Scope, cur: nat, e: Expr, opt: Id, present: Id, a: ArmsCode)
    requires OpenAt(b, cur) && e.Binary? && e.a.ty.Optional?
    requires a == CoalesceStages(S, b, sc, cur, e, opt, present)
    ensures Forked(b, cur, e, present, a)
  {
    hide VerifyOk;
    GrowsCoalesceBlocks(b, sc.owner, cur, e.ty, present);
  }

  lemma StagesShape(S: Program, b: Bld, sc: Scope, cur: nat, e: Expr, opt: Id, present: Id, lo: Lowered, a: ArmsCode)
    requires cur < |b.mod.blocks| && e.Binary? && e.a.ty.Optional?
    requires lo == LowerCoalesceArms(S, b, sc, cur, e, opt, present) && a == CoalesceStages(S, b, sc, cur, e, opt, present)
    ensures a.got == Emit(a.b1, a.s, e.a.ty.elem, Pure, OpOptionalGet(opt), ClassifyLayout(e.a.ty.elem))
    ensures a.b2 == if a.got.v.None? then a.got.b else Terminate(a.got.b, a.s, TermBr(a.s + 2, [a.got.v]))
    ensures a.y == LowerValueAs(S, a.b2, sc, a.s + 1, e.b, e.ty)
    ensures lo == StagesResult(b, cur, a)
  {
  }

  /** What the builder returns after the stages: it gives up on a way that yields no id. */
  function StagesResult(b: Bld, cur: nat, a: ArmsCode): Lowered {
    if a.got.v.None? then Lowered(a.got.b, cur, None)
    else if a.y.v.None? then Lowered(a.y.b, cur, None)
    else Lowered(Terminate(a.y.b, a.y.cur, TermBr(a.s + 2, [a.y.v])), a.s + 2, Some(|b.mod.values|))
  }

  /** The join block is still open when the builder gives up on one of the ways. */
  lemma BothWays(W: World, b: Bld, cur: nat, lo: Lowered, a: ArmsCode)
    requires VerifyOk(W.M) == true && StagesGrow(b, cur, a) == true
    requires a.b1.mod.blocks[a.s + 2].term.None? && lo == StagesResult(b, cur, a)
    requires Code(W, b, cur, lo.b, Some(lo.cur)) == true
    ensures a.got.v.Some? && a.y.v.Some?
  {
    if a.got.v.None? || a.y.v.None? {
      assert false;
    }
  }

  lemma CodeOfWays(W: World, b: Bld, cur: nat, e: Expr, opt: Id, present: Id, lo: Lowered, a: ArmsCode)
    requires StagesGrow(b, cur, a) == true && e.Binary? && e.a.ty.Optional?
    requires Forked(b, cur, e, present, a) == true
    requires a.got == Emit(a.b1, a.s, e.a.ty.elem, Pure, OpOptionalGet(opt), ClassifyLayout(e.a.ty.elem))
    requires a.got.v.Some? && a.y.v.Some? && lo == StagesResult(b, cur, a)
    requires a.b2 == Terminate(a.got.b, a.s, TermBr(a.s + 2, [a.got.v]))
    requires Code(W, b, cur, lo.b, Some(lo.cur)) == true
    ensures ArmsAt(W, b, cur, e, opt, present, lo, a)
  {
    GrowsTerminate(a.y.b, a.y.cur, TermBr(a.s + 2, [a.y.v]));
    TouchesTrans(a.b2, a.y.b, lo.b, {a.s + 1}, {a.y.cur});
    CodeOfPresent(W, b, cur, e, present, lo, a);
    CodeOfAbsent(W, b, cur, e, present, lo, a);
    assert ArmsAt(W, b, cur, e, opt, present, lo, a);
  }

  lemma CodeOfPresent(W: World, b: Bld, cur: nat, e: Expr, present: Id, lo: Lowered, a: ArmsCode)
    requires StagesGrow(b, cur, a) == true && e.Binary? && Forked(b, cur, e, present, a) == true
    requires Touches(a.b2, lo.b, {a.s + 1}) && lo.cur == a.s + 2
    requires a.got.v.Some? && a.got.b.mod.blocks[a.s].term.None? && a.b2 == Terminate(a.got.b, a.s, TermBr(a.s + 2, [a.got.v]))
    requires Code(W, b, cur, lo.b, Some(lo.cur)) == true
    ensures ForkAt(W, b, cur, present, true, a.s, a.s + 1, a.b1)
    ensures Code(W, a.b1, a.s, a.got.b, Some(a.s)) && EndsIn(W, a.got, lo)
  {
    TouchesWiden(a.got.b, a.b2, {a.s}, {a.s, a.s + 1});
    TouchesTrans(a.got.b, a.b2, lo.b, {a.s, a.s + 1}, {a.s + 1});
  }

  lemma CodeOfAbsent(W: World, b: Bld, cur: nat, e: Expr, present: Id, lo: Lowered, a: ArmsCode)
    requires StagesGrow(b, cur, a) == true && e.Binary? && Forked(b, cur, e, present, a) == true
    requires Touches(a.b2, lo.b, {a.s + 1}) && Touches(a.y.b, lo.b, {a.y.cur})
    requires a.y.v.Some?
    requires lo == Lowered(Terminate(a.y.b, a.y.cur, TermBr(a.s + 2, [a.y.v])), a.s + 2, Some(|b.mod.values|))
    requires Code(W, b, cur, lo.b, Some(lo.cur)) == true
    ensures ForkAt(W, b, cur, present, false, a.s, a.s + 1, a.b2)
    ensures Code(W, a.b2, a.s + 1, a.y.b, Some(a.y.cur)) && EndsIn(W, a.y, lo)
    ensures JoinBlock(W, b, lo)
  {
    hide ForkAt, Code, EndsIn, JoinBlock, StagesGrow, Forked, Touches, Terminate;
    AbsentFork(W, b, cur, e, present, lo, a);
    AbsentCode(W, b, cur, e, present, lo, a);
    AbsentJoin(W, b, cur, e, present, lo, a);
  }

  lemma AbsentFork(W: World, b: Bld, cur: nat, e: Expr, present: Id, lo: Lowered, a: ArmsCode)
    requires StagesGrow(b, cur, a) == true && e.Binary? && Forked(b, cur, e, present, a) == true
    requires Touches(a.b2, lo.b, {a.s + 1}) && Touches(a.y.b, lo.b, {a.y.cur})
    requires a.y.v.Some?
    requires lo == Lowered(Terminate(a.y.b, a.y.cur, TermBr(a.s + 2, [a.y.v])), a.s + 2, Some(|b.mod.values|))
    requires Code(W, b, cur, lo.b, Some(lo.cur)) == true
    ensures ForkAt(W, b, cur, present, false, a.s, a.s + 1, a.b2)
  {
  }

  lemma AbsentCode(W: World, b: Bld, cur: nat, e: Expr, present: Id, lo: Lowered, a: ArmsCode)
    requires StagesGrow(b, cur, a) == true && e.Binary? && Forked(b, cur, e, present, a) == true
    requires Touches(a.b2, lo.b, {a.s + 1}) && Touches(a.y.b, lo.b, {a.y.cur})
    requires a.y.v.Some?
    requires lo == Lowered(Terminate(a.y.b, a.y.cur, TermBr(a.s + 2, [a.y.v])), a.s + 2, Some(|b.mod.values|))
    requires Code(W, b, cur, lo.b, Some(lo.cur)) == true
    ensures Code(W, a.b2, a.s + 1, a.y.b, Some(a.y.cur)) && EndsIn(W, a.y, lo)
  {
  }

  lemma AbsentJoin(W: World, b: Bld, cur: nat, e: Expr, present: Id, lo: Lowered, a: ArmsCode)
    requires StagesGrow(b, cur, a) == true && e.Binary? && Forked(b, cur, e, present, a) == true
    requires Touches(a.b2, lo.b, {a.s + 1}) && Touches(a.y.b, lo.b, {a.y.cur})
    requires a.y.v.Some?
    requires lo == Lowered(Terminate(a.y.b, a.y.cur, TermBr(a.s + 2, [a.y.v])), a.s + 2, Some(|b.mod.values|))
    requires Code(W, b, cur, lo.b, Some(lo.cur)) == true
    ensures JoinBlock(W, b, lo)
  {
  }

  /** The blocks of `a ?? b` as they are made, and the branch to them. */
  ghost predicate Forked(b: Bld, cur: nat, e: Expr, present: Id, a: ArmsCode) {
    && cur < |b.mod.blocks| == a.s && |a.b1.mod.blocks| == a.s + 3
    && a.b1.mod.values == b.mod.values + [PlainValue(e.ty, Pure, UnknownLayout)]
    && a.b1.mod.blocks[a.s] == EMPTY_BLOCK && a.b1.mod.blocks[a.s + 1] == EMPTY_BLOCK
    && a.b1.mod.blocks[a.s + 2] == Block([|b.mod.values|], [], None)
    && a.b1.mod.blocks[cur] == b.mod.blocks[cur].(term := Some(TermCondBr(present, a.s, a.s + 1)))
  }
}
