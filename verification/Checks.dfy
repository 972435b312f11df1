/** The checks of modules once more: what verification demands, for all operations alike, and which of
    placement's own checks a built module can fail. */
module Checks {
  import opened Wrappers
  import opened Literals
  import opened Sir
  import opened SirSemantics
  import opened Goir
  import opened GoirVerify
  import opened Lowering
  import opened Growth
  import opened SimulationBase
  import opened Correctness
  import opened Placement
  import Typing
  import Meanings

  // ---- Verification -----------------------------------------------------------------------

  /** The ids an operation reads. */
  function Operands(op: Op): seq<Id> {
    match op
    case OpUnary(_, x) => [x]
    case OpBinary(_, x, y) => [x, y]
    case OpCast(_, _, x) => [x]
    case OpLoad(p) => [p]
    case OpStore(p, x) => [p, x]
    case OpBorrowView(p) => [p]
    case OpEscapeView(p) => [p]
    case OpOptionalSome(x) => [x]
    case OpOptionalIsPresent(x) => [x]
    case OpOptionalGet(x) => [x]
    case OpSemanticInvoke(_, xs) => xs
    case OpCallDirect(_, xs) => xs
    case OpCallExtern(_, xs) => xs
    case _ => []
  }

  predicate ResultNeeded(op: Op) {
    || op.OpTextLit? || op.OpLocalSlot? || op.OpGlobalSlot? || op.OpEnumTag?
    || op.OpOptionalSome? || op.OpOptionalNone? || op.OpOptionalIsPresent? || op.OpOptionalGet?
  }

  predicate Inside(m: Module, x: Id) { x.Some? && x.value < |m.values| }

  predicate APlace(m: Module, x: Id) { Inside(m, x) && m.values[x.value].isPlace }

  /** What it names besides values: a computation, a realization, a global; and when. */
  predicate Named(m: Module, op: Op) {
    match op
    case OpGlobalSlot(g) => g < |m.globals|
    case OpSemanticInvoke(comp, _) => comp < |m.comps| && m.stage == Open
    case OpCallDirect(callee, _) => callee < |m.reals| && m.stage == Placed
    case OpCallExtern(callee, _) => callee < |m.reals| && m.reals[callee].abi == C && m.reals[callee].linkage == External
    case OpBorrowView(_) => m.stage == Open
    case OpEscapeView(_) => m.stage == Open
    case _ => true
  }

  predicate InstSound(m: Module, inst: Inst) {
    && (forall i :: 0 <= i < |Operands(inst.op)| ==> Inside(m, Operands(inst.op)[i]))
    && (inst.result.Some? || !ResultNeeded(inst.op)) && (inst.result.Some? ==> Inside(m, inst.result))
    && (inst.op.OpLoad? || inst.op.OpStore? ==> APlace(m, inst.op.place))
    && (inst.op.OpLocalSlot? ==> APlace(m, inst.result) && m.values[inst.result.value].placeKind == LocalSlot)
    && (inst.op.OpGlobalSlot? ==> APlace(m, inst.result) && m.values[inst.result.value].placeKind == GlobalSlot)
    && Named(m, inst.op)
  }

  function ArmEdges(arms: seq<Arm>): seq<(nat, seq<Id>)> { seq(|arms|, i requires 0 <= i < |arms| => (arms[i].target, [])) }

  /** The edges of a terminator, with the arguments they carry. */
  function Edges(t: Term): seq<(nat, seq<Id>)> {
    match t
    case TermBr(target, args) => [(target, args)]
    case TermCondBr(_, a, b) => [(a, []), (b, [])]
    case TermSwitch(_, dflt, arms) => [(dflt, [])] + ArmEdges(arms)
    case TermRet(_, _) => []
  }

  function Tested(t: Term): seq<Id> {
    match t
    case TermBr(_, _) => []
    case TermCondBr(c, _, _) => [c]
    case TermSwitch(x, _, _) => [x]
    case TermRet(hasValue, x) => if hasValue then [x] else []
  }

  predicate EdgeSound(m: Module, e: (nat, seq<Id>)) {
    && e.0 < |m.blocks| && |e.1| == |m.blocks[e.0].params|
    && forall i :: 0 <= i < |e.1| ==>
         && Inside(m, e.1[i]) && m.blocks[e.0].params[i] < |m.values|
         && m.values[e.1[i].value].ty == m.values[m.blocks[e.0].params[i]].ty
  }

  predicate TermSound(m: Module, t: Term) {
    && (forall i :: 0 <= i < |Tested(t)| ==> Inside(m, Tested(t)[i]))
    && (forall i :: 0 <= i < |Edges(t)| ==> EdgeSound(m, Edges(t)[i]))
    && (t.TermSwitch? ==> forall i, j :: 0 <= i < |t.arms| && 0 <= j < |t.arms| && t.arms[i].key == t.arms[j].key ==> i == j)
  }

  predicate BlockSound(m: Module, bb: Block) {
    && (forall i :: 0 <= i < |bb.params| ==> Inside(m, Some(bb.params[i])) && !m.values[bb.params[i]].isPlace)
    && (forall i :: 0 <= i < |bb.insts| ==> bb.insts[i] < |m.insts| && InstSound(m, m.insts[bb.insts[i]]))
    && bb.term.Some? && TermSound(m, bb.term.value)
  }

  lemma InstExactly(m: Module, inst: Inst)
    ensures InstOk(m, inst) <==> InstSound(m, inst)
  {
    var xs := Operands(inst.op);
    assert |xs| > 0 ==> xs[0] == Operands(inst.op)[0];
    assert |xs| > 1 ==> xs[1] == Operands(inst.op)[1];
    match inst.op
    case OpSemanticInvoke(_, xs) => ArgsExactly(m, xs);
    case OpCallDirect(_, xs) => ArgsExactly(m, xs);
    case OpCallExtern(_, xs) => ArgsExactly(m, xs);
    case OpBorrowView(p) => ArgsExactly(m, [p]);
    case OpEscapeView(p) => ArgsExactly(m, [p]);
    case _ =>
  }

  lemma ArgsExactly(m: Module, xs: seq<Id>)
    ensures ValidArgs(m, xs) <==> forall i :: 0 <= i < |xs| ==> Inside(m, xs[i])
  {
  }

  lemma TermExactly(m: Module, t: Term)
    ensures TermOk(m, t) <==> TermSound(m, t)
  {
    match t
    case TermSwitch(x, dflt, arms) =>
      ArmsExactly(m, dflt, arms);
      var es: seq<(nat, seq<Id>)> := [(dflt, [])] + ArmEdges(arms);
      assert Edges(t) == es && Tested(t)[0] == x;
      assert DistinctKeys(arms) <==>
        forall i, j :: 0 <= i < |arms| && 0 <= j < |arms| && arms[i].key == arms[j].key ==> i == j;
    case TermCondBr(c, a, b) => assert Tested(t)[0] == c && Edges(t)[0] == (a, []) && Edges(t)[1] == (b, []);
    case TermBr(target, args) => assert Edges(t)[0] == (target, args);
    case TermRet(hasValue, x) => assert hasValue ==> Tested(t)[0] == x;
  }

  lemma ArmsExactly(m: Module, dflt: nat, arms: seq<Arm>)
    ensures var es: seq<(nat, seq<Id>)> := [(dflt, [])] + ArmEdges(arms);
            (forall i :: 0 <= i < |es| ==> EdgeSound(m, es[i])) <==>
            EdgeOk(m, dflt, []) && forall i :: 0 <= i < |arms| ==> EdgeOk(m, arms[i].target, [])
  {
    var es: seq<(nat, seq<Id>)> := [(dflt, [])] + ArmEdges(arms);
    assert es[0] == (dflt, []);
    assert forall i :: 0 <= i < |arms| ==> es[i + 1] == (arms[i].target, []);
    assert forall i :: 0 < i < |es| ==> es[i] == (arms[i - 1].target, []);
  }

  /** A block passes the checks exactly when its parameters and instructions are values and instructions of
      the module, these read values only, with places where places are needed, and have a result where one
      is needed, and it ends with edges that carry to each block what it expects. */
  lemma BlockExactly(m: Module, bb: Block)
    ensures BlockOk(m, bb) <==> BlockSound(m, bb)
  {
    hide InstOk, InstSound, TermOk, TermSound;
    forall i | 0 <= i < |bb.insts| && bb.insts[i] < |m.insts|
      ensures InstOk(m, m.insts[bb.insts[i]]) <==> InstSound(m, m.insts[bb.insts[i]])
    {
      InstExactly(m, m.insts[bb.insts[i]]);
    }
    if bb.term.Some? {
      TermExactly(m, bb.term.value);
    }
  }

  predicate RealizationSound(m: Module, r: Realization) {
    && r.comp < |m.comps| && (forall i :: 0 <= i < |r.blocks| ==> r.blocks[i] < |m.blocks|)
    && (r.linkage == External ==> r.blocks == [] && r.entry == None)
    && (r.linkage != External ==> r.entry.Some? && r.entry.value < |m.blocks|)
  }

  /** So of the whole module. Once it is placed, nothing is borrowed or escapes, and no call is left open. */
  lemma VerifiesExactly(m: Module)
    ensures VerifyOk(m) <==>
              && (forall i :: 0 <= i < |m.comps| ==>
                    && m.comps[i].sig < |m.sigs|
                    && forall j :: 0 <= j < |m.comps[i].realizations| ==> m.comps[i].realizations[j] < |m.reals|)
              && (forall i :: 0 <= i < |m.reals| ==> RealizationSound(m, m.reals[i]))
              && (forall i :: 0 <= i < |m.blocks| ==> BlockSound(m, m.blocks[i]))
              && (m.stage == Placed ==>
                    && (forall i :: 0 <= i < |m.values| ==> m.values[i].ownership == Plain)
                    && forall i :: 0 <= i < |m.insts| ==>
                         !m.insts[i].op.OpBorrowView? && !m.insts[i].op.OpEscapeView? && !m.insts[i].op.OpSemanticInvoke?)
  {
    hide BlockOk, BlockSound;
    forall i | 0 <= i < |m.blocks|
      ensures BlockOk(m, m.blocks[i]) <==> BlockSound(m, m.blocks[i])
    {
      BlockExactly(m, m.blocks[i]);
    }
    forall i | 0 <= i < |m.reals|
      ensures RealizationOk(m, m.reals[i]) <==> RealizationSound(m, m.reals[i])
    {
    }
    assert VerifyOk(m) ==> forall i :: 0 <= i < |m.comps| ==> ComputationOk(m, m.comps[i]);
  }

  // ---- What a built module never has ------------------------------------------------------

  /** Operations the builder emits: calls of functions of the program, no borrowing, no escape. */
  predicate OpFits(S: Program, op: Op) {
    match op
    case OpBorrowView(_) => false
    case OpEscapeView(_) => false
    case OpCallDirect(_, _) => false
    case OpSemanticInvoke(comp, _) => comp < |S.funcs|
    case OpCallExtern(callee, _) => callee < |S.funcs|
    case _ => true
  }

  /** Every instruction is in a block. */
  predicate InBlock(m: Module, i: nat) { exists bb :: 0 <= bb < |m.blocks| && i in m.blocks[bb].insts }

  ghost predicate Fit(S: Program, b: Bld) {
    && (forall i :: 0 <= i < |b.mod.insts| ==> OpFits(S, b.mod.insts[i].op))
    && (forall i :: 0 <= i < |b.mod.insts| ==> InBlock(b.mod, i))
    && forall i :: 0 <= i < |b.mod.values| ==> b.mod.values[i].ownership == Plain
  }

  /** It stays so, and there is a block to go on with. */
  ghost predicate FitOn(S: Program, b: Bld, lo: Lowered) {
    Fit(S, lo.b) && lo.cur < |lo.b.mod.blocks| && |b.mod.blocks| <= |lo.b.mod.blocks|
  }

  ghost predicate FitFrom(S: Program, b: Bld, ls: LoweredStmt) {
    && Fit(S, ls.b) && |b.mod.blocks| <= |ls.b.mod.blocks|
    && (ls.st.cur.Some? ==> ls.st.cur.value < |ls.b.mod.blocks|)
  }

  lemma FitAppend(S: Program, b: Bld, cur: nat, op: Op, eff: Effect, result: Option<Value>)
    requires Fit(S, b) && OpFits(S, op) && cur < |b.mod.blocks| && (result.Some? ==> result.value.ownership == Plain)
    ensures FitOn(S, b, Append(b, cur, op, eff, result))
  {
    var m, m' := b.mod, Append(b, cur, op, eff, result).b.mod;
    forall i | 0 <= i < |m'.insts|
      ensures InBlock(m', i)
    {
      if i < |m.insts| {
        assert InBlock(m, i);
        var bb :| 0 <= bb < |m.blocks| && i in m.blocks[bb].insts;
        assert i in m'.blocks[bb].insts;
      } else {
        assert i in m'.blocks[cur].insts;
      }
    }
  }

  lemma FitEmit(S: Program, b: Bld, cur: nat, ty: Ty, eff: Effect, op: Op, layout: LayoutClass)
    requires Fit(S, b) && OpFits(S, op) && cur < |b.mod.blocks|
    ensures FitOn(S, b, Emit(b, cur, ty, eff, op, layout))
  {
    FitAppend(S, b, cur, op, eff, if ty == Unit then None else Some(PlainValue(ty, eff, layout)));
  }

  lemma FitPlace(S: Program, b: Bld, cur: nat, ty: Ty, op: Op, kind: PlaceKind, mutable: bool)
    requires Fit(S, b) && OpFits(S, op) && cur < |b.mod.blocks|
    ensures FitOn(S, b, EmitPlace(b, cur, ty, op, kind, mutable))
  {
    FitAppend(S, b, cur, op, Pure, Some(PlaceValue(ty, kind, mutable)));
  }

  /** What adds no instruction. */
  lemma FitKept(S: Program, b: Bld, b': Bld)
    requires Fit(S, b) && b'.mod.insts == b.mod.insts && |b.mod.blocks| <= |b'.mod.blocks|
    requires forall i :: 0 <= i < |b'.mod.values| ==> b'.mod.values[i].ownership == Plain
    requires forall bb :: 0 <= bb < |b.mod.blocks| ==> b'.mod.blocks[bb].insts == b.mod.blocks[bb].insts
    ensures Fit(S, b')
  {
    forall i | 0 <= i < |b'.mod.insts|
      ensures InBlock(b'.mod, i)
    {
      assert InBlock(b.mod, i);
    }
  }

  lemma FitBlocks(S: Program, b: Bld, owner: nat, cur: nat, bb: nat, ty: Ty, term: Term, m: Message)
    requires Fit(S, b)
    ensures Fit(S, Terminate(b, cur, term)) && |Terminate(b, cur, term).mod.blocks| == |b.mod.blocks|
    ensures Fit(S, AddBlock(b, owner)) && |AddBlock(b, owner).mod.blocks| == |b.mod.blocks| + 1
    ensures Fit(S, AddBlockParam(b, bb, ty)) && |AddBlockParam(b, bb, ty).mod.blocks| == |b.mod.blocks|
    ensures Fit(S, AddThreeBlocks(b, owner)) && |AddThreeBlocks(b, owner).mod.blocks| == |b.mod.blocks| + 3
    ensures Fit(S, Error(b, m)) && Error(b, m).mod == b.mod
  {
    FitKept(S, b, Terminate(b, cur, term));
    FitKept(S, b, AddBlock(b, owner));
    FitKept(S, b, AddBlockParam(b, bb, ty));
    FitKept(S, b, AddThreeBlocks(b, owner));
    FitKept(S, b, Error(b, m));
  }

  lemma FitGlobal(S: Program, b: Bld, cur: nat, sym: Sym)
    requires Fit(S, b) && cur < |b.mod.blocks|
    ensures FitOn(S, b, GlobalPlaceOf(S, b, cur, sym)) && FitOn(S, b, LowerGlobal(S, b, cur, sym))
  {
    hide Fit;
    FitBlocks(S, b, 0, 0, 0, Unit, TermRet(false, None), UnknownSymbol);
    var i := FindGlobal(S.globals, sym);
    if i.Some? {
      FitPlace(S, b, cur, S.globals[i.value].ty, OpGlobalSlot(i.value), GlobalSlot, S.globals[i.value].isMutable);
    }
    var p := GlobalPlaceOf(S, b, cur, sym);
    FitLoad(S, p.b, p.cur, p.v, ElemType(p.b.mod, p.v), ClassifyLayout(ElemType(p.b.mod, p.v)));
  }

  lemma FitLoad(S: Program, b: Bld, cur: nat, place: Id, ty: Ty, layout: LayoutClass)
    requires Fit(S, b) && cur < |b.mod.blocks|
    ensures FitOn(S, b, LoadFrom(b, cur, place, ty, layout))
  {
    hide Fit;
    FitEmit(S, b, cur, ty, MayRead, OpLoad(place), ClassifyLayout(ty));
  }

  lemma FitLiteral(S: Program, b: Bld, cur: nat, e: Expr)
    requires Fit(S, b) && cur < |b.mod.blocks| && IsLiteral(e)
    ensures FitOn(S, b, LowerLiteral(b, cur, e))
  {
    hide Fit, Emit;
    FitMessage(S, b, BadLiteral);
    match e
    case IntLit(ty, text) => FitEmit(S, b, cur, ty, Pure, OpConstInt(text), UnknownLayout);
    case FloatLit(ty, text) => FitEmit(S, b, cur, ty, Pure, OpConstFloat(text), UnknownLayout);
    case StringLit(ty, text) => FitEmit(S, b, cur, ty, Pure, OpTextLit(text), TextView);
    case CharLit(ty, text) =>
      if CharLiteralCode(text).Some? {
        FitEmit(S, b, cur, ty, Pure, OpConstInt(NatText(CharLiteralCode(text).value)), LayoutClass.Scalar);
      }
    case BoolLit(ty, text) => FitEmit(S, b, cur, ty, Pure, OpConstBool(BoolLiteralValue(text)), UnknownLayout);
    case NullLit(ty) =>
      FitEmit(S, b, cur, ty, Pure, OpOptionalNone, OptionalScalar);
      FitEmit(S, b, cur, ty, Pure, OpConstNull, UnknownLayout);
  }

  lemma {:induction false} FitValueAs(S: Program, b: Bld, sc: Scope, cur: nat, e: Expr, target: Ty)
    requires Fit(S, b) && cur < |b.mod.blocks|
    ensures FitOn(S, b, LowerValueAs(S, b, sc, cur, e, target))
    decreases e, 2
  {
    hide Fit, LowerValue;
    FitBlocks(S, b, 0, 0, 0, Unit, TermRet(false, None), UnsupportedOptional);
    FitEmit(S, b, cur, target, Pure, OpOptionalNone, OptionalScalar);
    FitValue(S, b, sc, cur, e);
    var lo := LowerValue(S, b, sc, cur, e);
    FitEmit(S, lo.b, lo.cur, target, Pure, OpOptionalSome(lo.v), OptionalScalar);
    FitBlocks(S, lo.b, 0, 0, 0, Unit, TermRet(false, None), UnsupportedCoercion);
  }

  lemma {:induction false} FitValue(S: Program, b: Bld, sc: Scope, cur: nat, e: Expr)
    requires Fit(S, b) && cur < |b.mod.blocks|
    ensures FitOn(S, b, LowerValue(S, b, sc, cur, e))
    decreases e, 1
  {
    hide Fit, LowerOperand, LowerBinary, LowerCall, LowerAssign, LowerCoalesce, LowerLiteral, LowerGlobal, LoadFrom, Emit;
    match e
    case Local(_, sym) =>
      FitGlobal(S, b, cur, sym);
      if sym in sc.locals {
        FitLoad(S, b, cur, sc.locals[sym].value, sc.locals[sym].ty, sc.locals[sym].layout);
      }
    case Global(_, sym) => FitGlobal(S, b, cur, sym);
    case Unary(_, _, _) => FitOperand(S, b, sc, cur, e);
    case Cast(_, _, _, _) => FitOperand(S, b, sc, cur, e);
    case Binary(_, tok, _, _) =>
      if tok == QuestionQuestion {
        FitCoalesce(S, b, sc, cur, e);
      } else {
        FitBinary(S, b, sc, cur, e);
      }
    case Call(_, _, _, _, _, _) => FitCall(S, b, sc, cur, e);
    case EnumCtor(ty, tag, _) =>
      FitBlocks(S, b, 0, 0, 0, Unit, TermRet(false, None), UnsupportedEnumCtor);
      FitEmit(S, b, cur, ty, Pure, OpEnumTag(tag), TagEnumLayout);
    case Assign(_, _, _) => FitAssign(S, b, sc, cur, e);
    case OtherExpr(_) => FitBlocks(S, b, 0, 0, 0, Unit, TermRet(false, None), UnsupportedExpr);
    case _ => FitLiteral(S, b, cur, e);
  }

  lemma {:induction false} FitOperand(S: Program, b: Bld, sc: Scope, cur: nat, e: Expr)
    requires Fit(S, b) && cur < |b.mod.blocks| && (e.Unary? || e.Cast?)
    ensures FitOn(S, b, LowerOperand(S, b, sc, cur, e))
    decreases e, 0, 1
  {
    hide Fit, LowerValue;
    FitValue(S, b, sc, cur, e.a);
    var x := LowerValue(S, b, sc, cur, e.a);
    FitBlocks(S, x.b, 0, 0, 0, Unit, TermRet(false, None), UnsupportedOperator);
    if e.Cast? || MapUnOp(e.tok).Some? {
      FitEmit(S, x.b, x.cur, e.ty, OperandEffect(e), OperandOp(e, x.v), UnknownLayout);
    }
  }

  lemma {:induction false} FitBinary(S: Program, b: Bld, sc: Scope, cur: nat, e: Expr)
    requires Fit(S, b) && cur < |b.mod.blocks| && e.Binary?
    ensures FitOn(S, b, LowerBinary(S, b, sc, cur, e))
    decreases e, 0, 1
  {
    hide Fit, LowerValue;
    FitValue(S, b, sc, cur, e.a);
    var x := LowerValue(S, b, sc, cur, e.a);
    FitValue(S, x.b, sc, x.cur, e.b);
    var y := LowerValue(S, x.b, sc, x.cur, e.b);
    FitBlocks(S, y.b, 0, 0, 0, Unit, TermRet(false, None), UnsupportedOperator);
    if MapBinOp(e.tok).Some? {
      FitEmit(S, y.b, y.cur, e.ty, Pure, OpBinary(MapBinOp(e.tok).value, x.v, y.v), UnknownLayout);
    }
  }

  lemma {:induction false} FitCall(S: Program, b: Bld, sc: Scope, cur: nat, e: Expr)
    requires Fit(S, b) && cur < |b.mod.blocks| && e.Call?
    ensures FitOn(S, b, LowerCall(S, b, sc, cur, e))
    decreases e, 0, 1
  {
    hide Fit, LowerArgs;
    FitBlocks(S, b, 0, 0, 0, Unit, TermRet(false, None), UnsupportedCall);
    var fi := FindFunc(S.funcs, e.callee);
    if fi.Some? {
      FitArgs(S, b, sc, cur, e.args, ParamTypes(S.funcs[fi.value].params));
      var xs := LowerArgs(S, b, sc, cur, e.args, ParamTypes(S.funcs[fi.value].params));
      FitEmit(S, xs.b, xs.cur, e.ty, CallEffect, CallOp(S, e, fi.value, xs.vs), ClassifyLayout(e.ty));
    }
  }

  lemma {:induction false} FitArgs(S: Program, b: Bld, sc: Scope, cur: nat, args: seq<Expr>, tys: seq<Ty>)
    requires Fit(S, b) && cur < |b.mod.blocks|
    ensures var xs := LowerArgs(S, b, sc, cur, args, tys); Fit(S, xs.b) && xs.cur < |xs.b.mod.blocks| && |b.mod.blocks| <= |xs.b.mod.blocks|
    decreases args, 0
  {
    hide Fit, LowerValueAs;
    if args != [] {
      var ty := if tys == [] then args[0].ty else tys[0];
      FitValueAs(S, b, sc, cur, args[0], ty);
      var x := LowerValueAs(S, b, sc, cur, args[0], ty);
      FitArgs(S, x.b, sc, x.cur, args[1..], if tys == [] then [] else tys[1..]);
    }
  }

  lemma {:induction false} FitAssign(S: Program, b: Bld, sc: Scope, cur: nat, e: Expr)
    requires Fit(S, b) && cur < |b.mod.blocks| && e.Assign?
    ensures FitOn(S, b, LowerAssign(S, b, sc, cur, e))
    decreases e, 0, 1
  {
    hide Fit, LowerValueAs, LowerValue;
    var p := LowerPlace(S, b, sc, cur, e.place);
    FitLowered(S, b, sc, cur, e.place);
    FitValue(S, p.b, sc, p.cur, e.rhs);
    FitValueAs(S, p.b, sc, p.cur, e.rhs, ElemType(p.b.mod, p.v));
    var r :=
      if p.v.None? then LowerValue(S, p.b, sc, p.cur, e.rhs)
      else LowerValueAs(S, p.b, sc, p.cur, e.rhs, ElemType(p.b.mod, p.v));
    FitStore(S, r.b, r.cur, p.v, r.v);
  }

  lemma FitStore(S: Program, b: Bld, cur: nat, place: Id, v: Id)
    requires Fit(S, b) && cur < |b.mod.blocks|
    ensures FitOn(S, b, EmitStore(b, cur, place, v))
  {
    FitAppend(S, b, cur, OpStore(place, v), MayWrite, None);
  }

  lemma FitLowered(S: Program, b: Bld, sc: Scope, cur: nat, e: Expr)
    requires Fit(S, b) && cur < |b.mod.blocks|
    ensures FitOn(S, b, LowerPlace(S, b, sc, cur, e))
  {
    hide Fit;
    FitBlocks(S, b, 0, 0, 0, Unit, TermRet(false, None), NotAPlace);
    FitBlocks(S, b, 0, 0, 0, Unit, TermRet(false, None), UnsupportedPlace);
    if e.Local? || e.Global? {
      FitGlobal(S, b, cur, e.sym);
    }
  }

  lemma {:induction false} FitCoalesce(S: Program, b: Bld, sc: Scope, cur: nat, e: Expr)
    requires Fit(S, b) && cur < |b.mod.blocks| && e.Binary?
    ensures FitOn(S, b, LowerCoalesce(S, b, sc, cur, e))
    decreases e, 0, 1
  {
    hide Fit, LowerValue;
    FitBlocks(S, b, 0, 0, 0, Unit, TermRet(false, None), NotOptional);
    FitValue(S, b, sc, cur, e.a);
    var x := LowerValue(S, b, sc, cur, e.a);
    FitEmit(S, x.b, x.cur, Bool, Pure, OpOptionalIsPresent(x.v), LayoutClass.Scalar);
    if e.a.ty.Optional? {
      var t := PresenceTest(x);
      FitArms(S, t.b, sc, t.cur, e, x.v, t.v);
    }
  }

  lemma {:induction false} FitArms(S: Program, b: Bld, sc: Scope, cur: nat, e: Expr, opt: Id, present: Id)
    requires Fit(S, b) && cur < |b.mod.blocks| && e.Binary? && e.a.ty.Optional?
    ensures FitOn(S, b, LowerCoalesceArms(S, b, sc, cur, e, opt, present))
    decreases e, 0, 0
  {
    hide Fit, LowerValueAs, Emit, Terminate, CoalesceBlocks;
    var s := |b.mod.blocks|;
    FitCoalesceBlocks(S, b, sc.owner, cur, e.ty, present);
    var b1 := CoalesceBlocks(b, sc.owner, cur, e.ty, present);
    FitEmit(S, b1, s, e.a.ty.elem, Pure, OpOptionalGet(opt), ClassifyLayout(e.a.ty.elem));
    var got := Emit(b1, s, e.a.ty.elem, Pure, OpOptionalGet(opt), ClassifyLayout(e.a.ty.elem));
    FitTerm(S, got.b, s, TermBr(s + 2, [got.v]));
    var b2 := Terminate(got.b, s, TermBr(s + 2, [got.v]));
    FitValueAs(S, b2, sc, s + 1, e.b, e.ty);
    var y := LowerValueAs(S, b2, sc, s + 1, e.b, e.ty);
    FitTerm(S, y.b, y.cur, TermBr(s + 2, [y.v]));
  }

  lemma FitCoalesceBlocks(S: Program, b: Bld, owner: nat, cur: nat, ty: Ty, present: Id)
    requires Fit(S, b)
    ensures var b' := CoalesceBlocks(b, owner, cur, ty, present); Fit(S, b') && |b'.mod.blocks| == |b.mod.blocks| + 3
  {
    hide Fit, Terminate, AddBlockParam, AddBlock;
    var s := |b.mod.blocks|;
    var b0 := AddThreeBlocks(b, owner);
    FitBlocks(S, b, owner, 0, 0, Unit, TermRet(false, None), NotOptional);
    FitBlocks(S, b0, 0, 0, s + 2, ty, TermRet(false, None), NotOptional);
    FitTerm(S, AddBlockParam(b0, s + 2, ty), cur, TermCondBr(present, s, s + 1));
  }

  lemma FitMessage(S: Program, b: Bld, m: Message)
    requires Fit(S, b)
    ensures Fit(S, Error(b, m)) && Error(b, m).mod == b.mod
  {
    FitKept(S, b, Error(b, m));
  }

  lemma FitTerm(S: Program, b: Bld, cur: nat, term: Term)
    requires Fit(S, b)
    ensures Fit(S, Terminate(b, cur, term)) && |Terminate(b, cur, term).mod.blocks| == |b.mod.blocks|
  {
    FitKept(S, b, Terminate(b, cur, term));
  }

  lemma FitBind(S: Program, b: Bld, st: FuncState, cur: nat, s: Stmt, ty: Ty, init: Id)
    requires Fit(S, b) && cur < |b.mod.blocks| && s.VarDecl?
    ensures FitFrom(S, b, BindLocal(b, st, cur, s, ty, init))
  {
    hide Fit;
    FitPlace(S, b, cur, ty, OpLocalSlot, LocalSlot, true);
    var slot := EmitPlace(b, cur, ty, OpLocalSlot, LocalSlot, true);
    FitStore(S, slot.b, cur, slot.v, init);
  }

  lemma {:induction false} FitStmt(S: Program, b: Bld, st: FuncState, cur: nat, s: Stmt)
    requires Fit(S, b) && cur < |b.mod.blocks|
    ensures FitFrom(S, b, LowerStmt(S, b, st, cur, s))
    decreases s, 1
  {
    hide Fit, LowerValue, LowerValueAs;
    match s
    case ExprStmt(None) =>
    case ExprStmt(Some(e)) => FitValue(S, b, st.scope, cur, e);
    case VarDecl(_, _, _, _, _, init) =>
      FitMessage(S, b, UnsupportedBinding);
      FitMessage(S, b, UnsupportedType);
      FitMessage(S, b, MissingInit);
      if init.Some? && BindingType(s).Some? {
        var ty := BindingType(s).value;
        FitValueAs(S, b, st.scope, cur, init.value, ty);
        var x := LowerValueAs(S, b, st.scope, cur, init.value, ty);
        FitBind(S, x.b, st, x.cur, s, ty, x.v);
      }
    case If(_, _, _) => FitIf(S, b, st, cur, s);
    case While(_, _) => FitWhile(S, b, st, cur, s);
    case Switch(_, _) => FitSwitch(S, b, st, cur, s);
    case Return(None) => FitTerm(S, b, cur, TermRet(false, None));
    case Return(Some(e)) =>
      FitValueAs(S, b, st.scope, cur, e, st.scope.ret);
      var x := LowerValueAs(S, b, st.scope, cur, e, st.scope.ret);
      FitTerm(S, x.b, x.cur, TermRet(true, x.v));
    case OtherStmt => FitMessage(S, b, UnsupportedStmt);
  }

  lemma {:induction false} FitBlock(S: Program, b: Bld, st: FuncState, stmts: seq<Stmt>)
    requires Fit(S, b) && (st.cur.Some? ==> st.cur.value < |b.mod.blocks|)
    ensures FitFrom(S, b, LowerBlock(S, b, st, stmts))
    decreases stmts, 0
  {
    hide Fit, LowerStmt;
    if stmts != [] && st.cur.Some? {
      FitStmt(S, b, st, st.cur.value, stmts[0]);
      var r := LowerStmt(S, b, st, st.cur.value, stmts[0]);
      FitBlock(S, r.b, r.st, stmts[1..]);
    }
  }

  lemma {:induction false} FitArm(S: Program, b: Bld, st: FuncState, bb: nat, body: seq<Stmt>, target: nat)
    requires Fit(S, b) && bb < |b.mod.blocks|
    ensures var b' := LowerArm(S, b, st, bb, body, target); Fit(S, b') && |b.mod.blocks| <= |b'.mod.blocks|
    decreases body, 1
  {
    hide Fit, LowerBlock;
    FitBlock(S, b, st.(cur := Some(bb)), body);
    var r := LowerBlock(S, b, st.(cur := Some(bb)), body);
    if r.st.cur.Some? {
      FitTerm(S, r.b, r.st.cur.value, TermBr(target, []));
    }
  }

  lemma FitFork(S: Program, b: Bld, owner: nat, cur: nat, term: Term)
    requires Fit(S, b)
    ensures var b' := Terminate(AddThreeBlocks(b, owner), cur, term); Fit(S, b') && |b'.mod.blocks| == |b.mod.blocks| + 3
  {
    hide Fit;
    FitBlocks(S, b, owner, 0, 0, Unit, term, NotAPlace);
    FitTerm(S, AddThreeBlocks(b, owner), cur, term);
  }

  lemma {:induction false} FitIf(S: Program, b: Bld, st: FuncState, cur: nat, s: Stmt)
    requires Fit(S, b) && cur < |b.mod.blocks| && s.If?
    ensures FitFrom(S, b, LowerIf(S, b, st, cur, s))
    decreases s, 0, 1
  {
    hide Fit, LowerValue, LowerArm;
    FitValue(S, b, st.scope, cur, s.cond);
    var c := LowerValue(S, b, st.scope, cur, s.cond);
    var t := |c.b.mod.blocks|;
    FitFork(S, c.b, st.scope.owner, c.cur, TermCondBr(c.v, t, t + 1));
    var b1 := Terminate(AddThreeBlocks(c.b, st.scope.owner), c.cur, TermCondBr(c.v, t, t + 1));
    FitArm(S, b1, st, t, s.thn, t + 2);
    FitArm(S, LowerArm(S, b1, st, t, s.thn, t + 2), st, t + 1, s.els, t + 2);
  }

  lemma {:induction false} FitWhile(S: Program, b: Bld, st: FuncState, cur: nat, s: Stmt)
    requires Fit(S, b) && cur < |b.mod.blocks| && s.While?
    ensures FitFrom(S, b, LowerWhile(S, b, st, cur, s))
    decreases s, 0, 1
  {
    hide Fit, LowerValue, LowerArm;
    var t := |b.mod.blocks|;
    FitFork(S, b, st.scope.owner, cur, TermBr(t, []));
    var b1 := Terminate(AddThreeBlocks(b, st.scope.owner), cur, TermBr(t, []));
    FitValue(S, b1, st.scope, t, s.cond);
    var c := LowerValue(S, b1, st.scope, t, s.cond);
    FitTerm(S, c.b, c.cur, TermCondBr(c.v, t + 1, t + 2));
    FitArm(S, LowerWhileHead(S, b1, st, t, s), st, t + 1, s.body, t);
  }

  lemma {:induction false} FitCases(S: Program, b: Bld, owner: nat, ty: Ty, cases: seq<Case>, i: nat, dflt: nat, arms: seq<Arm>)
    requires Fit(S, b) && i <= |cases|
    ensures var r := AddCases(b, owner, ty, cases, i, dflt, arms);
            Fit(S, r.b) && |b.mod.blocks| <= |r.b.mod.blocks| && (r.ok ==> |r.b.mod.blocks| == |b.mod.blocks| + |cases| - i)
    decreases |cases| - i
  {
    hide Fit, CaseKey;
    if i < |cases| {
      var bb := |b.mod.blocks|;
      FitBlocks(S, b, owner, 0, 0, Unit, TermRet(false, None), NotAPlace);
      var b1 := AddBlock(b, owner);
      FitMessage(S, b1, UnsupportedPattern);
      FitCases(S, b1, owner, ty, cases, i + 1, bb, arms);
      if CaseKey(ty, cases[i]).Some? {
        FitCases(S, b1, owner, ty, cases, i + 1, dflt, arms + [Arm(CaseKey(ty, cases[i]).value, bb)]);
      }
    }
  }

  lemma {:induction false} FitBodies(S: Program, b: Bld, st: FuncState, first: nat, cases: seq<Case>, after: nat)
    requires Fit(S, b) && first + |cases| <= |b.mod.blocks|
    ensures var b' := LowerCases(S, b, st, first, cases, after); Fit(S, b') && |b.mod.blocks| <= |b'.mod.blocks|
    decreases cases, 1
  {
    hide Fit, LowerArm;
    if cases != [] {
      FitArm(S, b, st, first, cases[0].body, after);
      FitBodies(S, LowerArm(S, b, st, first, cases[0].body, after), st, first + 1, cases[1..], after);
    }
  }

  lemma {:induction false} FitSwitch(S: Program, b: Bld, st: FuncState, cur: nat, s: Stmt)
    requires Fit(S, b) && cur < |b.mod.blocks| && s.Switch?
    ensures FitFrom(S, b, LowerSwitch(S, b, st, cur, s))
    decreases s, 0, 1
  {
    hide Fit, LowerValue, LowerSwitchArms, RejectedCase, SwitchableType;
    FitMessage(S, b, UnsupportedPattern);
    FitMessage(S, b, UnsupportedScrutinee);
    FitValue(S, b, st.scope, cur, s.scrutinee);
    var v := LowerValue(S, b, st.scope, cur, s.scrutinee);
    FitEmit(S, v.b, v.cur, Bool, Pure, OpOptionalIsPresent(v.v), LayoutClass.Scalar);
    var x := LowerScrutinee(S, b, st.scope, cur, s.scrutinee);
    FitSwitchArms(S, x.b, st, x.cur, s, x.v);
  }

  lemma {:induction false} FitSwitchArms(S: Program, b: Bld, st: FuncState, cur: nat, s: Stmt, v: Id)
    requires Fit(S, b) && cur < |b.mod.blocks| && s.Switch?
    ensures FitFrom(S, b, LowerSwitchArms(S, b, st, cur, s, v))
    decreases s, 0, 0
  {
    hide Fit, AddCases, LowerCases;
    var after := |b.mod.blocks|;
    FitBlocks(S, b, st.scope.owner, 0, 0, Unit, TermRet(false, None), NotAPlace);
    var b0 := AddBlock(b, st.scope.owner);
    FitCases(S, b0, st.scope.owner, s.scrutinee.ty, s.cases, 0, after, []);
    var cs := AddCases(b0, st.scope.owner, s.scrutinee.ty, s.cases, 0, after, []);
    if cs.ok {
      FitTerm(S, cs.b, cur, TermSwitch(v, cs.defaultBb, cs.arms));
      FitBodies(S, Terminate(cs.b, cur, TermSwitch(v, cs.defaultBb, cs.arms)), st, after + 1, s.cases, after);
    }
  }

  lemma {:induction false} FitParams(S: Program, b: Bld, bb: nat, params: seq<Param>)
    requires Fit(S, b)
    ensures Fit(S, AddParams(b, bb, params).b) && |AddParams(b, bb, params).b.mod.blocks| == |b.mod.blocks|
    decreases |params|
  {
    hide Fit;
    if params != [] {
      var n := |params| - 1;
      FitParams(S, b, bb, params[..n]);
      FitBlocks(S, AddParams(b, bb, params[..n]).b, 0, 0, bb, params[n].ty, TermRet(false, None), NotAPlace);
    }
  }

  lemma FitFunc(S: Program, b: Bld, i: nat)
    requires Fit(S, b) && i < |S.funcs|
    ensures Fit(S, LowerFunc(S, b, i))
  {
    hide LowerBlock, AddParams;
    var fn := S.funcs[i];
    if !fn.isExtern {
      var bb := |b.mod.blocks|;
      var b0 := SetEntry(AddBlock(b, i), i, bb);
      FitKept(S, b, b0);
      hide Fit;
      FitParams(S, b0, bb, fn.params);
      var o := OpenBody(b, fn, i);
      FitBlock(S, o.b, o.st, fn.body);
      var r := LowerBlock(S, o.b, o.st, fn.body);
      FitMessage(S, r.b, MissingReturn);
      if r.st.cur.Some? {
        FitTerm(S, r.b, r.st.cur.value, TermRet(false, None));
      }
    }
  }

  lemma {:induction false} FitFuncs(S: Program, b: Bld, n: nat)
    requires Fit(S, b) && n <= |S.funcs|
    ensures Fit(S, LowerFuncs(S, b, n))
    decreases n
  {
    hide Fit, LowerFunc;
    if n > 0 {
      FitFuncs(S, b, n - 1);
      FitFunc(S, LowerFuncs(S, b, n - 1), n - 1);
    }
  }

  lemma {:induction false} DeclaredEmpty(b: Bld, globals: seq<GlobalDecl>, n: nat)
    requires n <= |globals|
    ensures var r := DeclareGlobals(b, globals, n); r.mod.insts == b.mod.insts && r.mod.values == b.mod.values
  {
    if n > 0 {
      DeclaredEmpty(b, globals, n - 1);
    }
  }

  lemma {:induction false} FuncsEmpty(b: Bld, funcs: seq<Func>, n: nat)
    requires n <= |funcs|
    ensures var r := DeclareFuncs(b, funcs, n); r.mod.insts == b.mod.insts && r.mod.values == b.mod.values
  {
    hide SupportedFunc;
    if n > 0 {
      FuncsEmpty(b, funcs, n - 1);
    }
  }

  lemma BuiltFits(S: Program)
    ensures Fit(S, LowerProgram(S))
  {
    hide LowerFuncs;
    var b := Bld(EMPTY_MODULE, []);
    var d := DeclareGlobals(b, S.globals, |S.globals|);
    DeclaredEmpty(b, S.globals, |S.globals|);
    FuncsEmpty(d, S.funcs, |S.funcs|);
    FitFuncs(S, Declare(S), |S.funcs|);
  }

  // ---- Placement --------------------------------------------------------------------------

  /** Of placement's own checks a built module can fail two: no raw null may be left, that is a `null` that is
      no optional, and every value must have a type whose layout is known. */
  lemma PlacedUnless(S: Program)
    requires Accepted(S) && Typing.WellTyped(S)
    ensures var m := LowerProgram(S).mod;
            Placeable(m) <==>
              && (forall i :: 0 <= i < |m.insts| ==> m.insts[i].op != OpConstNull)
              && forall i :: 0 <= i < |m.values| ==> m.values[i].layout != UnknownLayout
  {
    hide LowerProgram, VerifyOk, Fit, Meanings.FuncEntry, SupportedFunc, InstOk;
    var m := LowerProgram(S).mod;
    BuiltFits(S);
    AllChecked(S, m);
    AcceptedTables(S);
    AcceptedDeclared(S);
    Meanings.Declared(S);
    forall i | 0 <= i < |m.insts|
      ensures CallPlaceable(m, m.insts[i].op) && (OpPlaceable(m, m.insts[i].op) <==> m.insts[i].op != OpConstNull)
    {
      InstPlaceable(S, m, i);
    }
    forall i | 0 <= i < |m.reals|
      ensures RealPlaceable(m.reals[i])
    {
      CImports(S.funcs[i]);
    }
    assert Fit(S, LowerProgram(S));
    PlainValues(S, LowerProgram(S));
  }

  lemma AcceptedDeclared(S: Program)
    requires LowerProgram(S).errs == []
    ensures Declare(S).errs == []
  {
  }

  lemma PlainValues(S: Program, b: Bld)
    requires Fit(S, b)
    ensures forall i :: 0 <= i < |b.mod.values| ==> b.mod.values[i].ownership == Plain
  {
  }

  /** In an accepted program no instruction is left unchecked. */
  lemma AllChecked(S: Program, m: Module)
    requires VerifyOk(m) && Fit(S, LowerProgram(S)) && m == LowerProgram(S).mod
    ensures forall i :: 0 <= i < |m.insts| ==> InstOk(m, m.insts[i]) && OpFits(S, m.insts[i].op)
  {
    hide InstOk, TailOk;
    forall i | 0 <= i < |m.insts|
      ensures InstOk(m, m.insts[i])
    {
      assert InBlock(m, i);
      var bb :| 0 <= bb < |m.blocks| && i in m.blocks[bb].insts;
      assert BlockOk(m, m.blocks[bb]);
    }
  }

  lemma CImports(fn: Func)
    requires SupportedFunc(fn)
    ensures fn.isExtern ==> fn.abi == C && !fn.isVariadic
  {
  }

  lemma InstPlaceable(S: Program, m: Module, i: nat)
    requires i < |m.insts| && InstOk(m, m.insts[i]) && OpFits(S, m.insts[i].op) && TablesOk(S, m) && Meanings.Tables(S, m)
    ensures CallPlaceable(m, m.insts[i].op) && (OpPlaceable(m, m.insts[i].op) <==> m.insts[i].op != OpConstNull)
  {
    match m.insts[i].op
    case OpSemanticInvoke(comp, _) => assert m.comps[comp].realizations == [comp];
    case OpCallExtern(callee, _) =>
      CImports(S.funcs[callee]);
      assert Meanings.FuncEntry(S.funcs[callee], callee, m.sigs[callee], m.comps[callee], m.reals[callee]);
    case _ =>
  }
}
