/** The specification of the gOIR builder: what each lowering routine makes of a module. The
    routines thread the module and the diagnostics; the class `Builder` does the same in place. */
module Lowering {
  import opened Wrappers
  import opened Literals
  import opened Sir
  import opened SirSemantics
  import opened Goir

  datatype Message =
    | UnsupportedType | UnsupportedOptional | UnsupportedCoercion | UnsupportedPlace | UnsupportedOperator
    | UnsupportedCall | UnsupportedEnumCtor | UnsupportedExpr | UnsupportedStmt | UnsupportedPattern
    | UnsupportedScrutinee | UnsupportedBinding | BadLiteral | UnknownSymbol | NotAPlace | NotOptional
    | MissingInit | MissingReturn | UnsupportedFunc | UnsupportedGlobal | BadPlacement

  datatype Bld = Bld(mod: Module, errs: seq<Message>)

  datatype Binding = Binding(value: Id, ty: Ty, layout: LayoutClass, isPlace: bool, isMutable: bool)

  /** The part of a function state that expressions only read. */
  datatype Scope = Scope(owner: nat, ret: Ty, locals: map<Sym, Binding>)

  /** A function state: its scope and the block being filled, if the path is still open. */
  datatype FuncState = FuncState(scope: Scope, cur: Option<nat>)

  /** What lowering an expression yields: the module, the block now being filled, the value id. */
  datatype Lowered = Lowered(b: Bld, cur: nat, v: Id)
  datatype LoweredArgs = LoweredArgs(b: Bld, cur: nat, vs: seq<Id>)
  datatype LoweredStmt = LoweredStmt(b: Bld, st: FuncState)

  function Error(b: Bld, m: Message): Bld { b.(errs := b.errs + [m]) }

  function Fail(b: Bld, cur: nat, m: Message): Lowered { Lowered(Error(b, m), cur, None) }

  predicate ReadsAsValue(layout: LayoutClass) {
    layout in {LayoutClass.Scalar, TextView, OptionalScalar, TagEnumLayout}
  }

  // ---- Module updates -------------------------------------------------------------------

  function PlainValue(ty: Ty, eff: Effect, layout: LayoutClass): Value {
    Value(ty, ty, eff, Plain, if layout == UnknownLayout then ClassifyLayout(ty) else layout, NoPlace, false, false)
  }

  function PlaceValue(ty: Ty, kind: PlaceKind, mutable: bool): Value {
    Value(ty, ty, Pure, Plain, ClassifyLayout(ty), kind, true, mutable)
  }

  /** Appends an instruction to block `cur`, with a result value when `result` describes one. */
  function Append(b: Bld, cur: nat, op: Op, eff: Effect, result: Option<Value>): Lowered {
    var m := b.mod;
    var x := if result.Some? then Some(|m.values|) else None;
    var values := if result.Some? then m.values + [result.value] else m.values;
    var blocks :=
      if cur < |m.blocks| then m.blocks[cur := m.blocks[cur].(insts := m.blocks[cur].insts + [|m.insts|])]
      else m.blocks;
    Lowered(b.(mod := m.(values := values, insts := m.insts + [Inst(op, eff, x)], blocks := blocks)), cur, x)
  }

  /** An instruction computing a value; results of unit type have no id. */
  function Emit(b: Bld, cur: nat, ty: Ty, eff: Effect, op: Op, layout: LayoutClass): Lowered {
    Append(b, cur, op, eff, if ty == Unit then None else Some(PlainValue(ty, eff, layout)))
  }

  function EmitPlace(b: Bld, cur: nat, ty: Ty, op: Op, kind: PlaceKind, mutable: bool): Lowered {
    Append(b, cur, op, Pure, Some(PlaceValue(ty, kind, mutable)))
  }

  function EmitStore(b: Bld, cur: nat, place: Id, val: Id): Lowered {
    Append(b, cur, OpStore(place, val), MayWrite, None)
  }

  /** Closes block `cur`, unless it is closed already. */
  function Terminate(b: Bld, cur: nat, term: Term): Bld {
    var m := b.mod;
    if cur < |m.blocks| && m.blocks[cur].term.None? then
      b.(mod := m.(blocks := m.blocks[cur := m.blocks[cur].(term := Some(term))]))
    else b
  }

  /** Appends an empty block owned by realization `owner`. */
  function AddBlock(b: Bld, owner: nat): Bld {
    var m := b.mod;
    var reals :=
      if owner < |m.reals| then m.reals[owner := m.reals[owner].(blocks := m.reals[owner].blocks + [|m.blocks|])]
      else m.reals;
    b.(mod := m.(blocks := m.blocks + [EMPTY_BLOCK], reals := reals))
  }

  function AddThreeBlocks(b: Bld, owner: nat): Bld { AddBlock(AddBlock(AddBlock(b, owner), owner), owner) }

  function AddBlockParam(b: Bld, bb: nat, ty: Ty): Bld {
    var m := b.mod;
    if bb < |m.blocks| then
      b.(mod := m.(
        values := m.values + [PlainValue(ty, Pure, UnknownLayout)],
        blocks := m.blocks[bb := m.blocks[bb].(params := m.blocks[bb].params + [|m.values|])]))
    else b
  }

  // ---- Expressions ----------------------------------------------------------------------

  function GlobalPlaceOf(S: Program, b: Bld, cur: nat, sym: Sym): Lowered {
    match FindGlobal(S.globals, sym)
    case None => Fail(b, cur, UnknownSymbol)
    case Some(i) =>
      EmitPlace(b, cur, S.globals[i].ty, OpGlobalSlot(i), GlobalSlot, S.globals[i].isMutable)
  }

  function LowerPlace(S: Program, b: Bld, sc: Scope, cur: nat, e: Expr): Lowered {
    match e
    case Local(_, sym) =>
      if sym !in sc.locals then GlobalPlaceOf(S, b, cur, sym)
      else if !sc.locals[sym].isPlace then Fail(b, cur, NotAPlace)
      else Lowered(b, cur, sc.locals[sym].value)
    case Global(_, sym) => GlobalPlaceOf(S, b, cur, sym)
    case _ => Fail(b, cur, UnsupportedPlace)
  }

  /** The type a place stores. */
  function ElemType(m: Module, place: Id): Ty {
    if place.Some? && place.value < |m.values| then m.values[place.value].elemTy else Unit
  }

  function ValueType(m: Module, v: Id): Ty {
    if v.Some? && v.value < |m.values| then m.values[v.value].ty else Unit
  }

  /** Reading through a place: a load when the stored layout reads as a value. */
  function LoadFrom(b: Bld, cur: nat, place: Id, ty: Ty, layout: LayoutClass): Lowered {
    if place.Some? && ReadsAsValue(layout) then Emit(b, cur, ty, MayRead, OpLoad(place), ClassifyLayout(ty))
    else Lowered(b, cur, place)
  }

  function LowerGlobal(S: Program, b: Bld, cur: nat, sym: Sym): Lowered {
    var p := GlobalPlaceOf(S, b, cur, sym);
    var ty := ElemType(p.b.mod, p.v);
    LoadFrom(p.b, p.cur, p.v, ty, ClassifyLayout(ty))
  }

  function LowerLocal(S: Program, b: Bld, sc: Scope, cur: nat, sym: Sym): Lowered {
    if sym !in sc.locals then LowerGlobal(S, b, cur, sym)
    else
      var bd := sc.locals[sym];
      if bd.isPlace then LoadFrom(b, cur, bd.value, bd.ty, bd.layout) else Lowered(b, cur, bd.value)
  }

  function LowerLiteral(b: Bld, cur: nat, e: Expr): Lowered
    requires e.IntLit? || e.FloatLit? || e.StringLit? || e.CharLit? || e.BoolLit? || e.NullLit?
  {
    match e
    case IntLit(ty, text) => Emit(b, cur, ty, Pure, OpConstInt(text), UnknownLayout)
    case FloatLit(ty, text) => Emit(b, cur, ty, Pure, OpConstFloat(text), UnknownLayout)
    case StringLit(ty, text) => Emit(b, cur, ty, Pure, OpTextLit(text), TextView)
    case CharLit(ty, text) =>
      (match CharLiteralCode(text)
       case Some(c) => Emit(b, cur, ty, Pure, OpConstInt(NatText(c)), LayoutClass.Scalar)
       case None => Fail(b, cur, BadLiteral))
    case BoolLit(ty, text) => Emit(b, cur, ty, Pure, OpConstBool(BoolLiteralValue(text)), UnknownLayout)
    case NullLit(ty) =>
      if ty.Optional? && ClassifyLayout(ty) == OptionalScalar then
        Emit(b, cur, ty, Pure, OpOptionalNone, OptionalScalar)
      else Emit(b, cur, ty, Pure, OpConstNull, UnknownLayout)
  }

  function LowerValueAs(S: Program, b: Bld, sc: Scope, cur: nat, e: Expr, target: Ty): Lowered
    decreases e, 2
  {
    if e.ty == target then LowerValue(S, b, sc, cur, e)
    else if target.Optional? && ClassifyLayout(target) != OptionalScalar then Fail(b, cur, UnsupportedOptional)
    else if target.Optional? && e.NullLit? then Emit(b, cur, target, Pure, OpOptionalNone, OptionalScalar)
    else
      var lo := LowerValue(S, b, sc, cur, e);
      if lo.v.None? then lo
      else if target.Optional? && e.ty == target.elem then
        Emit(lo.b, lo.cur, target, Pure, OpOptionalSome(lo.v), OptionalScalar)
      else if ValueType(lo.b.mod, lo.v) == target then lo
      else Fail(lo.b, lo.cur, UnsupportedCoercion)
  }

  function LowerValue(S: Program, b: Bld, sc: Scope, cur: nat, e: Expr): Lowered
    decreases e, 1
  {
    match e
    case Local(_, sym) => LowerLocal(S, b, sc, cur, sym)
    case Global(_, sym) => LowerGlobal(S, b, cur, sym)
    case Unary(_, _, _) => LowerOperand(S, b, sc, cur, e)
    case Cast(_, _, _, _) => LowerOperand(S, b, sc, cur, e)
    case Binary(_, tok, _, _) =>
      if tok == QuestionQuestion then LowerCoalesce(S, b, sc, cur, e) else LowerBinary(S, b, sc, cur, e)
    case Call(_, _, _, _, _, _) => LowerCall(S, b, sc, cur, e)
    case EnumCtor(ty, tag, argCount) =>
      if argCount != 0 || !ty.TagEnum? then Fail(b, cur, UnsupportedEnumCtor)
      else Emit(b, cur, ty, Pure, OpEnumTag(tag), TagEnumLayout)
    case Assign(_, _, _) => LowerAssign(S, b, sc, cur, e)
    case OtherExpr(_) => Fail(b, cur, UnsupportedExpr)
    case _ => LowerLiteral(b, cur, e)
  }

  function OperandOp(e: Expr, src: Id): Op
    requires e.Cast? || (e.Unary? && MapUnOp(e.tok).Some?)
  {
    if e.Cast? then OpCast(e.kind, e.to, src) else OpUnary(MapUnOp(e.tok).value, src)
  }

  function OperandEffect(e: Expr): Effect { if e.Cast? && e.kind == AsB then MayTrap else Pure }

  /** Unary operators and casts. */
  function LowerOperand(S: Program, b: Bld, sc: Scope, cur: nat, e: Expr): Lowered
    requires e.Unary? || e.Cast?
    decreases e, 0, 1
  {
    var x := LowerValue(S, b, sc, cur, e.a);
    if e.Unary? && MapUnOp(e.tok).None? then Fail(x.b, x.cur, UnsupportedOperator)
    else Emit(x.b, x.cur, e.ty, OperandEffect(e), OperandOp(e, x.v), UnknownLayout)
  }

  function LowerBinary(S: Program, b: Bld, sc: Scope, cur: nat, e: Expr): Lowered
    requires e.Binary?
    decreases e, 0, 1
  {
    var x := LowerValue(S, b, sc, cur, e.a);
    var y := LowerValue(S, x.b, sc, x.cur, e.b);
    if MapBinOp(e.tok).None? then Fail(y.b, y.cur, UnsupportedOperator)
    else Emit(y.b, y.cur, e.ty, Pure, OpBinary(MapBinOp(e.tok).value, x.v, y.v), UnknownLayout)
  }

  /** C functions are called directly, other functions through their computation. */
  function CallOp(S: Program, e: Expr, fi: nat, args: seq<Id>): Op
    requires e.Call? && fi < |S.funcs|
  {
    if S.funcs[fi].abi == C || e.isCAbi then OpCallExtern(fi, args) else OpSemanticInvoke(fi, args)
  }

  function LowerCall(S: Program, b: Bld, sc: Scope, cur: nat, e: Expr): Lowered
    requires e.Call?
    decreases e, 0, 1
  {
    var fi := FindFunc(S.funcs, e.callee);
    if e.isCore || e.isThrowing || fi.None? then Fail(b, cur, UnsupportedCall)
    else
      var xs := LowerArgs(S, b, sc, cur, e.args, ParamTypes(S.funcs[fi.value].params));
      Emit(xs.b, xs.cur, e.ty, CallEffect, CallOp(S, e, fi.value, xs.vs), ClassifyLayout(e.ty))
  }

  function LowerAssign(S: Program, b: Bld, sc: Scope, cur: nat, e: Expr): Lowered
    requires e.Assign?
    decreases e, 0, 1
  {
    var p := LowerPlace(S, b, sc, cur, e.place);
    var r :=
      if p.v.None? then LowerValue(S, p.b, sc, p.cur, e.rhs)
      else LowerValueAs(S, p.b, sc, p.cur, e.rhs, ElemType(p.b.mod, p.v));
    if p.v.None? || r.v.None? then Lowered(r.b, r.cur, None)
    else
      var s := EmitStore(r.b, r.cur, p.v, r.v);
      Lowered(s.b, s.cur, r.v)
  }

  /** The test for presence that `??` and `switch` make on an optional. */
  function PresenceTest(x: Lowered): Lowered { Emit(x.b, x.cur, Bool, Pure, OpOptionalIsPresent(x.v), LayoutClass.Scalar) }

  /** The blocks of `a ?? b`, added after the presence test: present, absent and join, in that order. */
  function CoalesceBlocks(b: Bld, owner: nat, cur: nat, ty: Ty, present: Id): Bld {
    var s := |b.mod.blocks|;
    Terminate(AddBlockParam(AddThreeBlocks(b, owner), s + 2, ty),
              cur, TermCondBr(present, s, s + 1))
  }

  function LowerCoalesce(S: Program, b: Bld, sc: Scope, cur: nat, e: Expr): Lowered
    requires e.Binary?
    decreases e, 0, 1
  {
    if !e.a.ty.Optional? then Fail(b, cur, NotOptional)
    else
      var x := LowerValue(S, b, sc, cur, e.a);
      if x.v.None? then x
      else
        var t := PresenceTest(x);
        LowerCoalesceArms(S, t.b, sc, t.cur, e, x.v, t.v)
  }

  /** The two ways of `a ?? b`, given `a` as `opt` and its presence: unwrap, or run `b`; then join. */
  function LowerCoalesceArms(S: Program, b: Bld, sc: Scope, cur: nat, e: Expr, opt: Id, present: Id): Lowered
    requires e.Binary? && e.a.ty.Optional?
    decreases e, 0, 0
  {
    var s := |b.mod.blocks|;
    var joined := Some(|b.mod.values|);
    var b1 := CoalesceBlocks(b, sc.owner, cur, e.ty, present);
    var got := Emit(b1, s, e.a.ty.elem, Pure, OpOptionalGet(opt), ClassifyLayout(e.a.ty.elem));
    if got.v.None? then Lowered(got.b, cur, None)
    else
      var b2 := Terminate(got.b, s, TermBr(s + 2, [got.v]));
      var y := LowerValueAs(S, b2, sc, s + 1, e.b, e.ty);
      if y.v.None? then Lowered(y.b, cur, None)
      else Lowered(Terminate(y.b, y.cur, TermBr(s + 2, [y.v])), s + 2, joined)
  }

  function LowerArgs(S: Program, b: Bld, sc: Scope, cur: nat, args: seq<Expr>, tys: seq<Ty>): (r: LoweredArgs)
    ensures |r.vs| == |args|
    decreases args, 0
  {
    if args == [] then LoweredArgs(b, cur, [])
    else
      var x := LowerValueAs(S, b, sc, cur, args[0], if tys == [] then args[0].ty else tys[0]);
      var xs := LowerArgs(S, x.b, sc, x.cur, args[1..], if tys == [] then [] else tys[1..]);
      LoweredArgs(xs.b, xs.cur, [x.v] + xs.vs)
  }

  // ---- Statements -----------------------------------------------------------------------

  function Bind(st: FuncState, cur: nat, sym: Sym, bd: Binding): FuncState {
    FuncState(st.scope.(locals := st.scope.locals[sym := bd]), Some(cur))
  }

  /** `set`/`mut` locals live in a slot; other locals are their initializer's value. */
  function BindLocal(b: Bld, st: FuncState, cur: nat, s: Stmt, ty: Ty, init: Id): LoweredStmt
    requires s.VarDecl?
  {
    var layout := ClassifyLayout(ty);
    if s.isSet || s.isMut then
      var slot := EmitPlace(b, cur, ty, OpLocalSlot, LocalSlot, true);
      var b1 := if init.Some? then EmitStore(slot.b, cur, slot.v, init).b else slot.b;
      LoweredStmt(b1, Bind(st, cur, s.sym, Binding(slot.v, ty, layout, true, true)))
    else
      var isPlace := init.Some? && init.value < |b.mod.values| && b.mod.values[init.value].isPlace;
      LoweredStmt(b, Bind(st, cur, s.sym, Binding(init, ty, layout, isPlace, false)))
  }

  /** A path that is still open jumps to `target`. */
  function BranchIfOpen(b: Bld, cur: Option<nat>, target: nat): Bld {
    if cur.Some? then Terminate(b, cur.value, TermBr(target, [])) else b
  }

  function LowerStmt(S: Program, b: Bld, st: FuncState, cur: nat, s: Stmt): LoweredStmt
    decreases s, 1
  {
    var open := st.(cur := Some(cur));
    match s
    case ExprStmt(None) => LoweredStmt(b, open)
    case ExprStmt(Some(e)) =>
      var x := LowerValue(S, b, st.scope, cur, e);
      LoweredStmt(x.b, st.(cur := Some(x.cur)))
    case VarDecl(_, isStatic, _, _, _, init) =>
      if isStatic then LoweredStmt(Error(b, UnsupportedBinding), open)
      else if BindingType(s).None? || !SupportedType(BindingType(s).value) then
        LoweredStmt(Error(b, UnsupportedType), open)
      else if init.None? then LoweredStmt(Error(b, MissingInit), open)
      else
        var x := LowerValueAs(S, b, st.scope, cur, init.value, BindingType(s).value);
        BindLocal(x.b, st, x.cur, s, BindingType(s).value, x.v)
    case If(_, _, _) => LowerIf(S, b, st, cur, s)
    case While(_, _) => LowerWhile(S, b, st, cur, s)
    case Switch(_, _) => LowerSwitch(S, b, st, cur, s)
    case Return(None) => LoweredStmt(Terminate(b, cur, TermRet(false, None)), st.(cur := None))
    case Return(Some(e)) =>
      var x := LowerValueAs(S, b, st.scope, cur, e, st.scope.ret);
      LoweredStmt(Terminate(x.b, x.cur, TermRet(true, x.v)), st.(cur := None))
    case OtherStmt => LoweredStmt(Error(b, UnsupportedStmt), open)
  }

  /** Statements after the path has closed are not lowered. */
  function LowerBlock(S: Program, b: Bld, st: FuncState, stmts: seq<Stmt>): LoweredStmt
    decreases stmts, 0
  {
    if stmts == [] || st.cur.None? then LoweredStmt(b, st)
    else
      var r := LowerStmt(S, b, st, st.cur.value, stmts[0]);
      LowerBlock(S, r.b, r.st, stmts[1..])
  }

  /** Lowers a nested block from `bb` in a copy of the state, then jumps to `target` if still open. */
  function LowerArm(S: Program, b: Bld, st: FuncState, bb: nat, body: seq<Stmt>, target: nat): Bld
    decreases body, 1
  {
    var r := LowerBlock(S, b, st.(cur := Some(bb)), body);
    BranchIfOpen(r.b, r.st.cur, target)
  }

  function LowerIf(S: Program, b: Bld, st: FuncState, cur: nat, s: Stmt): LoweredStmt
    requires s.If?
    decreases s, 0, 1
  {
    var c := LowerValue(S, b, st.scope, cur, s.cond);
    LowerIfArms(S, c.b, st, c.cur, s, c.v)
  }

  function LowerIfArms(S: Program, b: Bld, st: FuncState, cur: nat, s: Stmt, cond: Id): LoweredStmt
    requires s.If?
    decreases s, 0, 0
  {
    var t := |b.mod.blocks|;
    var b1 := Terminate(AddThreeBlocks(b, st.scope.owner), cur, TermCondBr(cond, t, t + 1));
    var b2 := LowerArm(S, b1, st, t, s.thn, t + 2);
    var b3 := LowerArm(S, b2, st, t + 1, s.els, t + 2);
    LoweredStmt(b3, st.(cur := Some(t + 2)))
  }

  function LowerWhile(S: Program, b: Bld, st: FuncState, cur: nat, s: Stmt): LoweredStmt
    requires s.While?
    decreases s, 0, 1
  {
    var t := |b.mod.blocks|;
    var b1 := Terminate(AddThreeBlocks(b, st.scope.owner), cur, TermBr(t, []));
    var b2 := LowerWhileHead(S, b1, st, t, s);
    var b3 := LowerArm(S, b2, st, t + 1, s.body, t);
    LoweredStmt(b3, st.(cur := Some(t + 2)))
  }

  /** The loop head `t`: the condition, then a branch to the body `t + 1` or past it to `t + 2`. */
  function LowerWhileHead(S: Program, b: Bld, st: FuncState, t: nat, s: Stmt): Bld
    requires s.While?
    decreases s, 0, 0
  {
    var c := LowerValue(S, b, st.scope, t, s.cond);
    Terminate(c.b, c.cur, TermCondBr(c.v, t + 1, t + 2))
  }

  predicate SwitchableType(ty: Ty) { ty.TagEnum? || ty.Optional? || ty.Bool? || ty.Char? || ty.Int? }

  /** The key of a non-default case; `None` when the pattern is not supported here. */
  function CaseKey(ty: Ty, c: Case): Option<int> {
    if ty.Optional? then
      if c.pat.NullPat? then Some(0) else None
    else
      match c.pat
      case EnumPat(tag) => if ty.TagEnum? && c.enumBinds == 0 then Some(tag) else None
      case _ => PatternKey(c.pat)
  }

  predicate RejectedCase(c: Case) { (!c.isDefault && c.pat.StringPat?) || c.enumBinds != 0 }

  /** Block allocation for the cases from `i` on: case `i` gets block `first + i`. */
  datatype CaseBlocks = CaseBlocks(b: Bld, defaultBb: nat, arms: seq<Arm>, ok: bool)

  function AddCases(b: Bld, owner: nat, ty: Ty, cases: seq<Case>, i: nat, defaultBb: nat, arms: seq<Arm>): CaseBlocks
    requires i <= |cases|
    decreases |cases| - i
  {
    if i == |cases| then CaseBlocks(b, defaultBb, arms, true)
    else
      var bb := |b.mod.blocks|;
      var b1 := AddBlock(b, owner);
      if cases[i].isDefault then AddCases(b1, owner, ty, cases, i + 1, bb, arms)
      else if CaseKey(ty, cases[i]).None? then CaseBlocks(Error(b1, UnsupportedPattern), defaultBb, arms, false)
      else AddCases(b1, owner, ty, cases, i + 1, defaultBb, arms + [Arm(CaseKey(ty, cases[i]).value, bb)])
  }

  function LowerCases(S: Program, b: Bld, st: FuncState, first: nat, cases: seq<Case>, after: nat): Bld
    decreases cases, 1
  {
    if cases == [] then b
    else LowerCases(S, LowerArm(S, b, st, first, cases[0].body, after), st, first + 1, cases[1..], after)
  }

  /** The value a switch tests: the scrutinee, or whether an optional scrutinee is present. */
  function LowerScrutinee(S: Program, b: Bld, sc: Scope, cur: nat, e: Expr): Lowered {
    var x := LowerValue(S, b, sc, cur, e);
    if x.v.None? || !e.ty.Optional? then x
    else PresenceTest(x)
  }

  function LowerSwitch(S: Program, b: Bld, st: FuncState, cur: nat, s: Stmt): LoweredStmt
    requires s.Switch?
    decreases s, 0, 1
  {
    var open := st.(cur := Some(cur));
    if exists i :: 0 <= i < |s.cases| && RejectedCase(s.cases[i]) then
      LoweredStmt(Error(b, UnsupportedPattern), open)
    else if !SwitchableType(s.scrutinee.ty) then LoweredStmt(Error(b, UnsupportedScrutinee), open)
    else
      var x := LowerScrutinee(S, b, st.scope, cur, s.scrutinee);
      if x.v.None? then LoweredStmt(x.b, st.(cur := Some(x.cur)))
      else LowerSwitchArms(S, x.b, st, x.cur, s, x.v)
  }

  function LowerSwitchArms(S: Program, b: Bld, st: FuncState, cur: nat, s: Stmt, v: Id): LoweredStmt
    requires s.Switch?
    decreases s, 0, 0
  {
    var after := |b.mod.blocks|;
    var cs := AddCases(AddBlock(b, st.scope.owner), st.scope.owner, s.scrutinee.ty, s.cases, 0, after, []);
    if !cs.ok then LoweredStmt(cs.b, st.(cur := Some(cur)))
    else
      var b1 := Terminate(cs.b, cur, TermSwitch(v, cs.defaultBb, cs.arms));
      LoweredStmt(LowerCases(S, b1, st, after + 1, s.cases, after), st.(cur := Some(after)))
  }

  // ---- Functions and programs -----------------------------------------------------------

  predicate SupportedGlobalType(ty: Ty) { ScalarType(ty) || ty.TagEnum? }

  predicate SupportedGlobal(g: GlobalDecl) {
    && g.hasSym && !g.isExport && !(g.abi == C && g.isTls) && (g.isExtern || g.isStatic)
    && SupportedGlobalType(g.ty)
    && !(g.isStatic && g.isConst && !g.isExtern && !g.hasConstInit)
  }

  function GlobalOf(g: GlobalDecl, i: nat): GGlobal {
    GGlobal(g.ty, g.isMutable, if g.isExtern then External else Internal, g.abi, i)
  }

  predicate HostType(ty: Ty) { ScalarType(ty) || ty.TagEnum? }

  predicate SupportedHostFunc(fn: Func) {
    && !fn.isThrowing && fn.abi == C && !fn.isVariadic && (fn.isExtern || fn.isExport)
    && HostType(fn.ret) && forall i :: 0 <= i < |fn.params| ==> HostType(fn.params[i].ty)
  }

  predicate SupportedInternalFunc(fn: Func) {
    && !fn.isExtern && !fn.isThrowing && fn.abi == Parus
    && SupportedType(fn.ret) && forall i :: 0 <= i < |fn.params| ==> SupportedType(fn.params[i].ty)
  }

  predicate SupportedFunc(fn: Func) {
    && !fn.isMethod
    && if fn.abi == C || fn.isExtern || fn.isExport then SupportedHostFunc(fn) else SupportedInternalFunc(fn)
  }

  function LinkageOf(fn: Func): Linkage {
    if fn.isExtern then External else if fn.isExport then Exported else Internal
  }

  function RealizationOf(fn: Func, comp: nat, i: nat): Realization {
    Realization(comp, if fn.isExtern then Cpu else Core, fn.abi, LinkageOf(fn), fn.isVariadic, fn.isExtern, [], None, i)
  }

  /** Declares the first `n` globals; unsupported ones are diagnosed and skipped. */
  function DeclareGlobals(b: Bld, globals: seq<GlobalDecl>, n: nat): Bld
    requires n <= |globals|
  {
    if n == 0 then b
    else
      var b1 := DeclareGlobals(b, globals, n - 1);
      if SupportedGlobal(globals[n - 1]) then
        b1.(mod := b1.mod.(globals := b1.mod.globals + [GlobalOf(globals[n - 1], n - 1)]))
      else Error(b1, UnsupportedGlobal)
  }

  /** Declares one function: its signature, its computation and its only realization. */
  function DeclareFunc(b: Bld, fn: Func, i: nat): Bld {
    if !SupportedFunc(fn) then Error(b, UnsupportedFunc)
    else
      var m := b.mod;
      b.(mod := m.(
        sigs := m.sigs + [Sig(ParamTypes(fn.params), fn.ret)],
        comps := m.comps + [Computation(|m.sigs|, [|m.reals|])],
        reals := m.reals + [RealizationOf(fn, |m.comps|, i)]))
  }

  function DeclareFuncs(b: Bld, funcs: seq<Func>, n: nat): Bld
    requires n <= |funcs|
  {
    if n == 0 then b else DeclareFunc(DeclareFuncs(b, funcs, n - 1), funcs[n - 1], n - 1)
  }

  datatype Params = Params(b: Bld, locals: map<Sym, Binding>)

  /** Parameters become the entry block's parameters and immutable locals. */
  function AddParams(b: Bld, bb: nat, params: seq<Param>): Params {
    if params == [] then Params(b, map[])
    else
      var n := |params| - 1;
      var r := AddParams(b, bb, params[..n]);
      var p := params[n];
      Params(AddBlockParam(r.b, bb, p.ty),
             r.locals[p.sym := Binding(Some(|r.b.mod.values|), p.ty, ClassifyLayout(p.ty), false, false)])
  }

  function SetEntry(b: Bld, owner: nat, bb: nat): Bld {
    if owner < |b.mod.reals| then
      b.(mod := b.mod.(reals := b.mod.reals[owner := b.mod.reals[owner].(entry := Some(bb))]))
    else b
  }

  /** A body whose end is reached returns, if the function yields unit. */
  function CloseBody(b: Bld, cur: Option<nat>, ret: Ty): Bld {
    if cur.None? || (cur.value < |b.mod.blocks| && b.mod.blocks[cur.value].term.Some?) then b
    else if ret == Unit then Terminate(b, cur.value, TermRet(false, None))
    else Error(b, MissingReturn)
  }

  /** The module and scope a body is lowered in: a new entry block with the parameters. */
  function OpenBody(b: Bld, fn: Func, i: nat): LoweredStmt {
    var bb := |b.mod.blocks|;
    var ps := AddParams(SetEntry(AddBlock(b, i), i, bb), bb, fn.params);
    LoweredStmt(ps.b, FuncState(Scope(i, fn.ret, ps.locals), Some(bb)))
  }

  function LowerFunc(S: Program, b: Bld, i: nat): Bld
    requires i < |S.funcs|
  {
    var fn := S.funcs[i];
    if fn.isExtern then b
    else
      var o := OpenBody(b, fn, i);
      var r := LowerBlock(S, o.b, o.st, fn.body);
      CloseBody(r.b, r.st.cur, fn.ret)
  }

  function LowerFuncs(S: Program, b: Bld, n: nat): Bld
    requires n <= |S.funcs|
  {
    if n == 0 then b else LowerFunc(S, LowerFuncs(S, b, n - 1), n - 1)
  }

  function Declare(S: Program): Bld {
    var b := DeclareGlobals(Bld(EMPTY_MODULE, []), S.globals, |S.globals|);
    if b.errs != [] then b else DeclareFuncs(b, S.funcs, |S.funcs|)
  }

  /** The open module of a program, with every diagnostic of the way there. */
  function LowerProgram(S: Program): Bld {
    var b := Declare(S);
    if b.errs != [] then b else LowerFuncs(S, b, |S.funcs|)
  }
}
