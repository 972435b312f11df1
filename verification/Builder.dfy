/** The gOIR builder as the source has it: an object that appends to its module, moves the state's
    current block and sets terminators in place. Each method is proved to do what the function of
    the same name in `Lowering` says. */
module GoirBuilder {
  import opened Wrappers
  import opened Literals
  import opened Sir
  import opened SirSemantics
  import opened Goir
  import opened GoirVerify
  import L = Lowering
  import Typing
  import Correctness

  /** The state of the function being lowered. Nested blocks are lowered in copies of it. */
  class FunctionState {
    const owner: nat
    const ret: Ty
    var cur: Id
    var locals: map<Sym, L.Binding>

    constructor (owner: nat, ret: Ty, cur: Id, locals: map<Sym, L.Binding>)
      ensures this.owner == owner && this.ret == ret && this.cur == cur && this.locals == locals
    {
      this.owner, this.ret, this.cur, this.locals := owner, ret, cur, locals;
    }

    function Scope(): L.Scope reads this { L.Scope(owner, ret, locals) }

    function Value(): L.FuncState reads this { L.FuncState(Scope(), cur) }
  }

  /** The value an instruction yields: none for a result of unit type, unless it is a place. */
  function ResultValue(ty: Option<Ty>, eff: Effect, layout: LayoutClass, kind: PlaceKind, mutable: bool): Option<Goir.Value> {
    if ty.Some? && (ty.value != Unit || kind != NoPlace) then
      Some(Goir.Value(ty.value, ty.value, eff, Plain, if layout == UnknownLayout then ClassifyLayout(ty.value) else layout,
                      kind, kind != NoPlace, mutable))
    else None
  }

  /** The first `n` globals are in the module and known by symbol. */
  ghost predicate GlobalsFor(S: Program, m: Module, bySym: map<Sym, nat>, n: nat)
    requires n <= |S.globals|
  {
    && |m.globals| == n
    && (forall sym :: sym in bySym <==> FindGlobal(S.globals[..n], sym).Some?)
    && (forall sym :: sym in bySym ==> bySym[sym] == FindGlobal(S.globals[..n], sym).value)
    && (forall i :: 0 <= i < n ==> m.globals[i] == L.GlobalOf(S.globals[i], i))
  }

  /** The first `n` functions are in the module and known by symbol. */
  ghost predicate FuncsFor(S: Program, m: Module, realBySym: map<Sym, nat>, compBySym: map<Sym, nat>, n: nat)
    requires n <= |S.funcs|
  {
    && |m.reals| == n && |m.comps| == n && |m.sigs| == n
    && (forall sym :: sym in realBySym <==> FindFunc(S.funcs[..n], sym).Some?)
    && (forall sym :: sym in realBySym ==> realBySym[sym] == FindFunc(S.funcs[..n], sym).value)
    && (forall sym :: sym in realBySym && S.funcs[realBySym[sym]].abi == Parus ==>
          sym in compBySym && compBySym[sym] == realBySym[sym])
    && (forall i :: 0 <= i < n ==>
          && m.sigs[i].params == ParamTypes(S.funcs[i].params) && m.comps[i].sig == i
          && m.reals[i].comp == i && m.reals[i].abi == S.funcs[i].abi)
  }

  lemma TablesWhole(S: Program, m: Module, globalBySym: map<Sym, nat>, realBySym: map<Sym, nat>, compBySym: map<Sym, nat>)
    requires GlobalsFor(S, m, globalBySym, |S.globals|) && FuncsFor(S, m, realBySym, compBySym, |S.funcs|)
    ensures TablesFor(S, m, globalBySym, realBySym, compBySym)
  {
    assert S.globals[..|S.globals|] == S.globals && S.funcs[..|S.funcs|] == S.funcs;
  }

  /** What discovery leaves: the symbol maps and the tables agree with the program. */
  ghost predicate TablesFor(S: Program, m: Module, globalBySym: map<Sym, nat>, realBySym: map<Sym, nat>, compBySym: map<Sym, nat>) {
    && |m.globals| == |S.globals| && |m.reals| == |S.funcs| && |m.comps| == |S.funcs| && |m.sigs| == |S.funcs|
    && (forall sym :: sym in globalBySym <==> FindGlobal(S.globals, sym).Some?)
    && (forall sym :: sym in globalBySym ==> globalBySym[sym] == FindGlobal(S.globals, sym).value)
    && (forall i :: 0 <= i < |S.globals| ==> m.globals[i] == L.GlobalOf(S.globals[i], i))
    && (forall sym :: sym in realBySym <==> FindFunc(S.funcs, sym).Some?)
    && (forall sym :: sym in realBySym ==> realBySym[sym] == FindFunc(S.funcs, sym).value)
    && (forall sym :: sym in realBySym && S.funcs[realBySym[sym]].abi == Parus ==>
          sym in compBySym && compBySym[sym] == realBySym[sym])
    && (forall i :: 0 <= i < |S.funcs| ==>
          && m.sigs[i].params == ParamTypes(S.funcs[i].params) && m.comps[i].sig == i
          && m.reals[i].comp == i && m.reals[i].abi == S.funcs[i].abi)
  }

  // ---- What remains to be done in a loop ------------------------------------------------

  function Drop(tys: seq<Ty>, i: nat): seq<Ty> { if i <= |tys| then tys[i..] else [] }

  function AfterArgs(vs: seq<Id>, r: L.LoweredArgs): L.LoweredArgs { r.(vs := vs + r.vs) }

  /** Lowering one argument, then the others. */
  lemma ArgStep(S: Program, b: L.Bld, sc: L.Scope, cur: nat, args: seq<Expr>, params: seq<Ty>, i: nat, vs: seq<Id>)
    requires i < |args|
    ensures var x := L.LowerValueAs(S, b, sc, cur, args[i], if i < |params| then params[i] else args[i].ty);
            AfterArgs(vs, L.LowerArgs(S, b, sc, cur, args[i..], Drop(params, i))) ==
              AfterArgs(vs + [x.v], L.LowerArgs(S, x.b, sc, x.cur, args[i + 1..], Drop(params, i + 1)))
  {
    assert args[i..][1..] == args[i + 1..];
    assert Drop(params, i + 1) == if Drop(params, i) == [] then [] else Drop(params, i)[1..];
    var x := L.LowerValueAs(S, b, sc, cur, args[i], if i < |params| then params[i] else args[i].ty);
    var xs := L.LowerArgs(S, x.b, sc, x.cur, args[i + 1..], Drop(params, i + 1));
    assert vs + ([x.v] + xs.vs) == vs + [x.v] + xs.vs;
  }

  /** Allocating the block of one case, then those of the others. */
  lemma CaseStep(b: L.Bld, owner: nat, ty: Ty, cases: seq<Case>, i: nat, defaultBb: nat, arms: seq<Arm>)
    requires i < |cases|
    ensures var b1 := L.AddBlock(b, owner);
            var bb := |b.mod.blocks|;
            var key := L.CaseKey(ty, cases[i]);
            L.AddCases(b, owner, ty, cases, i, defaultBb, arms) ==
              if cases[i].isDefault then L.AddCases(b1, owner, ty, cases, i + 1, bb, arms)
              else if key.None? then L.CaseBlocks(L.Error(b1, L.UnsupportedPattern), defaultBb, arms, false)
              else L.AddCases(b1, owner, ty, cases, i + 1, defaultBb, arms + [Arm(key.value, bb)])
  {
  }

  // Nested blocks start from their own block: where the state was before them does not matter.

  lemma ArmAnyCur(S: Program, b: L.Bld, st: L.FuncState, cur: Id, bb: nat, body: seq<Stmt>, target: nat)
    ensures L.LowerArm(S, b, st.(cur := cur), bb, body, target) == L.LowerArm(S, b, st, bb, body, target)
  {
    assert st.(cur := cur).(cur := Some(bb)) == st.(cur := Some(bb));
  }

  lemma IfAnyCur(S: Program, b: L.Bld, st: L.FuncState, at: Id, cur: nat, s: Stmt, cond: Id)
    requires s.If?
    ensures L.LowerIfArms(S, b, st.(cur := at), cur, s, cond) == L.LowerIfArms(S, b, st, cur, s, cond)
  {
    var t := |b.mod.blocks|;
    var b1 := L.Terminate(L.AddThreeBlocks(b, st.scope.owner), cur, TermCondBr(cond, t, t + 1));
    ArmAnyCur(S, b1, st, at, t, s.thn, t + 2);
    ArmAnyCur(S, L.LowerArm(S, b1, st, t, s.thn, t + 2), st, at, t + 1, s.els, t + 2);
  }

  lemma {:induction false} CasesAnyCur(S: Program, b: L.Bld, st: L.FuncState, cur: Id, first: nat, cases: seq<Case>, after: nat)
    ensures L.LowerCases(S, b, st.(cur := cur), first, cases, after) == L.LowerCases(S, b, st, first, cases, after)
    decreases |cases|
  {
    if cases != [] {
      ArmAnyCur(S, b, st, cur, first, cases[0].body, after);
      CasesAnyCur(S, L.LowerArm(S, b, st, first, cases[0].body, after), st, cur, first + 1, cases[1..], after);
    }
  }

  lemma SwitchAnyCur(S: Program, b: L.Bld, st: L.FuncState, at: Id, cur: nat, s: Stmt, v: Id)
    requires s.Switch?
    ensures L.LowerSwitchArms(S, b, st.(cur := at), cur, s, v) == L.LowerSwitchArms(S, b, st, cur, s, v)
  {
    var after := |b.mod.blocks|;
    var cs := L.AddCases(L.AddBlock(b, st.scope.owner), st.scope.owner, s.scrutinee.ty, s.cases, 0, after, []);
    CasesAnyCur(S, L.Terminate(cs.b, cur, TermSwitch(v, cs.defaultBb, cs.arms)), st, at, after + 1, s.cases, after);
  }

  /** The cases that remain, from the one in block `first + i` on. */
  function RestCases(S: Program, b: L.Bld, st: L.FuncState, first: nat, cases: seq<Case>, i: nat, after: nat): L.Bld
    requires i <= |cases|
  {
    L.LowerCases(S, b, st, first + i, cases[i..], after)
  }

  lemma RestCasesStep(S: Program, b: L.Bld, st: L.FuncState, first: nat, cases: seq<Case>, i: nat, after: nat)
    requires i < |cases|
    ensures RestCases(S, b, st, first, cases, i, after) ==
              RestCases(S, L.LowerArm(S, b, st, first + i, cases[i].body, after), st, first, cases, i + 1, after)
  {
    assert cases[i..][1..] == cases[i + 1..];
  }

  /** The statements that remain, from statement `i` on. */
  function RestBlock(S: Program, b: L.Bld, st: L.FuncState, stmts: seq<Stmt>, i: nat): L.LoweredStmt
    requires i <= |stmts|
  {
    L.LowerBlock(S, b, st, stmts[i..])
  }

  lemma RestBlockStep(S: Program, b: L.Bld, st: L.FuncState, stmts: seq<Stmt>, i: nat)
    requires i < |stmts| && st.cur.Some?
    ensures var r := L.LowerStmt(S, b, st, st.cur.value, stmts[i]);
            RestBlock(S, b, st, stmts, i) == RestBlock(S, r.b, r.st, stmts, i + 1)
  {
    assert stmts[i..][1..] == stmts[i + 1..];
  }

  class Builder {
    const sir: Program
    var mod: Module
    var errs: seq<L.Message>
    var globalBySym: map<Sym, nat>
    var realBySym: map<Sym, nat>
    var compBySym: map<Sym, nat>

    constructor (sir: Program)
      ensures this.sir == sir && Now() == L.Bld(EMPTY_MODULE, [])
      ensures globalBySym == map[] && realBySym == map[] && compBySym == map[]
    {
      this.sir := sir;
      mod, errs := EMPTY_MODULE, [];
      globalBySym, realBySym, compBySym := map[], map[], map[];
    }

    function Now(): L.Bld reads this { L.Bld(mod, errs) }

    ghost predicate Tables() reads this { TablesFor(sir, mod, globalBySym, realBySym, compBySym) }

    /** The tables are complete and the state belongs to a function of the module. */
    ghost predicate Serves(state: FunctionState) reads this, state {
      Tables() && state.owner < |mod.reals| && (state.cur.Some? ==> state.cur.value < |mod.blocks|)
    }

    ghost predicate Ok(state: FunctionState) reads this, state { Serves(state) && state.cur.Some? }

    method PushError(m: L.Message)
      modifies this`errs
      ensures errs == old(errs) + [m]
    {
      errs := errs + [m];
    }

    method EmitInst(state: FunctionState, ty: Option<Ty>, eff: Effect, op: Op, layout: LayoutClass, kind: PlaceKind, mutable: bool)
      returns (v: Id)
      requires Ok(state)
      modifies this`mod
      ensures Ok(state) && |mod.blocks| == old(|mod.blocks|)
      ensures L.Lowered(Now(), state.cur.value, v)
           == L.Append(old(Now()), state.cur.value, op, eff, ResultValue(ty, eff, layout, kind, mutable))
    {
      v := None;
      var result := ResultValue(ty, eff, layout, kind, mutable);
      if result.Some? {
        v := Some(|mod.values|);
        mod := mod.(values := mod.values + [result.value]);
      }
      var iid := |mod.insts|;
      mod := mod.(insts := mod.insts + [Inst(op, eff, v)]);
      var bb := mod.blocks[state.cur.value];
      mod := mod.(blocks := mod.blocks[state.cur.value := bb.(insts := bb.insts + [iid])]);
    }

    method Emit(state: FunctionState, ty: Ty, eff: Effect, op: Op, layout: LayoutClass) returns (v: Id)
      requires Ok(state)
      modifies this`mod
      ensures Ok(state) && |mod.blocks| == old(|mod.blocks|)
      ensures L.Lowered(Now(), state.cur.value, v) == L.Emit(old(Now()), state.cur.value, ty, eff, op, layout)
    {
      v := EmitInst(state, Some(ty), eff, op, layout, NoPlace, false);
    }

    method EmitStore(state: FunctionState, place: Id, val: Id)
      requires Ok(state)
      modifies this`mod
      ensures Ok(state) && |mod.blocks| == old(|mod.blocks|)
      ensures Now() == L.EmitStore(old(Now()), state.cur.value, place, val).b
    {
      var _ := EmitInst(state, None, MayWrite, OpStore(place, val), UnknownLayout, NoPlace, false);
    }

    /** Gives the current block its terminator, unless it has one. */
    method EnsureBlockTerm(state: FunctionState, term: Term)
      requires Ok(state)
      modifies this`mod
      ensures Ok(state) && |mod.blocks| == old(|mod.blocks|)
      ensures Now() == L.Terminate(old(Now()), state.cur.value, term)
    {
      var bb := mod.blocks[state.cur.value];
      if bb.term.Some? {
        return;
      }
      mod := mod.(blocks := mod.blocks[state.cur.value := bb.(term := Some(term))]);
    }

    method AddBlock(owner: nat) returns (bb: nat)
      requires Tables() && owner < |mod.reals|
      modifies this`mod
      ensures Tables() && bb == old(|mod.blocks|) && |mod.blocks| == bb + 1
      ensures Now() == L.AddBlock(old(Now()), owner)
    {
      bb := |mod.blocks|;
      mod := mod.(blocks := mod.blocks + [EMPTY_BLOCK]);
      var realization := mod.reals[owner];
      mod := mod.(reals := mod.reals[owner := realization.(blocks := realization.blocks + [bb])]);
    }

    method AddBlockParam(bb: nat, ty: Ty) returns (v: nat)
      requires Tables() && bb < |mod.blocks|
      modifies this`mod
      ensures Tables() && v == old(|mod.values|) && |mod.blocks| == old(|mod.blocks|)
      ensures Now() == L.AddBlockParam(old(Now()), bb, ty)
    {
      v := |mod.values|;
      mod := mod.(values := mod.values + [Goir.Value(ty, ty, Pure, Plain, ClassifyLayout(ty), NoPlace, false, false)]);
      var block := mod.blocks[bb];
      mod := mod.(blocks := mod.blocks[bb := block.(params := block.params + [v])]);
    }

    // ---- Expressions --------------------------------------------------------------------

    method GlobalPlaceOf(state: FunctionState, sym: Sym) returns (v: Id)
      requires Ok(state)
      modifies this`mod, this`errs
      ensures Ok(state) && |mod.blocks| == old(|mod.blocks|)
      ensures L.Lowered(Now(), state.cur.value, v) == L.GlobalPlaceOf(sir, old(Now()), state.cur.value, sym)
    {
      if sym !in globalBySym {
        PushError(L.UnknownSymbol);
        return None;
      }
      var i := globalBySym[sym];
      var ty := mod.globals[i].ty;
      v := EmitInst(state, Some(ty), Pure, OpGlobalSlot(i), ClassifyLayout(ty), GlobalSlot, mod.globals[i].isMutable);
    }

    method LowerPlace(state: FunctionState, e: Expr) returns (v: Id)
      requires Ok(state)
      modifies this`mod, this`errs
      ensures Ok(state) && |mod.blocks| == old(|mod.blocks|)
      ensures L.Lowered(Now(), state.cur.value, v) == L.LowerPlace(sir, old(Now()), state.Scope(), state.cur.value, e)
    {
      match e
      case Local(_, sym) =>
        if sym !in state.locals {
          v := GlobalPlaceOf(state, sym);
        } else if !state.locals[sym].isPlace {
          PushError(L.NotAPlace);
          v := None;
        } else {
          v := state.locals[sym].value;
        }
      case Global(_, sym) =>
        v := GlobalPlaceOf(state, sym);
      case _ =>
        PushError(L.UnsupportedPlace);
        v := None;
    }

    method LoadFrom(state: FunctionState, place: Id, ty: Ty, layout: LayoutClass) returns (v: Id)
      requires Ok(state)
      modifies this`mod
      ensures Ok(state) && |mod.blocks| == old(|mod.blocks|)
      ensures L.Lowered(Now(), state.cur.value, v) == L.LoadFrom(old(Now()), state.cur.value, place, ty, layout)
    {
      v := place;
      if place.Some? && L.ReadsAsValue(layout) {
        v := Emit(state, ty, MayRead, OpLoad(place), ClassifyLayout(ty));
      }
    }

    method LowerName(state: FunctionState, e: Expr) returns (v: Id)
      requires Ok(state) && (e.Local? || e.Global?)
      modifies this`mod, this`errs
      ensures Ok(state) && |mod.blocks| == old(|mod.blocks|)
      ensures L.Lowered(Now(), state.cur.value, v) == L.LowerValue(sir, old(Now()), state.Scope(), state.cur.value, e)
    {
      if e.Local? && e.sym in state.locals {
        var bd := state.locals[e.sym];
        v := bd.value;
        if bd.isPlace {
          v := LoadFrom(state, bd.value, bd.ty, bd.layout);
        }
      } else {
        var place := GlobalPlaceOf(state, e.sym);
        var ty := L.ElemType(mod, place);
        v := LoadFrom(state, place, ty, ClassifyLayout(ty));
      }
    }

    /** A bare payload where an optional is wanted. */
    method LowerPayload(state: FunctionState, e: Expr, target: Ty) returns (v: Id)
      requires Ok(state) && e.ty != target && target.Optional? && ClassifyLayout(target) == OptionalScalar
      requires !e.NullLit? && e.ty == target.elem
      modifies this`mod, this`errs, state`cur
      ensures Ok(state) && |mod.blocks| >= old(|mod.blocks|)
      ensures L.Lowered(Now(), state.cur.value, v)
           == L.LowerValueAs(sir, old(Now()), state.Scope(), old(state.cur.value), e, target)
      decreases e, 2, 1
    {
      hide VerifyOk, SupportedType, L.Emit, L.LowerValue, ClassifyLayout, GlobalsFor, FuncsFor;
      v := LowerValue(state, e);
      if v.Some? {
        v := Emit(state, target, Pure, OpOptionalSome(v), OptionalScalar);
      }
    }

    method LowerLiteral(state: FunctionState, e: Expr) returns (v: Id)
      requires Ok(state) && IsLiteral(e)
      modifies this`mod, this`errs
      ensures Ok(state) && |mod.blocks| == old(|mod.blocks|)
      ensures L.Lowered(Now(), state.cur.value, v) == L.LowerLiteral(old(Now()), state.cur.value, e)
    {
      match e
      case IntLit(ty, text) => v := Emit(state, ty, Pure, OpConstInt(text), UnknownLayout);
      case FloatLit(ty, text) => v := Emit(state, ty, Pure, OpConstFloat(text), UnknownLayout);
      case StringLit(ty, text) => v := Emit(state, ty, Pure, OpTextLit(text), TextView);
      case CharLit(ty, text) =>
        var code := CharLiteralCode(text);
        if code.None? {
          PushError(L.BadLiteral);
          return None;
        }
        v := Emit(state, ty, Pure, OpConstInt(NatText(code.value)), LayoutClass.Scalar);
      case BoolLit(ty, text) => v := Emit(state, ty, Pure, OpConstBool(BoolLiteralValue(text)), UnknownLayout);
      case NullLit(ty) =>
        if ty.Optional? && ClassifyLayout(ty) == OptionalScalar {
          v := Emit(state, ty, Pure, OpOptionalNone, OptionalScalar);
        } else {
          v := Emit(state, ty, Pure, OpConstNull, UnknownLayout);
        }
    }
 
    /** A value that is taken as it is, if its type is the one wanted. */
    method LowerUnchanged(state: FunctionState, e: Expr, target: Ty) returns (v: Id)
      requires Ok(state) && e.ty != target
      requires target.Optional? ==> ClassifyLayout(target) == OptionalScalar && !e.NullLit? && e.ty != target.elem
      modifies this`mod, this`errs, state`cur
      ensures Ok(state) && |mod.blocks| >= old(|mod.blocks|)
      ensures L.Lowered(Now(), state.cur.value, v)
           == L.LowerValueAs(sir, old(Now()), state.Scope(), old(state.cur.value), e, target)
      decreases e, 2, 1
    {
      hide VerifyOk, SupportedType, L.Emit, L.LowerValue, ClassifyLayout, GlobalsFor, FuncsFor;
      v := LowerValue(state, e);
      if v.None? || L.ValueType(mod, v) == target {
        return;
      }
      PushError(L.UnsupportedCoercion);
      v := None;
    }

    method LowerValueAs(state: FunctionState, e: Expr, target: Ty) returns (v: Id)
      requires Ok(state)
      modifies this`mod, this`errs, state`cur
      ensures Ok(state) && |mod.blocks| >= old(|mod.blocks|)
      ensures L.Lowered(Now(), state.cur.value, v)
           == L.LowerValueAs(sir, old(Now()), state.Scope(), old(state.cur.value), e, target)
      decreases e, 3
    {
      hide VerifyOk, SupportedType, L.Emit, L.LowerValue, ClassifyLayout, GlobalsFor, FuncsFor;
      if e.ty == target {
        v := LowerValue(state, e);
        return;
      }
      if target.Optional? {
        if ClassifyLayout(target) != OptionalScalar {
          PushError(L.UnsupportedOptional);
          return None;
        }
        if e.NullLit? {
          v := Emit(state, target, Pure, OpOptionalNone, OptionalScalar);
          return;
        }
        if e.ty == target.elem {
          v := LowerPayload(state, e, target);
          return;
        }
      }
      v := LowerUnchanged(state, e, target);
    }

    method LowerValue(state: FunctionState, e: Expr) returns (v: Id)
      requires Ok(state)
      modifies this`mod, this`errs, state`cur
      ensures Ok(state) && |mod.blocks| >= old(|mod.blocks|)
      ensures L.Lowered(Now(), state.cur.value, v)
           == L.LowerValue(sir, old(Now()), state.Scope(), old(state.cur.value), e)
      decreases e, 2, 0
    {
      hide VerifyOk, SupportedType, L.LowerOperand, L.LowerCoalesce, L.LowerBinary, L.LowerCall, L.LowerAssign, L.LowerLiteral,
        L.LowerLocal, L.LowerGlobal, L.Emit;
      match e
      case Local(_, _) => v := LowerName(state, e);
      case Global(_, _) => v := LowerName(state, e);
      case Unary(_, _, _) => v := LowerOperand(state, e);
      case Cast(_, _, _, _) => v := LowerOperand(state, e);
      case Binary(_, tok, _, _) =>
        if tok == QuestionQuestion {
          v := LowerCoalesce(state, e);
        } else {
          v := LowerBinary(state, e);
        }
      case Call(_, _, _, _, _, _) => v := LowerCall(state, e);
      case EnumCtor(ty, tag, argCount) =>
        if argCount != 0 || !ty.TagEnum? {
          PushError(L.UnsupportedEnumCtor);
          return None;
        }
        v := Emit(state, ty, Pure, OpEnumTag(tag), TagEnumLayout);
      case Assign(_, _, _) => v := LowerAssign(state, e);
      case OtherExpr(_) =>
        PushError(L.UnsupportedExpr);
        v := None;
      case _ => v := LowerLiteral(state, e);
    }

    method LowerOperand(state: FunctionState, e: Expr) returns (v: Id)
      requires Ok(state) && (e.Unary? || e.Cast?)
      modifies this`mod, this`errs, state`cur
      ensures Ok(state) && |mod.blocks| >= old(|mod.blocks|)
      ensures L.Lowered(Now(), state.cur.value, v)
           == L.LowerOperand(sir, old(Now()), state.Scope(), old(state.cur.value), e)
      decreases e, 0
    {
      var src := LowerValue(state, e.a);
      if e.Cast? {
        v := Emit(state, e.ty, if e.kind == AsB then MayTrap else Pure, OpCast(e.kind, e.to, src), UnknownLayout);
      } else {
        var op := MapUnOp(e.tok);
        if op.None? {
          PushError(L.UnsupportedOperator);
          return None;
        }
        v := Emit(state, e.ty, Pure, OpUnary(op.value, src), UnknownLayout);
      }
    }

    method LowerBinary(state: FunctionState, e: Expr) returns (v: Id)
      requires Ok(state) && e.Binary?
      modifies this`mod, this`errs, state`cur
      ensures Ok(state) && |mod.blocks| >= old(|mod.blocks|)
      ensures L.Lowered(Now(), state.cur.value, v)
           == L.LowerBinary(sir, old(Now()), state.Scope(), old(state.cur.value), e)
      decreases e, 0
    {
      var lhs := LowerValue(state, e.a);
      var rhs := LowerValue(state, e.b);
      var op := MapBinOp(e.tok);
      if op.None? {
        PushError(L.UnsupportedOperator);
        return None;
      }
      v := Emit(state, e.ty, Pure, OpBinary(op.value, lhs, rhs), UnknownLayout);
    }

    method LowerCall(state: FunctionState, e: Expr) returns (v: Id)
      requires Ok(state) && e.Call?
      modifies this`mod, this`errs, state`cur
      ensures Ok(state) && |mod.blocks| >= old(|mod.blocks|)
      ensures L.Lowered(Now(), state.cur.value, v)
           == L.LowerCall(sir, old(Now()), state.Scope(), old(state.cur.value), e)
      decreases e, 0
    {
      if e.isCore || e.isThrowing || e.callee !in realBySym {
        PushError(L.UnsupportedCall);
        return None;
      }
      var r := realBySym[e.callee];
      var callee := mod.reals[r];
      var params := mod.sigs[mod.comps[callee.comp].sig].params;
      var args := LowerArgs(state, e, params);
      if callee.abi == C || e.isCAbi {
        v := Emit(state, e.ty, CallEffect, OpCallExtern(r, args), ClassifyLayout(e.ty));
      } else {
        v := Emit(state, e.ty, CallEffect, OpSemanticInvoke(compBySym[e.callee], args), ClassifyLayout(e.ty));
      }
    }

    /** The arguments of a call, each lowered as its parameter's type, surplus ones as their own. */
    method LowerArgs(state: FunctionState, e: Expr, params: seq<Ty>) returns (vs: seq<Id>)
      requires Ok(state) && e.Call?
      modifies this`mod, this`errs, state`cur
      ensures Ok(state) && |mod.blocks| >= old(|mod.blocks|)
      ensures L.LoweredArgs(Now(), state.cur.value, vs)
           == L.LowerArgs(sir, old(Now()), state.Scope(), old(state.cur.value), e.args, params)
      decreases e.args, 0
    {
      vs := [];
      ghost var all := L.LowerArgs(sir, Now(), state.Scope(), state.cur.value, e.args, params);
      var i := 0;
      while i < |e.args|
        invariant 0 <= i <= |e.args| && |vs| == i
        invariant Ok(state) && |mod.blocks| >= old(|mod.blocks|)
        invariant all == AfterArgs(vs, L.LowerArgs(sir, Now(), state.Scope(), state.cur.value, e.args[i..], Drop(params, i)))
      {
        ArgStep(sir, Now(), state.Scope(), state.cur.value, e.args, params, i, vs);
        var ty := if i < |params| then params[i] else e.args[i].ty;
        var v := LowerValueAs(state, e.args[i], ty);
        vs := vs + [v];
        i := i + 1;
      }
    }

    method LowerAssign(state: FunctionState, e: Expr) returns (v: Id)
      requires Ok(state) && e.Assign?
      modifies this`mod, this`errs, state`cur
      ensures Ok(state) && |mod.blocks| >= old(|mod.blocks|)
      ensures L.Lowered(Now(), state.cur.value, v)
           == L.LowerAssign(sir, old(Now()), state.Scope(), old(state.cur.value), e)
      decreases e, 0
    {
      var place := LowerPlace(state, e.place);
      if place.None? {
        var _ := LowerValue(state, e.rhs);
        return None;
      }
      v := LowerValueAs(state, e.rhs, L.ElemType(mod, place));
      if v.Some? {
        EmitStore(state, place, v);
      }
    }

    method LowerCoalesce(state: FunctionState, e: Expr) returns (v: Id)
      requires Ok(state) && e.Binary?
      modifies this`mod, this`errs, state`cur
      ensures Ok(state) && |mod.blocks| >= old(|mod.blocks|)
      ensures L.Lowered(Now(), state.cur.value, v)
           == L.LowerCoalesce(sir, old(Now()), state.Scope(), old(state.cur.value), e)
      decreases e, 1
    {
      if !e.a.ty.Optional? {
        PushError(L.NotOptional);
        return None;
      }
      var lhs := LowerValueAs(state, e.a, e.a.ty);
      if lhs.None? {
        return None;
      }
      var present := Emit(state, Bool, Pure, OpOptionalIsPresent(lhs), LayoutClass.Scalar);
      v := LowerCoalesceArms(state, e, lhs, present);
    }

    /** The blocks for the two ways of `??` and their join, and the branch to them. */
    method ForkCoalesce(state: FunctionState, ty: Ty, present: Id) returns (someBb: nat, noneBb: nat, contBb: nat, joined: nat)
      requires Ok(state)
      modifies this`mod
      ensures Ok(state) && |mod.blocks| == old(|mod.blocks|) + 3
      ensures Now() == L.CoalesceBlocks(old(Now()), state.owner, state.cur.value, ty, present)
      ensures someBb == old(|mod.blocks|) && noneBb == someBb + 1 && contBb == someBb + 2 && joined == old(|mod.values|)
    {
      hide VerifyOk, SupportedType, L.PlainValue;
      someBb := AddBlock(state.owner);
      noneBb := AddBlock(state.owner);
      contBb := AddBlock(state.owner);
      joined := AddBlockParam(contBb, ty);
      EnsureBlockTerm(state, TermCondBr(present, someBb, noneBb));
    }

    /** The present way unwraps `lhs`, the absent way lowers the fallback; both join. */
    method LowerCoalesceArms(state: FunctionState, e: Expr, lhs: Id, present: Id) returns (v: Id)
      requires Ok(state) && e.Binary? && e.a.ty.Optional?
      modifies this`mod, this`errs, state`cur
      ensures Ok(state) && |mod.blocks| >= old(|mod.blocks|)
      ensures L.Lowered(Now(), state.cur.value, v)
           == L.LowerCoalesceArms(sir, old(Now()), state.Scope(), old(state.cur.value), e, lhs, present)
      decreases e, 0
    {
      hide VerifyOk, SupportedType, L.CoalesceBlocks, L.Terminate, L.LowerValueAs, L.Emit;
      var elem := e.a.ty.elem;
      var someBb, noneBb, contBb, joined := ForkCoalesce(state, e.ty, present);

      var someState := new FunctionState(state.owner, state.ret, Some(someBb), state.locals);
      var payload := Emit(someState, elem, Pure, OpOptionalGet(lhs), ClassifyLayout(elem));
      if payload.None? {
        return None;
      }
      EnsureBlockTerm(someState, TermBr(contBb, [payload]));

      var noneState := new FunctionState(state.owner, state.ret, Some(noneBb), state.locals);
      var fallback := LowerValueAs(noneState, e.b, e.ty);
      if fallback.None? {
        return None;
      }
      EnsureBlockTerm(noneState, TermBr(contBb, [fallback]));

      state.cur := Some(contBb);
      v := Some(joined);
    }

    // ---- Statements ---------------------------------------------------------------------

    method BindLocal(state: FunctionState, s: Stmt, ty: Ty, init: Id)
      requires Ok(state) && s.VarDecl?
      modifies this`mod, state`locals
      ensures Ok(state) && |mod.blocks| == old(|mod.blocks|)
      ensures L.LoweredStmt(Now(), state.Value()) == L.BindLocal(old(Now()), old(state.Value()), state.cur.value, s, ty, init)
    {
      var layout := ClassifyLayout(ty);
      if s.isSet || s.isMut {
        var slot := EmitInst(state, Some(ty), Pure, OpLocalSlot, layout, LocalSlot, true);
        if init.Some? {
          EmitStore(state, slot, init);
        }
        state.locals := state.locals[s.sym := L.Binding(slot, ty, layout, true, true)];
        return;
      }
      var isPlace := init.Some? && init.value < |mod.values| && mod.values[init.value].isPlace;
      state.locals := state.locals[s.sym := L.Binding(init, ty, layout, isPlace, false)];
    }

    method LowerStmt(state: FunctionState, s: Stmt)
      requires Ok(state)
      modifies this`mod, this`errs, state
      ensures Serves(state) && |mod.blocks| >= old(|mod.blocks|)
      ensures L.LoweredStmt(Now(), state.Value()) == L.LowerStmt(sir, old(Now()), old(state.Value()), old(state.cur.value), s)
      decreases s, 2
    {
      match s
      case ExprStmt(None) =>
      case ExprStmt(Some(e)) =>
        var _ := LowerValue(state, e);
      case VarDecl(_, isStatic, _, _, _, init) =>
        if isStatic {
          PushError(L.UnsupportedBinding);
          return;
        }
        var ty := BindingType(s);
        if ty.None? || !SupportedType(ty.value) {
          PushError(L.UnsupportedType);
          return;
        }
        if init.None? {
          PushError(L.MissingInit);
          return;
        }
        var v := LowerValueAs(state, init.value, ty.value);
        BindLocal(state, s, ty.value, v);
      case If(_, _, _) => LowerIf(state, s);
      case While(_, _) => LowerWhile(state, s);
      case Switch(_, _) => LowerSwitch(state, s);
      case Return(e) =>
        if e.None? {
          EnsureBlockTerm(state, TermRet(false, None));
        } else {
          var v := LowerValueAs(state, e.value, state.ret);
          EnsureBlockTerm(state, TermRet(true, v));
        }
        state.cur := None;
      case OtherStmt => PushError(L.UnsupportedStmt);
    }

    /** Statements in order, up to the one that closes the path. */
    method LowerBlock(state: FunctionState, stmts: seq<Stmt>)
      requires Ok(state)
      modifies this`mod, this`errs, state
      ensures Serves(state) && |mod.blocks| >= old(|mod.blocks|)
      ensures L.LoweredStmt(Now(), state.Value()) == L.LowerBlock(sir, old(Now()), old(state.Value()), stmts)
      decreases stmts, 0
    {
      ghost var all := RestBlock(sir, Now(), state.Value(), stmts, 0);
      assert stmts[0..] == stmts;
      var i := 0;
      while i < |stmts|
        invariant 0 <= i <= |stmts| && Serves(state) && |mod.blocks| >= old(|mod.blocks|)
        invariant all == RestBlock(sir, Now(), state.Value(), stmts, i)
      {
        if state.cur.None? {
          return;
        }
        RestBlockStep(sir, Now(), state.Value(), stmts, i);
        LowerStmt(state, stmts[i]);
        i := i + 1;
      }
    }

    /** A nested block in a copy of the state, then the jump to `target` if its path is still open. */
    method LowerArm(state: FunctionState, bb: nat, body: seq<Stmt>, target: nat)
      requires Serves(state) && bb < |mod.blocks|
      modifies this`mod, this`errs
      ensures Serves(state) && |mod.blocks| >= old(|mod.blocks|)
      ensures Now() == L.LowerArm(sir, old(Now()), state.Value(), bb, body, target)
      decreases body, 1
    {
      var inner := new FunctionState(state.owner, state.ret, Some(bb), state.locals);
      LowerBlock(inner, body);
      if inner.cur.Some? && mod.blocks[inner.cur.value].term.None? {
        EnsureBlockTerm(inner, TermBr(target, []));
      }
    }

    method LowerIf(state: FunctionState, s: Stmt)
      requires Ok(state) && s.If?
      modifies this`mod, this`errs, state
      ensures Serves(state) && |mod.blocks| >= old(|mod.blocks|)
      ensures L.LoweredStmt(Now(), state.Value()) == L.LowerIf(sir, old(Now()), old(state.Value()), old(state.cur.value), s)
      decreases s, 0
    {
      hide SupportedType, L.AddBlock, L.LowerArm, L.LowerValue, L.Terminate;
      var cond := LowerValue(state, s.cond);
      IfAnyCur(sir, Now(), old(state.Value()), state.cur, state.cur.value, s, cond);
      var thenBb := AddBlock(state.owner);
      var elseBb := AddBlock(state.owner);
      var contBb := AddBlock(state.owner);
      EnsureBlockTerm(state, TermCondBr(cond, thenBb, elseBb));
      LowerArm(state, thenBb, s.thn, contBb);
      LowerArm(state, elseBb, s.els, contBb);
      state.cur := Some(contBb);
    }

    method LowerWhile(state: FunctionState, s: Stmt)
      requires Ok(state) && s.While?
      modifies this`mod, this`errs, state
      ensures Serves(state) && |mod.blocks| >= old(|mod.blocks|)
      ensures L.LoweredStmt(Now(), state.Value()) == L.LowerWhile(sir, old(Now()), old(state.Value()), old(state.cur.value), s)
      decreases s, 0
    {
      hide VerifyOk, SupportedType, L.AddBlock, L.LowerArm, L.Terminate, L.LowerValue;
      var condBb := AddBlock(state.owner);
      var bodyBb := AddBlock(state.owner);
      var afterBb := AddBlock(state.owner);
      EnsureBlockTerm(state, TermBr(condBb, []));
      var condState := new FunctionState(state.owner, state.ret, Some(condBb), state.locals);
      var cond := LowerValue(condState, s.cond);
      EnsureBlockTerm(condState, TermCondBr(cond, bodyBb, afterBb));
      LowerArm(state, bodyBb, s.body, condBb);
      state.cur := Some(afterBb);
    }

    /** The key of a case, or a diagnostic. */
    method CaseMatchValue(ty: Ty, c: Case) returns (key: Option<int>)
      requires !c.isDefault
      modifies this`errs
      ensures key == L.CaseKey(ty, c)
      ensures errs == if key.Some? then old(errs) else old(errs) + [L.UnsupportedPattern]
    {
      if ty.Optional? {
        key := if c.pat.NullPat? then Some(0) else None;
      } else {
        match c.pat
        case IntPat(text) => key := ParseI64Literal(text);
        case BoolPat(text) => key := Some(if text == "true" then 1 else 0);
        case CharPat(text) =>
          var code := CharLiteralCode(text);
          key := if code.Some? then Some(code.value) else None;
        case EnumPat(tag) => key := if ty.TagEnum? && c.enumBinds == 0 then Some(tag) else None;
        case _ => key := None;
      }
      if key.None? {
        PushError(L.UnsupportedPattern);
      }
    }

    method LowerSwitch(state: FunctionState, s: Stmt)
      requires Ok(state) && s.Switch?
      modifies this`mod, this`errs, state
      ensures Serves(state) && |mod.blocks| >= old(|mod.blocks|)
      ensures L.LoweredStmt(Now(), state.Value()) == L.LowerSwitch(sir, old(Now()), old(state.Value()), old(state.cur.value), s)
      decreases s, 1
    {
      for i := 0 to |s.cases|
        invariant Ok(state) && Now() == old(Now()) && state.Value() == old(state.Value())
        invariant forall j :: 0 <= j < i ==> !L.RejectedCase(s.cases[j])
      {
        if L.RejectedCase(s.cases[i]) {
          PushError(L.UnsupportedPattern);
          return;
        }
      }
      var ty := s.scrutinee.ty;
      if !L.SwitchableType(ty) {
        PushError(L.UnsupportedScrutinee);
        return;
      }
      var v := LowerValue(state, s.scrutinee);
      if v.None? {
        return;
      }
      if ty.Optional? {
        v := Emit(state, Bool, Pure, OpOptionalIsPresent(v), LayoutClass.Scalar);
      }
      SwitchAnyCur(sir, Now(), old(state.Value()), state.cur, state.cur.value, s, v);
      LowerSwitchArms(state, s, v);
    }

    /** The blocks of a switch, its test, then its cases. */
    method LowerSwitchArms(state: FunctionState, s: Stmt, v: Id)
      requires Ok(state) && s.Switch?
      modifies this`mod, this`errs, state
      ensures Serves(state) && |mod.blocks| >= old(|mod.blocks|)
      ensures L.LoweredStmt(Now(), state.Value()) == L.LowerSwitchArms(sir, old(Now()), old(state.Value()), old(state.cur.value), s, v)
      decreases s, 0
    {
      var afterBb := AddBlock(state.owner);
      var defaultBb, arms, ok := AddCases(state, s.scrutinee.ty, s.cases, afterBb);
      if !ok {
        return;
      }
      EnsureBlockTerm(state, TermSwitch(v, defaultBb, arms));
      LowerCases(state, afterBb + 1, s.cases, afterBb);
      state.cur := Some(afterBb);
    }

    /** The cases' bodies, case `i` in block `first + i`. */
    method LowerCases(state: FunctionState, first: nat, cases: seq<Case>, afterBb: nat)
      requires Serves(state) && first + |cases| <= |mod.blocks|
      modifies this`mod, this`errs
      ensures Serves(state) && |mod.blocks| >= old(|mod.blocks|)
      ensures Now() == L.LowerCases(sir, old(Now()), state.Value(), first, cases, afterBb)
      decreases cases, 2
    {
      ghost var all := RestCases(sir, Now(), state.Value(), first, cases, 0, afterBb);
      assert cases[0..] == cases;
      for i := 0 to |cases|
        invariant Serves(state) && |mod.blocks| >= old(|mod.blocks|)
        invariant all == RestCases(sir, Now(), state.Value(), first, cases, i, afterBb)
      {
        RestCasesStep(sir, Now(), state.Value(), first, cases, i, afterBb);
        LowerArm(state, first + i, cases[i].body, afterBb);
      }
    }

    /** One block a case; the arms of the cases that are not the default. */
    method AddCases(state: FunctionState, ty: Ty, cases: seq<Case>, afterBb: nat) returns (defaultBb: nat, arms: seq<Arm>, ok: bool)
      requires Ok(state)
      modifies this`mod, this`errs
      ensures Ok(state) && |mod.blocks| >= old(|mod.blocks|)
      ensures ok ==> |mod.blocks| == old(|mod.blocks|) + |cases|
      ensures L.CaseBlocks(Now(), defaultBb, arms, ok) == L.AddCases(old(Now()), state.owner, ty, cases, 0, afterBb, [])
    {
      defaultBb, arms, ok := afterBb, [], true;
      ghost var all := L.AddCases(Now(), state.owner, ty, cases, 0, defaultBb, arms);
      for i := 0 to |cases|
        invariant Ok(state) && |mod.blocks| == old(|mod.blocks|) + i
        invariant all == L.AddCases(Now(), state.owner, ty, cases, i, defaultBb, arms)
      {
        CaseStep(Now(), state.owner, ty, cases, i, defaultBb, arms);
        var bb := AddBlock(state.owner);
        if cases[i].isDefault {
          defaultBb := bb;
        } else {
          var key := CaseMatchValue(ty, cases[i]);
          if key.None? {
            ok := false;
            return;
          }
          arms := arms + [Arm(key.value, bb)];
        }
      }
    }
 
    // ---- Functions and programs ---------------------------------------------------------

    /** Declares the globals; each unsupported one leaves a diagnostic. */
    method DiscoverGlobals()
      requires mod == EMPTY_MODULE && errs == [] && globalBySym == map[]
      modifies this`mod, this`errs, this`globalBySym
      ensures Now() == L.DeclareGlobals(L.Bld(EMPTY_MODULE, []), sir.globals, |sir.globals|)
      ensures errs == [] ==> GlobalsFor(sir, mod, globalBySym, |sir.globals|)
      ensures mod == EMPTY_MODULE.(globals := mod.globals)
    {
      hide VerifyOk;
      for i := 0 to |sir.globals|
        invariant Now() == L.DeclareGlobals(L.Bld(EMPTY_MODULE, []), sir.globals, i)
        invariant errs == [] ==> GlobalsFor(sir, mod, globalBySym, i)
        invariant mod == EMPTY_MODULE.(globals := mod.globals)
      {
        var g := sir.globals[i];
        if L.SupportedGlobal(g) {
          DeclareGlobal(i);
        } else {
          PushError(L.UnsupportedGlobal);
        }
      }
    }

    method DeclareGlobal(i: nat)
      requires i < |sir.globals|
      modifies this`mod, this`globalBySym
      ensures mod == old(mod).(globals := old(mod.globals) + [L.GlobalOf(sir.globals[i], i)])
      ensures old(GlobalsFor(sir, mod, globalBySym, i)) ==> GlobalsFor(sir, mod, globalBySym, i + 1)
    {
      assert sir.globals[..i + 1][..i] == sir.globals[..i];
      var g := sir.globals[i];
      mod := mod.(globals := mod.globals + [L.GlobalOf(g, i)]);
      globalBySym := globalBySym[g.sym := |mod.globals| - 1];
    }

    /** Declares the functions: a signature, a computation and a realization each. */
    method DiscoverFuncs()
      requires errs == [] && mod == EMPTY_MODULE.(globals := mod.globals) && realBySym == map[] && compBySym == map[]
      modifies this`mod, this`errs, this`realBySym, this`compBySym
      ensures Now() == L.DeclareFuncs(old(Now()), sir.funcs, |sir.funcs|)
      ensures errs == [] ==> FuncsFor(sir, mod, realBySym, compBySym, |sir.funcs|)
      ensures mod.globals == old(mod.globals)
    {
      hide VerifyOk, SupportedType;
      for i := 0 to |sir.funcs|
        invariant Now() == L.DeclareFuncs(old(Now()), sir.funcs, i)
        invariant errs == [] ==> FuncsFor(sir, mod, realBySym, compBySym, i)
        invariant mod.globals == old(mod.globals)
      {
        if L.SupportedFunc(sir.funcs[i]) {
          DeclareFunc(i);
        } else {
          PushError(L.UnsupportedFunc);
        }
      }
    }

    method DeclareFunc(i: nat)
      requires i < |sir.funcs| && L.SupportedFunc(sir.funcs[i])
      modifies this`mod, this`realBySym, this`compBySym
      ensures Now() == L.DeclareFunc(old(Now()), sir.funcs[i], i)
      ensures old(FuncsFor(sir, mod, realBySym, compBySym, i)) ==> FuncsFor(sir, mod, realBySym, compBySym, i + 1)
      ensures mod.globals == old(mod.globals)
    {
      var fn := sir.funcs[i];
      assert sir.funcs[..i + 1][..i] == sir.funcs[..i];
      var sig := |mod.sigs|;
      mod := mod.(sigs := mod.sigs + [Sig(ParamTypes(fn.params), fn.ret)]);
      var comp := |mod.comps|;
      mod := mod.(comps := mod.comps + [Computation(sig, [])]);
      var r := |mod.reals|;
      mod := mod.(reals := mod.reals + [L.RealizationOf(fn, comp, i)]);
      realBySym := realBySym[fn.sym := r];
      mod := mod.(comps := mod.comps[comp := mod.comps[comp].(realizations := [r])]);
      if fn.abi == Parus {
        compBySym := compBySym[fn.sym := comp];
      }
    }

    /** A function's body, from a new entry block with the parameters. */
    method LowerFunc(i: nat)
      requires Tables() && i < |sir.funcs|
      modifies this`mod, this`errs
      ensures Tables() && Now() == L.LowerFunc(sir, old(Now()), i)
    {
      var fn := sir.funcs[i];
      if fn.isExtern {
        return;
      }
      var bb := AddBlock(i);
      mod := mod.(reals := mod.reals[i := mod.reals[i].(entry := Some(bb))]);
      var locals := AddParams(bb, fn.params);
      var state := new FunctionState(i, fn.ret, Some(bb), locals);
      LowerBlock(state, fn.body);
      if state.cur.Some? && mod.blocks[state.cur.value].term.None? {
        if fn.ret == Unit {
          EnsureBlockTerm(state, TermRet(false, None));
        } else {
          PushError(L.MissingReturn);
        }
      }
    }

    method AddParams(bb: nat, params: seq<Param>) returns (locals: map<Sym, L.Binding>)
      requires Tables() && bb < |mod.blocks|
      modifies this`mod
      ensures Tables() && |mod.blocks| == old(|mod.blocks|)
      ensures L.Params(Now(), locals) == L.AddParams(old(Now()), bb, params)
    {
      locals := map[];
      for i := 0 to |params|
        invariant Tables() && |mod.blocks| == old(|mod.blocks|)
        invariant L.Params(Now(), locals) == L.AddParams(old(Now()), bb, params[..i])
      {
        assert params[..i + 1][..i] == params[..i];
        var p := params[i];
        var v := AddBlockParam(bb, p.ty);
        locals := locals[p.sym := L.Binding(Some(v), p.ty, ClassifyLayout(p.ty), false, false)];
      }
      assert params[..|params|] == params;
    }

    /** Building: discovery, then the bodies, then the module checks. It succeeds exactly for the programs
        that are accepted, and then, if the program is well typed, the module left in `mod` runs as it. */
    method Build() returns (ok: bool)
      requires Now() == L.Bld(EMPTY_MODULE, []) && globalBySym == map[] && realBySym == map[] && compBySym == map[]
      modifies this
      ensures mod == L.LowerProgram(sir).mod
      ensures ok <==> Correctness.Accepted(sir)
      ensures ok && Typing.WellTyped(sir) ==> Correctness.RunsAsSource(sir, mod)
    {
      hide Correctness.RunsAsSource, Typing.WellTyped, VerifyOk, L.LowerFunc, L.DeclareGlobals, L.DeclareFuncs;
      DiscoverGlobals();
      if errs != [] {
        return false;
      }
      DiscoverFuncs();
      if errs != [] {
        return false;
      }
      TablesWhole(sir, mod, globalBySym, realBySym, compBySym);
      ghost var b := Now();
      for i := 0 to |sir.funcs|
        invariant Tables() && Now() == L.LowerFuncs(sir, b, i)
      {
        LowerFunc(i);
      }
      var problems := Verify(mod);
      ok := errs == [] && problems == [];
      assert L.LowerProgram(sir) == Now();
      if ok && Typing.WellTyped(sir) {
        Correctness.AcceptedRunsAsSource(sir);
      }
    }
  }
}
