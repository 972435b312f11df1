/** The gOIR module: flat arrays of values, instructions, blocks, signatures, computations,
    realizations and globals, all referring to each other by index. `None` is the invalid id. */
module Goir {
  import opened Wrappers
  import opened Sir
  import opened SirSemantics

  datatype Effect = Pure | Control | CallEffect | MayTrap | MayRead | MayWrite | MayReadWrite
  datatype Ownership = Plain | BorrowShared | BorrowMut | Escape
  datatype PlaceKind = NoPlace | LocalSlot | GlobalSlot
  datatype Stage = Open | Placed
  datatype Family = NoFamily | Core | Cpu | Gpu
  datatype Linkage = Internal | External | Exported

  type Id = Option<nat>

  datatype Value = Value(
    ty: Ty, elemTy: Ty, eff: Effect, ownership: Ownership, layout: LayoutClass,
    placeKind: PlaceKind, isPlace: bool, isMutable: bool)

  datatype Op =
    | OpConstInt(text: string)
    | OpConstFloat(text: string)
    | OpConstBool(b: bool)
    | OpConstNull
    | OpTextLit(text: string)
    | OpUnary(un: UnOp, src: Id)
    | OpBinary(bin: BinOp, lhs: Id, rhs: Id)
    | OpCast(kind: CastKind, to: Ty, src: Id)
    | OpLocalSlot
    | OpGlobalSlot(global: nat)
    | OpLoad(place: Id)
    | OpStore(place: Id, val: Id)
    | OpBorrowView(place: Id)
    | OpEscapeView(place: Id)
    | OpOptionalSome(val: Id)
    | OpOptionalNone
    | OpOptionalIsPresent(opt: Id)
    | OpOptionalGet(opt: Id)
    | OpEnumTag(tag: int)
    | OpSemanticInvoke(comp: nat, args: seq<Id>)
    | OpCallDirect(callee: nat, args: seq<Id>)
    | OpCallExtern(callee: nat, args: seq<Id>)

  datatype Inst = Inst(op: Op, eff: Effect, result: Id)

  datatype Arm = Arm(key: int, target: nat)

  datatype Term =
    | TermBr(target: nat, args: seq<Id>)
    | TermCondBr(cond: Id, thenBb: nat, elseBb: nat)
    | TermSwitch(scrutinee: Id, defaultBb: nat, arms: seq<Arm>)
    | TermRet(hasValue: bool, val: Id)

  datatype Block = Block(params: seq<nat>, insts: seq<nat>, term: Option<Term>)

  datatype Sig = Sig(params: seq<Ty>, result: Ty)
  datatype Computation = Computation(sig: nat, realizations: seq<nat>)
  datatype Realization = Realization(
    comp: nat, family: Family, abi: Abi, linkage: Linkage, isVariadic: bool, isExtern: bool,
    blocks: seq<nat>, entry: Id, source: nat)
  datatype GGlobal = GGlobal(ty: Ty, isMutable: bool, linkage: Linkage, abi: Abi, source: nat)

  datatype Module = Module(
    stage: Stage,
    values: seq<Value>, insts: seq<Inst>, blocks: seq<Block>,
    sigs: seq<Sig>, comps: seq<Computation>, reals: seq<Realization>, globals: seq<GGlobal>)

  const EMPTY_MODULE := Module(Open, [], [], [], [], [], [], [])
  const EMPTY_BLOCK := Block([], [], None)
}
