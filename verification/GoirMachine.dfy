/** What a gOIR module means: a deterministic machine with a stack of activations. One step runs
    one instruction or one terminator. `Stuck` is every situation the operators cannot cause:
    reading an undefined value or an empty slot, an absent optional's payload, a bad target. */
module GoirMachine {
  import opened Wrappers
  import opened Literals
  import opened Sir
  import opened SirSemantics
  import opened Goir

  /** A value id holds a value or names a place. A local slot is identified by its value id. */
  datatype Reg = Datum(v: Val) | LocalPlace(slot: nat) | GlobalPlace(global: nat)

  datatype Frame = Frame(block: nat, pc: nat, regs: map<nat, Reg>, slots: map<nat, Val>)

  /** The suspended callers, each with the id that awaits the callee's result. */
  datatype Stack = Bottom | Caller(frame: Frame, dest: Id, below: Stack)

  datatype Config =
    | Run(top: Frame, rest: Stack, globals: seq<Val>)
    | Halt(v: Val, globals: seq<Val>)
    | Fault(globals: seq<Val>)
    | Stuck

  predicate Holds(f: Frame, x: nat, v: Val) { x in f.regs && f.regs[x] == Datum(v) }

  function Read(f: Frame, x: Id): Option<Val> {
    if x.Some? && x.value in f.regs && f.regs[x.value].Datum? then Some(f.regs[x.value].v) else None
  }

  function ReadAll(f: Frame, xs: seq<Id>): (r: Option<seq<Val>>)
    ensures r.Some? ==> |r.value| == |xs|
  {
    if xs == [] then Some([])
    else
      var v := Read(f, xs[0]);
      var vs := ReadAll(f, xs[1..]);
      if v.Some? && vs.Some? then Some([v.value] + vs.value) else None
  }

  function SetReg(f: Frame, x: Id, r: Reg): Frame {
    if x.Some? then f.(regs := f.regs[x.value := r]) else f
  }

  /** Moves past the current instruction, leaving `r` in its result. */
  function Advance(f: Frame, x: Id, r: Reg): Frame { SetReg(f.(pc := f.pc + 1), x, r) }

  function BindRegs(regs: map<nat, Reg>, params: seq<nat>, vs: seq<Val>): map<nat, Reg>
    requires |params| == |vs|
  {
    if params == [] then regs
    else
      var n := |params| - 1;
      BindRegs(regs, params[..n], vs[..n])[params[n] := Datum(vs[n])]
  }

  function Jump(M: Module, f: Frame, target: nat, args: seq<Id>): Option<Frame> {
    var vs := ReadAll(f, args);
    if target < |M.blocks| && vs.Some? && |vs.value| == |M.blocks[target].params| then
      Some(Frame(target, 0, BindRegs(f.regs, M.blocks[target].params, vs.value), f.slots))
    else None
  }

  function Goto(M: Module, f: Frame, rest: Stack, globals: seq<Val>, target: nat, args: seq<Id>): Config {
    var f' := Jump(M, f, target, args);
    if f'.Some? then Run(f'.value, rest, globals) else Stuck
  }

  /** Entering a realization binds its entry block's parameters in a fresh activation. */
  function Enter(M: Module, r: nat, vs: seq<Val>, rest: Stack, globals: seq<Val>): Config {
    if r < |M.reals| && M.reals[r].entry.Some? && M.reals[r].entry.value < |M.blocks|
       && |M.blocks[M.reals[r].entry.value].params| == |vs|
    then
      var bb := M.reals[r].entry.value;
      Run(Frame(bb, 0, BindRegs(map[], M.blocks[bb].params, vs), map[]), rest, globals)
    else Stuck
  }

  /** Handing a result to the awaiting caller, or ending the run. */
  function Leave(rest: Stack, v: Val, globals: seq<Val>): Config {
    match rest
    case Bottom => Halt(v, globals)
    case Caller(f, dest, below) => Run(SetReg(f, dest, Datum(v)), below, globals)
  }

  function ResultType(M: Module, x: Id): Ty {
    if x.Some? && x.value < |M.values| then M.values[x.value].ty else Unit
  }

  function Produce(f: Frame, rest: Stack, globals: seq<Val>, x: Id, v: Option<Val>): Config {
    if v.Some? then Run(Advance(f, x, Datum(v.value)), rest, globals) else Fault(globals)
  }

  function LoadPlace(f: Frame, globals: seq<Val>, place: Id): Option<Val> {
    if place.None? || place.value !in f.regs then None
    else
      match f.regs[place.value]
      case LocalPlace(s) => if s in f.slots then Some(f.slots[s]) else None
      case GlobalPlace(i) => if i < |globals| then Some(globals[i]) else None
      case Datum(_) => None
  }

  function StorePlace(f: Frame, rest: Stack, globals: seq<Val>, place: Id, v: Val): Config {
    if place.None? || place.value !in f.regs then Stuck
    else
      match f.regs[place.value]
      case LocalPlace(s) => Run(f.(pc := f.pc + 1, slots := f.slots[s := v]), rest, globals)
      case GlobalPlace(i) =>
        if i < |globals| then Run(f.(pc := f.pc + 1), rest, globals[i := v]) else Stuck
      case Datum(_) => Stuck
  }

  function CallReal(M: Module, f: Frame, rest: Stack, globals: seq<Val>, r: nat, args: seq<Id>, x: Id): Config {
    var vs := ReadAll(f, args);
    if vs.Some? then Enter(M, r, vs.value, Caller(f.(pc := f.pc + 1), x, rest), globals) else Stuck
  }

  function StepInst(P: Prims, M: Module, f: Frame, rest: Stack, globals: seq<Val>, inst: Inst): Config {
    var x := inst.result;
    match inst.op
    case OpConstInt(text) => Produce(f, rest, globals, x, Some(IntV(IntLiteralValue(text))))
    case OpConstFloat(text) => Produce(f, rest, globals, x, Some(FloatV(text)))
    case OpConstBool(b) => Produce(f, rest, globals, x, Some(BoolV(b)))
    case OpConstNull => Produce(f, rest, globals, x, Some(NullV))
    case OpTextLit(text) => Produce(f, rest, globals, x, Some(TextV(text)))
    case OpUnary(op, src) =>
      var v := Read(f, src);
      if v.None? then Stuck else Produce(f, rest, globals, x, P.un(op, ResultType(M, x), v.value))
    case OpBinary(op, lhs, rhs) =>
      var a := Read(f, lhs);
      var b := Read(f, rhs);
      if a.None? || b.None? then Stuck
      else Produce(f, rest, globals, x, P.bin(op, ResultType(M, x), a.value, b.value))
    case OpCast(kind, to, src) =>
      var v := Read(f, src);
      if v.None? then Stuck else Produce(f, rest, globals, x, P.cast(kind, ResultType(M, x), to, v.value))
    case OpLocalSlot =>
      if x.None? then Stuck
      else Run(Advance(f, x, LocalPlace(x.value)).(slots := f.slots - {x.value}), rest, globals)
    case OpGlobalSlot(i) => Run(Advance(f, x, GlobalPlace(i)), rest, globals)
    case OpLoad(place) =>
      if x.None? then Run(f.(pc := f.pc + 1), rest, globals)
      else
        var v := LoadPlace(f, globals, place);
        if v.None? then Stuck else Produce(f, rest, globals, x, v)
    case OpStore(place, val) =>
      var v := Read(f, val);
      if v.None? then Stuck else StorePlace(f, rest, globals, place, v.value)
    case OpOptionalSome(val) =>
      var v := Read(f, val);
      if v.None? then Stuck else Produce(f, rest, globals, x, Some(SomeV(v.value)))
    case OpOptionalNone => Produce(f, rest, globals, x, Some(NoneV))
    case OpOptionalIsPresent(opt) =>
      var v := Read(f, opt);
      if v.None? then Stuck
      else Produce(f, rest, globals, x,
                   if v.value.SomeV? then Some(BoolV(true)) else if v.value.NoneV? then Some(BoolV(false)) else None)
    case OpOptionalGet(opt) =>
      var v := Read(f, opt);
      if v.Some? && v.value.SomeV? then Produce(f, rest, globals, x, Some(v.value.inner)) else Stuck
    case OpEnumTag(tag) => Produce(f, rest, globals, x, Some(EnumV(tag)))
    case OpSemanticInvoke(comp, args) =>
      if comp < |M.comps| && M.comps[comp].realizations != [] then
        CallReal(M, f, rest, globals, M.comps[comp].realizations[0], args, x)
      else Stuck
    case OpCallDirect(callee, args) => CallReal(M, f, rest, globals, callee, args, x)
    case OpCallExtern(callee, args) =>
      var vs := ReadAll(f, args);
      if callee < |M.reals| && M.reals[callee].linkage.External? && vs.Some? then
        match CallExternal(P, M.reals[callee].source, vs.value, globals)
        case Result(v, g) => Run(Advance(f, x, Datum(v)), rest, g)
        case CallFault(g) => Fault(g)
        case CallTimeout => Stuck
      else Stuck
    case OpBorrowView(_) => Stuck
    case OpEscapeView(_) => Stuck
  }

  function FindArm(arms: seq<Arm>, key: int): (r: Option<nat>)
    ensures r.Some? ==> r.value < |arms| && arms[r.value].key == key
  {
    if arms == [] then None
    else if arms[0].key == key then Some(0)
    else match FindArm(arms[1..], key) case Some(i) => Some(i + 1) case None => None
  }

  function SwitchTarget(t: Term, key: int): nat
    requires t.TermSwitch?
  {
    match FindArm(t.arms, key) case Some(i) => t.arms[i].target case None => t.defaultBb
  }

  function StepTerm(M: Module, f: Frame, rest: Stack, globals: seq<Val>, term: Term): Config {
    match term
    case TermBr(target, args) => Goto(M, f, rest, globals, target, args)
    case TermCondBr(cond, thenBb, elseBb) =>
      var c := Read(f, cond);
      if c.None? then Stuck
      else if !c.value.BoolV? then Fault(globals)
      else Goto(M, f, rest, globals, if c.value.b then thenBb else elseBb, [])
    case TermSwitch(scrutinee, defaultBb, arms) =>
      var s := Read(f, scrutinee);
      if s.None? then Stuck
      else if SwitchKey(s.value).None? then Fault(globals)
      else Goto(M, f, rest, globals, SwitchTarget(term, SwitchKey(s.value).value), [])
    case TermRet(hasValue, val) =>
      if !hasValue then Leave(rest, UnitV, globals)
      else
        var v := Read(f, val);
        if v.None? then Stuck else Leave(rest, v.value, globals)
  }

  function Step(P: Prims, M: Module, c: Config): Config {
    match c
    case Run(f, rest, globals) =>
      if f.block >= |M.blocks| then Stuck
      else
        var bb := M.blocks[f.block];
        if f.pc < |bb.insts| then
          if bb.insts[f.pc] < |M.insts| then StepInst(P, M, f, rest, globals, M.insts[bb.insts[f.pc]]) else Stuck
        else if bb.term.Some? then StepTerm(M, f, rest, globals, bb.term.value)
        else Stuck
    case _ => c
  }

  function StepN(P: Prims, M: Module, c: Config, k: nat): Config
    decreases k
  {
    if k == 0 then c else StepN(P, M, Step(P, M, c), k - 1)
  }

  /** Running `a` steps and then `b` steps is running `a + b` steps. */
  lemma {:induction false} StepNAdd(P: Prims, M: Module, c: Config, a: nat, b: nat)
    ensures StepN(P, M, c, a + b) == StepN(P, M, StepN(P, M, c, a), b)
    decreases a
  {
    if a > 0 {
      StepNAdd(P, M, Step(P, M, c), a - 1, b);
    }
  }

  /** A finished run stays finished, with the same outcome. */
  lemma {:induction false} StepNFinal(P: Prims, M: Module, c: Config, k: nat)
    requires !c.Run?
    ensures StepN(P, M, c, k) == c
    decreases k
  {
    if k > 0 {
      StepNFinal(P, M, c, k - 1);
    }
  }

  /** The outcome of a run that has ended does not depend on how long it is watched. */
  lemma {:induction false} OutcomeUnique(P: Prims, M: Module, c: Config, a: nat, b: nat)
    requires !StepN(P, M, c, a).Run? && !StepN(P, M, c, b).Run?
    ensures StepN(P, M, c, a) == StepN(P, M, c, b)
    decreases if a <= b then 0 else 1
  {
    if a <= b {
      StepNAdd(P, M, c, a, b - a);
      StepNFinal(P, M, StepN(P, M, c, a), b - a);
    } else {
      OutcomeUnique(P, M, c, b, a);
    }
  }

  /** A run still going after `b` steps was going after every `a <= b`. */
  lemma {:induction false} StillRunning(P: Prims, M: Module, c: Config, a: nat, b: nat)
    requires a <= b && StepN(P, M, c, b).Run?
    ensures StepN(P, M, c, a).Run?
  {
    StepNAdd(P, M, c, a, b - a);
    if !StepN(P, M, c, a).Run? {
      StepNFinal(P, M, StepN(P, M, c, a), b - a);
    }
  }
}
