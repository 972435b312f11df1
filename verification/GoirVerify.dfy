/** The module checks that run at the end of building and around placement. */
module GoirVerify {
  import opened Wrappers
  import opened Sir
  import opened SirSemantics
  import opened Goir

  predicate ValidValue(m: Module, x: Id) { x.Some? && x.value < |m.values| }
  predicate ValidBlock(m: Module, bb: nat) { bb < |m.blocks| }

  predicate ValidArgs(m: Module, xs: seq<Id>) { forall i :: 0 <= i < |xs| ==> ValidValue(m, xs[i]) }

  predicate IsPlaceValue(m: Module, x: Id) { ValidValue(m, x) && m.values[x.value].isPlace }

  predicate SlotResult(m: Module, x: Id, kind: PlaceKind) {
    ValidValue(m, x) && m.values[x.value].isPlace && m.values[x.value].placeKind == kind
  }

  /** What each operation demands of its operands, its result `x` and the module's stage. */
  predicate OpOk(m: Module, op: Op, x: Id) {
    match op
    case OpTextLit(_) => x.Some?
    case OpUnary(_, src) => ValidValue(m, src)
    case OpBinary(_, lhs, rhs) => ValidValue(m, lhs) && ValidValue(m, rhs)
    case OpCast(_, _, src) => ValidValue(m, src)
    case OpLocalSlot => SlotResult(m, x, LocalSlot)
    case OpGlobalSlot(g) => g < |m.globals| && SlotResult(m, x, GlobalSlot)
    case OpLoad(place) => IsPlaceValue(m, place)
    case OpStore(place, val) => IsPlaceValue(m, place) && ValidValue(m, val)
    case OpBorrowView(place) => ValidArgs(m, [place]) && m.stage == Open
    case OpEscapeView(place) => ValidArgs(m, [place]) && m.stage == Open
    case OpOptionalSome(val) => ValidValue(m, val) && x.Some?
    case OpOptionalNone => x.Some?
    case OpOptionalIsPresent(opt) => ValidValue(m, opt) && x.Some?
    case OpOptionalGet(opt) => ValidValue(m, opt) && x.Some?
    case OpEnumTag(_) => x.Some?
    case OpSemanticInvoke(comp, args) => comp < |m.comps| && ValidArgs(m, args) && m.stage == Open
    case OpCallDirect(callee, args) => callee < |m.reals| && ValidArgs(m, args) && m.stage == Placed
    case OpCallExtern(callee, args) =>
      callee < |m.reals| && ValidArgs(m, args) && m.reals[callee].abi == C && m.reals[callee].linkage == External
    case _ => true
  }

  predicate InstOk(m: Module, inst: Inst) {
    (inst.result.Some? ==> ValidValue(m, inst.result)) && OpOk(m, inst.op, inst.result)
  }

  predicate ArgOk(m: Module, x: Id, param: nat) {
    ValidValue(m, x) && param < |m.values| && m.values[x.value].ty == m.values[param].ty
  }

  /** An edge targets a block whose parameters match the arguments in number and type. */
  predicate EdgeOk(m: Module, target: nat, args: seq<Id>) {
    && ValidBlock(m, target)
    && |m.blocks[target].params| == |args|
    && forall i :: 0 <= i < |args| ==> ArgOk(m, args[i], m.blocks[target].params[i])
  }

  predicate DistinctKeys(arms: seq<Arm>) {
    forall i, j :: 0 <= i < j < |arms| ==> arms[i].key != arms[j].key
  }

  predicate TermOk(m: Module, t: Term) {
    match t
    case TermBr(target, args) => EdgeOk(m, target, args)
    case TermCondBr(cond, thenBb, elseBb) =>
      ValidValue(m, cond) && EdgeOk(m, thenBb, []) && EdgeOk(m, elseBb, [])
    case TermSwitch(scrutinee, defaultBb, arms) =>
      && ValidValue(m, scrutinee) && EdgeOk(m, defaultBb, [])
      && DistinctKeys(arms) && (forall i :: 0 <= i < |arms| ==> EdgeOk(m, arms[i].target, []))
    case TermRet(hasValue, val) => hasValue ==> ValidValue(m, val)
  }

  predicate ParamsValid(m: Module, bb: Block) {
    forall i :: 0 <= i < |bb.params| ==> bb.params[i] < |m.values| && !m.values[bb.params[i]].isPlace
  }

  predicate HeadOk(m: Module, bb: Block) {
    && ParamsValid(m, bb)
    && forall i :: 0 <= i < |bb.insts| ==> bb.insts[i] < |m.insts| && InstOk(m, m.insts[bb.insts[i]])
  }

  predicate TailOk(m: Module, bb: Block) { bb.term.Some? && TermOk(m, bb.term.value) }

  predicate BlockOk(m: Module, bb: Block) { HeadOk(m, bb) && TailOk(m, bb) }

  predicate ComputationOk(m: Module, c: Computation) {
    c.sig < |m.sigs| && forall i :: 0 <= i < |c.realizations| ==> c.realizations[i] < |m.reals|
  }

  predicate RealizationOk(m: Module, r: Realization) {
    && r.comp < |m.comps|
    && (if r.linkage == External then r.blocks == [] && r.entry.None?
        else r.entry.Some? && ValidBlock(m, r.entry.value))
    && forall i :: 0 <= i < |r.blocks| ==> ValidBlock(m, r.blocks[i])
  }

  predicate OpenOnly(op: Op) { op.OpBorrowView? || op.OpEscapeView? || op.OpSemanticInvoke? }

  predicate StageOk(m: Module) {
    m.stage == Placed ==>
      && (forall i :: 0 <= i < |m.values| ==> m.values[i].ownership == Plain)
      && (forall i :: 0 <= i < |m.insts| ==> !OpenOnly(m.insts[i].op))
  }

  /** `verify` reports nothing. */
  predicate VerifyOk(m: Module) {
    && (forall i :: 0 <= i < |m.comps| ==> ComputationOk(m, m.comps[i]))
    && (forall i :: 0 <= i < |m.reals| ==> RealizationOk(m, m.reals[i]))
    && (forall i :: 0 <= i < |m.blocks| ==> BlockOk(m, m.blocks[i]))
    && StageOk(m)
  }

  // ---- The checker itself ----------------------------------------------------------------

  datatype Problem =
    | BadSig | BadRealizationRef | BadComputation | OwnsBlocks | HasEntry | BadEntry | BadBlockRef
    | BadParam | PlaceParam | BadInst | BadResult | BadOperand | NoResult | NotASlot | BadCallee | WrongStage | NotExternal
    | BadTarget | ArgCount | ArgType | DuplicateKey | NoTerminator | NotPlain

  method VerifyValueRef(m: Module, x: Id) returns (out: seq<Problem>)
    ensures out == [] <==> ValidValue(m, x)
  {
    out := if x.None? || x.value >= |m.values| then [BadOperand] else [];
  }

  method VerifyArgs(m: Module, xs: seq<Id>) returns (out: seq<Problem>)
    ensures out == [] <==> ValidArgs(m, xs)
  {
    out := [];
    for i := 0 to |xs|
      invariant out == [] <==> forall j :: 0 <= j < i ==> ValidValue(m, xs[j])
    {
      var e := VerifyValueRef(m, xs[i]);
      out := out + e;
    }
  }

  method VerifyPlace(m: Module, x: Id) returns (out: seq<Problem>)
    ensures out == [] <==> IsPlaceValue(m, x)
  {
    out := VerifyValueRef(m, x);
    if out == [] && !m.values[x.value].isPlace {
      out := [NotASlot];
    }
  }

  method VerifySlot(m: Module, x: Id, kind: PlaceKind) returns (out: seq<Problem>)
    ensures out == [] <==> SlotResult(m, x, kind)
  {
    if x.None? {
      return [NoResult];
    }
    out := VerifyPlace(m, x);
    if out == [] && m.values[x.value].placeKind != kind {
      out := [NotASlot];
    }
  }

  /** The checks of one operation; `x` is its result. */
  method VerifyOp(m: Module, op: Op, x: Id) returns (out: seq<Problem>)
    ensures out == [] <==> OpOk(m, op, x)
  {
    out := [];
    match op
    case OpTextLit(_) => out := if x.None? then [NoResult] else [];
    case OpOptionalNone => out := if x.None? then [NoResult] else [];
    case OpEnumTag(_) => out := if x.None? then [NoResult] else [];
    case OpUnary(_, src) => out := VerifyValueRef(m, src);
    case OpCast(_, _, src) => out := VerifyValueRef(m, src);
    case OpBinary(_, lhs, rhs) =>
      var l := VerifyValueRef(m, lhs);
      var r := VerifyValueRef(m, rhs);
      out := l + r;
    case OpLocalSlot => out := VerifySlot(m, x, LocalSlot);
    case OpGlobalSlot(g) =>
      out := VerifySlot(m, x, GlobalSlot);
      if g >= |m.globals| {
        out := out + [BadOperand];
      }
    case OpLoad(place) => out := VerifyPlace(m, place);
    case OpStore(place, val) =>
      var p := VerifyPlace(m, place);
      var v := VerifyValueRef(m, val);
      out := p + v;
    case OpBorrowView(place) => out := VerifyStaged(m, [place], Open);
    case OpEscapeView(place) => out := VerifyStaged(m, [place], Open);
    case OpOptionalSome(val) => out := VerifyWithResult(m, val, x);
    case OpOptionalIsPresent(opt) => out := VerifyWithResult(m, opt, x);
    case OpOptionalGet(opt) => out := VerifyWithResult(m, opt, x);
    case OpSemanticInvoke(comp, args) =>
      out := VerifyStaged(m, args, Open);
      if comp >= |m.comps| {
        out := out + [BadComputation];
      }
    case OpCallDirect(callee, args) =>
      out := VerifyStaged(m, args, Placed);
      if callee >= |m.reals| {
        out := out + [BadCallee];
      }
    case OpCallExtern(callee, args) =>
      if callee >= |m.reals| {
        return [BadCallee];
      }
      out := VerifyArgs(m, args);
      if m.reals[callee].abi != C || m.reals[callee].linkage != External {
        out := out + [NotExternal];
      }
    case _ =>
  }

  method VerifyWithResult(m: Module, v: Id, x: Id) returns (out: seq<Problem>)
    ensures out == [] <==> ValidValue(m, v) && x.Some?
  {
    out := VerifyValueRef(m, v);
    if x.None? {
      out := out + [NoResult];
    }
  }

  method VerifyStaged(m: Module, args: seq<Id>, stage: Stage) returns (out: seq<Problem>)
    ensures out == [] <==> ValidArgs(m, args) && m.stage == stage
  {
    out := VerifyArgs(m, args);
    if m.stage != stage {
      out := out + [WrongStage];
    }
  }

  method VerifyBlockArgs(m: Module, target: nat, args: seq<Id>) returns (out: seq<Problem>)
    requires forall bb :: 0 <= bb < |m.blocks| ==> ParamsValid(m, m.blocks[bb])
    ensures out == [] <==> EdgeOk(m, target, args)
  {
    if target >= |m.blocks| {
      return [BadTarget];
    }
    var params := m.blocks[target].params;
    if |params| != |args| {
      return [ArgCount];
    }
    out := [];
    for i := 0 to |args|
      invariant out == [] <==> forall j :: 0 <= j < i ==> ArgOk(m, args[j], params[j])
    {
      var e := VerifyValueRef(m, args[i]);
      out := out + e;
      if e == [] && m.values[args[i].value].ty != m.values[params[i]].ty {
        out := out + [ArgType];
      }
    }
  }

  method VerifyTerm(m: Module, t: Term) returns (out: seq<Problem>)
    requires forall bb :: 0 <= bb < |m.blocks| ==> ParamsValid(m, m.blocks[bb])
    ensures out == [] <==> TermOk(m, t)
  {
    match t
    case TermBr(target, args) => out := VerifyBlockArgs(m, target, args);
    case TermCondBr(cond, thenBb, elseBb) =>
      var c := VerifyValueRef(m, cond);
      var x := VerifyBlockArgs(m, thenBb, []);
      var y := VerifyBlockArgs(m, elseBb, []);
      out := c + x + y;
    case TermSwitch(scrutinee, defaultBb, arms) =>
      var s := VerifyValueRef(m, scrutinee);
      var d := VerifyBlockArgs(m, defaultBb, []);
      out := s + d;
      var seen: set<int> := {};
      for i := 0 to |arms|
        invariant forall k :: k in seen <==> exists j :: 0 <= j < i && arms[j].key == k
        invariant out == [] <==> && s == [] && d == [] && DistinctKeys(arms[..i])
                                 && forall j :: 0 <= j < i ==> EdgeOk(m, arms[j].target, [])
      {
        if arms[i].key in seen {
          out := out + [DuplicateKey];
          var j :| 0 <= j < i && arms[j].key == arms[i].key;
          assert arms[..i + 1][j].key == arms[..i + 1][i].key;
        }
        assert arms[..i + 1][..i] == arms[..i];
        assert DistinctKeys(arms[..i + 1]) <==> DistinctKeys(arms[..i]) && arms[i].key !in seen by {
          DistinctStep(arms, i, seen);
        }
        seen := seen + {arms[i].key};
        var e := VerifyBlockArgs(m, arms[i].target, []);
        out := out + e;
      }
      assert arms[..|arms|] == arms;
    case TermRet(hasValue, val) =>
      out := [];
      if hasValue {
        out := VerifyValueRef(m, val);
      }
  }

  lemma DistinctStep(arms: seq<Arm>, i: nat, seen: set<int>)
    requires i < |arms| && forall k :: k in seen <==> exists j :: 0 <= j < i && arms[j].key == k
    ensures DistinctKeys(arms[..i + 1]) <==> DistinctKeys(arms[..i]) && arms[i].key !in seen
  {
    var a := arms[..i + 1];
    if DistinctKeys(a) {
      forall j, k | 0 <= j < k < i
        ensures arms[..i][j].key != arms[..i][k].key
      {
        assert a[j].key != a[k].key;
      }
      forall j | 0 <= j < i
        ensures arms[j].key != arms[i].key
      {
        assert a[j].key != a[i].key;
      }
    } else {
      var j, k :| 0 <= j < k < |a| && a[j].key == a[k].key;
      assert k < i ==> arms[..i][j].key == arms[..i][k].key;
    }
  }

  method VerifyParams(m: Module, params: seq<nat>) returns (out: seq<Problem>)
    ensures out == [] <==> forall i :: 0 <= i < |params| ==> params[i] < |m.values| && !m.values[params[i]].isPlace
  {
    out := [];
    for i := 0 to |params|
      invariant out == [] <==> forall j :: 0 <= j < i ==> params[j] < |m.values| && !m.values[params[j]].isPlace
    {
      if params[i] >= |m.values| {
        out := out + [BadParam];
      } else if m.values[params[i]].isPlace {
        out := out + [PlaceParam];
      }
    }
  }

  method VerifyInsts(m: Module, iids: seq<nat>) returns (out: seq<Problem>)
    ensures out == [] <==> forall i :: 0 <= i < |iids| ==> iids[i] < |m.insts| && InstOk(m, m.insts[iids[i]])
  {
    out := [];
    for i := 0 to |iids|
      invariant out == [] <==> forall j :: 0 <= j < i ==> iids[j] < |m.insts| && InstOk(m, m.insts[iids[j]])
    {
      if iids[i] >= |m.insts| {
        out := out + [BadInst];
      } else {
        var inst := m.insts[iids[i]];
        if inst.result.Some? && inst.result.value >= |m.values| {
          out := out + [BadResult];
        }
        var e := VerifyOp(m, inst.op, inst.result);
        out := out + e;
      }
    }
  }

  method VerifyComputation(m: Module, c: Computation) returns (out: seq<Problem>)
    ensures out == [] <==> ComputationOk(m, c)
  {
    out := if c.sig >= |m.sigs| then [BadSig] else [];
    for i := 0 to |c.realizations|
      invariant out == [] <==> c.sig < |m.sigs| && forall j :: 0 <= j < i ==> c.realizations[j] < |m.reals|
    {
      if c.realizations[i] >= |m.reals| {
        out := out + [BadRealizationRef];
      }
    }
  }

  method VerifyRealization(m: Module, r: Realization) returns (out: seq<Problem>)
    ensures out == [] <==> RealizationOk(m, r)
  {
    out := if r.comp >= |m.comps| then [BadComputation] else [];
    if r.linkage == External {
      if r.blocks != [] {
        out := out + [OwnsBlocks];
      }
      if r.entry.Some? {
        out := out + [HasEntry];
      }
    } else if r.entry.None? || r.entry.value >= |m.blocks| {
      out := out + [BadEntry];
    }
    ghost var head := out == [];
    for i := 0 to |r.blocks|
      invariant out == [] <==> head && forall j :: 0 <= j < i ==> ValidBlock(m, r.blocks[j])
    {
      if r.blocks[i] >= |m.blocks| {
        out := out + [BadBlockRef];
      }
    }
  }

  /** The source makes one pass over the blocks; here edges are checked in a second one, once every
      block parameter they are compared with is known to be a value. */
  method VerifyBlocks(m: Module) returns (out: seq<Problem>)
    ensures out == [] <==> forall i :: 0 <= i < |m.blocks| ==> BlockOk(m, m.blocks[i])
  {
    out := [];
    for i := 0 to |m.blocks|
      invariant out == [] <==> forall j :: 0 <= j < i ==> HeadOk(m, m.blocks[j])
    {
      var p := VerifyParams(m, m.blocks[i].params);
      var b := VerifyInsts(m, m.blocks[i].insts);
      out := out + p + b;
    }
    if out != [] {
      return;
    }
    for i := 0 to |m.blocks|
      invariant out == [] <==> forall j :: 0 <= j < i ==> TailOk(m, m.blocks[j])
    {
      if m.blocks[i].term.None? {
        out := out + [NoTerminator];
      } else {
        var t := VerifyTerm(m, m.blocks[i].term.value);
        out := out + t;
      }
    }
  }

  method VerifyStage(m: Module) returns (out: seq<Problem>)
    ensures out == [] <==> StageOk(m)
  {
    out := [];
    if m.stage != Placed {
      return;
    }
    for i := 0 to |m.values|
      invariant out == [] <==> forall j :: 0 <= j < i ==> m.values[j].ownership == Plain
    {
      if m.values[i].ownership != Plain {
        out := out + [NotPlain];
      }
    }
    ghost var plain := out == [];
    for i := 0 to |m.insts|
      invariant out == [] <==> plain && forall j :: 0 <= j < i ==> !OpenOnly(m.insts[j].op)
    {
      if OpenOnly(m.insts[i].op) {
        out := out + [WrongStage];
      }
    }
  }

  /** The module checks report nothing exactly on modules that meet them. */
  method Verify(m: Module) returns (out: seq<Problem>)
    ensures out == [] <==> VerifyOk(m)
  {
    out := [];
    for i := 0 to |m.comps|
      invariant out == [] <==> forall j :: 0 <= j < i ==> ComputationOk(m, m.comps[j])
    {
      var e := VerifyComputation(m, m.comps[i]);
      out := out + e;
    }
    ghost var comps := out == [];
    for i := 0 to |m.reals|
      invariant out == [] <==> comps && forall j :: 0 <= j < i ==> RealizationOk(m, m.reals[j])
    {
      var e := VerifyRealization(m, m.reals[i]);
      out := out + e;
    }
    var blocks := VerifyBlocks(m);
    var stage := VerifyStage(m);
    out := out + blocks + stage;
  }
}
