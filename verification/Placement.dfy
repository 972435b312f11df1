/** Placement: a copy of an open module in which semantic invokes have become direct calls, and the
    checks under which the copy is accepted. Runs of the two modules are the same. */
module Placement {
  import opened Wrappers
  import opened Sir
  import opened SirSemantics
  import opened Goir
  import opened GoirMachine
  import opened GoirVerify
  import opened Lowering
  import opened SimulationBase
  import opened Correctness
  import Fragments
  import OpenBlock
  import Sites
  import Typing
  import ValueIds

  datatype Rejection =
    | NotOpen | ModuleChecks | ExternalNotC | BadInvoke | NoRealization | BadExternCall
    | NotPlainValue | UnknownLayoutClass | OwnershipMarker | RawNull | VariadicCall

  datatype PlacementResult = PlacementResult(ok: bool, mod: Module, messages: seq<Rejection>)

  // ---- What placement makes of a module --------------------------------------------------

  function PlaceReal(r: Realization): Realization {
    if r.family == NoFamily || r.family == Core then r.(family := Cpu) else r
  }

  function PlaceInst(comps: seq<Computation>, inst: Inst): Inst {
    match inst.op
    case OpSemanticInvoke(comp, args) =>
      if comp < |comps| && comps[comp].realizations != [] then
        Inst(OpCallDirect(comps[comp].realizations[0], args), CallEffect, inst.result)
      else inst
    case _ => inst
  }

  function PlacedReals(reals: seq<Realization>): (r: seq<Realization>)
    ensures |r| == |reals| && forall i :: 0 <= i < |reals| ==> r[i] == PlaceReal(reals[i])
  {
    seq(|reals|, i requires 0 <= i < |reals| => PlaceReal(reals[i]))
  }

  function PlacedInsts(comps: seq<Computation>, insts: seq<Inst>): (r: seq<Inst>)
    ensures |r| == |insts| && forall i :: 0 <= i < |insts| ==> r[i] == PlaceInst(comps, insts[i])
  {
    seq(|insts|, i requires 0 <= i < |insts| => PlaceInst(comps, insts[i]))
  }

  function PlacedModule(m: Module): Module {
    m.(stage := Placed, reals := PlacedReals(m.reals), insts := PlacedInsts(m.comps, m.insts))
  }

  // ---- When it accepts -------------------------------------------------------------------

  predicate RealPlaceable(r: Realization) { !(r.linkage == External && r.abi != C) }

  /** Calls resolve: an invoke has a realization, an external call targets an external C function. */
  predicate CallPlaceable(m: Module, op: Op) {
    match op
    case OpSemanticInvoke(comp, _) => comp < |m.comps| && m.comps[comp].realizations != []
    case OpCallExtern(callee, _) =>
      callee < |m.reals| && m.reals[callee].abi == C && m.reals[callee].linkage == External
    case _ => true
  }

  predicate ValuePlaceable(v: Value) { v.ownership == Plain && v.layout != UnknownLayout }

  /** What the placed module may not contain: ownership markers, raw nulls, variadic C calls. */
  predicate OpPlaceable(m: Module, op: Op) {
    match op
    case OpBorrowView(_) => false
    case OpEscapeView(_) => false
    case OpConstNull => false
    case OpCallExtern(callee, _) => callee < |m.reals| && !m.reals[callee].isVariadic
    case _ => true
  }

  predicate Placeable(m: Module) {
    && m.stage == Open && VerifyOk(m)
    && (forall i :: 0 <= i < |m.reals| ==> RealPlaceable(m.reals[i]))
    && (forall i :: 0 <= i < |m.insts| ==> CallPlaceable(m, m.insts[i].op))
    && (forall i :: 0 <= i < |m.values| ==> ValuePlaceable(m.values[i]))
    && (forall i :: 0 <= i < |m.insts| ==> OpPlaceable(m, m.insts[i].op))
  }

  /** The module checks on the placed copy cannot fail: those on the open module and placement's own
      checks have decided them. */
  lemma PlacedVerifies(m: Module)
    requires Placeable(m)
    ensures VerifyOk(PlacedModule(m))
  {
    hide TermOk, OpOk;
    var M := PlacedModule(m);
    forall i | 0 <= i < |m.reals|
      ensures RealizationOk(M, M.reals[i])
    {
      assert RealizationOk(m, m.reals[i]) && M.reals[i] == PlaceReal(m.reals[i]);
    }
    forall i | 0 <= i < |m.comps|
      ensures ComputationOk(M, M.comps[i])
    {
      assert ComputationOk(m, m.comps[i]);
    }
    forall i | 0 <= i < |m.blocks|
      ensures BlockOk(M, M.blocks[i])
    {
      BlockPlaced(m, i);
    }
    forall i | 0 <= i < |m.insts|
      ensures !OpenOnly(M.insts[i].op)
    {
      assert CallPlaceable(m, m.insts[i].op) && OpPlaceable(m, m.insts[i].op);
    }
    assert forall i :: 0 <= i < |m.values| ==> ValuePlaceable(m.values[i]);
  }

  lemma BlockPlaced(m: Module, i: nat)
    requires Placeable(m) && i < |m.blocks|
    ensures BlockOk(PlacedModule(m), m.blocks[i])
  {
    hide OpOk, RealizationOk, ComputationOk, CallPlaceable, OpPlaceable, ValuePlaceable, PlaceInst;
    var M, bb := PlacedModule(m), m.blocks[i];
    assert BlockOk(m, bb);
    forall j | 0 <= j < |bb.insts|
      ensures InstOk(M, M.insts[bb.insts[j]])
    {
      assert InstOk(m, m.insts[bb.insts[j]]);
      InstStaysOk(m, bb.insts[j]);
    }
    TermStaysOk(m, bb.term.value);
  }

  lemma InstStaysOk(m: Module, i: nat)
    requires Placeable(m) && i < |m.insts| && InstOk(m, m.insts[i])
    ensures InstOk(PlacedModule(m), PlacedModule(m).insts[i])
  {
    var inst := m.insts[i];
    assert CallPlaceable(m, inst.op) && OpPlaceable(m, inst.op);
    match inst.op
    case OpSemanticInvoke(comp, args) =>
      assert ComputationOk(m, m.comps[comp]) && ValidArgs(PlacedModule(m), args);
    case OpCallExtern(callee, args) =>
      assert PlacedModule(m).reals[callee] == PlaceReal(m.reals[callee]) && ValidArgs(PlacedModule(m), args);
    case _ =>
  }

  lemma TermStaysOk(m: Module, t: Term)
    requires TermOk(m, t)
    ensures TermOk(PlacedModule(m), t)
  {
    forall target: nat, args: seq<Id> | EdgeOk(m, target, args)
      ensures EdgeOk(PlacedModule(m), target, args)
    {
      assert forall j :: 0 <= j < |args| ==> ArgOk(m, args[j], m.blocks[target].params[j]);
    }
  }

  /** Placing accepts exactly the placeable modules, and returns the placed copy. */
  method PlaceModule(openModule: Module) returns (out: PlacementResult)
    ensures out.ok <==> Placeable(openModule)
    ensures out.ok ==> out.mod == PlacedModule(openModule) && out.messages == []
    ensures !out.ok ==> out.messages != []
  {
    if openModule.stage != Open {
      return PlacementResult(false, EMPTY_MODULE, [NotOpen]);
    }
    var problems := Verify(openModule);
    if problems != [] {
      return PlacementResult(false, EMPTY_MODULE, [ModuleChecks]);
    }
    var mod := openModule.(stage := Placed);
    var reject;
    mod, reject := PlaceReals(openModule, mod);
    if reject.Some? {
      return PlacementResult(false, mod, [reject.value]);
    }
    mod, reject := PlaceInsts(openModule, mod);
    if reject.Some? {
      return PlacementResult(false, mod, [reject.value]);
    }
    reject := CheckValues(mod);
    if reject.Some? {
      return PlacementResult(false, mod, [reject.value]);
    }
    reject := CheckInsts(openModule, mod);
    if reject.Some? {
      return PlacementResult(false, mod, [reject.value]);
    }
    assert mod == PlacedModule(openModule);
    problems := Verify(mod);
    PlacedVerifies(openModule);
    out := PlacementResult(problems == [], mod, if problems == [] then [] else [ModuleChecks]);
  }

  method PlaceReals(m: Module, start: Module) returns (mod: Module, reject: Option<Rejection>)
    requires start == m.(stage := Placed)
    ensures reject.None? <==> forall i :: 0 <= i < |m.reals| ==> RealPlaceable(m.reals[i])
    ensures reject.None? ==> mod == start.(reals := PlacedReals(m.reals))
  {
    mod, reject := start, None;
    for i := 0 to |m.reals|
      invariant |mod.reals| == |m.reals| && mod == start.(reals := mod.reals)
      invariant forall j :: 0 <= j < i ==> RealPlaceable(m.reals[j]) && mod.reals[j] == PlaceReal(m.reals[j])
      invariant forall j :: i <= j < |m.reals| ==> mod.reals[j] == m.reals[j]
    {
      var r := mod.reals[i];
      if r.linkage == External && r.abi != C {
        return mod, Some(ExternalNotC);
      }
      if r.family == NoFamily || r.family == Core {
        mod := mod.(reals := mod.reals[i := r.(family := Cpu)]);
      }
    }
    assert mod.reals == PlacedReals(m.reals);
  }

  method PlaceInsts(m: Module, start: Module) returns (mod: Module, reject: Option<Rejection>)
    requires start == m.(stage := Placed, reals := PlacedReals(m.reals))
    ensures reject.None? <==> forall i :: 0 <= i < |m.insts| ==> CallPlaceable(m, m.insts[i].op)
    ensures reject.None? ==> mod == PlacedModule(m)
  {
    mod, reject := start, None;
    for i := 0 to |m.insts|
      invariant |mod.insts| == |m.insts| && mod == start.(insts := mod.insts)
      invariant forall j :: 0 <= j < i ==> CallPlaceable(m, m.insts[j].op) && mod.insts[j] == PlaceInst(m.comps, m.insts[j])
      invariant forall j :: i <= j < |m.insts| ==> mod.insts[j] == m.insts[j]
    {
      var inst := mod.insts[i];
      match inst.op
      case OpSemanticInvoke(comp, args) =>
        if comp >= |mod.comps| {
          return mod, Some(BadInvoke);
        }
        if mod.comps[comp].realizations == [] {
          return mod, Some(NoRealization);
        }
        mod := mod.(insts := mod.insts[i := Inst(OpCallDirect(mod.comps[comp].realizations[0], args), CallEffect, inst.result)]);
      case OpCallExtern(callee, _) =>
        if callee >= |mod.reals| || mod.reals[callee].abi != C || mod.reals[callee].linkage != External {
          return mod, Some(BadExternCall);
        }
      case _ =>
    }
    assert mod.insts == PlacedInsts(m.comps, m.insts);
  }

  method CheckValues(mod: Module) returns (reject: Option<Rejection>)
    ensures reject.None? <==> forall i :: 0 <= i < |mod.values| ==> ValuePlaceable(mod.values[i])
  {
    reject := None;
    for i := 0 to |mod.values|
      invariant forall j :: 0 <= j < i ==> ValuePlaceable(mod.values[j])
    {
      if mod.values[i].ownership != Plain {
        return Some(NotPlainValue);
      }
      if mod.values[i].layout == UnknownLayout {
        return Some(UnknownLayoutClass);
      }
    }
  }

  method CheckInsts(m: Module, mod: Module) returns (reject: Option<Rejection>)
    requires mod == PlacedModule(m) && forall i :: 0 <= i < |m.insts| ==> CallPlaceable(m, m.insts[i].op)
    ensures reject.None? <==> forall i :: 0 <= i < |m.insts| ==> OpPlaceable(m, m.insts[i].op)
  {
    reject := None;
    for i := 0 to |mod.insts|
      invariant forall j :: 0 <= j < i ==> OpPlaceable(m, m.insts[j].op)
    {
      assert mod.insts[i] == PlaceInst(m.comps, m.insts[i]);
      match mod.insts[i].op
      case OpBorrowView(_) => return Some(OwnershipMarker);
      case OpEscapeView(_) => return Some(OwnershipMarker);
      case OpConstNull => return Some(RawNull);
      case OpCallExtern(callee, _) =>
        if mod.reals[callee].isVariadic {
          return Some(VariadicCall);
        }
      case _ =>
    }
  }

  // ---- What placement keeps --------------------------------------------------------------

  /** An accepted placed module has no semantic invoke, borrow, escape or raw null left. */
  lemma PlacedClean(m: Module, i: nat)
    requires Placeable(m) && i < |m.insts|
    ensures var op := PlacedModule(m).insts[i].op;
            !op.OpSemanticInvoke? && !op.OpBorrowView? && !op.OpEscapeView? && !op.OpConstNull?
  {
    assert CallPlaceable(m, m.insts[i].op) && OpPlaceable(m, m.insts[i].op);
  }

  /** One step of the placed module is one step of the open one, from any configuration. */
  lemma StepPlaced(P: Prims, m: Module, c: Config)
    requires Placeable(m)
    ensures Step(P, PlacedModule(m), c) == Step(P, m, c)
  {
    var M := PlacedModule(m);
    if c.Run? && c.top.block < |m.blocks| {
      var f := c.top;
      var bb := m.blocks[f.block];
      if f.pc < |bb.insts| && bb.insts[f.pc] < |m.insts| {
        var inst := m.insts[bb.insts[f.pc]];
        assert CallPlaceable(m, inst.op) && M.insts[bb.insts[f.pc]] == PlaceInst(m.comps, inst);
        InstPlaced(P, m, f, c.rest, c.globals, inst);
      } else if bb.term.Some? {
        TermPlaced(m, f, c.rest, c.globals, bb.term.value);
      }
    }
  }

  lemma InstPlaced(P: Prims, m: Module, f: Frame, rest: Stack, g: seq<Val>, inst: Inst)
    requires CallPlaceable(m, inst.op)
    ensures StepInst(P, PlacedModule(m), f, rest, g, PlaceInst(m.comps, inst)) == StepInst(P, m, f, rest, g, inst)
  {
    var M := PlacedModule(m);
    assert ResultType(M, inst.result) == ResultType(m, inst.result);
    match inst.op
    case OpSemanticInvoke(comp, args) =>
      var r := m.comps[comp].realizations[0];
      CallPlaced(m, f, rest, g, r, args, inst.result);
    case OpCallDirect(callee, args) => CallPlaced(m, f, rest, g, callee, args, inst.result);
    case OpCallExtern(callee, args) => assert M.reals[callee] == PlaceReal(m.reals[callee]);
    case _ =>
  }

  lemma CallPlaced(m: Module, f: Frame, rest: Stack, g: seq<Val>, r: nat, args: seq<Id>, x: Id)
    ensures CallReal(PlacedModule(m), f, rest, g, r, args, x) == CallReal(m, f, rest, g, r, args, x)
  {
    assert r < |m.reals| ==> PlacedModule(m).reals[r] == PlaceReal(m.reals[r]);
  }

  lemma TermPlaced(m: Module, f: Frame, rest: Stack, g: seq<Val>, t: Term)
    ensures StepTerm(PlacedModule(m), f, rest, g, t) == StepTerm(m, f, rest, g, t)
  {
  }

  /** Placement preserves runs: step for step, from any configuration. */
  lemma {:induction false} RunsPlaced(P: Prims, m: Module, c: Config, k: nat)
    requires Placeable(m)
    ensures StepN(P, PlacedModule(m), c, k) == StepN(P, m, c, k)
    decreases k
  {
    if k > 0 {
      StepPlaced(P, m, c);
      RunsPlaced(P, m, Step(P, m, c), k - 1);
    }
  }

  // ---- Building and placing together -----------------------------------------------------

  /** The module that building and then placing `S` gives. */
  function FinalModule(S: Program): Module { PlacedModule(LowerProgram(S).mod) }

  predicate Compiles(S: Program) { Accepted(S) && Placeable(LowerProgram(S).mod) }

  function FinalRun(P: Prims, S: Program, fi: nat, vs: seq<Val>, g: seq<Val>, k: nat): Config {
    StepN(P, FinalModule(S), Enter(FinalModule(S), fi, vs, Bottom, g), k)
  }

  /** The placed module runs as the open one from the entry of every function. */
  lemma FinalRunIs(P: Prims, S: Program, fi: nat, vs: seq<Val>, g: seq<Val>, k: nat)
    requires Compiles(S)
    ensures FinalRun(P, S, fi, vs, g, k) == Machine(P, S, fi, vs, g, k)
  {
    var m := LowerProgram(S).mod;
    assert fi < |m.reals| ==> PlacedModule(m).reals[fi] == PlaceReal(m.reals[fi]);
    RunsPlaced(P, m, Start(S, fi, vs, g), k);
  }

  /** Building then placing preserves meaning, over recursive and mutually recursive calls too: the
      source finishes with an outcome if and only if the placed module does, and it never gets stuck. */
  lemma PipelinePreservesMeaning(P: Prims, S: Program, fi: nat, vs: seq<Val>, g: seq<Val>, c: Config)
    requires Compiles(S) && Typing.WellTyped(S) && Callable(S, fi, vs, g) && !c.Run?
    ensures (exists fuel: nat :: SourceEnds(P, S, fi, vs, g, fuel, c)) <==> (exists k: nat :: FinalRun(P, S, fi, vs, g, k) == c)
    ensures forall k: nat :: FinalRun(P, S, fi, vs, g, k) != Stuck
  {
    BuildPreservesMeaning(P, S, fi, vs, g, c);
    forall k: nat
      ensures FinalRun(P, S, fi, vs, g, k) == Machine(P, S, fi, vs, g, k) && FinalRun(P, S, fi, vs, g, k) != Stuck
    {
      FinalRunIs(P, S, fi, vs, g, k);
      NeverStuck(P, S, fi, vs, g, k);
    }
    if k: nat :| Machine(P, S, fi, vs, g, k) == c {
      assert FinalRun(P, S, fi, vs, g, k) == c;
    }
    if k: nat :| FinalRun(P, S, fi, vs, g, k) == c {
      assert Machine(P, S, fi, vs, g, k) == c;
    }
  }

  lemma AcceptedTables(S: Program)
    requires Accepted(S) && Typing.WellTyped(S)
    ensures TablesOk(S, LowerProgram(S).mod)
  {
    AcceptedBuilt(Prims((o, t, v) => None, (o, t, v, w) => None, (k, t, u, v) => None, (i, vs, g) => None), S);
  }

  /** Wherever a call is lowered, the placed module has in the block where its code ends a call of the function
      its callee symbol names, directly or as an external one, with the ids of its arguments; and what a direct
      call enters is the realization that function was lowered to. */
  lemma CallsNamedFunction(P: Prims, S: Program, b: Bld, sc: Scope, cur: nat, e: Expr, xs: LoweredArgs) returns (fi: nat)
    requires Compiles(S) && Typing.WellTyped(S) && e.Call?
    requires Sites.ValueSite(World(P, S, LowerProgram(S).mod), b, sc, cur, e)
    requires xs == LowerArgs(S, b, sc, cur, e.args, Fragments.ArgTypes(S, e.callee))
    ensures FindFunc(S.funcs, e.callee) == Some(fi) && S.funcs[fi].sym == e.callee
    ensures var M := PlacedModule(LowerProgram(S).mod);
            var i := |xs.b.mod.insts|;
            && i < |M.insts| && xs.cur < |M.blocks| && i in M.blocks[xs.cur].insts
            && M.insts[i].op == (if S.funcs[fi].abi == C || e.isCAbi then OpCallExtern(fi, xs.vs) else OpCallDirect(fi, xs.vs))
            && fi < |M.reals| && M.reals[fi].source == fi
  {
    hide LowerProgram, LowerArgs, LowerCall, LowerValue, Placeable, VerifyOk, ValueIds.GlobalsOk, ValueIds.ScopeOk, CallOp, Sites.ValueSite, TablesOk;
    AcceptedTables(S);
    var W := World(P, S, LowerProgram(S).mod);
    var i := |xs.b.mod.insts|;
    fi := CallCode(W, b, sc, cur, e, xs);
    SymbolCalled(S, e, fi, i, xs);
  }

  /** The instruction of a call in the open module. */
  lemma CallCode(W: World, b: Bld, sc: Scope, cur: nat, e: Expr, xs: LoweredArgs) returns (fi: nat)
    requires e.Call? && Sites.ValueSite(W, b, sc, cur, e) && xs == LowerArgs(W.S, b, sc, cur, e.args, Fragments.ArgTypes(W.S, e.callee))
    ensures FindFunc(W.S.funcs, e.callee) == Some(fi)
    ensures var i := |xs.b.mod.insts|;
            && i < |W.M.insts| && xs.cur < |W.M.blocks| && i in W.M.blocks[xs.cur].insts && W.M.insts[i].op == CallOp(W.S, e, fi, xs.vs)
  {
    hide LowerArgs, ValueIds.GlobalsOk, ValueIds.ScopeOk, CallOp;
    var lo := LowerCall(W.S, b, sc, cur, e);
    assert lo == LowerValue(W.S, b, sc, cur, e);
    Fragments.CallParts(W.S, b, sc, cur, e, lo, xs);
    CalleeKnown(W.S, b, sc, cur, e);
    fi := FindFunc(W.S.funcs, e.callee).value;
    NoMessage(W.S, b, sc, cur, e, fi, xs);
    var i := |xs.b.mod.insts|;
    assert lo.b.mod.insts[i] == W.M.insts[i];
    assert lo.b.mod.blocks[xs.cur].insts == xs.b.mod.blocks[xs.cur].insts + [i];
    assert lo.b.mod.blocks[xs.cur].insts[|xs.b.mod.blocks[xs.cur].insts|] == i;
    assert lo.b.mod.blocks[xs.cur].insts <= W.M.blocks[xs.cur].insts;
  }

  lemma CalleeKnown(S: Program, b: Bld, sc: Scope, cur: nat, e: Expr)
    requires e.Call? && LowerCall(S, b, sc, cur, e).b.errs == []
    ensures FindFunc(S.funcs, e.callee).Some?
  {
  }

  lemma NoMessage(S: Program, b: Bld, sc: Scope, cur: nat, e: Expr, fi: nat, xs: LoweredArgs)
    requires e.Call? && FindFunc(S.funcs, e.callee) == Some(fi) && LowerCall(S, b, sc, cur, e).b.errs == []
    requires xs == LowerArgs(S, b, sc, cur, e.args, ParamTypes(S.funcs[fi].params))
    ensures LowerCall(S, b, sc, cur, e) == Emit(xs.b, xs.cur, e.ty, CallEffect, CallOp(S, e, fi, xs.vs), ClassifyLayout(e.ty))
  {
    hide LowerArgs;
  }

  lemma SymbolCalled(S: Program, e: Expr, fi: nat, i: nat, xs: LoweredArgs)
    requires Compiles(S) && TablesOk(S, LowerProgram(S).mod) && e.Call? && FindFunc(S.funcs, e.callee) == Some(fi)
    requires var m := LowerProgram(S).mod;
             && i < |m.insts| && xs.cur < |m.blocks| && i in m.blocks[xs.cur].insts && m.insts[i].op == CallOp(S, e, fi, xs.vs)
    ensures var M := PlacedModule(LowerProgram(S).mod);
            && i < |M.insts| && xs.cur < |M.blocks| && i in M.blocks[xs.cur].insts
            && M.insts[i].op == (if S.funcs[fi].abi == C || e.isCAbi then OpCallExtern(fi, xs.vs) else OpCallDirect(fi, xs.vs))
            && fi < |M.reals| && M.reals[fi].source == fi
  {
    hide LowerProgram, Placeable, VerifyOk;
    var m := LowerProgram(S).mod;
    assert PlacedModule(m).insts[i] == PlaceInst(m.comps, m.insts[i]);
    assert m.comps[fi].realizations == [fi] && m.reals[fi].source == fi;
    assert PlacedModule(m).reals[fi] == PlaceReal(m.reals[fi]);
  }

  /** And that is every call in a function that is lowered at all. */
  lemma EveryCall(P: Prims, S: Program, f: nat, p: Sites.Part) returns (b: Bld, sc: Scope, cur: nat, xs: LoweredArgs, fi: nat)
    requires Compiles(S) && Typing.WellTyped(S) && f < |S.funcs| && !S.funcs[f].isExtern
    requires Sites.InList(S, OpenBlock.ParamNames(S.funcs[f].params), S.funcs[f].body, p) && p.ExprPart? && p.expr.Call?
    ensures sc.owner == f && ValueIds.NamesOf(sc.locals) == p.names
    ensures xs == LowerArgs(S, b, sc, cur, p.expr.args, Fragments.ArgTypes(S, p.expr.callee))
    ensures FindFunc(S.funcs, p.expr.callee) == Some(fi) && S.funcs[fi].sym == p.expr.callee
    ensures var M := PlacedModule(LowerProgram(S).mod);
            var i := |xs.b.mod.insts|;
            && i < |M.insts| && xs.cur < |M.blocks| && i in M.blocks[xs.cur].insts
            && M.insts[i].op == (if S.funcs[fi].abi == C || p.expr.isCAbi then OpCallExtern(fi, xs.vs) else OpCallDirect(fi, xs.vs))
            && fi < |M.reals| && M.reals[fi].source == fi
  {
    hide LowerProgram, LowerArgs, Placeable, VerifyOk, Sites.ValueSite, Sites.InList, ValueIds.NamesOf, PlacedModule;
    Sites.EveryPlace(P, S, f, p);
    var W := World(P, S, LowerProgram(S).mod);
    b, sc, cur :| Sites.ValueSite(W, b, sc, cur, p.expr) && sc.owner == f && ValueIds.NamesOf(sc.locals) == p.names;
    xs := LowerArgs(S, b, sc, cur, p.expr.args, Fragments.ArgTypes(S, p.expr.callee));
    fi := CallsNamedFunction(P, S, b, sc, cur, p.expr, xs);
  }

  /** And no block of the placed module calls anything else directly: each direct call was the call of a
      computation, and enters that computation's only realization, of the function of that number. */
  lemma EveryDirectCall(S: Program, bb: nat, i: nat, callee: nat, args: seq<Id>)
    requires Compiles(S) && Typing.WellTyped(S)
    requires var M := PlacedModule(LowerProgram(S).mod);
             && bb < |M.blocks| && i in M.blocks[bb].insts && i < |M.insts| && M.insts[i].op == OpCallDirect(callee, args)
    ensures var m := LowerProgram(S).mod;
            && m.insts[i].op == OpSemanticInvoke(callee, args) && callee < |S.funcs|
            && PlacedModule(m).reals[callee].source == callee
  {
    hide LowerProgram, Placeable;
    AcceptedTables(S);
    var m := LowerProgram(S).mod;
    assert PlacedModule(m).insts[i] == PlaceInst(m.comps, m.insts[i]);
    assert BlockOk(m, m.blocks[bb]) && InstOk(m, m.insts[i]);
    assert m.comps[m.insts[i].op.comp].realizations == [m.insts[i].op.comp];
    assert PlacedModule(m).reals[callee] == PlaceReal(m.reals[callee]);
  }
}
