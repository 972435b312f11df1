/** How a run of the source and a run of the lowered code correspond at one point, and how the
    code of a fragment sits inside the finished module. */
module SimulationBase {
  import opened Wrappers
  import opened Sir
  import opened SirSemantics
  import opened Goir
  import opened GoirMachine
  import opened GoirVerify
  import opened Lowering
  import opened Growth
  import opened Typing

  /** The program, the finished module, and the meaning of operators. */
  datatype World = World(P: Prims, S: Program, M: Module)

  ghost predicate TablesOk(S: Program, M: Module) {
    && M.stage == Open
    && |M.globals| == |S.globals|
    && |M.comps| == |S.funcs| && |M.reals| == |S.funcs|
    && (forall i :: 0 <= i < |S.funcs| ==> M.comps[i].realizations == [i])
    && (forall i :: 0 <= i < |S.funcs| ==>
          && M.reals[i].source == i && M.reals[i].linkage == LinkageOf(S.funcs[i]) && M.reals[i].abi == S.funcs[i].abi)
    && (forall i :: 0 <= i < |S.funcs| ==> SupportedFunc(S.funcs[i]))
    && (forall i :: 0 <= i < |S.globals| ==> SupportedGlobal(S.globals[i]) && S.globals[i].ty != Unit)
  }

  // ---- Calls -----------------------------------------------------------------------------

  /** From `c0` the machine does in `k` steps what the call's result says, and hands it to `rest`. */
  ghost predicate RunsAs(W: World, fuel: nat, c0: Config, r: CallResult, rest: Stack, k: nat) {
    match r
    case Result(v, g) => StepN(W.P, W.M, c0, k) == Leave(rest, v, g) && |g| == |W.S.globals|
    case CallFault(g) => StepN(W.P, W.M, c0, k) == Fault(g)
    case CallTimeout => k >= fuel && StepN(W.P, W.M, c0, k).Run?
  }

  lemma RunsAfterStep(W: World, fuel: nat, c0: Config, c1: Config, r: CallResult, rest: Stack, k1: nat) returns (k: nat)
    requires StepN(W.P, W.M, c0, 1) == c1 && RunsAs(W, fuel, c1, r, rest, k1)
    ensures RunsAs(W, fuel + 1, c0, r, rest, k)
  {
    StepNAdd(W.P, W.M, c0, 1, k1);
    k := 1 + k1;
  }

  /** The realization of function `fi`, entered with `vs`, runs as the function's body does. */
  ghost predicate CallSim(W: World, fuel: nat, fi: nat, vs: seq<Val>, g: seq<Val>, rest: Stack)
    requires fi < |W.S.funcs|
  {
    exists k: nat :: RunsAs(W, fuel, Enter(W.M, fi, vs, rest, g), CallFunc(W.P, W.S, fuel, fi, vs, g), rest, k)
  }

  predicate Callable(S: Program, fi: nat, vs: seq<Val>, g: seq<Val>) {
    fi < |S.funcs| && !S.funcs[fi].isExtern && |vs| == |S.funcs[fi].params| && |g| == |S.globals|
  }

  /** Calls with less than `fuel` to go run as the source says. */
  ghost predicate CallsOk(W: World, fuel: nat) {
    forall n: nat, fi: nat, vs: seq<Val>, g: seq<Val>, rest: Stack ::
      n < fuel && Callable(W.S, fi, vs, g) ==> CallSim(W, n, fi, vs, g, rest)
  }

  /** What simulating needs to know: the module checks, its tables, and the calls made. */
  ghost predicate Ready(W: World, fuel: nat) { VerifyOk(W.M) && TablesOk(W.S, W.M) && CallsOk(W, fuel) }

  lemma ReadyLess(W: World, fuel: nat, n: nat)
    requires Ready(W, fuel) == true && n <= fuel
    ensures Ready(W, n)
  {
  }

  // ---- Code inside the finished module ---------------------------------------------------

  /** `M` contains the code of a fragment lowered from block `cur` when there were `n` blocks, up
      to module `m` and block `end`: its blocks are final, except `end`, which may still grow. */
  ghost predicate Embeds(n: nat, cur: nat, m: Module, end: Option<nat>, M: Module) {
    && m.values <= M.values && m.insts <= M.insts && |m.blocks| <= |M.blocks|
    && cur < |m.blocks| && n <= |m.blocks|
    && (end.Some? ==> end.value < |m.blocks|)
    && (forall x :: 0 <= x < |m.blocks| && (x == cur || n <= x) && end != Some(x) ==> M.blocks[x] == m.blocks[x])
    && (end.Some? && (end.value == cur || n <= end.value) ==> BlockExt(m.blocks[end.value], M.blocks[end.value]))
  }

  ghost predicate Code(W: World, b: Bld, cur: nat, b': Bld, end: Option<nat>) {
    b'.errs == [] && Embeds(|b.mod.blocks|, cur, b'.mod, end, W.M)
  }

  /** A part of an embedded fragment is embedded, if what comes after the part leaves its blocks alone. */
  lemma CodePart(W: World, b: Bld, cur: nat, ba: Bld, ca: nat, bb: Bld, cb: Option<nat>, bz: Bld, cz: Option<nat>, T: set<nat>)
    requires Code(W, b, cur, bz, cz) == true
    requires Touches(bb, bz, T)
    requires |b.mod.blocks| <= |ba.mod.blocks| <= |bb.mod.blocks|
    requires ca < |bb.mod.blocks| && (ca == cur || |b.mod.blocks| <= ca)
    requires cb.Some? ==> cb.value < |bb.mod.blocks|
    requires forall x :: x in T && x < |bb.mod.blocks| && (x == ca || |ba.mod.blocks| <= x) ==> cb == Some(x)
    requires cz.Some? && cz.value < |bb.mod.blocks| && (cz.value == ca || |ba.mod.blocks| <= cz.value) ==> cb == cz
    ensures Code(W, ba, ca, bb, cb)
  {
    forall x | 0 <= x < |bb.mod.blocks| && (x == ca || |ba.mod.blocks| <= x) && cb != Some(x)
      ensures W.M.blocks[x] == bb.mod.blocks[x]
    {
      assert x !in T;
      assert bz.mod.blocks[x] == bb.mod.blocks[x];
    }
    if cb.Some? && (cb.value == ca || |ba.mod.blocks| <= cb.value) {
      var x := cb.value;
      assert if x in T then BlockExt(bb.mod.blocks[x], bz.mod.blocks[x]) else bz.mod.blocks[x] == bb.mod.blocks[x];
      assert if cz == Some(x) then BlockExt(bz.mod.blocks[x], W.M.blocks[x]) else W.M.blocks[x] == bz.mod.blocks[x];
    }
  }

  /** The first part of a fragment that continues in block `c1`. */
  lemma CodeHead(W: World, b: Bld, cur: nat, b1: Bld, c1: nat, b2: Bld, c2: Option<nat>)
    requires Code(W, b, cur, b2, c2) == true
    requires Grows(b, cur, b1, c1)
    requires GrowsSt(b1, c1, b2, c2)
    ensures Code(W, b, cur, b1, Some(c1))
  {
    CodePart(W, b, cur, b, cur, b1, Some(c1), b2, c2, {c1});
  }

  /** The rest of such a fragment. */
  lemma CodeTail(W: World, b: Bld, cur: nat, b1: Bld, c1: nat, b2: Bld, c2: Option<nat>)
    requires Code(W, b, cur, b2, c2) == true
    requires Grows(b, cur, b1, c1)
    requires GrowsSt(b1, c1, b2, c2)
    ensures Code(W, b1, c1, b2, c2)
  {
  }

  // ---- Corresponding states --------------------------------------------------------------

  ghost predicate OpenAt(b: Bld, cur: nat) { cur < |b.mod.blocks| && b.mod.blocks[cur].term.None? }

  /** The machine is about to run what will be appended next to block `cur`. */
  ghost predicate At(f: Frame, m: Module, cur: nat) {
    cur < |m.blocks| && f.block == cur && f.pc == |m.blocks[cur].insts|
  }

  /** Which slot holds which cell of the store; shadowed cells stay in it. */
  type Cells = map<nat, nat>

  ghost predicate MemRel(n: nat, mu: Cells, store: seq<Val>, f: Frame) {
    && (forall l :: l in mu ==> l < |store| && mu[l] < n && mu[l] in f.slots && f.slots[mu[l]] == store[l])
    && (forall l, l' :: l in mu && l' in mu && mu[l] == mu[l'] ==> l == l')
  }

  ghost predicate BindRel(n: nat, bd: Binding, bind: Bind, mu: Cells, store: seq<Val>, f: Frame) {
    && ReadsAsValue(bd.layout)
    && (bd.value.Some? ==> bd.value.value < n)
    && match bind
       case Imm(v) =>
         && !bd.isPlace
         && (if bd.value.Some? then Holds(f, bd.value.value, v) else bd.ty == Unit)
       case Cell(l) =>
         && bd.isPlace && bd.value.Some? && l < |store|
         && bd.value.value in f.regs && f.regs[bd.value.value] == LocalPlace(bd.value.value)
         && (if bd.ty == Unit then forall l' :: l' in mu ==> mu[l'] != bd.value.value
             else l in mu && mu[l] == bd.value.value)
  }

  ghost predicate Related(n: nat, sc: Scope, env: Env, mu: Cells, st: St, f: Frame) {
    && sc.locals.Keys == env.Keys
    && MemRel(n, mu, st.store, f)
    && forall s :: s in sc.locals ==> BindRel(n, sc.locals[s], env[s], mu, st.store, f)
  }

  /** A mutable local's slot stores values of the local's type; an immutable one is not a place. */
  ghost predicate SlotsTyped(values: seq<Value>, sc: Scope) {
    forall s :: s in sc.locals && sc.locals[s].value.Some? ==>
      && sc.locals[s].value.value < |values|
      && if sc.locals[s].isPlace then values[sc.locals[s].value.value].elemTy == sc.locals[s].ty
         else !values[sc.locals[s].value.value].isPlace
  }

  /** A point of both runs: in the source, environment and state; in the lowered code, the builder
      state, the block being filled and the machine frame. */
  datatype Point = Point(b: Bld, cur: nat, sc: Scope, env: Env, mu: Cells, st: St, f: Frame)

  /** The two sides of a point correspond. */
  ghost predicate Here(W: World, p: Point) {
    && OpenAt(p.b, p.cur)
    && At(p.f, p.b.mod, p.cur)
    && |p.st.globals| == |W.S.globals|
    && SlotsTyped(p.b.mod.values, p.sc)
    && Related(|p.b.mod.values|, p.sc, p.env, p.mu, p.st, p.f)
  }

  function Conf(p: Point, rest: Stack): Config { Run(p.f, rest, p.st.globals) }

  /** Registers below `n` keep their contents. */
  ghost predicate Keeps(n: nat, f: Frame, f': Frame) {
    forall x :: x in f.regs && x < n ==> x in f'.regs && f'.regs[x] == f.regs[x]
  }

  /** `q` comes after `p`: earlier values keep their registers, cells are only added. */
  ghost predicate Onward(p: Point, q: Point) {
    && p.b.mod.values <= q.b.mod.values
    && Keeps(|p.b.mod.values|, p.f, q.f)
    && |p.st.store| <= |q.st.store|
  }

  ghost predicate SameScope(p: Point, q: Point) { q.sc == p.sc && q.env == p.env && q.mu == p.mu }

  lemma OnwardTrans(p: Point, q: Point, t: Point)
    requires Onward(p, q) == true && Onward(q, t) == true
    ensures Onward(p, t)
  {
  }

  function TypesOf(locals: map<Sym, Binding>): Types { map s | s in locals :: locals[s].ty }

  /** Changing only registers at or above `n` disturbs nothing. */
  lemma RelatedKeeps(n: nat, n': nat, sc: Scope, env: Env, mu: Cells, st: St, g: seq<Val>, f: Frame, f': Frame)
    requires Related(n, sc, env, mu, st, f)
    requires Keeps(n, f, f') && f'.slots == f.slots && n <= n'
    ensures Related(n', sc, env, mu, st.(globals := g), f')
  {
    forall s | s in sc.locals
      ensures BindRel(n', sc.locals[s], env[s], mu, st.store, f')
    {
      assert BindRel(n, sc.locals[s], env[s], mu, st.store, f);
    }
  }

  // ---- Running appended instructions -----------------------------------------------------

  /** An appended instruction is the next thing the machine runs, and it passed the module checks. */
  lemma StepAppend(W: World, p: Point, op: Op, eff: Effect, result: Option<Value>, rest: Stack)
    requires VerifyOk(W.M) == true
    requires OpenAt(p.b, p.cur) && At(p.f, p.b.mod, p.cur)
    requires Code(W, p.b, p.cur, Append(p.b, p.cur, op, eff, result).b, Some(p.cur)) == true
    ensures var lo := Append(p.b, p.cur, op, eff, result);
            var inst := Inst(op, eff, lo.v);
            && StepN(W.P, W.M, Conf(p, rest), 1) == StepInst(W.P, W.M, p.f, rest, p.st.globals, inst)
            && InstOk(W.M, inst)
            && OpenAt(lo.b, p.cur)
            && |lo.b.mod.blocks[p.cur].insts| == p.f.pc + 1
            && (result.Some? ==> |p.b.mod.values| < |W.M.values| && W.M.values[|p.b.mod.values|] == result.value)
  {
    var lo := Append(p.b, p.cur, op, eff, result);
    var inst := Inst(op, eff, lo.v);
    var iid := |p.b.mod.insts|;
    assert lo.b.mod.blocks[p.cur].insts == p.b.mod.blocks[p.cur].insts + [iid];
    assert BlockExt(lo.b.mod.blocks[p.cur], W.M.blocks[p.cur]);
    assert W.M.blocks[p.cur].insts[p.f.pc] == lo.b.mod.blocks[p.cur].insts[p.f.pc] == iid;
    assert W.M.insts[iid] == lo.b.mod.insts[iid] == inst;
    assert BlockOk(W.M, W.M.blocks[p.cur]);
    var c := Step(W.P, W.M, Conf(p, rest));
    assert StepN(W.P, W.M, c, 0) == c;
  }

  /** The point after an appended instruction that leaves `r` in its result. */
  function AfterAppend(p: Point, lo: Lowered, r: Reg): Point { p.(b := lo.b, f := Advance(p.f, lo.v, r)) }

  lemma HereAppend(W: World, p: Point, op: Op, eff: Effect, result: Option<Value>, g: seq<Val>, r: Reg)
    requires Here(W, p) == true && |g| == |p.st.globals|
    ensures var lo := Append(p.b, p.cur, op, eff, result);
            var q := AfterAppend(p, lo, r).(st := p.st.(globals := g));
            && Here(W, q) && Onward(p, q)
            && (lo.v.Some? ==> lo.v.value in q.f.regs && q.f.regs[lo.v.value] == r && lo.v.value < |lo.b.mod.values|)
  {
    var lo := Append(p.b, p.cur, op, eff, result);
    RelatedKeeps(|p.b.mod.values|, |lo.b.mod.values|, p.sc, p.env, p.mu, p.st, g, p.f, Advance(p.f, lo.v, r));
  }

  /** The id `x` is a value, not a place, and holds `v`. */
  ghost predicate Yields(b: Bld, x: nat, f: Frame, v: Val) {
    x < |b.mod.values| && !b.mod.values[x].isPlace && Holds(f, x, v)
  }

  // ---- What simulating an expression establishes -----------------------------------------

  /** In `k` steps the machine gets from `p` to `q`, a corresponding point in the same scope. */
  ghost predicate Reaches(W: World, p: Point, q: Point, rest: Stack, k: nat) {
    StepN(W.P, W.M, Conf(p, rest), k) == Conf(q, rest) && Here(W, q) && Onward(p, q) && SameScope(p, q)
  }

  lemma ReachesTrans(W: World, p: Point, q: Point, t: Point, rest: Stack, k1: nat, k2: nat) returns (k: nat)
    requires Reaches(W, p, q, rest, k1) == true && Reaches(W, q, t, rest, k2) == true
    ensures Reaches(W, p, t, rest, k) && k >= k1 && k >= k2
  {
    k := k1 + k2;
    StepNAdd(W.P, W.M, Conf(p, rest), k1, k2);
  }

  /** The point an evaluation ends at. */
  function AfterEv(p: Point, lo: Lowered, st: St, f: Frame): Point { p.(b := lo.b, cur := lo.cur, st := st, f := f) }

  /** From `p` the machine does in `k` steps what evaluating to `r` does: it reaches the corresponding
      point with the value in `lo.v`, or faults alike, or is still running. An expression without an
      id has unit type. */
  ghost predicate SimEv(W: World, fuel: nat, p: Point, r: EvalResult, lo: Lowered, ty: Ty, rest: Stack, k: nat, f': Frame) {
    match r
    case Ev(v, st') =>
      && Reaches(W, p, AfterEv(p, lo, st', f'), rest, k)
      && (if lo.v.Some? then Yields(lo.b, lo.v.value, f', v) else ty == Unit)
    case EvFault(g) => StepN(W.P, W.M, Conf(p, rest), k) == Fault(g)
    case EvTimeout => k >= fuel && StepN(W.P, W.M, Conf(p, rest), k).Run?
  }

  /** The point reached when an evaluation succeeds. */
  lemma SimEvPoint(W: World, fuel: nat, p: Point, r: EvalResult, lo: Lowered, ty: Ty, rest: Stack, k: nat, f': Frame)
    requires SimEv(W, fuel, p, r, lo, ty, rest, k, f') == true && r.Ev?
    ensures var q := AfterEv(p, lo, r.st, f'); Reaches(W, p, q, rest, k) && Here(W, q) && Onward(p, q)
    ensures lo.v.Some? ==> Yields(lo.b, lo.v.value, f', r.v)
    ensures lo.v.None? ==> ty == Unit
  {
  }

  /** A run that reached `q` and goes on as `SimEv` says does so from the start. */
  lemma SimEvAfter(W: World, fuel: nat, k1: nat, p: Point, q: Point, r: EvalResult, lo: Lowered, ty: Ty,
                   rest: Stack, k2: nat, f2: Frame) returns (k: nat)
    requires Reaches(W, p, q, rest, k1)
    requires SimEv(W, fuel, q, r, lo, ty, rest, k2, f2)
    ensures SimEv(W, fuel, p, r, lo, ty, rest, k, f2)
  {
    k := k1 + k2;
    StepNAdd(W.P, W.M, Conf(p, rest), k1, k2);
    if r.Ev? {
      OnwardTrans(p, q, AfterEv(q, lo, r.st, f2));
    }
  }

  /** A part that does not go on is how the whole ends, whatever else the whole would have done. */
  lemma SimEvStop(W: World, fuel: nat, p: Point, r: EvalResult, x: Lowered, tx: Ty, lo: Lowered, ty: Ty, rest: Stack,
                  k: nat, f': Frame)
    requires SimEv(W, fuel, p, r, x, tx, rest, k, f') == true && !r.Ev?
    ensures SimEv(W, fuel, p, r, lo, ty, rest, k, f')
  {
  }

  /** Of an expression without an id neither the value nor a type other than unit matters. */
  lemma SimEvAs(W: World, fuel: nat, p: Point, r: EvalResult, lo: Lowered, ty: Ty, r': EvalResult, ty': Ty, rest: Stack,
                k: nat, f': Frame)
    requires SimEv(W, fuel, p, r, lo, ty, rest, k, f') == true && (ty == Unit ==> ty' == Unit)
    requires r' == r || (lo.v.None? && r.Ev? && r'.Ev? && r'.st == r.st)
    ensures SimEv(W, fuel, p, r', lo, ty', rest, k, f')
  {
  }

  /** Given that the module checks accept it, the instruction produces `val` (or traps). */
  ghost predicate Computes(W: World, f: Frame, rest: Stack, g: seq<Val>, op: Op, eff: Effect, x: Id, ty: Ty, val: Option<Val>) {
    InstOk(W.M, Inst(op, eff, x)) && ResultType(W.M, x) == ty ==>
      StepInst(W.P, W.M, f, rest, g, Inst(op, eff, x)) == Produce(f, rest, g, x, val)
  }

  lemma LoadComputes(W: World, f: Frame, rest: Stack, g: seq<Val>, place: Id, x: Id, ty: Ty, v: Val)
    requires LoadPlace(f, g, place) == Some(v)
    ensures Computes(W, f, rest, g, OpLoad(place), MayRead, x, ty, Some(v))
  {
  }

  /** The operand `x` holds `v`, unless it is the invalid id. */
  ghost predicate Operand(f: Frame, x: Id, v: Val) { x.Some? ==> Holds(f, x.value, v) }

  lemma UnaryComputes(W: World, f: Frame, rest: Stack, g: seq<Val>, op: UnOp, src: Id, x: Id, ty: Ty, v: Val)
    requires Operand(f, src, v)
    ensures Computes(W, f, rest, g, OpUnary(op, src), Pure, x, ty, W.P.un(op, ty, v))
  {
  }

  lemma CastComputes(W: World, f: Frame, rest: Stack, g: seq<Val>, kind: CastKind, to: Ty, eff: Effect, src: Id, x: Id, ty: Ty, v: Val)
    requires Operand(f, src, v)
    ensures Computes(W, f, rest, g, OpCast(kind, to, src), eff, x, ty, W.P.cast(kind, ty, to, v))
  {
  }

  lemma BinaryComputes(W: World, f: Frame, rest: Stack, g: seq<Val>, op: BinOp, lhs: Id, rhs: Id, x: Id, ty: Ty, v: Val, w: Val)
    requires Operand(f, lhs, v) && Operand(f, rhs, w)
    ensures Computes(W, f, rest, g, OpBinary(op, lhs, rhs), Pure, x, ty, W.P.bin(op, ty, v, w))
  {
  }

  lemma NoneComputes(W: World, f: Frame, rest: Stack, g: seq<Val>, x: Id, ty: Ty)
    ensures Computes(W, f, rest, g, OpOptionalNone, Pure, x, ty, Some(NoneV))
  {
  }

  lemma SomeComputes(W: World, f: Frame, rest: Stack, g: seq<Val>, src: Id, x: Id, ty: Ty, v: Val)
    requires Operand(f, src, v)
    ensures Computes(W, f, rest, g, OpOptionalSome(src), Pure, x, ty, Some(SomeV(v)))
  {
  }

  /** The presence test of an optional; anything else is a fault. */
  function Presence(v: Val): Option<Val> {
    if v.SomeV? then Some(BoolV(true)) else if v.NoneV? then Some(BoolV(false)) else None
  }

  lemma PresentComputes(W: World, f: Frame, rest: Stack, g: seq<Val>, src: Id, x: Id, ty: Ty, v: Val)
    requires Operand(f, src, v)
    ensures Computes(W, f, rest, g, OpOptionalIsPresent(src), Pure, x, ty, Presence(v))
  {
  }

  lemma GetComputes(W: World, f: Frame, rest: Stack, g: seq<Val>, src: Id, x: Id, ty: Ty, v: Val)
    requires Operand(f, src, SomeV(v))
    ensures Computes(W, f, rest, g, OpOptionalGet(src), Pure, x, ty, Some(v))
  {
  }

  /** One emitted instruction that produces `val` (or traps). */
  lemma SimEmit(W: World, fuel: nat, p: Point, ty: Ty, eff: Effect, op: Op, layout: LayoutClass, val: Option<Val>, lo: Lowered,
                r: EvalResult, rest: Stack) returns (k: nat, f': Frame)
    requires VerifyOk(W.M) == true && Here(W, p) == true && r == ReadResult(val, p.st)
    requires lo == Emit(p.b, p.cur, ty, eff, op, layout)
    requires Code(W, p.b, p.cur, lo.b, Some(p.cur)) == true
    requires Computes(W, p.f, rest, p.st.globals, op, eff, lo.v, ty, val) == true
    ensures SimEv(W, fuel, p, r, lo, ty, rest, k, f')
  {
    var result := if ty == Unit then None else Some(PlainValue(ty, eff, layout));
    StepAppend(W, p, op, eff, result, rest);
    k := 1;
    f' := if val.Some? then Advance(p.f, lo.v, Datum(val.value)) else p.f;
    if val.Some? {
      HereAppend(W, p, op, eff, result, p.st.globals, Datum(val.value));
    }
  }

  /** One emitted instruction, run after `k1` steps that started a larger fragment. */
  lemma SimEmitAfter(W: World, fuel: nat, k1: nat, p: Point, q: Point,
                     ty: Ty, eff: Effect, op: Op, layout: LayoutClass, val: Option<Val>, lo: Lowered, r: EvalResult, rest: Stack)
    returns (k: nat, f': Frame)
    requires VerifyOk(W.M) == true && r == ReadResult(val, q.st)
    requires Reaches(W, p, q, rest, k1) == true
    requires lo == Emit(q.b, q.cur, ty, eff, op, layout)
    requires Code(W, q.b, q.cur, lo.b, Some(q.cur)) == true
    requires Computes(W, q.f, rest, q.st.globals, op, eff, lo.v, ty, val) == true
    ensures SimEv(W, fuel, p, r, lo, ty, rest, k, f')
  {
    k, f' := SimEmit(W, fuel, q, ty, eff, op, layout, val, lo, r, rest);
    k := SimEvAfter(W, fuel, k1, p, q, r, lo, ty, rest, k, f');
  }

  // ---- Moving between blocks -------------------------------------------------------------

  /** A block that nothing touches after `bb` is final in `M`. */
  lemma CodeBlock(W: World, b: Bld, cur: nat, bb: Bld, x: nat, bz: Bld, cz: Option<nat>, T: set<nat>)
    requires Code(W, b, cur, bz, cz) == true && Touches(bb, bz, T)
    requires x < |bb.mod.blocks| && (x == cur || |b.mod.blocks| <= x) && x !in T && cz != Some(x)
    ensures W.M.blocks[x] == bb.mod.blocks[x]
  {
    assert bz.mod.blocks[x] == bb.mod.blocks[x];
  }

  /** In the finished module block `cur` ends in `term`, if it was still open. */
  ghost predicate ClosedBy(W: World, b: Bld, cur: nat, term: Term) {
    && cur < |b.mod.blocks| && cur < |W.M.blocks|
    && (b.mod.blocks[cur].term.None? ==> W.M.blocks[cur] == b.mod.blocks[cur].(term := Some(term)))
  }

  /** At the end of a block's instructions the machine runs its terminator. */
  lemma StepTerminator(W: World, p: Point, term: Term, rest: Stack)
    requires VerifyOk(W.M) == true
    requires OpenAt(p.b, p.cur) && At(p.f, p.b.mod, p.cur) && ClosedBy(W, p.b, p.cur, term) == true
    ensures TermOk(W.M, term)
    ensures StepN(W.P, W.M, Conf(p, rest), 1) == StepTerm(W.M, p.f, rest, p.st.globals, term)
  {
    assert BlockOk(W.M, W.M.blocks[p.cur]);
    var c := Step(W.P, W.M, Conf(p, rest));
    assert StepN(W.P, W.M, c, 0) == c;
  }

  function Moved(f: Frame, target: nat): Frame { Frame(target, 0, f.regs, f.slots) }

  /** A jump without arguments to a block without parameters. */
  lemma GotoPlain(W: World, f: Frame, rest: Stack, g: seq<Val>, target: nat)
    requires EdgeOk(W.M, target, [])
    ensures Goto(W.M, f, rest, g, target, []) == Run(Moved(f, target), rest, g)
  {
    assert ReadAll(f, []) == Some([]);
  }

  /** Arriving at an empty block of a later module. */
  lemma HereMoved(W: World, p: Point, b': Bld, target: nat)
    requires Here(W, p) == true
    requires p.b.mod.values <= b'.mod.values
    requires OpenAt(b', target) && b'.mod.blocks[target].insts == []
    ensures var q := p.(b := b', cur := target, f := Moved(p.f, target)); Here(W, q) && Onward(p, q)
  {
    RelatedKeeps(|p.b.mod.values|, |b'.mod.values|, p.sc, p.env, p.mu, p.st, p.st.globals, p.f, Moved(p.f, target));
  }

  /** Block `cur` branches on `cond`; the way it goes, `x` or `y`, is an empty block of `b'`. */
  ghost predicate ForkAt(W: World, b: Bld, cur: nat, cond: Id, yes: bool, x: nat, y: nat, b': Bld) {
    && ClosedBy(W, b, cur, TermCondBr(cond, x, y))
    && b.mod.values <= b'.mod.values
    && var t := if yes then x else y; OpenAt(b', t) && b'.mod.blocks[t].insts == []
  }

  /** A two-way branch on a known condition. */
  lemma SimFork(W: World, p: Point, cond: Id, yes: bool, x: nat, y: nat, b': Bld, rest: Stack) returns (q: Point)
    requires VerifyOk(W.M) == true && Here(W, p) == true
    requires ForkAt(W, p.b, p.cur, cond, yes, x, y, b') == true
    requires cond.Some? ==> Holds(p.f, cond.value, BoolV(yes))
    ensures Reaches(W, p, q, rest, 1) && Here(W, q)
    ensures var t := if yes then x else y; q == p.(b := b', cur := t, f := Moved(p.f, t))
  {
    var t := if yes then x else y;
    StepTerminator(W, p, TermCondBr(cond, x, y), rest);
    GotoPlain(W, p.f, rest, p.st.globals, t);
    HereMoved(W, p, b', t);
    q := p.(b := b', cur := t, f := Moved(p.f, t));
  }

  /** A branch on a condition that is not a boolean is a fault. */
  lemma ForkFault(W: World, p: Point, cond: Id, v: Val, x: nat, y: nat, rest: Stack)
    requires VerifyOk(W.M) == true && Here(W, p) == true && !v.BoolV?
    requires ClosedBy(W, p.b, p.cur, TermCondBr(cond, x, y)) == true
    requires cond.Some? ==> Holds(p.f, cond.value, v)
    ensures StepN(W.P, W.M, Conf(p, rest), 1) == Fault(p.st.globals)
  {
    StepTerminator(W, p, TermCondBr(cond, x, y), rest);
  }

  /** Jumping from `q` to block `target` of a later module with a value for its one parameter `j`,
      which `p` before `q` knew nothing of. */
  lemma HereJoined(W: World, p: Point, q: Point, b': Bld, target: nat, j: nat, v: Val)
    requires Here(W, p) == true && Here(W, q) == true && Onward(p, q) == true && SameScope(p, q)
    requires p.b.mod.values <= b'.mod.values && |p.b.mod.values| <= j
    requires OpenAt(b', target) && b'.mod.blocks[target].insts == []
    ensures var t := p.(b := b', cur := target, st := q.st, f := Frame(target, 0, q.f.regs[j := Datum(v)], q.f.slots));
            Here(W, t) && Onward(p, t)
  {
    var n := |p.b.mod.values|;
    RelatedOuter(W, p, q);
    var f' := Frame(target, 0, q.f.regs[j := Datum(v)], q.f.slots);
    RelatedKeeps(n, |b'.mod.values|, p.sc, p.env, p.mu, q.st, q.st.globals, q.f, f');
  }

  lemma JumpOne(W: World, f: Frame, rest: Stack, g: seq<Val>, target: nat, x: Id, j: nat, v: Val)
    requires EdgeOk(W.M, target, [x]) && W.M.blocks[target].params == [j]
    requires x.Some? && Holds(f, x.value, v)
    ensures Goto(W.M, f, rest, g, target, [x]) == Run(Frame(target, 0, f.regs[j := Datum(v)], f.slots), rest, g)
  {
    var xs := [x];
    assert xs[1..] == [] && ReadAll(f, []) == Some([]);
    assert ReadAll(f, xs) == Some([v] + []) && [v] + [] == [v];
    var ps := [j];
    assert ps[..0] == [] && [v][..0] == [];
    assert BindRegs(f.regs, [], []) == f.regs;
  }

  /** A value is computed and handed to the join block: what the whole construct yields. */
  lemma SimJoin(W: World, fuel: nat, p: Point, r: EvalResult, x: Lowered, tx: Ty, k1: nat, f1: Frame, lo: Lowered, ty: Ty, rest: Stack)
    returns (k: nat, f': Frame)
    requires VerifyOk(W.M) == true && Here(W, p) == true
    requires SimEv(W, fuel, p, r, x, tx, rest, k1, f1) == true
    requires EndsIn(W, x, lo) == true && JoinBlock(W, p.b, lo) == true
    ensures SimEv(W, fuel, p, r, lo, ty, rest, k, f')
  {
    k, f' := k1, f1;
    if r.Ev? {
      var q := AfterEv(p, x, r.st, f1);
      SimEvPoint(W, fuel, p, r, x, tx, rest, k1, f1);
      StepTerminator(W, q, TermBr(lo.cur, [x.v]), rest);
      JumpOne(W, f1, rest, r.st.globals, lo.cur, x.v, lo.v.value, r.v);
      HereJoined(W, p, q, lo.b, lo.cur, lo.v.value, r.v);
      StepNAdd(W.P, W.M, Conf(p, rest), k1, 1);
      k, f' := k1 + 1, Frame(lo.cur, 0, f1.regs[lo.v.value := Datum(r.v)], f1.slots);
    }
  }

  /** One way of a fork: from `u` to `w`, the value computed there, then the join. */
  lemma FinishWay(W: World, fuel: nat, u: Point, w: Point, r: EvalResult, x: Lowered, tx: Ty, k1: nat, f1: Frame, lo: Lowered, ty: Ty,
                  rest: Stack) returns (k: nat, f': Frame)
    requires VerifyOk(W.M) == true && Here(W, u) == true
    requires Reaches(W, u, w, rest, 1) == true
    requires SimEv(W, fuel, w, r, x, tx, rest, k1, f1) == true
    requires EndsIn(W, x, lo) == true && JoinBlock(W, u.b, lo) == true
    ensures SimEv(W, fuel, u, r, lo, ty, rest, k, f')
  {
    k := SimEvAfter(W, fuel, 1, u, w, r, x, tx, rest, k1, f1);
    k, f' := SimJoin(W, fuel, u, r, x, tx, k, f1, lo, ty, rest);
  }

  /** After `x` the finished module jumps to the join with `x`'s value. */
  ghost predicate EndsIn(W: World, x: Lowered, lo: Lowered) {
    x.v.Some? && ClosedBy(W, x.b, x.cur, TermBr(lo.cur, [x.v]))
  }

  /** `lo` is the start of an empty block whose one parameter is `lo.v`, which came after `b`. */
  ghost predicate JoinBlock(W: World, b: Bld, lo: Lowered) {
    && lo.v.Some? && |b.mod.values| <= lo.v.value < |lo.b.mod.values| && !lo.b.mod.values[lo.v.value].isPlace
    && b.mod.values <= lo.b.mod.values
    && OpenAt(lo.b, lo.cur) && lo.b.mod.blocks[lo.cur].insts == []
    && lo.cur < |W.M.blocks| && W.M.blocks[lo.cur].params == [lo.v.value]
  }

  /** What an expression's id says about its type: only a unit expression may have none. */
  function YieldType(from: Ty, target: Ty): Ty { if from == Unit then Unit else target }

  // ---- Arguments -------------------------------------------------------------------------

  function AfterArgs(p: Point, xs: LoweredArgs, st: St, f: Frame): Point { p.(b := xs.b, cur := xs.cur, st := st, f := f) }

  ghost predicate SimArgsEv(W: World, fuel: nat, p: Point, r: ArgsResult, xs: LoweredArgs, rest: Stack, k: nat, f': Frame) {
    match r
    case EvArgs(vs, st') =>
      && Reaches(W, p, AfterArgs(p, xs, st', f'), rest, k)
      && |vs| == |xs.vs|
      && (forall i :: 0 <= i < |vs| ==> Operand(f', xs.vs[i], vs[i]))
      && (forall i :: 0 <= i < |vs| && xs.vs[i].Some? ==> xs.vs[i].value < |xs.b.mod.values|)
    case ArgsFault(g) => StepN(W.P, W.M, Conf(p, rest), k) == Fault(g)
    case ArgsTimeout => k >= fuel && StepN(W.P, W.M, Conf(p, rest), k).Run?
  }

  /** The first argument's run, then the others'. */
  lemma SimArgsCons(W: World, fuel: nat, p: Point, rx: EvalResult, x: Lowered, ty: Ty, k1: nat, f1: Frame,
                    ry: ArgsResult, ys: LoweredArgs, k2: nat, f2: Frame, r: ArgsResult, xs: LoweredArgs, rest: Stack)
    returns (k: nat)
    requires rx.Ev? && SimEv(W, fuel, p, rx, x, ty, rest, k1, f1) == true
    requires var q := AfterEv(p, x, rx.st, f1); SimArgsEv(W, fuel, q, ry, ys, rest, k2, f2) == true
    requires r == ConsArg(rx.v, ry) && xs == LoweredArgs(ys.b, ys.cur, [x.v] + ys.vs)
    ensures SimArgsEv(W, fuel, p, r, xs, rest, k, f2)
  {
    k := k1 + k2;
    StepNAdd(W.P, W.M, Conf(p, rest), k1, k2);
    if r.EvArgs? {
      OnwardTrans(p, AfterEv(p, x, rx.st, f1), AfterArgs(p, xs, r.st, f2));
      forall i | 0 <= i < |r.vs|
        ensures Operand(f2, xs.vs[i], r.vs[i]) && (xs.vs[i].Some? ==> xs.vs[i].value < |xs.b.mod.values|)
      {
        if i > 0 {
          assert xs.vs[i] == ys.vs[i - 1] && r.vs[i] == ry.vs[i - 1];
          assert Operand(f2, ys.vs[i - 1], ry.vs[i - 1]);
        }
      }
    }
  }

  lemma SimArgsNil(W: World, fuel: nat, p: Point, rest: Stack)
    requires Here(W, p) == true
    ensures SimArgsEv(W, fuel, p, EvArgs([], p.st), LoweredArgs(p.b, p.cur, []), rest, 0, p.f)
  {
  }

  lemma SimArgsStop(W: World, fuel: nat, p: Point, r: EvalResult, x: Lowered, ty: Ty, xs: LoweredArgs, rest: Stack, k: nat,
                    f': Frame)
    requires SimEv(W, fuel, p, r, x, ty, rest, k, f') == true && !r.Ev?
    ensures SimArgsEv(W, fuel, p, StopArgs(r), xs, rest, k, f')
  {
  }

  /** Arguments that are all valid ids can be read together. */
  lemma {:induction false} ReadAllHolds(f: Frame, xs: seq<Id>, vs: seq<Val>)
    requires |xs| == |vs|
    requires forall i :: 0 <= i < |vs| ==> xs[i].Some? && Operand(f, xs[i], vs[i])
    ensures ReadAll(f, xs) == Some(vs)
  {
    if xs != [] {
      assert Operand(f, xs[0], vs[0]);
      ReadAllHolds(f, xs[1..], vs[1..]);
      assert vs == [vs[0]] + vs[1..];
    }
  }

  // ---- What simulating a statement establishes -------------------------------------------

  ghost predicate Extends(mu: Cells, mu': Cells) { forall l :: l in mu ==> l in mu' && mu'[l] == mu[l] }

  /** The outcomes of a statement other than continuing after it. */
  ghost predicate SimStop(W: World, fuel: nat, p: Point, r: ExecResult, rest: Stack, k: nat) {
    match r
    case Next(_, _) => false
    case Returned(v, g) => StepN(W.P, W.M, Conf(p, rest), k) == Leave(rest, v, g) && |g| == |W.S.globals|
    case ExFault(g) => StepN(W.P, W.M, Conf(p, rest), k) == Fault(g)
    case ExTimeout => k >= fuel && StepN(W.P, W.M, Conf(p, rest), k).Run?
  }

  /** In `k` steps the machine gets from `p` to `q`, a corresponding point perhaps with more names. */
  ghost predicate Goes(W: World, p: Point, q: Point, rest: Stack, k: nat) {
    StepN(W.P, W.M, Conf(p, rest), k) == Conf(q, rest) && Here(W, q) && Onward(p, q) && Extends(p.mu, q.mu)
  }

  ghost predicate SimEx(W: World, fuel: nat, p: Point, r: ExecResult, ls: LoweredStmt, rest: Stack, k: nat, q: Point) {
    if r.Next? then
      && Goes(W, p, q, rest, k)
      && ls.st.cur == Some(q.cur) && q.b == ls.b && q.sc == ls.st.scope && q.env == r.env && q.st == r.st
    else SimStop(W, fuel, p, r, rest, k)
  }

  lemma SimExStop(W: World, fuel: nat, p: Point, rx: EvalResult, x: Lowered, ty: Ty, r: ExecResult, ls: LoweredStmt, rest: Stack,
                  k: nat, f': Frame, q: Point)
    requires SimEv(W, fuel, p, rx, x, ty, rest, k, f') == true && !rx.Ev? && r == Stop(rx)
    ensures SimEx(W, fuel, p, r, ls, rest, k, q)
  {
  }

  /** A run that went to `q` and goes on as `SimEx` says, with `n` fuel to go, does so from the start. */
  lemma SimExAfter(W: World, n: nat, fuel: nat, k1: nat, p: Point, q: Point, r: ExecResult, ls: LoweredStmt, rest: Stack, k2: nat,
                   t: Point) returns (k: nat)
    requires Goes(W, p, q, rest, k1) == true && fuel <= n + k1
    requires SimEx(W, n, q, r, ls, rest, k2, t) == true
    ensures SimEx(W, fuel, p, r, ls, rest, k, t)
  {
    k := k1 + k2;
    StepNAdd(W.P, W.M, Conf(p, rest), k1, k2);
    if r.Next? {
      OnwardTrans(p, q, t);
    }
  }

  /** What a statement that does not go on comes to does not depend on the code after it. */
  lemma SimExHalt(W: World, fuel: nat, p: Point, r: ExecResult, l1: LoweredStmt, ls: LoweredStmt, rest: Stack, k: nat, q: Point)
    requires SimEx(W, fuel, p, r, l1, rest, k, q) == true && !r.Next?
    ensures SimEx(W, fuel, p, r, ls, rest, k, q)
  {
  }

  lemma ReachesGoes(W: World, p: Point, q: Point, rest: Stack, k: nat)
    requires Reaches(W, p, q, rest, k) == true
    ensures Goes(W, p, q, rest, k)
  {
  }

  /** A nested block that does not go on ends the statement around it too. */
  lemma SimNestedStop(W: World, fuel: nat, p: Point, w: Point, k1: nat, r: ExecResult, target: nat, rest: Stack, k2: nat, f': Frame,
                      ls: LoweredStmt, q: Point) returns (k: nat)
    requires Reaches(W, p, w, rest, k1) == true && !r.Next?
    requires SimNested(W, fuel, w, r, target, rest, k2, f') == true
    ensures SimEx(W, fuel, p, r, ls, rest, k, q)
  {
    k := k1 + k2;
    StepNAdd(W.P, W.M, Conf(p, rest), k1, k2);
  }

  lemma ReachesStay(W: World, p: Point, rest: Stack)
    requires Here(W, p) == true
    ensures Reaches(W, p, p, rest, 0)
  {
  }

  /** The same for a nested block, which ends at the start of block `target` in the outer scope. */
  ghost predicate SimNested(W: World, fuel: nat, p: Point, r: ExecResult, target: nat, rest: Stack, k: nat, f': Frame) {
    if r.Next? then
      && StepN(W.P, W.M, Conf(p, rest), k) == Run(f', rest, r.st.globals)
      && f'.block == target && f'.pc == 0
      && |r.st.globals| == |W.S.globals|
      && Related(|p.b.mod.values|, p.sc, p.env, p.mu, r.st, f')
      && Keeps(|p.b.mod.values|, p.f, f')
      && |p.st.store| <= |r.st.store|
    else SimStop(W, fuel, p, r, rest, k)
  }

  /** After a nested block, at the empty block `target` of a module `b'`: at least what `p0`, before
      the block, knew is known again. */
  lemma NestedHere(W: World, fuel: nat, p0: Point, p: Point, k0: nat, r: ExecResult, b': Bld, target: nat, rest: Stack, k1: nat, f': Frame)
    returns (k: nat, q: Point)
    requires Here(W, p0) == true && Reaches(W, p0, p, rest, k0) == true
    requires SimNested(W, fuel, p, r, target, rest, k1, f') == true && r.Next?
    requires p0.b.mod.values <= b'.mod.values
    requires OpenAt(b', target) && b'.mod.blocks[target].insts == []
    ensures q == p0.(b := b', cur := target, st := r.st, f := f')
    ensures Reaches(W, p0, q, rest, k) && k >= k0
  {
    k, q := k0 + k1, p0.(b := b', cur := target, st := r.st, f := f');
    StepNAdd(W.P, W.M, Conf(p0, rest), k0, k1);
    RelatedShrink(|p0.b.mod.values|, |p.b.mod.values|, p0.sc, p0.env, p0.mu, p0.st, r.st, p0.f, f');
    RelatedKeeps(|p0.b.mod.values|, |b'.mod.values|, p0.sc, p0.env, p0.mu, r.st, r.st.globals, f', f');
  }

  /** What was known of the first `n` values before is known of them after. */
  lemma RelatedShrink(n: nat, n': nat, sc: Scope, env: Env, mu: Cells, st: St, st': St, f: Frame, f': Frame)
    requires Related(n, sc, env, mu, st, f) && Related(n', sc, env, mu, st', f')
    requires Keeps(n, f, f') && |st.store| <= |st'.store|
    ensures Related(n, sc, env, mu, st', f')
  {
    forall s | s in sc.locals
      ensures BindRel(n, sc.locals[s], env[s], mu, st'.store, f')
    {
      assert BindRel(n, sc.locals[s], env[s], mu, st.store, f);
    }
  }

  /** Leaving a scope: what held of the outer names before still holds of them. */
  lemma RelatedOuter(W: World, p: Point, q: Point)
    requires Here(W, p) == true && Here(W, q) == true
    requires Onward(p, q) == true && Extends(p.mu, q.mu)
    ensures Related(|p.b.mod.values|, p.sc, p.env, p.mu, q.st, q.f)
  {
    forall s | s in p.sc.locals
      ensures BindRel(|p.b.mod.values|, p.sc.locals[s], p.env[s], p.mu, q.st.store, q.f)
    {
      assert BindRel(|p.b.mod.values|, p.sc.locals[s], p.env[s], p.mu, p.st.store, p.f);
    }
  }

  // ---- Places and stores -----------------------------------------------------------------

  /** The id `pv` names the storage of `place`. */
  ghost predicate PlaceAt(W: World, sc: Scope, place: Expr, pv: Id, f: Frame) {
    && pv.Some? && pv.value in f.regs
    && if place.Local? && place.sym in sc.locals then
         && sc.locals[place.sym].isPlace && sc.locals[place.sym].value == pv
         && f.regs[pv.value] == LocalPlace(pv.value)
       else
         && (place.Local? || place.Global?)
         && FindGlobal(W.S.globals, place.sym).Some?
         && f.regs[pv.value] == GlobalPlace(FindGlobal(W.S.globals, place.sym).value)
  }

  /** Writing a cell and its slot keeps the correspondence: no other cell shares the slot. */
  lemma RelatedStore(n: nat, sc: Scope, env: Env, mu: Cells, st: St, f: Frame, sym: Sym, v: Val, f': Frame)
    requires Related(n, sc, env, mu, st, f)
    requires sym in sc.locals && env[sym].Cell?
    requires f' == f.(pc := f.pc + 1, slots := f.slots[sc.locals[sym].value.value := v])
    ensures env[sym].loc < |st.store|
    ensures Related(n, sc, env, mu, if sc.locals[sym].ty == Unit then st else st.(store := st.store[env[sym].loc := v]), f')
  {
    assert BindRel(n, sc.locals[sym], env[sym], mu, st.store, f);
    var st' := if sc.locals[sym].ty == Unit then st else st.(store := st.store[env[sym].loc := v]);
    assert MemRel(n, mu, st'.store, f');
    forall s | s in sc.locals
      ensures BindRel(n, sc.locals[s], env[s], mu, st'.store, f')
    {
      assert BindRel(n, sc.locals[s], env[s], mu, st.store, f);
    }
  }

  /** What the machine does with an appended store. */
  lemma StepStore(W: World, p: Point, pv: Id, xv: Id, v: Val, rest: Stack, place: Expr) returns (q: Point)
    requires VerifyOk(W.M) == true && TablesOk(W.S, W.M) == true
    requires Here(W, p) == true
    requires PlaceAt(W, p.sc, place, pv, p.f) == true && TypedExpr(W.S, TypesOf(p.sc.locals), place)
    requires xv.Some? && Holds(p.f, xv.value, v)
    requires Code(W, p.b, p.cur, EmitStore(p.b, p.cur, pv, xv).b, Some(p.cur)) == true
    ensures WritePlace(W.S, p.env, p.st, place, v) == Some(q.st)
    ensures Reaches(W, p, q, rest, 1)
    ensures q == p.(b := EmitStore(p.b, p.cur, pv, xv).b, st := q.st, f := q.f) && q.f.regs == p.f.regs
  {
    hide VerifyOk, TablesOk, Ready, TypedStmt, TypedBlock, Code, SupportedType, FindGlobal;
    StepAppend(W, p, OpStore(pv, xv), MayWrite, None, rest);
    var n := |p.b.mod.values|;
    q := p.(b := EmitStore(p.b, p.cur, pv, xv).b);
    if place.Local? && place.sym in p.sc.locals {
      assert BindRel(n, p.sc.locals[place.sym], p.env[place.sym], p.mu, p.st.store, p.f);
      q := q.(f := p.f.(pc := p.f.pc + 1, slots := p.f.slots[pv.value := v]),
              st := if place.ty == Unit then p.st else p.st.(store := p.st.store[p.env[place.sym].loc := v]));
      RelatedStore(n, p.sc, p.env, p.mu, p.st, p.f, place.sym, v, q.f);
    } else {
      var i := FindGlobal(W.S.globals, place.sym).value;
      q := q.(f := p.f.(pc := p.f.pc + 1), st := p.st.(globals := p.st.globals[i := v]));
      RelatedKeeps(n, n, p.sc, p.env, p.mu, p.st, q.st.globals, p.f, q.f);
    }
  }
}
