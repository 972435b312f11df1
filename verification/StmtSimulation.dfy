/** The simulation of statements: structured control flow against the blocks and branches it was
    lowered to. The lemmas follow the routines, as those for expressions do. */
module StmtSimulation {
  import opened Wrappers
  import opened Sir
  import opened SirSemantics
  import opened Goir
  import opened GoirMachine
  import opened GoirVerify
  import opened Lowering
  import opened Growth
  import opened Typing
  import opened SimulationBase
  import opened Simulation

  // ---- Expressions as statements, and `return` -------------------------------------------

  lemma SimExprStmt(W: World, fuel: nat, p: Point, e: Expr, ls: LoweredStmt, r: ExecResult, rest: Stack)
    returns (k: nat, q: Point)
    requires Ready(W, fuel) == true && Here(W, p) == true && TypedExpr(W.S, TypesOf(p.sc.locals), e)
    requires var x := LowerValue(W.S, p.b, p.sc, p.cur, e); ls == LoweredStmt(x.b, FuncState(p.sc, Some(x.cur)))
    requires var rx := Eval(W.P, W.S, fuel, p.env, p.st, e); r == if rx.Ev? then Next(p.env, rx.st) else Stop(rx)
    requires Code(W, p.b, p.cur, ls.b, ls.st.cur) == true
    ensures SimEx(W, fuel, p, r, ls, rest, k, q)
  {
    var x := LowerValue(W.S, p.b, p.sc, p.cur, e);
    var rx := Eval(W.P, W.S, fuel, p.env, p.st, e);
    var f';
    k, f' := SimValue(W, fuel, p, e, x, rx, rest);
    FinishExprStmt(W, fuel, p, rx, x, e.ty, r, ls, rest, k, f');
    q := if rx.Ev? then AfterEv(p, x, rx.st, f') else p;
  }

  lemma FinishExprStmt(W: World, fuel: nat, p: Point, rx: EvalResult, x: Lowered, ty: Ty, r: ExecResult, ls: LoweredStmt, rest: Stack,
                       k: nat, f': Frame)
    requires SimEv(W, fuel, p, rx, x, ty, rest, k, f') == true
    requires ls == LoweredStmt(x.b, FuncState(p.sc, Some(x.cur)))
    requires r == if rx.Ev? then Next(p.env, rx.st) else Stop(rx)
    ensures SimEx(W, fuel, p, r, ls, rest, k, if rx.Ev? then AfterEv(p, x, rx.st, f') else p)
  {
    if rx.Ev? {
      ReachesGoes(W, p, AfterEv(p, x, rx.st, f'), rest, k);
    } else {
      SimExStop(W, fuel, p, rx, x, ty, r, ls, rest, k, f', p);
    }
  }

  lemma SimReturn(W: World, fuel: nat, p: Point, e: Expr, x: Lowered, ls: LoweredStmt, r: ExecResult, rest: Stack)
    returns (k: nat)
    requires Ready(W, fuel) == true && Here(W, p) == true && TypedExpr(W.S, TypesOf(p.sc.locals), e)
    requires x == LowerValueAs(W.S, p.b, p.sc, p.cur, e, p.sc.ret) && ls.b == Terminate(x.b, x.cur, TermRet(true, x.v))
    requires var rx := EvalAs(W.P, W.S, fuel, p.env, p.st, e, p.sc.ret);
             r == if rx.Ev? then Returned(rx.v, rx.st.globals) else Stop(rx)
    requires Code(W, p.b, p.cur, ls.b, None) == true
    ensures SimEx(W, fuel, p, r, ls, rest, k, p)
  {
    var rx := EvalAs(W.P, W.S, fuel, p.env, p.st, e, p.sc.ret);
    CodeOfReturn(W, p.b, p.sc, p.cur, e, x, ls.b);
    var f';
    k, f' := SimValueAs(W, fuel, p, e, p.sc.ret, x, rx, rest);
    k := FinishReturn(W, fuel, p, rx, x, YieldType(e.ty, p.sc.ret), r, ls, rest, k, f');
  }

  lemma CodeOfReturn(W: World, b: Bld, sc: Scope, cur: nat, e: Expr, x: Lowered, b': Bld)
    requires cur < |b.mod.blocks|
    requires x == LowerValueAs(W.S, b, sc, cur, e, sc.ret) && b' == Terminate(x.b, x.cur, TermRet(true, x.v))
    requires Code(W, b, cur, b', None) == true
    ensures Code(W, b, cur, x.b, Some(x.cur)) && ClosedBy(W, x.b, x.cur, TermRet(true, x.v))
  {
    GrowsValueAs(W.S, b, sc, cur, e, sc.ret);
    GrowsTerminate(x.b, x.cur, TermRet(true, x.v));
    CodeHead(W, b, cur, x.b, x.cur, b', None);
  }

  /** The value has been computed: the return hands it to the caller. */
  lemma FinishReturn(W: World, fuel: nat, p: Point, rx: EvalResult, x: Lowered, ty: Ty, r: ExecResult, ls: LoweredStmt, rest: Stack,
                     k1: nat, f1: Frame) returns (k: nat)
    requires VerifyOk(W.M) == true && SimEv(W, fuel, p, rx, x, ty, rest, k1, f1) == true
    requires ClosedBy(W, x.b, x.cur, TermRet(true, x.v)) == true
    requires r == if rx.Ev? then Returned(rx.v, rx.st.globals) else Stop(rx)
    ensures SimEx(W, fuel, p, r, ls, rest, k, p)
  {
    k := k1;
    if rx.Ev? {
      SimEvPoint(W, fuel, p, rx, x, ty, rest, k1, f1);
      StepTerminator(W, AfterEv(p, x, rx.st, f1), TermRet(true, x.v), rest);
      k := k1 + 1;
      StepNAdd(W.P, W.M, Conf(p, rest), k1, 1);
    } else {
      SimExStop(W, fuel, p, rx, x, ty, r, ls, rest, k, f1, p);
    }
  }

  lemma SimReturnUnit(W: World, fuel: nat, p: Point, ls: LoweredStmt, r: ExecResult, rest: Stack) returns (k: nat)
    requires VerifyOk(W.M) == true && Here(W, p) == true
    requires ls.b == Terminate(p.b, p.cur, TermRet(false, None)) && r == Returned(UnitV, p.st.globals)
    requires Code(W, p.b, p.cur, ls.b, None) == true
    ensures SimEx(W, fuel, p, r, ls, rest, k, p)
  {
    k := 1;
    assert ClosedBy(W, p.b, p.cur, TermRet(false, None));
    StepTerminator(W, p, TermRet(false, None), rest);
  }

  // ---- Local variables -------------------------------------------------------------------

  lemma SimVarDecl(W: World, fuel: nat, p: Point, st: FuncState, s: Stmt, ty: Ty, ls: LoweredStmt, r: ExecResult, rest: Stack)
    returns (k: nat, q: Point)
    requires Ready(W, fuel) == true && Here(W, p) == true && st.scope == p.sc
    requires s.VarDecl? && s.init.Some? && BindingType(s) == Some(ty) && SupportedType(ty)
    requires TypedExpr(W.S, TypesOf(p.sc.locals), s.init.value) && Storable(s.init.value.ty, ty)
    requires var x := LowerValueAs(W.S, p.b, p.sc, p.cur, s.init.value, ty); ls == BindLocal(x.b, st, x.cur, s, ty, x.v)
    requires var rx := EvalAs(W.P, W.S, fuel, p.env, p.st, s.init.value, ty);
             r == if rx.Ev? then BindNew(p.env, rx.st, s, rx.v) else Stop(rx)
    requires Code(W, p.b, p.cur, ls.b, ls.st.cur) == true
    ensures SimEx(W, fuel, p, r, ls, rest, k, q)
  {
    var e := s.init.value;
    var x := LowerValueAs(W.S, p.b, p.sc, p.cur, e, ty);
    var rx := EvalAs(W.P, W.S, fuel, p.env, p.st, e, ty);
    CodeOfVarDecl(W, p.b, st, p.cur, s, ty, ls, x);
    var f';
    k, f' := SimValueAs(W, fuel, p, e, ty, x, rx, rest);
    k, q := FinishVarDecl(W, fuel, p, rx, x, YieldType(e.ty, ty), k, f', st, s, ty, ls, r, rest);
  }

  lemma CodeOfVarDecl(W: World, b: Bld, st: FuncState, cur: nat, s: Stmt, ty: Ty, ls: LoweredStmt, x: Lowered)
    requires cur < |b.mod.blocks| && s.VarDecl? && s.init.Some?
    requires x == LowerValueAs(W.S, b, st.scope, cur, s.init.value, ty) && ls == BindLocal(x.b, st, x.cur, s, ty, x.v)
    requires Code(W, b, cur, ls.b, ls.st.cur) == true
    ensures Code(W, b, cur, x.b, Some(x.cur)) && Code(W, x.b, x.cur, ls.b, Some(x.cur)) && ls.st.cur == Some(x.cur)
  {
    GrowsValueAs(W.S, b, st.scope, cur, s.init.value, ty);
    GrowsBindLocal(x.b, st, x.cur, s, ty, x.v);
    CodeHead(W, b, cur, x.b, x.cur, ls.b, ls.st.cur);
    CodeTail(W, b, cur, x.b, x.cur, ls.b, ls.st.cur);
  }

  /** The initializer has been run: binding the name remains. */
  lemma FinishVarDecl(W: World, fuel: nat, p: Point, rx: EvalResult, x: Lowered, tx: Ty, k1: nat, f1: Frame, st: FuncState, s: Stmt,
                      ty: Ty, ls: LoweredStmt, r: ExecResult, rest: Stack) returns (k: nat, q: Point)
    requires VerifyOk(W.M) == true && SimEv(W, fuel, p, rx, x, tx, rest, k1, f1) == true
    requires s.VarDecl? && st.scope == p.sc && SupportedType(ty) && (tx == Unit ==> ty == Unit)
    requires ls == BindLocal(x.b, st, x.cur, s, ty, x.v) && ls.st.cur == Some(x.cur)
    requires Code(W, x.b, x.cur, ls.b, Some(x.cur)) == true
    requires r == if rx.Ev? then BindNew(p.env, rx.st, s, rx.v) else Stop(rx)
    ensures SimEx(W, fuel, p, r, ls, rest, k, q)
  {
    k, q := k1, p;
    if rx.Ev? {
      var t := AfterEv(p, x, rx.st, f1);
      SimEvPoint(W, fuel, p, rx, x, tx, rest, k1, f1);
      k, q := SimBind(W, fuel, t, st, s, ty, x.v, rx.v, ls, r, rest);
      ReachesGoes(W, p, t, rest, k1);
      k := SimExAfter(W, fuel, fuel, k1, p, t, r, ls, rest, k, q);
    } else {
      SimExStop(W, fuel, p, rx, x, tx, r, ls, rest, k, f1, q);
    }
  }

  /** Binding a name to a value that has been computed. */
  lemma SimBind(W: World, fuel: nat, p: Point, st: FuncState, s: Stmt, ty: Ty, init: Id, v: Val, ls: LoweredStmt, r: ExecResult, rest: Stack)
    returns (k: nat, q: Point)
    requires VerifyOk(W.M) == true && Here(W, p) == true && s.VarDecl? && st.scope == p.sc && SupportedType(ty)
    requires (init.Some? ==> Yields(p.b, init.value, p.f, v)) && (init.None? ==> ty == Unit)
    requires ls == BindLocal(p.b, st, p.cur, s, ty, init) && r == BindNew(p.env, p.st, s, v)
    requires Code(W, p.b, p.cur, ls.b, Some(p.cur)) == true
    ensures SimEx(W, fuel, p, r, ls, rest, k, q)
  {
    if s.isSet || s.isMut {
      k, q := SimBindCell(W, p, st, s, ty, init, v, ls, rest);
    } else {
      k, q := 0, p.(sc := ls.st.scope, env := r.env);
      HereLet(W, p, s.sym, ty, init, v, q);
    }
  }

  lemma HereLet(W: World, p: Point, sym: Sym, ty: Ty, init: Id, v: Val, q: Point)
    requires Here(W, p) == true && SupportedType(ty)
    requires (init.Some? ==> Yields(p.b, init.value, p.f, v)) && (init.None? ==> ty == Unit)
    requires q == p.(sc := p.sc.(locals := p.sc.locals[sym := Binding(init, ty, ClassifyLayout(ty), false, false)]),
                     env := p.env[sym := Imm(v)])
    ensures Here(W, q)
  {
    var n := |p.b.mod.values|;
    forall s | s in q.sc.locals
      ensures BindRel(n, q.sc.locals[s], q.env[s], q.mu, q.st.store, q.f)
    {
      if s != sym {
        assert BindRel(n, p.sc.locals[s], p.env[s], p.mu, p.st.store, p.f);
      }
    }
  }

  /** A mutable local: its slot, and the store of its first value unless that is unit. */
  lemma SimBindCell(W: World, p: Point, st: FuncState, s: Stmt, ty: Ty, init: Id, v: Val, ls: LoweredStmt, rest: Stack)
    returns (k: nat, q: Point)
    requires VerifyOk(W.M) == true && Here(W, p) == true && s.VarDecl? && (s.isSet || s.isMut) && st.scope == p.sc && SupportedType(ty)
    requires (init.Some? ==> Yields(p.b, init.value, p.f, v)) && (init.None? ==> ty == Unit)
    requires ls == BindLocal(p.b, st, p.cur, s, ty, init)
    requires Code(W, p.b, p.cur, ls.b, Some(p.cur)) == true
    ensures Goes(W, p, q, rest, k)
    ensures q.b == ls.b && q.cur == p.cur && q.sc == ls.st.scope
    ensures BindNew(p.env, p.st, s, v) == Next(q.env, q.st)
  {
    var n := |p.b.mod.values|;
    var slot := EmitPlace(p.b, p.cur, ty, OpLocalSlot, LocalSlot, true);
    GrowsAppend(p.b, p.cur, OpLocalSlot, Pure, Some(PlaceValue(ty, LocalSlot, true)));
    var u := SimSlot(W, p, ty, init, slot, ls.b, rest);
    k, q := 1, u;
    if init.Some? {
      k := 2;
      q := SimFirstStore(W, u, n, init, v, ls.b, rest);
      StepNAdd(W.P, W.M, Conf(p, rest), 1, 1);
    }
    q := HereCell(W, p, q, s.sym, ty, v);
  }

  /** Making a slot, which is empty at first. */
  lemma SimSlot(W: World, p: Point, ty: Ty, init: Id, slot: Lowered, b': Bld, rest: Stack) returns (u: Point)
    requires VerifyOk(W.M) == true && Here(W, p) == true
    requires slot == EmitPlace(p.b, p.cur, ty, OpLocalSlot, LocalSlot, true)
    requires b' == if init.Some? then EmitStore(slot.b, p.cur, slot.v, init).b else slot.b
    requires Code(W, p.b, p.cur, b', Some(p.cur)) == true
    ensures var n := |p.b.mod.values|;
            && u == p.(b := slot.b, f := p.f.(pc := p.f.pc + 1, regs := p.f.regs[n := LocalPlace(n)], slots := p.f.slots - {n}))
            && slot.v == Some(n)
    ensures StepN(W.P, W.M, Conf(p, rest), 1) == Conf(u, rest) && Here(W, u)
    ensures init.Some? ==> Code(W, u.b, p.cur, b', Some(p.cur))
  {
    hide VerifyOk, TablesOk, Ready, TypedExpr, TypedStmt, TypedBlock, SupportedType, PlaceValue, StepN;
    var n := |p.b.mod.values|;
    GrowsAppend(p.b, p.cur, OpLocalSlot, Pure, Some(PlaceValue(ty, LocalSlot, true)));
    GrowsAppend(slot.b, p.cur, OpStore(slot.v, init), MayWrite, None);
    CodeHead(W, p.b, p.cur, slot.b, p.cur, b', Some(p.cur));
    StepAppend(W, p, OpLocalSlot, Pure, Some(PlaceValue(ty, LocalSlot, true)), rest);
    u := p.(b := slot.b, f := p.f.(pc := p.f.pc + 1, regs := p.f.regs[n := LocalPlace(n)], slots := p.f.slots - {n}));
    RelatedFresh(n, n + 1, p.sc, p.env, p.mu, p.st, p.f, u.f);
  }

  /** The store of a mutable local's first value. */
  lemma SimFirstStore(W: World, u: Point, n: nat, init: Id, v: Val, b': Bld, rest: Stack) returns (q: Point)
    requires VerifyOk(W.M) == true && Here(W, u) == true
    requires n in u.f.regs && u.f.regs[n] == LocalPlace(n)
    requires init.Some? && Holds(u.f, init.value, v)
    requires b' == EmitStore(u.b, u.cur, Some(n), init).b && Code(W, u.b, u.cur, b', Some(u.cur)) == true
    ensures q == u.(b := b', f := u.f.(pc := u.f.pc + 1, slots := u.f.slots[n := v]))
    ensures StepN(W.P, W.M, Conf(u, rest), 1) == Conf(q, rest)
    ensures At(q.f, q.b.mod, q.cur) && OpenAt(q.b, q.cur) && b'.mod.values == u.b.mod.values
  {
    StepAppend(W, u, OpStore(Some(n), init), MayWrite, None, rest);
    q := u.(b := b', f := u.f.(pc := u.f.pc + 1, slots := u.f.slots[n := v]));
  }

  /** Changing what no name refers to: registers and slots from `n` on. */
  lemma RelatedFresh(n: nat, n': nat, sc: Scope, env: Env, mu: Cells, st: St, f: Frame, f': Frame)
    requires Related(n, sc, env, mu, st, f) && n <= n'
    requires Keeps(n, f, f') && (forall x :: x in f.slots && x < n ==> x in f'.slots && f'.slots[x] == f.slots[x])
    ensures Related(n', sc, env, mu, st, f')
  {
    forall s | s in sc.locals
      ensures BindRel(n', sc.locals[s], env[s], mu, st.store, f')
    {
      assert BindRel(n, sc.locals[s], env[s], mu, st.store, f);
    }
  }

  /** The new slot stands for the new cell, unless the cell is of unit type. */
  lemma NewCell(n: nat, ty: Ty, v: Val, mu: Cells, mu': Cells, store: seq<Val>, f: Frame, f': Frame)
    requires MemRel(n, mu, store, f) && mu' == if ty == Unit then mu else mu[|store| := n]
    requires f'.slots == f.slots[n := v] || (ty == Unit && f'.slots == f.slots - {n})
    ensures MemRel(n + 1, mu', store + [v], f')
  {
  }

  /** The names there were stay bound as they were. */
  lemma BoundStill(n: nat, bd: Binding, bind: Bind, ty: Ty, v: Val, mu: Cells, mu': Cells, store: seq<Val>, f: Frame, f': Frame)
    requires BindRel(n, bd, bind, mu, store, f) && (forall l :: l in mu ==> l < |store|)
    requires mu' == if ty == Unit then mu else mu[|store| := n]
    requires f'.regs == f.regs[n := LocalPlace(n)]
    ensures BindRel(n + 1, bd, bind, mu', store + [v], f')
  {
    hide ReadsAsValue;
  }

  /** Naming the new slot: it holds the new cell, unless the cell is of unit type. */
  lemma HereCell(W: World, p: Point, u: Point, sym: Sym, ty: Ty, v: Val) returns (q: Point)
    requires Here(W, p) == true && SupportedType(ty)
    requires var n := |p.b.mod.values|;
             && u.b.mod.values == p.b.mod.values + [PlaceValue(ty, LocalSlot, true)]
             && u.f.regs == p.f.regs[n := LocalPlace(n)]
             && (u.f.slots == p.f.slots[n := v] || (ty == Unit && u.f.slots == p.f.slots - {n}))
    requires OpenAt(u.b, u.cur) && At(u.f, u.b.mod, u.cur) && u.sc == p.sc && u.env == p.env && u.mu == p.mu && u.st == p.st
    ensures var n := |p.b.mod.values|;
            q == u.(sc := p.sc.(locals := p.sc.locals[sym := Binding(Some(n), ty, ClassifyLayout(ty), true, true)]),
                    env := p.env[sym := Cell(|p.st.store|)], st := p.st.(store := p.st.store + [v]), mu := q.mu)
    ensures Here(W, q) && Onward(p, q) && Extends(p.mu, q.mu)
  {
    hide MemRel, BindRel;
    var n := |p.b.mod.values|;
    var l := |p.st.store|;
    var mu := if ty == Unit then p.mu else p.mu[l := n];
    q := u.(sc := p.sc.(locals := p.sc.locals[sym := Binding(Some(n), ty, ClassifyLayout(ty), true, true)]),
            env := p.env[sym := Cell(l)], st := p.st.(store := p.st.store + [v]), mu := mu);
    NewCell(n, ty, v, p.mu, mu, p.st.store, p.f, q.f);
    CellsInStore(n, p.mu, p.st.store, p.f);
    forall s | s in q.sc.locals
      ensures BindRel(n + 1, q.sc.locals[s], q.env[s], q.mu, q.st.store, q.f)
    {
      if s != sym {
        BoundStill(n, p.sc.locals[s], p.env[s], ty, v, p.mu, mu, p.st.store, p.f, q.f);
      } else {
        NameBound(n, ty, v, p.mu, mu, p.st.store, q.f);
      }
    }
  }

  lemma CellsInStore(n: nat, mu: Cells, store: seq<Val>, f: Frame)
    requires MemRel(n, mu, store, f)
    ensures forall l :: l in mu ==> l < |store| && mu[l] < n
  {
  }

  lemma NameBound(n: nat, ty: Ty, v: Val, mu: Cells, mu': Cells, store: seq<Val>, f: Frame)
    requires SupportedType(ty) && (forall l :: l in mu ==> l < |store| && mu[l] < n)
    requires mu' == if ty == Unit then mu else mu[|store| := n]
    requires n in f.regs && f.regs[n] == LocalPlace(n)
    ensures BindRel(n + 1, Binding(Some(n), ty, ClassifyLayout(ty), true, true), Cell(|store|), mu', store + [v], f)
  {
  }

  // ---- Sequences -------------------------------------------------------------------------

  lemma {:induction false} SimBlock(W: World, fuel: nat, p: Point, st: FuncState, stmts: seq<Stmt>, ls: LoweredStmt, r: ExecResult, rest: Stack)
    returns (k: nat, q: Point)
    requires Ready(W, fuel) == true && Here(W, p) == true && st == FuncState(p.sc, Some(p.cur))
    requires TypedBlock(W.S, TypesOf(p.sc.locals), stmts)
    requires ls == LowerBlock(W.S, p.b, st, stmts) && r == ExecBlock(W.P, W.S, fuel, p.sc.ret, p.env, p.st, stmts)
    requires Code(W, p.b, p.cur, ls.b, ls.st.cur) == true
    ensures SimEx(W, fuel, p, r, ls, rest, k, q)
    decreases fuel, stmts, 0
  {
    if stmts == [] {
      k, q := 0, p;
      ReachesStay(W, p, rest);
      ReachesGoes(W, p, p, rest, 0);
    } else {
      var l1 := LowerStmt(W.S, p.b, st, p.cur, stmts[0]);
      var r1 := Exec(W.P, W.S, fuel, p.sc.ret, p.env, p.st, stmts[0]);
      CodeOfBlock(W, p.b, st, p.cur, stmts, l1, ls);
      k, q := SimStmt(W, fuel, p, st, stmts[0], l1, r1, rest);
      if r1.Next? {
        var k2, q2 := SimBlock(W, fuel, q, l1.st, stmts[1..], ls, r, rest);
        k := SimExAfter(W, fuel, fuel, k, p, q, r, ls, rest, k2, q2);
        q := q2;
      } else {
        assert r == r1;
        SimExHalt(W, fuel, p, r, l1, ls, rest, k, q);
      }
    }
  }

  /** The first statement's code, then that of the others, in the scope it leaves. */
  lemma CodeOfBlock(W: World, b: Bld, st: FuncState, cur: nat, stmts: seq<Stmt>, l1: LoweredStmt, ls: LoweredStmt)
    requires cur < |b.mod.blocks| && stmts != [] && st.cur == Some(cur)
    requires l1 == LowerStmt(W.S, b, st, cur, stmts[0]) && ls == LowerBlock(W.S, b, st, stmts)
    requires Code(W, b, cur, ls.b, ls.st.cur) == true
    ensures Code(W, b, cur, l1.b, l1.st.cur)
    ensures l1.st.cur.Some? ==> Code(W, l1.b, l1.st.cur.value, ls.b, ls.st.cur)
    ensures ls == LowerBlock(W.S, l1.b, l1.st, stmts[1..]) && l1.st.scope.ret == st.scope.ret
    ensures TypesOf(l1.st.scope.locals) == TypesAfter(TypesOf(st.scope.locals), stmts[0])
  {
    GrowsStmt(W.S, b, st, cur, stmts[0]);
    assert ls == LowerBlock(W.S, l1.b, l1.st, stmts[1..]);
    if l1.st.cur.Some? {
      GrowsBlock(W.S, l1.b, l1.st, stmts[1..]);
      CodeHead(W, b, cur, l1.b, l1.st.cur.value, ls.b, ls.st.cur);
      CodeTail(W, b, cur, l1.b, l1.st.cur.value, ls.b, ls.st.cur);
    }
    TypesAfterStmt(W.S, b, st, cur, stmts[0], l1);
  }

  lemma TypesAfterStmt(S: Program, b: Bld, st: FuncState, cur: nat, s: Stmt, l1: LoweredStmt)
    requires cur < |b.mod.blocks| && l1 == LowerStmt(S, b, st, cur, s) && l1.b.errs == []
    ensures TypesOf(l1.st.scope.locals) == TypesAfter(TypesOf(st.scope.locals), s)
    ensures l1.st.scope.ret == st.scope.ret
  {
    if s.VarDecl? {
      assert BindingType(s).Some? && s.init.Some?;
      var ty := BindingType(s).value;
      var x := LowerValueAs(S, b, st.scope, cur, s.init.value, ty);
      assert l1 == BindLocal(x.b, st, x.cur, s, ty, x.v);
      assert l1.st.scope.locals == st.scope.locals[s.sym := l1.st.scope.locals[s.sym]];
      assert TypesOf(l1.st.scope.locals) == TypesOf(st.scope.locals)[s.sym := ty];
    } else if s.If? {
      assert LowerIf(S, b, st, cur, s).st.scope == st.scope;
    } else if s.Switch? {
      assert LowerSwitch(S, b, st, cur, s).st.scope == st.scope;
    } else {
      assert l1.st.scope == st.scope;
    }
  }

  /** A nested block and the jump after it. */
  lemma {:induction false} SimArm(W: World, fuel: nat, p: Point, st: FuncState, body: seq<Stmt>, b': Bld, target: nat, r: ExecResult, rest: Stack)
    returns (k: nat, f': Frame)
    requires Ready(W, fuel) == true && Here(W, p) == true && st.scope == p.sc
    requires TypedBlock(W.S, TypesOf(p.sc.locals), body)
    requires b' == LowerArm(W.S, p.b, st, p.cur, body, target)
    requires r == ExecBlock(W.P, W.S, fuel, p.sc.ret, p.env, p.st, body)
    requires Code(W, p.b, p.cur, b', None) == true
    ensures SimNested(W, fuel, p, r, target, rest, k, f')
    decreases fuel, body, 1
  {
    var st1 := FuncState(p.sc, Some(p.cur));
    var ls := LowerBlock(W.S, p.b, st1, body);
    CodeOfArm(W, p.b, st, p.cur, body, ls, b', target);
    var q;
    k, q := SimBlock(W, fuel, p, st1, body, ls, r, rest);
    k, f' := FinishArm(W, fuel, p, r, ls, target, rest, k, q);
  }

  lemma CodeOfArm(W: World, b: Bld, st: FuncState, cur: nat, body: seq<Stmt>, ls: LoweredStmt, b': Bld, target: nat)
    requires cur < |b.mod.blocks|
    requires ls == LowerBlock(W.S, b, st.(cur := Some(cur)), body) && b' == LowerArm(W.S, b, st, cur, body, target)
    requires Code(W, b, cur, b', None) == true
    ensures Code(W, b, cur, ls.b, ls.st.cur)
    ensures ls.st.cur.Some? ==> ClosedBy(W, ls.b, ls.st.cur.value, TermBr(target, []))
  {
    GrowsBlock(W.S, b, st.(cur := Some(cur)), body);
    if ls.st.cur.Some? {
      GrowsTerminate(ls.b, ls.st.cur.value, TermBr(target, []));
      CodePart(W, b, cur, b, cur, ls.b, ls.st.cur, b', None, {ls.st.cur.value});
    }
  }

  /** The end of a nested block, if it is reached: the jump. */
  lemma FinishArm(W: World, fuel: nat, p: Point, r: ExecResult, ls: LoweredStmt, target: nat, rest: Stack, k1: nat, q: Point)
    returns (k: nat, f': Frame)
    requires VerifyOk(W.M) == true && Here(W, p) == true && SimEx(W, fuel, p, r, ls, rest, k1, q) == true
    requires ls.st.cur.Some? ==> ClosedBy(W, ls.b, ls.st.cur.value, TermBr(target, [])) == true
    ensures SimNested(W, fuel, p, r, target, rest, k, f')
  {
    hide VerifyOk;
    k, f' := k1, p.f;
    if r.Next? {
      StepTerminator(W, q, TermBr(target, []), rest);
      GotoPlain(W, q.f, rest, q.st.globals, target);
      k, f' := k1 + 1, Moved(q.f, target);
      StepNAdd(W.P, W.M, Conf(p, rest), k1, 1);
      RelatedOuter(W, p, q);
      RelatedKeeps(|p.b.mod.values|, |p.b.mod.values|, p.sc, p.env, p.mu, q.st, q.st.globals, q.f, f');
    }
  }

  /** One way of a fork: the branch to block `x` or `y`, then the nested block there. */
  lemma {:induction false} SimWay(W: World, fuel: nat, p: Point, st: FuncState, cond: Id, yes: bool, x: nat, y: nat, b1: Bld, body: seq<Stmt>,
                                  b2: Bld, target: nat, r: ExecResult, rest: Stack) returns (w: Point, k: nat, f': Frame)
    requires Ready(W, fuel) == true && Here(W, p) == true && st.scope == p.sc
    requires TypedBlock(W.S, TypesOf(p.sc.locals), body)
    requires cond.Some? ==> Holds(p.f, cond.value, BoolV(yes))
    requires ForkAt(W, p.b, p.cur, cond, yes, x, y, b1) == true
    requires b2 == LowerArm(W.S, b1, st, if yes then x else y, body, target)
    requires r == ExecBlock(W.P, W.S, fuel, p.sc.ret, p.env, p.st, body)
    requires Code(W, b1, if yes then x else y, b2, None) == true
    ensures Reaches(W, p, w, rest, 1) && SimNested(W, fuel, w, r, target, rest, k, f')
    decreases fuel, body, 2
  {
    w := SimFork(W, p, cond, yes, x, y, b1, rest);
    k, f' := SimArm(W, fuel, w, st, body, b2, target, r, rest);
  }

  // ---- `if` ------------------------------------------------------------------------------

  lemma {:induction false} SimIf(W: World, fuel: nat, p: Point, st: FuncState, s: Stmt, ls: LoweredStmt, r: ExecResult, rest: Stack)
    returns (k: nat, q: Point)
    requires Ready(W, fuel) == true && Here(W, p) == true && st.scope == p.sc
    requires s.If? && TypedStmt(W.S, TypesOf(p.sc.locals), s)
    requires ls == LowerIf(W.S, p.b, st, p.cur, s) && r == ExecIf(W.P, W.S, fuel, p.sc.ret, p.env, p.st, s)
    requires Code(W, p.b, p.cur, ls.b, ls.st.cur) == true
    ensures SimEx(W, fuel, p, r, ls, rest, k, q)
    decreases fuel, s, 1
  {
    var x := LowerValue(W.S, p.b, p.sc, p.cur, s.cond);
    var rx := Eval(W.P, W.S, fuel, p.env, p.st, s.cond);
    CodeOfIf(W, p.b, st, p.cur, s, ls, x);
    var f';
    k, f' := SimValue(W, fuel, p, s.cond, x, rx, rest);
    if rx.Ev? {
      assert r == ExecBranch(W.P, W.S, fuel, p.sc.ret, p.env, rx.st, s, rx.v);
      SimEvPoint(W, fuel, p, rx, x, s.cond.ty, rest, k, f');
      var t := AfterEv(p, x, rx.st, f');
      var k2;
      k2, q := SimIfArms(W, fuel, t, st, s, x.v, rx.v, ls, r, rest);
      ReachesGoes(W, p, t, rest, k);
      k := SimExAfter(W, fuel, fuel, k, p, t, r, ls, rest, k2, q);
    } else {
      q := p;
      SimExStop(W, fuel, p, rx, x, s.cond.ty, r, ls, rest, k, f', q);
    }
  }

  lemma CodeOfIf(W: World, b: Bld, st: FuncState, cur: nat, s: Stmt, ls: LoweredStmt, x: Lowered)
    requires cur < |b.mod.blocks| && s.If?
    requires x == LowerValue(W.S, b, st.scope, cur, s.cond) && ls == LowerIf(W.S, b, st, cur, s)
    requires Code(W, b, cur, ls.b, ls.st.cur) == true
    ensures ls == LowerIfArms(W.S, x.b, st, x.cur, s, x.v)
    ensures Code(W, b, cur, x.b, Some(x.cur)) && Code(W, x.b, x.cur, ls.b, ls.st.cur)
  {
    GrowsValue(W.S, b, st.scope, cur, s.cond);
    GrowsIfArms(W.S, x.b, st, x.cur, s, x.v);
    CodeHead(W, b, cur, x.b, x.cur, ls.b, ls.st.cur);
    CodeTail(W, b, cur, x.b, x.cur, ls.b, ls.st.cur);
  }

  lemma {:induction false} SimIfArms(W: World, fuel: nat, p: Point, st: FuncState, s: Stmt, cond: Id, v: Val, ls: LoweredStmt, r: ExecResult, rest: Stack)
    returns (k: nat, q: Point)
    requires Ready(W, fuel) == true && Here(W, p) == true && st.scope == p.sc
    requires s.If? && TypedStmt(W.S, TypesOf(p.sc.locals), s)
    requires cond.Some? ==> Holds(p.f, cond.value, v)
    requires ls == LowerIfArms(W.S, p.b, st, p.cur, s, cond) && r == ExecBranch(W.P, W.S, fuel, p.sc.ret, p.env, p.st, s, v)
    requires Code(W, p.b, p.cur, ls.b, ls.st.cur) == true
    ensures SimEx(W, fuel, p, r, ls, rest, k, q)
    decreases fuel, s, 0
  {
    hide VerifyOk, TablesOk, TypedExpr, TypedBlock, Code, SupportedType, LowerIfArms, TypesOf;
    var b1, b2, b3 := CodeOfIfArms(W, p.b, st, p.cur, s, cond, ls);
    var t := |p.b.mod.blocks|;
    if !v.BoolV? {
      k, q := 1, p;
      ForkFault(W, p, cond, v, t, t + 1, rest);
    } else {
      if v.b {
        k, q := SimIfWay(W, fuel, p, st, cond, true, t, b1, s.thn, b2, ls, r, rest);
      } else {
        k, q := SimIfWay(W, fuel, p, st, cond, false, t, b2, s.els, b3, ls, r, rest);
      }
    }
  }

  lemma {:induction false} SimIfWay(W: World, fuel: nat, p: Point, st: FuncState, cond: Id, yes: bool, t: nat, b1: Bld, body: seq<Stmt>,
                                    b2: Bld, ls: LoweredStmt, r: ExecResult, rest: Stack) returns (k: nat, q: Point)
    requires Ready(W, fuel) == true && Here(W, p) == true && st.scope == p.sc
    requires TypedBlock(W.S, TypesOf(p.sc.locals), body)
    requires cond.Some? ==> Holds(p.f, cond.value, BoolV(yes))
    requires ForkAt(W, p.b, p.cur, cond, yes, t, t + 1, b1) == true
    requires b2 == LowerArm(W.S, b1, st, if yes then t else t + 1, body, t + 2) && NestedEnd(p.b, st, t + 2, ls) == true
    requires r == LeaveScope(p.env, ExecBlock(W.P, W.S, fuel, p.sc.ret, p.env, p.st, body))
    requires Code(W, b1, if yes then t else t + 1, b2, None) == true
    ensures SimEx(W, fuel, p, r, ls, rest, k, q)
    decreases fuel, body, 3
  {
    hide VerifyOk;
    var rb := ExecBlock(W.P, W.S, fuel, p.sc.ret, p.env, p.st, body);
    var w, k1, f1 := SimWay(W, fuel, p, st, cond, yes, t, t + 1, b1, body, b2, t + 2, rb, rest);
    k, q := FinishNested(W, fuel, p, w, rb, r, st, ls, t + 2, rest, k1, f1);
  }

  lemma CodeOfIfArms(W: World, b: Bld, st: FuncState, cur: nat, s: Stmt, cond: Id, ls: LoweredStmt) returns (b1: Bld, b2: Bld, b3: Bld)
    requires OpenAt(b, cur) && s.If?
    requires ls == LowerIfArms(W.S, b, st, cur, s, cond)
    requires Code(W, b, cur, ls.b, ls.st.cur) == true
    ensures var t := |b.mod.blocks|;
            && ForkAt(W, b, cur, cond, true, t, t + 1, b1) && ForkAt(W, b, cur, cond, false, t, t + 1, b2)
            && b2 == LowerArm(W.S, b1, st, t, s.thn, t + 2) && b3 == LowerArm(W.S, b2, st, t + 1, s.els, t + 2)
            && Code(W, b1, t, b2, None) && Code(W, b2, t + 1, b3, None)
            && NestedEnd(b, st, t + 2, ls)
  {
    hide VerifyOk, TablesOk, Ready, TypedExpr, TypedBlock, Here, AddThreeBlocks, LowerArm, Terminate;
    var t := |b.mod.blocks|;
    b1 := Terminate(AddThreeBlocks(b, st.scope.owner), cur, TermCondBr(cond, t, t + 1));
    b2 := LowerArm(W.S, b1, st, t, s.thn, t + 2);
    b3 := LowerArm(W.S, b2, st, t + 1, s.els, t + 2);
    GrowsFork(b, st.scope.owner, cur, TermCondBr(cond, t, t + 1));
    GrowsArm(W.S, b1, st, t, s.thn, t + 2);
    GrowsArm(W.S, b2, st, t + 1, s.els, t + 2);
    CodeOfFork(W, b, cur, b1, b2, b3, ls.st.cur, TermCondBr(cond, t, t + 1));
  }

  /** The code of a fork whose blocks `t` and `t + 1` are filled in turn. */
  lemma CodeOfFork(W: World, b: Bld, cur: nat, b1: Bld, b2: Bld, b3: Bld, end: Option<nat>, term: Term)
    requires OpenAt(b, cur)
    requires var t := |b.mod.blocks|;
             && Touches(b, b1, {cur}) && |b1.mod.blocks| == t + 3 && b1.mod.blocks[cur] == b.mod.blocks[cur].(term := Some(term))
             && b1.mod.blocks[t] == EMPTY_BLOCK && b1.mod.blocks[t + 1] == EMPTY_BLOCK && b1.mod.blocks[t + 2] == EMPTY_BLOCK
             && Touches(b1, b2, {t}) && Touches(b2, b3, {t + 1}) && end == Some(t + 2)
    requires Code(W, b, cur, b3, end) == true
    ensures var t := |b.mod.blocks|;
            && ClosedBy(W, b, cur, term)
            && Code(W, b1, t, b2, None) && Code(W, b2, t + 1, b3, None)
            && OpenAt(b1, t) && OpenAt(b2, t + 1) && b2.mod.blocks[t + 1].insts == []
            && OpenAt(b3, t + 2) && b3.mod.blocks[t + 2].insts == []
            && b.mod.values <= b1.mod.values && b.mod.values <= b2.mod.values && b.mod.values <= b3.mod.values
  {
    var t := |b.mod.blocks|;
    TouchesTrans(b1, b2, b3, {t, t + 1}, {t + 1});
    CodeBlock(W, b, cur, b1, cur, b3, end, {t, t + 1});
    CodePart(W, b, cur, b1, t, b2, None, b3, end, {t + 1});
  }

  /** A statement that ends at the start of the empty block `t`, in its own scope. */
  ghost predicate NestedEnd(b: Bld, st: FuncState, t: nat, ls: LoweredStmt) {
    ls.st == st.(cur := Some(t)) && OpenAt(ls.b, t) && ls.b.mod.blocks[t].insts == [] && b.mod.values <= ls.b.mod.values
  }

  /** A nested block has been run from `w`: the statement is done. */
  lemma FinishNested(W: World, fuel: nat, p: Point, w: Point, rb: ExecResult, r: ExecResult, st: FuncState, ls: LoweredStmt,
                     t: nat, rest: Stack, k1: nat, f1: Frame) returns (k: nat, q: Point)
    requires Here(W, p) == true && Reaches(W, p, w, rest, 1) == true
    requires SimNested(W, fuel, w, rb, t, rest, k1, f1) == true
    requires st.scope == p.sc && NestedEnd(p.b, st, t, ls) == true && r == LeaveScope(p.env, rb)
    ensures SimEx(W, fuel, p, r, ls, rest, k, q)
  {
    if rb.Next? {
      k, q := NestedHere(W, fuel, p, w, 1, rb, ls.b, t, rest, k1, f1);
      ReachesGoes(W, p, q, rest, k);
    } else {
      q := p;
      k := SimNestedStop(W, fuel, p, w, 1, rb, t, rest, k1, f1, ls, q);
    }
  }

  // ---- `while` ---------------------------------------------------------------------------

  /** Where the code of a loop is: its head `t` in `b1`, its body's block in `b2`, all of it in `ls.b`. */
  ghost predicate LoopAt(W: World, b1: Bld, st: FuncState, s: Stmt, t: nat, b2: Bld, ls: LoweredStmt)
    requires s.While?
  {
    var x := LowerValue(W.S, b1, st.scope, t, s.cond);
    && OpenAt(b1, t) && b1.mod.blocks[t].insts == [] && Code(W, b1, t, x.b, Some(x.cur))
    && ForkAt(W, x.b, x.cur, x.v, true, t + 1, t + 2, b2) && ForkAt(W, x.b, x.cur, x.v, false, t + 1, t + 2, ls.b)
    && ls.b == LowerArm(W.S, b2, st, t + 1, s.body, t) && Code(W, b2, t + 1, ls.b, None)
    && ls.st == st.(cur := Some(t + 2))
  }

  lemma {:induction false} SimWhile(W: World, fuel: nat, p: Point, st: FuncState, s: Stmt, ls: LoweredStmt, r: ExecResult, rest: Stack)
    returns (k: nat, q: Point)
    requires Ready(W, fuel) == true && Here(W, p) == true && st.scope == p.sc
    requires s.While? && TypedStmt(W.S, TypesOf(p.sc.locals), s)
    requires ls == LowerWhile(W.S, p.b, st, p.cur, s) && r == ExecWhile(W.P, W.S, fuel, p.sc.ret, p.env, p.st, s)
    requires Code(W, p.b, p.cur, ls.b, ls.st.cur) == true
    ensures SimEx(W, fuel, p, r, ls, rest, k, q)
    decreases fuel, s, 2
  {
    var t := |p.b.mod.blocks|;
    var b1, b2 := CodeOfWhile(W, p.b, st, p.cur, s, ls);
    var h := SimBranch(W, p, t, b1, rest);
    k, q := SimLoop(W, fuel, h, st, s, b2, ls, r, rest);
    ReachesGoes(W, p, h, rest, 1);
    k := SimExAfter(W, fuel, fuel, 1, p, h, r, ls, rest, k, q);
  }

  /** A plain branch to an empty block. */
  lemma SimBranch(W: World, p: Point, t: nat, b': Bld, rest: Stack) returns (q: Point)
    requires VerifyOk(W.M) == true && Here(W, p) == true && ClosedBy(W, p.b, p.cur, TermBr(t, [])) == true
    requires p.b.mod.values <= b'.mod.values && OpenAt(b', t) && b'.mod.blocks[t].insts == []
    ensures Reaches(W, p, q, rest, 1) && Here(W, q) && q == p.(b := b', cur := t, f := Moved(p.f, t))
  {
    StepTerminator(W, p, TermBr(t, []), rest);
    GotoPlain(W, p.f, rest, p.st.globals, t);
    HereMoved(W, p, b', t);
    q := p.(b := b', cur := t, f := Moved(p.f, t));
  }

  lemma CodeOfWhile(W: World, b: Bld, st: FuncState, cur: nat, s: Stmt, ls: LoweredStmt) returns (b1: Bld, b2: Bld)
    requires OpenAt(b, cur) && s.While?
    requires ls == LowerWhile(W.S, b, st, cur, s)
    requires Code(W, b, cur, ls.b, ls.st.cur) == true
    ensures var t := |b.mod.blocks|;
            && ClosedBy(W, b, cur, TermBr(t, [])) && LoopAt(W, b1, st, s, t, b2, ls)
            && b.mod.values <= b1.mod.values
  {
    hide VerifyOk, Ready, TypedStmt, TypedBlock, AddThreeBlocks, ClosedBy, LowerWhileHead, Terminate;
    var t := |b.mod.blocks|;
    b1 := Terminate(AddThreeBlocks(b, st.scope.owner), cur, TermBr(t, []));
    b2 := LowerWhileHead(W.S, b1, st, t, s);
    GrowsFork(b, st.scope.owner, cur, TermBr(t, []));
    GrowsWhileHead(W.S, b1, st, t, s);
    GrowsArm(W.S, b2, st, t + 1, s.body, t);
    CodeOfFork(W, b, cur, b1, b2, ls.b, ls.st.cur, TermBr(t, []));
    CodeOfHead(W, b1, st, t, s, b2, ls.b);
  }

  lemma CodeOfHead(W: World, b1: Bld, st: FuncState, t: nat, s: Stmt, b2: Bld, b3: Bld)
    requires OpenAt(b1, t) && s.While? && b2 == LowerWhileHead(W.S, b1, st, t, s)
    requires Code(W, b1, t, b2, None) == true
    requires OpenAt(b2, t + 1) && b2.mod.blocks[t + 1].insts == [] && b2.mod.values <= b3.mod.values
    requires OpenAt(b3, t + 2) && b3.mod.blocks[t + 2].insts == []
    ensures var x := LowerValue(W.S, b1, st.scope, t, s.cond);
            && Code(W, b1, t, x.b, Some(x.cur))
            && ForkAt(W, x.b, x.cur, x.v, true, t + 1, t + 2, b2) && ForkAt(W, x.b, x.cur, x.v, false, t + 1, t + 2, b3)
  {
    var x := LowerValue(W.S, b1, st.scope, t, s.cond);
    GrowsValue(W.S, b1, st.scope, t, s.cond);
    GrowsTerminate(x.b, x.cur, TermCondBr(x.v, t + 1, t + 2));
    CodeHead(W, b1, t, x.b, x.cur, b2, None);
  }

  /** From the head of a loop: the condition, then out, or through the body and back. */
  lemma {:induction false} SimLoop(W: World, fuel: nat, h: Point, st: FuncState, s: Stmt, b2: Bld, ls: LoweredStmt, r: ExecResult, rest: Stack)
    returns (k: nat, q: Point)
    requires Ready(W, fuel) == true && Here(W, h) == true && st.scope == h.sc
    requires s.While? && TypedStmt(W.S, TypesOf(h.sc.locals), s)
    requires LoopAt(W, h.b, st, s, h.cur, b2, ls) == true && r == ExecWhile(W.P, W.S, fuel, h.sc.ret, h.env, h.st, s)
    ensures SimEx(W, fuel, h, r, ls, rest, k, q)
    decreases fuel, s, 1
  {
    hide VerifyOk, TablesOk, TypedExpr, TypedBlock, Here, Code, SupportedType, Eval, LowerValue, SimEx, TypesOf;
    var x := LowerValue(W.S, h.b, h.sc, h.cur, s.cond);
    var rx := Eval(W.P, W.S, fuel, h.env, h.st, s.cond);
    var f';
    k, f' := SimValue(W, fuel, h, s.cond, x, rx, rest);
    if !rx.Ev? {
      q := h;
      SimExStop(W, fuel, h, rx, x, s.cond.ty, r, ls, rest, k, f', q);
    } else {
      SimEvPoint(W, fuel, h, rx, x, s.cond.ty, rest, k, f');
      var p := AfterEv(h, x, rx.st, f');
      assert r == ExecIteration(W.P, W.S, fuel, h.sc.ret, h.env, rx.st, s, rx.v);
      if rx.v == BoolV(true) {
        k, q := SimIteration(W, fuel, h, k, p, x.v, st, s, b2, ls, r, rest);
      } else {
        k, q := FinishLoop(W, fuel, h, k, p, x.v, rx.v, st, ls, r, rest);
      }
    }
  }

  /** The condition held at `p`: the body, and the loop again with less fuel. */
  lemma {:induction false} SimIteration(W: World, fuel: nat, h: Point, k0: nat, p: Point, cond: Id, st: FuncState, s: Stmt, b2: Bld,
                                        ls: LoweredStmt, r: ExecResult, rest: Stack) returns (k: nat, q: Point)
    requires Ready(W, fuel) == true && Here(W, h) == true && st.scope == h.sc && Here(W, p) == true
    requires s.While? && TypedStmt(W.S, TypesOf(h.sc.locals), s)
    requires LoopAt(W, h.b, st, s, h.cur, b2, ls) == true
    requires Reaches(W, h, p, rest, k0) == true && (cond.Some? ==> Holds(p.f, cond.value, BoolV(true)))
    requires ForkAt(W, p.b, p.cur, cond, true, h.cur + 1, h.cur + 2, b2) == true
    requires r == ExecIteration(W.P, W.S, fuel, h.sc.ret, h.env, p.st, s, BoolV(true))
    ensures SimEx(W, fuel, h, r, ls, rest, k, q)
    decreases fuel, s, 0
  {
    hide VerifyOk, Code, ExecBlock;
    var rb := ExecBlock(W.P, W.S, fuel, h.sc.ret, h.env, p.st, s.body);
    var w, k1, f1 := SimWay(W, fuel, p, st, cond, true, h.cur + 1, h.cur + 2, b2, s.body, ls.b, h.cur, rb, rest);
    var k2 := ReachesTrans(W, h, p, w, rest, k0, 1);
    if !rb.Next? {
      q := h;
      k := SimNestedStop(W, fuel, h, w, k2, rb, h.cur, rest, k1, f1, ls, q);
    } else {
      var h2;
      k2, h2 := NestedHere(W, fuel, h, w, k2, rb, h.b, h.cur, rest, k1, f1);
      if fuel == 0 {
        k, q := k2, h;
      } else {
        ReadyLess(W, fuel, fuel - 1);
        k, q := SimLoop(W, fuel - 1, h2, st, s, b2, ls, r, rest);
        ReachesGoes(W, h, h2, rest, k2);
        k := SimExAfter(W, fuel - 1, fuel, k2, h, h2, r, ls, rest, k, q);
      }
    }
  }

  /** Leaving a loop, or a condition that is not a boolean. */
  lemma FinishLoop(W: World, fuel: nat, h: Point, k1: nat, p: Point, cond: Id, v: Val, st: FuncState, ls: LoweredStmt, r: ExecResult, rest: Stack)
    returns (k: nat, q: Point)
    requires VerifyOk(W.M) == true && Here(W, p) == true && Reaches(W, h, p, rest, k1) == true && v != BoolV(true)
    requires cond.Some? ==> Holds(p.f, cond.value, v)
    requires ForkAt(W, p.b, p.cur, cond, false, h.cur + 1, h.cur + 2, ls.b) == true
    requires ls.st == st.(cur := Some(h.cur + 2)) && st.scope == h.sc
    requires r == if v.BoolV? then Next(h.env, p.st) else ExFault(p.st.globals)
    ensures SimEx(W, fuel, h, r, ls, rest, k, q)
  {
    hide VerifyOk, TablesOk, Ready, TypedExpr, TypedStmt, TypedBlock, Here, Code, SupportedType;
    if v.BoolV? {
      q := SimFork(W, p, cond, false, h.cur + 1, h.cur + 2, ls.b, rest);
      k := ReachesTrans(W, h, p, q, rest, k1, 1);
      ReachesGoes(W, h, q, rest, k);
    } else {
      k, q := k1 + 1, h;
      ForkFault(W, p, cond, v, h.cur + 1, h.cur + 2, rest);
      StepNAdd(W.P, W.M, Conf(h, rest), k1, 1);
    }
  }

  // ---- `switch` --------------------------------------------------------------------------

  /** The key a scrutinee's value is tested under: presence for an optional. */
  function TestedKey(optional: bool, v: Val): Option<int> {
    if !optional then SwitchKey(v) else if v.SomeV? then Some(1) else if v.NoneV? then Some(0) else None
  }

  function TargetOf(arms: seq<Arm>, dflt: nat, key: int): nat {
    match FindArm(arms, key) case Some(i) => arms[i].target case None => dflt
  }

  lemma {:induction false} FindArmAppend(arms: seq<Arm>, a: Arm, key: int)
    ensures FindArm(arms + [a], key) == if FindArm(arms, key).Some? then FindArm(arms, key)
                                        else if a.key == key then Some(|arms|) else None
  {
    if arms == [] {
      assert arms + [a] == [a] && [a][1..] == [];
    } else {
      assert (arms + [a])[1..] == arms[1..] + [a];
      FindArmAppend(arms[1..], a, key);
    }
  }

  /** The block the arms and the default lead to is that of the case the source selects. */
  lemma {:induction false} ArmsSelect(b: Bld, owner: nat, ty: Ty, cases: seq<Case>, i: nat, dflt: nat, arms: seq<Arm>, v: Val, key: int)
    requires i <= |cases| && i <= |b.mod.blocks|
    requires AddCases(b, owner, ty, cases, i, dflt, arms).ok && TestedKey(ty.Optional?, v) == Some(key)
    ensures var r := AddCases(b, owner, ty, cases, i, dflt, arms);
            var first := |b.mod.blocks| - i;
            var taken := FirstTaking(cases, ty.Optional?, v, i);
            var last := LastDefault(cases, i);
            TargetOf(r.arms, r.defaultBb, key) ==
              if FindArm(arms, key).Some? then arms[FindArm(arms, key).value].target
              else if taken.Some? then first + taken.value
              else if last.Some? then first + last.value
              else dflt
    decreases |cases| - i
  {
    if i < |cases| {
      var b1 := AddBlock(b, owner);
      var bb := |b.mod.blocks|;
      var c := cases[i];
      if c.isDefault {
        ArmsSelect(b1, owner, ty, cases, i + 1, bb, arms, v, key);
      } else {
        assert CaseKey(ty, c).Some?;
        var k := CaseKey(ty, c).value;
        TakesByKey(ty, c, v, key);
        FindArmAppend(arms, Arm(k, bb), key);
        ArmsSelect(b1, owner, ty, cases, i + 1, dflt, arms + [Arm(k, bb)], v, key);
      }
    }
  }

  lemma TakesByKey(ty: Ty, c: Case, v: Val, key: int)
    requires CaseKey(ty, c).Some? && TestedKey(ty.Optional?, v) == Some(key)
    ensures CaseTakes(c, ty.Optional?, v) <==> CaseKey(ty, c).value == key
  {
  }

  /** Every block from `first` on is final in the module. */
  ghost predicate CodeFrom(W: World, first: nat, bz: Bld) {
    && bz.errs == [] && bz.mod.values <= W.M.values && bz.mod.insts <= W.M.insts && |bz.mod.blocks| <= |W.M.blocks|
    && forall x :: first <= x < |bz.mod.blocks| ==> W.M.blocks[x] == bz.mod.blocks[x]
  }

  ghost predicate EmptyFrom(b: Bld, first: nat, n: nat) {
    first + n <= |b.mod.blocks| && forall x :: first <= x < first + n ==> b.mod.blocks[x] == EMPTY_BLOCK
  }

  /** The code of case `i` among the cases' code. */
  lemma {:induction false} CodeOfCase(W: World, b: Bld, st: FuncState, first: nat, cases: seq<Case>, i: nat, after: nat, bz: Bld)
    returns (bi: Bld, bj: Bld)
    requires i < |cases| && EmptyFrom(b, first, |cases|)
    requires bz == LowerCases(W.S, b, st, first, cases, after) && CodeFrom(W, first, bz)
    ensures bj == LowerArm(W.S, bi, st, first + i, cases[i].body, after)
    ensures Code(W, bi, first + i, bj, None)
    ensures OpenAt(bi, first + i) && bi.mod.blocks[first + i].insts == [] && b.mod.values <= bi.mod.values
    decreases i
  {
    var b1 := LowerArm(W.S, b, st, first, cases[0].body, after);
    GrowsArm(W.S, b, st, first, cases[0].body, after);
    assert bz == LowerCases(W.S, b1, st, first + 1, cases[1..], after);
    if i == 0 {
      bi, bj := b, b1;
      GrowsCases(W.S, b1, st, first + 1, cases[1..], after);
      CodeOfFirst(W, b, first, |cases| - 1, b1, bz);
    } else {
      bi, bj := CodeOfCase(W, b1, st, first + 1, cases[1..], i - 1, after, bz);
    }
  }

  lemma CodeOfFirst(W: World, b: Bld, first: nat, n: nat, b1: Bld, bz: Bld)
    requires first + n < |b.mod.blocks| <= |b1.mod.blocks|
    requires Touches(b1, bz, Span(first + 1, n)) && CodeFrom(W, first, bz)
    ensures Code(W, b, first, b1, None)
  {
    forall x | 0 <= x < |b1.mod.blocks| && (x == first || |b.mod.blocks| <= x)
      ensures W.M.blocks[x] == b1.mod.blocks[x]
    {
      assert x !in Span(first + 1, n);
    }
  }

  /** Where the code of a switch is: `b1` has the test and the empty blocks, `ls.b` the cases too. */
  ghost predicate SwitchAt(W: World, b: Bld, st: FuncState, cur: nat, s: Stmt, v: Id, cs: CaseBlocks, b1: Bld, ls: LoweredStmt)
    requires s.Switch?
  {
    var after := |b.mod.blocks|;
    && cs == AddCases(AddBlock(b, st.scope.owner), st.scope.owner, s.scrutinee.ty, s.cases, 0, after, []) && cs.ok
    && ClosedBy(W, b, cur, TermSwitch(v, cs.defaultBb, cs.arms))
    && b.mod.values <= b1.mod.values && EmptyFrom(b1, after + 1, |s.cases|)
    && ls.b == LowerCases(W.S, b1, st, after + 1, s.cases, after) && CodeFrom(W, after + 1, ls.b)
    && NestedEnd(b, st, after, ls)
  }

  lemma CodeOfSwitchArms(W: World, b: Bld, st: FuncState, cur: nat, s: Stmt, v: Id, ls: LoweredStmt) returns (cs: CaseBlocks, b1: Bld)
    requires OpenAt(b, cur) && s.Switch?
    requires ls == LowerSwitchArms(W.S, b, st, cur, s, v)
    requires Code(W, b, cur, ls.b, ls.st.cur) == true
    ensures SwitchAt(W, b, st, cur, s, v, cs, b1, ls)
  {
    var after := |b.mod.blocks|;
    cs := AddCases(AddBlock(b, st.scope.owner), st.scope.owner, s.scrutinee.ty, s.cases, 0, after, []);
    CasesOk(AddBlock(b, st.scope.owner), st.scope.owner, s.scrutinee.ty, s.cases, 0, after, []);
    GrowsSwitchBlocks(b, st.scope.owner, s.scrutinee.ty, s.cases);
    assert cs.ok;
    var term := TermSwitch(v, cs.defaultBb, cs.arms);
    b1 := Terminate(cs.b, cur, term);
    GrowsCases(W.S, b1, st, after + 1, s.cases, after);
    SwitchBlocksKept(W, b, cur, |s.cases|, cs.b, term, b1, ls.b);
    assert ls == LoweredStmt(LowerCases(W.S, b1, st, after + 1, s.cases, after), st.(cur := Some(after)));
  }

  /** Lowering the cases leaves the test's block and the block after the switch alone. */
  lemma SwitchBlocksKept(W: World, b: Bld, cur: nat, n: nat, b0: Bld, term: Term, b1: Bld, bz: Bld)
    requires OpenAt(b, cur)
    requires Touches(b, b0, {}) && |b0.mod.blocks| == |b.mod.blocks| + 1 + n
    requires EmptyFrom(b0, |b.mod.blocks|, n + 1) && b1 == Terminate(b0, cur, term)
    requires Touches(b1, bz, Span(|b.mod.blocks| + 1, n))
    requires Code(W, b, cur, bz, Some(|b.mod.blocks|)) == true
    ensures var after := |b.mod.blocks|;
            && ClosedBy(W, b, cur, term) && b.mod.values <= b1.mod.values && EmptyFrom(b1, after + 1, n)
            && CodeFrom(W, after + 1, bz)
            && OpenAt(bz, after) && bz.mod.blocks[after].insts == [] && b.mod.values <= bz.mod.values
  {
    var after := |b.mod.blocks|;
    GrowsTerminate(b0, cur, term);
    assert after !in Span(after + 1, n) && cur !in Span(after + 1, n);
    assert bz.mod.blocks[after] == b1.mod.blocks[after] == EMPTY_BLOCK;
    assert W.M.blocks[cur] == bz.mod.blocks[cur] == b1.mod.blocks[cur];
  }

  /** From the test of a switch: the block of the selected case, or past the switch. */
  lemma {:induction false} SimSwitchArms(W: World, fuel: nat, p: Point, st: FuncState, s: Stmt, x: Id, tested: Val, v: Val, ls: LoweredStmt,
                                         r: ExecResult, rest: Stack) returns (k: nat, q: Point)
    requires Ready(W, fuel) == true && Here(W, p) == true && st.scope == p.sc
    requires s.Switch? && TypedStmt(W.S, TypesOf(p.sc.locals), s)
    requires (x.Some? ==> Holds(p.f, x.value, tested)) && SwitchKey(tested) == TestedKey(s.scrutinee.ty.Optional?, v)
    requires ls == LowerSwitchArms(W.S, p.b, st, p.cur, s, x)
    requires r == ExecSelected(W.P, W.S, fuel, p.sc.ret, p.env, p.st, s, v)
    requires Code(W, p.b, p.cur, ls.b, ls.st.cur) == true
    ensures SimEx(W, fuel, p, r, ls, rest, k, q)
    decreases fuel, s, 0
  {
    hide VerifyOk, TablesOk, TypedExpr, Code, SupportedType, LowerSwitchArms, SelectCase, SwitchKey, TypesOf;
    var cs, b1 := CodeOfSwitchArms(W, p.b, st, p.cur, s, x, ls);
    if SwitchKey(tested).None? {
      k, q := 1, p;
      StepTerminator(W, p, TermSwitch(x, cs.defaultBb, cs.arms), rest);
    } else {
      var i := SelectCase(s.cases, s.scrutinee.ty.Optional?, v);
      SwitchGoes(W, p, st, s, x, tested, v, cs, b1, ls, rest);
      if i.Some? {
        k, q := SimSelected(W, fuel, p, st, s, i.value, cs, x, b1, ls, r, rest);
      } else {
        k, q := SimPast(W, fuel, p, st, |p.b.mod.blocks|, ls, r, rest);
      }
    }
  }

  /** No case is selected: past the switch at once. */
  lemma SimPast(W: World, fuel: nat, p: Point, st: FuncState, after: nat, ls: LoweredStmt, r: ExecResult, rest: Stack)
    returns (k: nat, q: Point)
    requires Here(W, p) == true && st.scope == p.sc && NestedEnd(p.b, st, after, ls) == true
    requires StepN(W.P, W.M, Conf(p, rest), 1) == Run(Moved(p.f, after), rest, p.st.globals)
    requires r == Next(p.env, p.st)
    ensures SimEx(W, fuel, p, r, ls, rest, k, q)
  {
    k, q := 1, p.(b := ls.b, cur := after, f := Moved(p.f, after));
    HereMoved(W, p, ls.b, after);
  }

  /** The test of a switch jumps to the block of the case the source selects. */
  lemma SwitchGoes(W: World, p: Point, st: FuncState, s: Stmt, x: Id, tested: Val, v: Val, cs: CaseBlocks, b1: Bld, ls: LoweredStmt, rest: Stack)
    requires VerifyOk(W.M) == true && Here(W, p) == true && s.Switch?
    requires (x.Some? ==> Holds(p.f, x.value, tested)) && SwitchKey(tested).Some?
    requires SwitchKey(tested) == TestedKey(s.scrutinee.ty.Optional?, v)
    requires SwitchAt(W, p.b, st, p.cur, s, x, cs, b1, ls)
    ensures var i := SelectCase(s.cases, s.scrutinee.ty.Optional?, v);
            var target := |p.b.mod.blocks| + if i.Some? then 1 + i.value else 0;
            StepN(W.P, W.M, Conf(p, rest), 1) == Run(Moved(p.f, target), rest, p.st.globals)
  {
    var ty := s.scrutinee.ty;
    var after := |p.b.mod.blocks|;
    var term := TermSwitch(x, cs.defaultBb, cs.arms);
    var b0 := AddBlock(p.b, st.scope.owner);
    ArmsSelect(b0, st.scope.owner, ty, s.cases, 0, after, [], v, SwitchKey(tested).value);
    StepTerminator(W, p, term, rest);
    var target := SwitchTarget(term, SwitchKey(tested).value);
    assert EdgeOk(W.M, target, []);
    GotoPlain(W, p.f, rest, p.st.globals, target);
  }

  /** The selected case's body, then past the switch. */
  lemma {:induction false} SimSelected(W: World, fuel: nat, p: Point, st: FuncState, s: Stmt, i: nat, cs: CaseBlocks, x: Id, b1: Bld,
                                       ls: LoweredStmt, r: ExecResult, rest: Stack) returns (k: nat, q: Point)
    requires Ready(W, fuel) == true && Here(W, p) == true && st.scope == p.sc
    requires s.Switch? && i < |s.cases| && TypedBlock(W.S, TypesOf(p.sc.locals), s.cases[i].body)
    requires SwitchAt(W, p.b, st, p.cur, s, x, cs, b1, ls)
    requires var t := |p.b.mod.blocks| + 1 + i; StepN(W.P, W.M, Conf(p, rest), 1) == Run(Moved(p.f, t), rest, p.st.globals)
    requires r == LeaveScope(p.env, ExecBlock(W.P, W.S, fuel, p.sc.ret, p.env, p.st, s.cases[i].body))
    ensures SimEx(W, fuel, p, r, ls, rest, k, q)
    decreases fuel, s.cases[i].body, 2
  {
    hide VerifyOk, Ready, TypedExpr, TypedBlock, ExecBlock, Moved, SimEx, StepN, TypesOf;
    var after := |p.b.mod.blocks|;
    var t := after + 1 + i;
    var body := s.cases[i].body;
    var bi, bj := CodeOfCase(W, b1, st, after + 1, s.cases, i, after, ls.b);
    HereMoved(W, p, bi, t);
    var w := p.(b := bi, cur := t, f := Moved(p.f, t));
    var rb := ExecBlock(W.P, W.S, fuel, p.sc.ret, p.env, p.st, body);
    var k1, f1 := SimArm(W, fuel, w, st, body, bj, after, rb, rest);
    k, q := FinishNested(W, fuel, p, w, rb, r, st, ls, after, rest, k1, f1);
  }

  lemma {:induction false} SimSwitch(W: World, fuel: nat, p: Point, st: FuncState, s: Stmt, ls: LoweredStmt, r: ExecResult, rest: Stack)
    returns (k: nat, q: Point)
    requires Ready(W, fuel) == true && Here(W, p) == true && st.scope == p.sc
    requires s.Switch? && TypedStmt(W.S, TypesOf(p.sc.locals), s)
    requires ls == LowerSwitch(W.S, p.b, st, p.cur, s) && r == ExecSwitch(W.P, W.S, fuel, p.sc.ret, p.env, p.st, s)
    requires Code(W, p.b, p.cur, ls.b, ls.st.cur) == true
    ensures SimEx(W, fuel, p, r, ls, rest, k, q)
    decreases fuel, s, 1
  {
    hide VerifyOk, TablesOk, Ready;
    var e := s.scrutinee;
    var x := LowerScrutinee(W.S, p.b, p.sc, p.cur, e);
    var rx := Eval(W.P, W.S, fuel, p.env, p.st, e);
    CodeOfSwitch(W, p.b, st, p.cur, s, ls, x);
    var rt, f';
    k, rt, f' := SimScrutinee(W, fuel, p, e, x, rx, rest);
    if rt.Ev? {
      assert r == ExecSelected(W.P, W.S, fuel, p.sc.ret, p.env, rx.st, s, rx.v);
      SimEvPoint(W, fuel, p, rt, x, e.ty, rest, k, f');
      var t := AfterEv(p, x, rt.st, f');
      var k2;
      k2, q := SimSwitchArms(W, fuel, t, st, s, x.v, rt.v, rx.v, ls, r, rest);
      ReachesGoes(W, p, t, rest, k);
      k := SimExAfter(W, fuel, fuel, k, p, t, r, ls, rest, k2, q);
    } else {
      q := p;
      SimExStop(W, fuel, p, rt, x, e.ty, r, ls, rest, k, f', q);
    }
  }

  lemma CodeOfSwitch(W: World, b: Bld, st: FuncState, cur: nat, s: Stmt, ls: LoweredStmt, x: Lowered)
    requires cur < |b.mod.blocks| && s.Switch?
    requires x == LowerScrutinee(W.S, b, st.scope, cur, s.scrutinee) && ls == LowerSwitch(W.S, b, st, cur, s)
    requires Code(W, b, cur, ls.b, ls.st.cur) == true
    ensures SwitchableType(s.scrutinee.ty) && Code(W, b, cur, x.b, Some(x.cur))
    ensures x.v.Some? ==> ls == LowerSwitchArms(W.S, x.b, st, x.cur, s, x.v) && Code(W, x.b, x.cur, ls.b, ls.st.cur)
  {
    GrowsScrutinee(W.S, b, st.scope, cur, s.scrutinee);
    if x.v.Some? {
      GrowsSwitchArms(W.S, x.b, st, x.cur, s, x.v);
      CodeHead(W, b, cur, x.b, x.cur, ls.b, ls.st.cur);
      CodeTail(W, b, cur, x.b, x.cur, ls.b, ls.st.cur);
    }
  }

  /** The scrutinee, and for an optional the test for its presence. */
  lemma {:induction false} SimScrutinee(W: World, fuel: nat, p: Point, e: Expr, x: Lowered, rx: EvalResult, rest: Stack)
    returns (k: nat, rt: EvalResult, f': Frame)
    requires Ready(W, fuel) == true && Here(W, p) == true && TypedExpr(W.S, TypesOf(p.sc.locals), e) && e.ty != Unit
    requires x == LowerScrutinee(W.S, p.b, p.sc, p.cur, e) && rx == Eval(W.P, W.S, fuel, p.env, p.st, e)
    requires Code(W, p.b, p.cur, x.b, Some(x.cur)) == true
    ensures SimEv(W, fuel, p, rt, x, e.ty, rest, k, f')
    ensures rt == if rx.Ev? && e.ty.Optional? then ReadResult(Presence(rx.v), rx.st) else rx
  {
    var y := LowerValue(W.S, p.b, p.sc, p.cur, e);
    rt := if rx.Ev? && e.ty.Optional? then ReadResult(Presence(rx.v), rx.st) else rx;
    CodeOfScrutinee(W, p.b, p.sc, p.cur, e, x, y);
    k, f' := SimValue(W, fuel, p, e, y, rx, rest);
    if !rx.Ev? {
      SimEvStop(W, fuel, p, rx, y, e.ty, x, e.ty, rest, k, f');
    } else if e.ty.Optional? {
      SimEvPoint(W, fuel, p, rx, y, e.ty, rest, k, f');
      PresentComputes(W, f', rest, rx.st.globals, y.v, x.v, Bool, rx.v);
      k, f' := SimEmitAfter(W, fuel, k, p, AfterEv(p, y, rx.st, f'), Bool, Pure, OpOptionalIsPresent(y.v), LayoutClass.Scalar,
                            Presence(rx.v), x, rt, rest);
      SimEvAs(W, fuel, p, rt, x, Bool, rt, e.ty, rest, k, f');
    }
  }

  lemma CodeOfScrutinee(W: World, b: Bld, sc: Scope, cur: nat, e: Expr, x: Lowered, y: Lowered)
    requires cur < |b.mod.blocks|
    requires x == LowerScrutinee(W.S, b, sc, cur, e) && y == LowerValue(W.S, b, sc, cur, e)
    requires Code(W, b, cur, x.b, Some(x.cur)) == true
    ensures Code(W, b, cur, y.b, Some(y.cur))
    ensures if y.v.None? || !e.ty.Optional? then x == y
            else (x == Emit(y.b, y.cur, Bool, Pure, OpOptionalIsPresent(y.v), LayoutClass.Scalar)
                  && Code(W, y.b, y.cur, x.b, Some(y.cur)))
  {
    GrowsValue(W.S, b, sc, cur, e);
    if x != y {
      GrowsEmit(y.b, y.cur, Bool, Pure, OpOptionalIsPresent(y.v), LayoutClass.Scalar);
      CodeHead(W, b, cur, y.b, y.cur, x.b, Some(x.cur));
    }
  }

  // ---- All statements --------------------------------------------------------------------

  lemma {:induction false} SimStmt(W: World, fuel: nat, p: Point, st: FuncState, s: Stmt, ls: LoweredStmt, r: ExecResult, rest: Stack)
    returns (k: nat, q: Point)
    requires Ready(W, fuel) == true && Here(W, p) == true && st.scope == p.sc && TypedStmt(W.S, TypesOf(p.sc.locals), s)
    requires ls == LowerStmt(W.S, p.b, st, p.cur, s) && r == Exec(W.P, W.S, fuel, p.sc.ret, p.env, p.st, s)
    requires Code(W, p.b, p.cur, ls.b, ls.st.cur) == true
    ensures SimEx(W, fuel, p, r, ls, rest, k, q)
    decreases fuel, s, 3
  {
    match s
    case If(_, _, _) => k, q := SimIf(W, fuel, p, st, s, ls, r, rest);
    case While(_, _) => k, q := SimWhile(W, fuel, p, st, s, ls, r, rest);
    case Switch(_, _) => k, q := SimSwitch(W, fuel, p, st, s, ls, r, rest);
    case VarDecl(_, _, _, _, _, _) =>
      DeclaresOk(W.S, p.b, st, p.cur, s);
      k, q := SimVarDecl(W, fuel, p, st, s, BindingType(s).value, ls, r, rest);
    case ExprStmt(Some(e)) => k, q := SimExprStmt(W, fuel, p, e, ls, r, rest);
    case Return(Some(e)) =>
      var x := LowerValueAs(W.S, p.b, p.sc, p.cur, e, p.sc.ret);
      q := p;
      k := SimReturn(W, fuel, p, e, x, ls, r, rest);
    case Return(None) =>
      q := p;
      k := SimReturnUnit(W, fuel, p, ls, r, rest);
    case ExprStmt(None) =>
      k, q := 0, p;
      ReachesStay(W, p, rest);
    case OtherStmt => assert false;
  }

  /** What a declaration lowered without a diagnostic has. */
  lemma DeclaresOk(S: Program, b: Bld, st: FuncState, cur: nat, s: Stmt)
    requires s.VarDecl? && LowerStmt(S, b, st, cur, s).b.errs == []
    ensures s.init.Some? && BindingType(s).Some? && SupportedType(BindingType(s).value) && !s.isStatic
  {
  }
}
