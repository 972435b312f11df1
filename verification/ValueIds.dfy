/** Which expressions a value id stands for. The builder gives some expressions no id, and says
    nothing: calls of unit functions, locals bound to no id, and whatever is made of those. Whether
    an expression has an id is decided here from its form and types alone. */
module ValueIds {
  import opened Wrappers
  import opened Sir
  import opened SirSemantics
  import opened Goir
  import opened Lowering
  import opened Growth

  /** A local's type, and whether reading it gives an id. */
  datatype Name = Name(ty: Ty, hasId: bool)
  type Names = map<Sym, Name>

  /** A slot can be loaded from unless it is of unit type; another local is the id it is bound to. */
  function NameOf(bd: Binding): Name { Name(bd.ty, if bd.isPlace then bd.ty != Unit else bd.value.Some?) }

  function NamesOf(locals: map<Sym, Binding>): Names { map s | s in locals :: NameOf(locals[s]) }

  predicate GlobalHasId(S: Program, sym: Sym) {
    var i := FindGlobal(S.globals, sym);
    i.Some? && S.globals[i.value].ty != Unit
  }

  /** The type of what is stored where `place` names a local or a global. */
  function PlaceType(S: Program, N: Names, place: Expr): Ty {
    if place.Local? && place.sym in N then N[place.sym].ty
    else if place.Local? || place.Global? then
      var i := FindGlobal(S.globals, place.sym);
      if i.Some? then S.globals[i.value].ty else Unit
    else Unit
  }

  predicate HasId(S: Program, N: Names, e: Expr)
    decreases e, 0
  {
    match e
    case Local(_, sym) => if sym in N then N[sym].hasId else GlobalHasId(S, sym)
    case Global(_, sym) => GlobalHasId(S, sym)
    case Binary(ty, tok, a, b) =>
      if tok == QuestionQuestion then HasId(S, N, a) && a.ty.Optional? && a.ty.elem != Unit && HasIdAs(S, N, b, ty)
      else ty != Unit
    case Assign(_, place, rhs) => HasIdAs(S, N, rhs, PlaceType(S, N, place))
    case _ => e.ty != Unit
  }

  /** `null` where another optional type is wanted always has an id. */
  predicate HasIdAs(S: Program, N: Names, e: Expr, target: Ty)
    decreases e, 1
  {
    (e.ty != target && target.Optional? && e.NullLit?) || HasId(S, N, e)
  }

  // ---- Scopes ----------------------------------------------------------------------------

  ghost predicate BindingOk(values: seq<Value>, bd: Binding) {
    && SupportedType(bd.ty) && bd.layout == ClassifyLayout(bd.ty)
    && (bd.value.Some? ==> bd.value.value < |values|)
    && if bd.isPlace then bd.value.Some? && values[bd.value.value].elemTy == bd.ty
       else bd.value.Some? ==> !values[bd.value.value].isPlace
  }

  /** Every local names a slot of its type, or a value, or no id. */
  ghost predicate ScopeOk(values: seq<Value>, sc: Scope) {
    forall s :: s in sc.locals ==> BindingOk(values, sc.locals[s])
  }

  predicate GlobalsOk(S: Program) { forall i :: 0 <= i < |S.globals| ==> SupportedGlobal(S.globals[i]) }

  lemma ScopeLater(values: seq<Value>, values': seq<Value>, sc: Scope)
    requires ScopeOk(values, sc) && values <= values'
    ensures ScopeOk(values', sc)
  {
    forall s | s in sc.locals
      ensures BindingOk(values', sc.locals[s])
    {
      assert BindingOk(values, sc.locals[s]);
    }
  }

  // ---- The ids lowering gives ------------------------------------------------------------

  /** `v` is no id, or the id of a value that is not a place. */
  predicate PlainId(b: Bld, v: Id) { v.Some? ==> v.value < |b.mod.values| && !b.mod.values[v.value].isPlace }

  /** `lo` has an id exactly if `has`, and it is a value's. */
  predicate IdIff(lo: Lowered, has: bool) { (lo.v.Some? <==> has) && PlainId(lo.b, lo.v) }

  /** Lowering from block `cur` in a scope of a program whose globals are supported. */
  ghost predicate Ground(S: Program, b: Bld, sc: Scope, cur: nat) {
    cur < |b.mod.blocks| && GlobalsOk(S) && ScopeOk(b.mod.values, sc)
  }

  lemma GroundLater(S: Program, b: Bld, sc: Scope, cur: nat, b': Bld, cur': nat)
    requires Ground(S, b, sc, cur) && Grows(b, cur, b', cur')
    ensures Ground(S, b', sc, cur')
  {
    ScopeLater(b.mod.values, b'.mod.values, sc);
  }

  lemma GlobalId(S: Program, b: Bld, cur: nat, sym: Sym, lo: Lowered)
    requires GlobalsOk(S) && lo == LowerGlobal(S, b, cur, sym) && lo.b.errs == []
    ensures IdIff(lo, GlobalHasId(S, sym))
    ensures lo.v.Some? ==> lo.b.mod.values[lo.v.value].ty == S.globals[FindGlobal(S.globals, sym).value].ty
  {
    var i := FindGlobal(S.globals, sym);
    if i.Some? {
      assert SupportedGlobal(S.globals[i.value]);
      var p := GlobalPlaceOf(S, b, cur, sym);
      assert ElemType(p.b.mod, p.v) == S.globals[i.value].ty;
    } else {
      assert GlobalPlaceOf(S, b, cur, sym).b.errs == b.errs + [UnknownSymbol];
    }
  }

  lemma LocalId(S: Program, b: Bld, sc: Scope, cur: nat, sym: Sym, lo: Lowered)
    requires Ground(S, b, sc, cur) && sym in sc.locals && lo == LowerLocal(S, b, sc, cur, sym)
    ensures IdIff(lo, NamesOf(sc.locals)[sym].hasId)
    ensures sc.locals[sym].isPlace && lo.v.Some? ==> lo.b.mod.values[lo.v.value].ty == sc.locals[sym].ty
  {
    assert BindingOk(b.mod.values, sc.locals[sym]);
  }

  /** The place an assignment stores to, once no message has come of it. */
  lemma PlaceId(S: Program, b: Bld, sc: Scope, cur: nat, place: Expr, p: Lowered)
    requires Ground(S, b, sc, cur) && p == LowerPlace(S, b, sc, cur, place) && p.b.errs == []
    ensures p.v.Some? && ElemType(p.b.mod, p.v) == PlaceType(S, NamesOf(sc.locals), place)
  {
    if place.Local? && place.sym in sc.locals {
      assert BindingOk(b.mod.values, sc.locals[place.sym]);
    }
  }

  /** Lowering an expression without a message gives an id if and only if the expression has one. */
  lemma {:induction false} ValueId(S: Program, b: Bld, sc: Scope, cur: nat, e: Expr, lo: Lowered)
    requires Ground(S, b, sc, cur) == true && lo == LowerValue(S, b, sc, cur, e) && lo.b.errs == []
    ensures IdIff(lo, HasId(S, NamesOf(sc.locals), e))
    decreases e, 1
  {
    match e
    case Local(_, sym) =>
      if sym in sc.locals {
        LocalId(S, b, sc, cur, sym, lo);
      } else {
        GlobalId(S, b, cur, sym, lo);
      }
    case Global(_, sym) => GlobalId(S, b, cur, sym, lo);
    case Binary(_, tok, _, _) =>
      if tok == QuestionQuestion {
        CoalesceId(S, b, sc, cur, e, lo);
      }
    case Assign(_, _, _) => AssignId(S, b, sc, cur, e, lo);
    case _ =>
  }

  /** The same where a value of type `target` is wanted: converting neither makes nor loses an id. */
  lemma {:induction false} ValueAsId(S: Program, b: Bld, sc: Scope, cur: nat, e: Expr, target: Ty, lo: Lowered)
    requires Ground(S, b, sc, cur) == true && lo == LowerValueAs(S, b, sc, cur, e, target) && lo.b.errs == []
    ensures IdIff(lo, HasIdAs(S, NamesOf(sc.locals), e, target))
    decreases e, 2
  {
    if !(e.ty != target && target.Optional? && e.NullLit?) {
      var x := LowerValue(S, b, sc, cur, e);
      assert x.b.errs <= lo.b.errs;
      ValueId(S, b, sc, cur, e, x);
    }
  }

  lemma {:induction false} AssignId(S: Program, b: Bld, sc: Scope, cur: nat, e: Expr, lo: Lowered)
    requires Ground(S, b, sc, cur) == true && e.Assign? && lo == LowerAssign(S, b, sc, cur, e) && lo.b.errs == []
    ensures IdIff(lo, HasId(S, NamesOf(sc.locals), e))
    decreases e, 0
  {
    var p := LowerPlace(S, b, sc, cur, e.place);
    var N := NamesOf(sc.locals);
    GrowsPlace(S, b, sc, cur, e.place);
    if p.v.None? {
      GrowsValue(S, p.b, sc, cur, e.rhs);
      PlaceId(S, b, sc, cur, e.place, p);
      assert false;
    } else {
      var ty := ElemType(p.b.mod, p.v);
      var r := LowerValueAs(S, p.b, sc, cur, e.rhs, ty);
      GrowsValueAs(S, p.b, sc, cur, e.rhs, ty);
      PlaceId(S, b, sc, cur, e.place, p);
      GroundLater(S, b, sc, cur, p.b, cur);
      ValueAsId(S, p.b, sc, cur, e.rhs, ty, r);
    }
  }

  lemma {:induction false} CoalesceId(S: Program, b: Bld, sc: Scope, cur: nat, e: Expr, lo: Lowered)
    requires Ground(S, b, sc, cur) == true && e.Binary? && lo == LowerCoalesce(S, b, sc, cur, e) && lo.b.errs == []
    requires e.tok == QuestionQuestion
    ensures IdIff(lo, HasId(S, NamesOf(sc.locals), e))
    decreases e, 0, 1
  {
    hide LowerValue, LowerCoalesceArms, Emit, GlobalsOk, ScopeOk, NamesOf;
    var x := LowerValue(S, b, sc, cur, e.a);
    if e.a.ty.Optional? {
      CoalesceParts(S, b, sc, cur, e, lo, x);
      ValueId(S, b, sc, cur, e.a, x);
      if x.v.Some? {
        var t := PresenceTest(x);
        ArmsId(S, t.b, sc, t.cur, e, x.v, t.v, lo);
      }
    }
  }

  lemma CoalesceParts(S: Program, b: Bld, sc: Scope, cur: nat, e: Expr, lo: Lowered, x: Lowered)
    requires Ground(S, b, sc, cur) == true && e.Binary? && e.a.ty.Optional?
    requires lo == LowerCoalesce(S, b, sc, cur, e) && lo.b.errs == [] && x == LowerValue(S, b, sc, cur, e.a)
    ensures x.b.errs == [] && Grows(b, cur, x.b, x.cur)
    ensures lo == if x.v.None? then x else LowerCoalesceArms(S, PresenceTest(x).b, sc, x.cur, e, x.v, PresenceTest(x).v)
    ensures Grows(x.b, x.cur, PresenceTest(x).b, x.cur) && Ground(S, PresenceTest(x).b, sc, x.cur)
    ensures PresenceTest(x).b.errs == [] && PresenceTest(x).cur == x.cur && PresenceTest(x).v.Some?
  {
    hide LowerValue, LowerCoalesceArms, GlobalsOk, ScopeOk;
    var t := PresenceTest(x);
    GrowsValue(S, b, sc, cur, e.a);
    GrowsEmit(x.b, x.cur, Bool, Pure, OpOptionalIsPresent(x.v), LayoutClass.Scalar);
    GroundLater(S, b, sc, cur, x.b, x.cur);
    GroundLater(S, x.b, sc, x.cur, t.b, x.cur);
    if x.v.Some? {
      GrowsCoalesceArms(S, t.b, sc, t.cur, e, x.v, t.v);
    }
  }

  lemma {:induction false} ArmsId(S: Program, b: Bld, sc: Scope, cur: nat, e: Expr, opt: Id, present: Id, lo: Lowered)
    requires Ground(S, b, sc, cur) == true && e.Binary? && e.a.ty.Optional?
    requires lo == LowerCoalesceArms(S, b, sc, cur, e, opt, present) && lo.b.errs == []
    ensures IdIff(lo, e.a.ty.elem != Unit && HasIdAs(S, NamesOf(sc.locals), e.b, e.ty))
    decreases e, 0, 0
  {
    hide AddThreeBlocks, AddBlockParam, LowerValueAs;
    var a := CoalesceStages(S, b, sc, cur, e, opt, present);
    GrowsStages(S, b, sc, cur, e, opt, present);
    if a.got.v.Some? {
      GrowsCoalesceBlocks(b, sc.owner, cur, e.ty, present);
      GrowsStagesEnd(b, cur, a);
      ScopeLater(b.mod.values, a.b2.mod.values, sc);
      ValueAsId(S, a.b2, sc, a.s + 1, e.b, e.ty, a.y);
      assert a.b1.mod.values[|b.mod.values|] == PlainValue(e.ty, Pure, UnknownLayout);
    }
  }

  // ---- Statements -----------------------------------------------------------------------

  /** The names in scope after a statement. A `set` or `mut` local has a slot of its own; a `let`
      has the id of its initializer, or none. */
  function NamesAfter(S: Program, N: Names, s: Stmt): Names {
    if s.VarDecl? && s.init.Some? then
      var ty := BindingType(s).value;
      N[s.sym := Name(ty, if s.isSet || s.isMut then ty != Unit else HasIdAs(S, N, s.init.value, ty))]
    else N
  }

  /** A declaration that gives no message declares a supported type and has an initializer. */
  lemma VarDeclParts(S: Program, b: Bld, st: FuncState, cur: nat, s: Stmt, ls: LoweredStmt)
    requires Ground(S, b, st.scope, cur) == true && s.VarDecl? && ls == LowerStmt(S, b, st, cur, s) && ls.b.errs == []
    ensures !s.isStatic && BindingType(s).Some? && SupportedType(BindingType(s).value) && s.init.Some?
    ensures var ty := BindingType(s).value;
            var x := LowerValueAs(S, b, st.scope, cur, s.init.value, ty);
            && ls == BindLocal(x.b, st, x.cur, s, ty, x.v) && Grows(b, cur, x.b, x.cur) && x.b.errs == []
            && GrowsSt(x.b, x.cur, ls.b, ls.st.cur) && ls.st.cur == Some(x.cur)
  {
    hide LowerValueAs, SupportedType, GlobalsOk, ScopeOk;
    if !s.isStatic && BindingType(s).Some? && SupportedType(BindingType(s).value) && s.init.Some? {
      var ty := BindingType(s).value;
      var x := LowerValueAs(S, b, st.scope, cur, s.init.value, ty);
      GrowsValueAs(S, b, st.scope, cur, s.init.value, ty);
      GrowsBindLocal(x.b, st, x.cur, s, ty, x.v);
    }
  }

  /** After a statement the scope's locals have ids just as the names say. */
  lemma ScopeAfter(S: Program, b: Bld, st: FuncState, cur: nat, s: Stmt, ls: LoweredStmt)
    requires Ground(S, b, st.scope, cur) == true && ls == LowerStmt(S, b, st, cur, s) && ls.b.errs == []
    ensures NamesOf(ls.st.scope.locals) == NamesAfter(S, NamesOf(st.scope.locals), s)
    ensures ls.st.cur.Some? ==> Ground(S, ls.b, ls.st.scope, ls.st.cur.value)
  {
    hide LowerValueAs, LowerValue, SupportedType, GlobalsOk;
    GrowsStmt(S, b, st, cur, s);
    ScopeLater(b.mod.values, ls.b.mod.values, st.scope);
    if s.VarDecl? {
      VarDeclParts(S, b, st, cur, s, ls);
      var ty := BindingType(s).value;
      var x := LowerValueAs(S, b, st.scope, cur, s.init.value, ty);
      ValueAsId(S, b, st.scope, cur, s.init.value, ty, x);
      BoundScope(S, b, st, s, ty, x, ls);
    } else {
      SameScopeAfter(S, b, st, cur, s, ls);
    }
  }

  lemma SameScopeAfter(S: Program, b: Bld, st: FuncState, cur: nat, s: Stmt, ls: LoweredStmt)
    requires !s.VarDecl? && ls == LowerStmt(S, b, st, cur, s)
    ensures ls.st.scope == st.scope
  {
    hide LowerValueAs, LowerValue, LowerIf, LowerWhile, LowerSwitch;
    match s
    case If(_, _, _) => IfScope(S, b, st, cur, s);
    case While(_, _) => WhileScope(S, b, st, cur, s);
    case Switch(_, _) => SwitchScope(S, b, st, cur, s);
    case _ =>
  }

  lemma IfScope(S: Program, b: Bld, st: FuncState, cur: nat, s: Stmt)
    requires s.If?
    ensures LowerIf(S, b, st, cur, s).st.scope == st.scope
  {
    hide LowerValue, LowerArm, AddThreeBlocks;
  }

  lemma WhileScope(S: Program, b: Bld, st: FuncState, cur: nat, s: Stmt)
    requires s.While?
    ensures LowerWhile(S, b, st, cur, s).st.scope == st.scope
  {
    hide LowerWhileHead, LowerArm, AddThreeBlocks;
  }

  lemma SwitchScope(S: Program, b: Bld, st: FuncState, cur: nat, s: Stmt)
    requires s.Switch?
    ensures LowerSwitch(S, b, st, cur, s).st.scope == st.scope
  {
    hide LowerScrutinee, AddCases, LowerCases;
  }

  lemma BoundScope(S: Program, b: Bld, st: FuncState, s: Stmt, ty: Ty, x: Lowered, ls: LoweredStmt)
    requires s.VarDecl? && s.init.Some? && BindingType(s) == Some(ty) && SupportedType(ty)
    requires ScopeOk(b.mod.values, st.scope) && b.mod.values <= x.b.mod.values
    requires IdIff(x, HasIdAs(S, NamesOf(st.scope.locals), s.init.value, ty))
    requires ls == BindLocal(x.b, st, x.cur, s, ty, x.v)
    ensures NamesOf(ls.st.scope.locals) == NamesAfter(S, NamesOf(st.scope.locals), s) && ScopeOk(ls.b.mod.values, ls.st.scope)
  {
    hide SupportedType, HasIdAs, HasId, ClassifyLayout;
    var sc := ls.st.scope;
    var N := NamesOf(st.scope.locals);
    BoundOne(x, st, s, ty, ls);
    assert NamesOf(sc.locals) == N[s.sym := NameOf(sc.locals[s.sym])];
    assert NamesAfter(S, N, s) == N[s.sym := NameOf(sc.locals[s.sym])];
    forall n | n in sc.locals
      ensures BindingOk(ls.b.mod.values, sc.locals[n])
    {
      if n != s.sym {
        assert BindingOk(b.mod.values, st.scope.locals[n]) && b.mod.values <= ls.b.mod.values;
      }
    }
  }

  lemma BoundOne(x: Lowered, st: FuncState, s: Stmt, ty: Ty, ls: LoweredStmt)
    requires s.VarDecl? && SupportedType(ty) && PlainId(x.b, x.v) && ls == BindLocal(x.b, st, x.cur, s, ty, x.v)
    ensures s.sym in ls.st.scope.locals && ls.st.scope.locals == st.scope.locals[s.sym := ls.st.scope.locals[s.sym]]
    ensures x.b.mod.values <= ls.b.mod.values && BindingOk(ls.b.mod.values, ls.st.scope.locals[s.sym])
    ensures NameOf(ls.st.scope.locals[s.sym]) == Name(ty, if s.isSet || s.isMut then ty != Unit else x.v.Some?)
  {
    hide SupportedType, ClassifyLayout;
  }
}
