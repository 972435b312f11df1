/** Where edges lead. The blocks of a function are a run of consecutive ids that starts at its entry,
    no block belongs to two functions, and every branch made while a function is lowered leads to a
    block of that same function and brings what it expects, in number and type. */
module BlockEdges {
  import opened Wrappers
  import opened Sir
  import opened SirSemantics
  import opened Goir
  import opened GoirVerify
  import opened Lowering
  import opened Growth
  import opened Typing
  import opened ValueIds
  import opened Fragments
  import opened SimulationBase
  import opened Correctness
  import OpenBlock

  // ---- The typing rule of `??` -----------------------------------------------------------

  /** `a ?? b` has the type of `a`'s payload, wherever it occurs. */
  predicate PayloadTyped(e: Expr)
    decreases e
  {
    match e
    case Unary(_, _, a) => PayloadTyped(a)
    case Cast(_, _, _, a) => PayloadTyped(a)
    case Binary(ty, tok, a, b) =>
      && PayloadTyped(a) && PayloadTyped(b)
      && (tok == QuestionQuestion && a.ty.Optional? ==> ty == a.ty.elem)
    case Call(_, _, args, _, _, _) => forall i :: 0 <= i < |args| ==> PayloadTyped(args[i])
    case Assign(_, _, rhs) => PayloadTyped(rhs)
    case _ => true
  }

  predicate StmtPayloads(s: Stmt)
    decreases s, 0
  {
    match s
    case ExprStmt(e) => e.Some? ==> PayloadTyped(e.value)
    case VarDecl(_, _, _, _, _, init) => init.Some? ==> PayloadTyped(init.value)
    case If(cond, thn, els) => PayloadTyped(cond) && BlockPayloads(thn) && BlockPayloads(els)
    case While(cond, body) => PayloadTyped(cond) && BlockPayloads(body)
    case Switch(e, cases) => PayloadTyped(e) && forall i :: 0 <= i < |cases| ==> BlockPayloads(cases[i].body)
    case Return(e) => e.Some? ==> PayloadTyped(e.value)
    case OtherStmt => true
  }

  predicate BlockPayloads(stmts: seq<Stmt>)
    decreases stmts, 0
  {
    forall i :: 0 <= i < |stmts| ==> StmtPayloads(stmts[i])
  }

  predicate ProgramPayloads(S: Program) { forall i :: 0 <= i < |S.funcs| ==> BlockPayloads(S.funcs[i].body) }

  // ---- Types of the values made ----------------------------------------------------------

  ghost predicate ScopeTyped(values: seq<Value>, sc: Scope) {
    forall s :: s in sc.locals && !sc.locals[s].isPlace && sc.locals[s].value.Some? ==>
      sc.locals[s].value.value < |values| && values[sc.locals[s].value.value].ty == sc.locals[s].ty
  }

  /** `v` is no id, or the id of a value of type `ty`. */
  predicate HasTy(b: Bld, v: Id, ty: Ty) { v.Some? ==> v.value < |b.mod.values| && b.mod.values[v.value].ty == ty }

  ghost predicate Typed(S: Program, b: Bld, sc: Scope, cur: nat) {
    Ground(S, b, sc, cur) && ScopeTyped(b.mod.values, sc)
  }

  lemma TypedLater(S: Program, b: Bld, sc: Scope, cur: nat, b': Bld, cur': nat)
    requires Typed(S, b, sc, cur) && b.mod.values <= b'.mod.values && cur' < |b'.mod.blocks|
    ensures Typed(S, b', sc, cur')
  {
    ScopeLater(b.mod.values, b'.mod.values, sc);
  }

  /** A value made for a well-typed expression has the expression's type. */
  lemma {:induction false} ValueTy(S: Program, b: Bld, sc: Scope, cur: nat, e: Expr, lo: Lowered)
    requires Typed(S, b, sc, cur) == true && lo == LowerValue(S, b, sc, cur, e) && lo.b.errs == []
    requires TypedExpr(S, TypesOf(sc.locals), e)
    ensures HasTy(lo.b, lo.v, e.ty)
    decreases e, 1
  {
    if e.Local? && e.sym in sc.locals {
      LocalId(S, b, sc, cur, e.sym, lo);
    } else if e.Local? || e.Global? {
      GlobalId(S, b, cur, e.sym, lo);
    } else if e.Binary? && e.tok == QuestionQuestion {
      JoinTy(S, b, sc, cur, e, lo);
    } else if e.Assign? {
      StoredTy(S, b, sc, cur, e, lo);
    }
  }

  lemma {:induction false} ValueAsTy(S: Program, b: Bld, sc: Scope, cur: nat, e: Expr, target: Ty, lo: Lowered)
    requires Typed(S, b, sc, cur) == true && lo == LowerValueAs(S, b, sc, cur, e, target) && lo.b.errs == []
    requires TypedExpr(S, TypesOf(sc.locals), e)
    ensures HasTy(lo.b, lo.v, target)
    decreases e, 2
  {
    hide LowerValue;
    if e.ty == target {
      ValueTy(S, b, sc, cur, e, lo);
    } else {
      ValueAsId(S, b, sc, cur, e, target, lo);
    }
  }

  lemma {:induction false} StoredTy(S: Program, b: Bld, sc: Scope, cur: nat, e: Expr, lo: Lowered)
    requires Typed(S, b, sc, cur) == true && e.Assign? && lo == LowerAssign(S, b, sc, cur, e) && lo.b.errs == []
    requires TypedExpr(S, TypesOf(sc.locals), e)
    ensures HasTy(lo.b, lo.v, e.ty)
    decreases e, 0
  {
    hide LowerValueAs, LowerAssign, LowerPlace, GlobalsOk, ScopeOk;
    var p := LowerPlace(S, b, sc, cur, e.place);
    var ty := PlaceType(S, NamesOf(sc.locals), e.place);
    var r := LowerValueAs(S, p.b, sc, cur, e.rhs, ty);
    AssignParts(S, b, sc, cur, e, lo, p, ty, r);
    TypedLater(S, b, sc, cur, p.b, cur);
    ValueAsTy(S, p.b, sc, cur, e.rhs, ty, r);
    PlaceTyped(S, b, sc, cur, e.place, p);
  }

  lemma PlaceTyped(S: Program, b: Bld, sc: Scope, cur: nat, place: Expr, p: Lowered)
    requires p == LowerPlace(S, b, sc, cur, place) && p.b.errs == [] && TypedExpr(S, TypesOf(sc.locals), place)
    ensures PlaceType(S, NamesOf(sc.locals), place) == place.ty
  {
  }

  lemma JoinTy(S: Program, b: Bld, sc: Scope, cur: nat, e: Expr, lo: Lowered)
    requires Typed(S, b, sc, cur) == true && e.Binary? && lo == LowerCoalesce(S, b, sc, cur, e) && lo.b.errs == []
    ensures HasTy(lo.b, lo.v, e.ty)
  {
    hide LowerValue, LowerCoalesceArms, GlobalsOk, ScopeOk;
    if e.a.ty.Optional? {
      var x := LowerValue(S, b, sc, cur, e.a);
      CoalesceParts(S, b, sc, cur, e, lo, x);
      if x.v.Some? {
        var t := PresenceTest(x);
        var a := CoalesceStages(S, t.b, sc, t.cur, e, x.v, t.v);
        ArmsParts(S, t.b, sc, t.cur, e, x.v, t.v, lo, a);
        GrowsCoalesceBlocks(t.b, sc.owner, t.cur, e.ty, t.v);
        JoinValue(t.b, t.cur, a, lo, e.ty);
      }
    }
  }

  /** The join's parameter is still there at the end. */
  lemma JoinValue(b: Bld, cur: nat, a: ArmsCode, lo: Lowered, ty: Ty)
    requires StagesGrow(b, cur, a) && a.b1.mod.values == b.mod.values + [PlainValue(ty, Pure, UnknownLayout)]
    requires lo.v.Some? ==> lo.v == Some(|b.mod.values|) && lo.b == Terminate(a.y.b, a.y.cur, TermBr(a.s + 2, [a.y.v]))
    ensures HasTy(lo.b, lo.v, ty)
  {
    assert a.b1.mod.values <= a.y.b.mod.values;
    assert a.b1.mod.values[|b.mod.values|].ty == ty;
  }

  // ---- The invariant ---------------------------------------------------------------------

  function Ids(lo: nat, n: nat): (r: seq<nat>)
    ensures |r| == n && forall i :: 0 <= i < n ==> r[i] == lo + i
  {
    seq(n, i => lo + i)
  }

  /** An edge from blocks `lo` to `hi` stays among them and brings the parameters of its target. */
  predicate EdgeIn(m: Module, lo: nat, hi: nat, target: nat, args: seq<Id>) { lo <= target < hi && EdgeOk(m, target, args) }

  predicate EdgesIn(m: Module, lo: nat, hi: nat, t: Term) {
    match t
    case TermBr(target, args) => EdgeIn(m, lo, hi, target, args)
    case TermCondBr(_, thenBb, elseBb) => EdgeIn(m, lo, hi, thenBb, []) && EdgeIn(m, lo, hi, elseBb, [])
    case TermSwitch(_, defaultBb, arms) =>
      EdgeIn(m, lo, hi, defaultBb, []) && forall i :: 0 <= i < |arms| ==> EdgeIn(m, lo, hi, arms[i].target, [])
    case TermRet(_, _) => true
  }

  /** Blocks `lo` to `hi` are exactly those of realization `owner`, and their edges stay among them. */
  predicate Range(m: Module, owner: nat, lo: nat, hi: nat) {
    && lo <= hi <= |m.blocks| && owner < |m.reals| && m.reals[owner].blocks == Ids(lo, hi - lo)
    && forall x :: lo <= x < hi && m.blocks[x].term.Some? ==> EdgesIn(m, lo, hi, m.blocks[x].term.value)
  }

  /** Where a function's blocks begin, and the realizations as they were then. */
  datatype Home = Home(first: nat, reals: seq<Realization>)

  /** The state of a function's lowering: its blocks are those from `h.first` on, and no other
      realization has changed. */
  predicate Linked(b: Bld, owner: nat, h: Home) {
    && Range(b.mod, owner, h.first, |b.mod.blocks|) && |b.mod.reals| == |h.reals|
    && forall j :: 0 <= j < |h.reals| && j != owner ==> b.mod.reals[j] == h.reals[j]
  }

  /** Values are only added, and no block's parameters change. */
  predicate KeepsParams(m: Module, m': Module) {
    && m.values <= m'.values && |m.blocks| <= |m'.blocks|
    && forall x :: 0 <= x < |m.blocks| ==> m'.blocks[x].params == m.blocks[x].params
  }

  predicate OthersSame(m: Module, m': Module, owner: nat) {
    owner < |m.reals| && |m'.reals| == |m.reals| && forall j :: 0 <= j < |m.reals| && j != owner ==> m'.reals[j] == m.reals[j]
  }

  lemma EdgesLater(m: Module, m': Module, lo: nat, hi: nat, hi': nat, t: Term)
    requires EdgesIn(m, lo, hi, t) && KeepsParams(m, m') && hi <= hi'
    ensures EdgesIn(m', lo, hi', t)
  {
    forall target: nat, args: seq<Id> | EdgeIn(m, lo, hi, target, args)
      ensures EdgeIn(m', lo, hi', target, args)
    {
      assert forall i :: 0 <= i < |args| ==> ArgOk(m, args[i], m.blocks[target].params[i]);
    }
  }

  /** New blocks for `owner` without terminators, and at most the terminator of block `cur` new. */
  lemma LinkedStep(b: Bld, owner: nat, h: Home, cur: nat, b': Bld)
    requires Linked(b, owner, h) && KeepsParams(b.mod, b'.mod) && OthersSame(b.mod, b'.mod, owner)
    requires b'.mod.reals[owner].blocks == b.mod.reals[owner].blocks + Ids(|b.mod.blocks|, |b'.mod.blocks| - |b.mod.blocks|)
    requires forall x :: 0 <= x < |b'.mod.blocks| && x != cur ==>
               if x < |b.mod.blocks| then b'.mod.blocks[x].term == b.mod.blocks[x].term else b'.mod.blocks[x].term.None?
    requires cur < |b.mod.blocks| && h.first <= cur
    requires b'.mod.blocks[cur].term == b.mod.blocks[cur].term
             || (b'.mod.blocks[cur].term.Some? && EdgesIn(b'.mod, h.first, |b'.mod.blocks|, b'.mod.blocks[cur].term.value))
    ensures Linked(b', owner, h)
  {
    forall x | h.first <= x < |b'.mod.blocks| && b'.mod.blocks[x].term.Some?
      ensures EdgesIn(b'.mod, h.first, |b'.mod.blocks|, b'.mod.blocks[x].term.value)
    {
      if x < |b.mod.blocks| && b'.mod.blocks[x].term == b.mod.blocks[x].term {
        EdgesLater(b.mod, b'.mod, h.first, |b.mod.blocks|, |b'.mod.blocks|, b.mod.blocks[x].term.value);
      }
    }
  }

  lemma LinkedInsts(b: Bld, owner: nat, h: Home, cur: nat, b': Bld)
    requires Linked(b, owner, h) && OnlyInsts(b, cur, b') && h.first <= cur
    ensures Linked(b', owner, h)
  {
    LinkedStep(b, owner, h, cur, b');
  }

  lemma LinkedTerm(b: Bld, owner: nat, h: Home, cur: nat, term: Term)
    requires Linked(b, owner, h) && h.first <= cur < |b.mod.blocks| && EdgesIn(b.mod, h.first, |b.mod.blocks|, term)
    ensures Linked(Terminate(b, cur, term), owner, h)
  {
    var b' := Terminate(b, cur, term);
    EdgesLater(b.mod, b'.mod, h.first, |b.mod.blocks|, |b.mod.blocks|, term);
    LinkedStep(b, owner, h, cur, b');
  }

  lemma LinkedAdd(b: Bld, owner: nat, h: Home)
    requires Linked(b, owner, h) && h.first < |b.mod.blocks|
    ensures Linked(AddBlock(b, owner), owner, h)
  {
    LinkedStep(b, owner, h, h.first, AddBlock(b, owner));
  }

  /** Three blocks more and a branch to some of them, without arguments. */
  lemma LinkedFork(b: Bld, owner: nat, h: Home, cur: nat, term: Term)
    requires Linked(b, owner, h) && h.first <= cur < |b.mod.blocks|
    requires var t := |b.mod.blocks|; term == TermBr(t, []) || (term.TermCondBr? && term.thenBb == t && term.elseBb == t + 1)
    ensures Linked(Terminate(AddThreeBlocks(b, owner), cur, term), owner, h)
  {
    hide Linked, Terminate;
    var b1 := AddBlock(b, owner);
    var b2 := AddBlock(b1, owner);
    var b3 := AddBlock(b2, owner);
    LinkedAdd(b, owner, h);
    LinkedAdd(b1, owner, h);
    LinkedAdd(b2, owner, h);
    assert EdgesIn(b3.mod, h.first, |b3.mod.blocks|, term);
    LinkedTerm(b3, owner, h, cur, term);
  }

  lemma LinkedCoalesce(b: Bld, owner: nat, h: Home, cur: nat, ty: Ty, present: Id)
    requires Linked(b, owner, h) && h.first <= cur < |b.mod.blocks|
    ensures Linked(CoalesceBlocks(b, owner, cur, ty, present), owner, h)
  {
    hide PlainValue;
    var b' := CoalesceBlocks(b, owner, cur, ty, present);
    var s := |b.mod.blocks|;
    GrowsCoalesceBlocks(b, owner, cur, ty, present);
    CoalesceOwned(b, owner, cur, ty, present);
    assert EdgesIn(b'.mod, h.first, |b'.mod.blocks|, TermCondBr(present, s, s + 1));
    LinkedStep(b, owner, h, cur, b');
  }

  lemma CoalesceOwned(b: Bld, owner: nat, cur: nat, ty: Ty, present: Id)
    requires owner < |b.mod.reals| && cur < |b.mod.blocks|
    ensures var b' := CoalesceBlocks(b, owner, cur, ty, present);
            && OthersSame(b.mod, b'.mod, owner) && b'.mod.reals[owner].blocks == b.mod.reals[owner].blocks + Ids(|b.mod.blocks|, 3)
            && (b.mod.blocks[cur].term.Some? ==> b'.mod.blocks[cur] == b.mod.blocks[cur])
  {
    var s := |b.mod.blocks|;
    assert AddThreeBlocks(b, owner).mod.reals[owner].blocks == b.mod.reals[owner].blocks + [s] + [s + 1] + [s + 2];
    assert Ids(s, 3) == [s, s + 1, s + 2];
  }

  // ---- Expressions ----------------------------------------------------------------------

  /** Before and after: the invariant, and the block being filled is the function's. */
  predicate LinkedAt(b: Bld, owner: nat, h: Home, cur: nat) { Linked(b, owner, h) && h.first <= cur < |b.mod.blocks| }

  lemma LinkedAtInsts(b: Bld, owner: nat, h: Home, cur: nat, b': Bld)
    requires LinkedAt(b, owner, h, cur) && OnlyInsts(b, cur, b')
    ensures LinkedAt(b', owner, h, cur)
  {
    LinkedInsts(b, owner, h, cur, b');
  }

  lemma LinkedAtTerm(b: Bld, owner: nat, h: Home, cur: nat, term: Term)
    requires LinkedAt(b, owner, h, cur) && EdgesIn(b.mod, h.first, |b.mod.blocks|, term)
    ensures LinkedAt(Terminate(b, cur, term), owner, h, cur)
  {
    LinkedTerm(b, owner, h, cur, term);
  }

  lemma {:induction false} ValueAsLinks(S: Program, b: Bld, sc: Scope, h: Home, cur: nat, e: Expr, target: Ty, lo: Lowered)
    requires Typed(S, b, sc, cur) == true && lo == LowerValueAs(S, b, sc, cur, e, target) && lo.b.errs == []
    requires LinkedAt(b, sc.owner, h, cur) == true && TypedExpr(S, TypesOf(sc.locals), e) && PayloadTyped(e)
    ensures LinkedAt(lo.b, sc.owner, h, lo.cur)
    decreases e, 2
  {
    hide LowerValueAs, LowerValue, GlobalsOk, ScopeOk, OnlyInsts, LinkedAt, TypedExpr, PayloadTyped, Touches, TypesOf;
    ValueAsParts(S, b, sc, cur, e, target, lo);
    if e.ty != target && target.Optional? && e.NullLit? {
      LinkedAtInsts(b, sc.owner, h, cur, lo.b);
    } else {
      var x := LowerValue(S, b, sc, cur, e);
      ValueLinks(S, b, sc, h, cur, e, x);
      LinkedAtInsts(x.b, sc.owner, h, x.cur, lo.b);
    }
  }

  /** Lowering a well-typed expression keeps every edge among the function's blocks. */
  lemma {:induction false} ValueLinks(S: Program, b: Bld, sc: Scope, h: Home, cur: nat, e: Expr, lo: Lowered)
    requires Typed(S, b, sc, cur) == true && lo == LowerValue(S, b, sc, cur, e) && lo.b.errs == []
    requires LinkedAt(b, sc.owner, h, cur) == true && TypedExpr(S, TypesOf(sc.locals), e) && PayloadTyped(e)
    ensures LinkedAt(lo.b, sc.owner, h, lo.cur)
    decreases e, 1
  {
    hide LowerLocal, LowerGlobal, LowerLiteral, LowerOperand, LowerBinary, LowerCoalesce, LowerCall, LowerAssign, Emit,
      GlobalsOk, ScopeOk, OnlyInsts, LinkedAt, Touches, TypesOf, ScopeTyped;
    if Leaf(e) {
      LeafOnly(S, b, sc, cur, e, lo);
      LinkedAtInsts(b, sc.owner, h, cur, lo.b);
    } else if e.Unary? || e.Cast? {
      var x := LowerValue(S, b, sc, cur, e.a);
      OperandParts(S, b, sc, cur, e, lo, x);
      ValueLinks(S, b, sc, h, cur, e.a, x);
      LinkedAtInsts(x.b, sc.owner, h, x.cur, lo.b);
    } else if e.Binary? && e.tok == QuestionQuestion {
      CoalesceLinks(S, b, sc, h, cur, e, lo);
    } else if e.Binary? {
      BinaryLinks(S, b, sc, h, cur, e, lo);
    } else if e.Call? {
      var xs := LowerArgs(S, b, sc, cur, e.args, ArgTypes(S, e.callee));
      CallParts(S, b, sc, cur, e, lo, xs);
      ArgsLink(S, b, sc, h, cur, e.args, ArgTypes(S, e.callee), xs);
      LinkedAtInsts(xs.b, sc.owner, h, xs.cur, lo.b);
    } else {
      AssignLinks(S, b, sc, h, cur, e, lo);
    }
  }

  lemma {:induction false} BinaryLinks(S: Program, b: Bld, sc: Scope, h: Home, cur: nat, e: Expr, lo: Lowered)
    requires Typed(S, b, sc, cur) == true && e.Binary? && lo == LowerBinary(S, b, sc, cur, e) && lo.b.errs == []
    requires LinkedAt(b, sc.owner, h, cur) == true && TypedExpr(S, TypesOf(sc.locals), e) && PayloadTyped(e)
    ensures LinkedAt(lo.b, sc.owner, h, lo.cur)
    decreases e, 0
  {
    hide LowerValue, LowerBinary, GlobalsOk, ScopeOk, OnlyInsts, LinkedAt, TypesOf;
    var x := LowerValue(S, b, sc, cur, e.a);
    var y := LowerValue(S, x.b, sc, x.cur, e.b);
    BinaryParts(S, b, sc, cur, e, lo, x, y);
    ValueLinks(S, b, sc, h, cur, e.a, x);
    TypedLater(S, b, sc, cur, x.b, x.cur);
    ValueLinks(S, x.b, sc, h, x.cur, e.b, y);
    LinkedAtInsts(y.b, sc.owner, h, y.cur, lo.b);
  }

  lemma {:induction false} AssignLinks(S: Program, b: Bld, sc: Scope, h: Home, cur: nat, e: Expr, lo: Lowered)
    requires Typed(S, b, sc, cur) == true && e.Assign? && lo == LowerAssign(S, b, sc, cur, e) && lo.b.errs == []
    requires LinkedAt(b, sc.owner, h, cur) == true && TypedExpr(S, TypesOf(sc.locals), e) && PayloadTyped(e)
    ensures LinkedAt(lo.b, sc.owner, h, lo.cur)
    decreases e, 0
  {
    hide LowerValueAs, LowerAssign, LowerPlace, GlobalsOk, ScopeOk, NamesOf, OnlyInsts, LinkedAt, EmitStore, TypesOf;
    var p := LowerPlace(S, b, sc, cur, e.place);
    var ty := PlaceType(S, NamesOf(sc.locals), e.place);
    var r := LowerValueAs(S, p.b, sc, cur, e.rhs, ty);
    AssignParts(S, b, sc, cur, e, lo, p, ty, r);
    LinkedAtInsts(b, sc.owner, h, cur, p.b);
    TypedLater(S, b, sc, cur, p.b, cur);
    ValueAsLinks(S, p.b, sc, h, cur, e.rhs, ty, r);
    LinkedAtInsts(r.b, sc.owner, h, r.cur, lo.b);
  }

  lemma {:induction false} ArgsLink(S: Program, b: Bld, sc: Scope, h: Home, cur: nat, args: seq<Expr>, tys: seq<Ty>, xs: LoweredArgs)
    requires Typed(S, b, sc, cur) == true && xs == LowerArgs(S, b, sc, cur, args, tys) && xs.b.errs == []
    requires LinkedAt(b, sc.owner, h, cur) == true
    requires forall i :: 0 <= i < |args| ==> TypedExpr(S, TypesOf(sc.locals), args[i]) && PayloadTyped(args[i])
    ensures LinkedAt(xs.b, sc.owner, h, xs.cur)
    decreases args, 0
  {
    hide LowerValueAs, GlobalsOk, ScopeOk, LinkedAt, TypedExpr, PayloadTyped, TypesOf;
    if args != [] {
      var ty := if tys == [] then args[0].ty else tys[0];
      var rest := if tys == [] then [] else tys[1..];
      var x := LowerValueAs(S, b, sc, cur, args[0], ty);
      var ys := LowerArgs(S, x.b, sc, x.cur, args[1..], rest);
      ArgsParts(S, b, sc, cur, args, tys, ty, rest, xs, x, ys);
      ValueAsLinks(S, b, sc, h, cur, args[0], ty, x);
      TypedLater(S, b, sc, cur, x.b, x.cur);
      ArgsLink(S, x.b, sc, h, x.cur, args[1..], rest, ys);
    }
  }

  lemma {:induction false} CoalesceLinks(S: Program, b: Bld, sc: Scope, h: Home, cur: nat, e: Expr, lo: Lowered)
    requires Typed(S, b, sc, cur) == true && e.Binary? && lo == LowerCoalesce(S, b, sc, cur, e) && lo.b.errs == []
    requires e.tok == QuestionQuestion && LinkedAt(b, sc.owner, h, cur) == true
    requires TypedExpr(S, TypesOf(sc.locals), e) && PayloadTyped(e)
    ensures LinkedAt(lo.b, sc.owner, h, lo.cur)
    decreases e, 0, 1
  {
    hide LowerValue, LowerCoalesceArms, GlobalsOk, ScopeOk, OnlyInsts, LinkedAt, TypesOf;
    if e.a.ty.Optional? {
      var x := LowerValue(S, b, sc, cur, e.a);
      CoalesceParts(S, b, sc, cur, e, lo, x);
      ValueLinks(S, b, sc, h, cur, e.a, x);
      if x.v.Some? {
        var t := PresenceTest(x);
        EmitOnly(x.b, x.cur, Bool, Pure, OpOptionalIsPresent(x.v), LayoutClass.Scalar);
        LinkedAtInsts(x.b, sc.owner, h, x.cur, t.b);
        TypedLater(S, b, sc, cur, t.b, t.cur);
        ArmsLink(S, t.b, sc, h, t.cur, e, x.v, t.v, lo);
      }
    }
  }

  lemma {:induction false} ArmsLink(S: Program, b: Bld, sc: Scope, h: Home, cur: nat, e: Expr, opt: Id, present: Id, lo: Lowered)
    requires Typed(S, b, sc, cur) == true && e.Binary? && e.a.ty.Optional? && e.ty == e.a.ty.elem
    requires lo == LowerCoalesceArms(S, b, sc, cur, e, opt, present) && lo.b.errs == [] && LinkedAt(b, sc.owner, h, cur) == true
    requires TypedExpr(S, TypesOf(sc.locals), e.b) && PayloadTyped(e.b)
    ensures LinkedAt(lo.b, sc.owner, h, lo.cur)
    decreases e, 0, 0
  {
    hide LowerCoalesceArms, CoalesceStages, LowerValueAs, GlobalsOk, ScopeOk, OnlyInsts, CoalesceBlocks, TypesOf, TypedExpr,
      PayloadTyped, Terminate, EdgesIn, Range, ScopeTyped;
    var a := CoalesceStages(S, b, sc, cur, e, opt, present);
    ArmsParts(S, b, sc, cur, e, opt, present, lo, a);
    GrowsCoalesceBlocks(b, sc.owner, cur, e.ty, present);
    LinkedCoalesce(b, sc.owner, h, cur, e.ty, present);
    LinkedAtInsts(a.b1, sc.owner, h, a.s, a.got.b);
    if a.got.v.Some? {
      var j := |b.mod.values|;
      JoinEdge(a.b1, a.got.b, {a.s}, h, a.s + 2, j, a.got.v, e.ty);
      LinkedAtTerm(a.got.b, sc.owner, h, a.s, TermBr(a.s + 2, [a.got.v]));
      TypedLater(S, b, sc, cur, a.b2, a.s + 1);
      ValueAsLinks(S, a.b2, sc, h, a.s + 1, e.b, e.ty, a.y);
      ValueAsTy(S, a.b2, sc, a.s + 1, e.b, e.ty, a.y);
      if a.y.v.Some? {
        SecondEdge(a, h, j, e.ty);
        LinkedAtTerm(a.y.b, sc.owner, h, a.y.cur, TermBr(a.s + 2, [a.y.v]));
        assert a.s + 2 < |a.y.b.mod.blocks|;
      }
    }
  }

  /** A jump to the join with a value of the join's type. */
  lemma JoinEdge(b1: Bld, b: Bld, T: set<nat>, h: Home, target: nat, j: nat, v: Id, ty: Ty)
    requires Touches(b1, b, T) && h.first <= target < |b1.mod.blocks| && b1.mod.blocks[target].params == [j]
    requires j < |b1.mod.values| && b1.mod.values[j].ty == ty && v.Some? && HasTy(b, v, ty)
    ensures EdgesIn(b.mod, h.first, |b.mod.blocks|, TermBr(target, [v]))
  {
    assert target in T || target !in T;
    assert b.mod.blocks[target].params == [j] && b.mod.values[j] == b1.mod.values[j];
  }

  lemma SecondEdge(a: ArmsCode, h: Home, j: nat, ty: Ty)
    requires Touches(a.b1, a.b2, {a.s}) && Grows(a.b2, a.s + 1, a.y.b, a.y.cur)
    requires h.first <= a.s + 2 < |a.b1.mod.blocks| && a.b1.mod.blocks[a.s + 2].params == [j]
    requires j < |a.b1.mod.values| && a.b1.mod.values[j].ty == ty && a.y.v.Some? && HasTy(a.y.b, a.y.v, ty)
    ensures EdgesIn(a.y.b.mod, h.first, |a.y.b.mod.blocks|, TermBr(a.s + 2, [a.y.v]))
  {
    assert a.b2.mod.blocks[a.s + 2] == a.b1.mod.blocks[a.s + 2] && a.b2.mod.values[j] == a.b1.mod.values[j];
    JoinEdge(a.b2, a.y.b, {a.s + 1}, h, a.s + 2, j, a.y.v, ty);
  }

  // ---- Statements -----------------------------------------------------------------------

  predicate LinkedEnd(b: Bld, owner: nat, h: Home, end: Option<nat>) {
    Linked(b, owner, h) && (end.Some? ==> h.first <= end.value < |b.mod.blocks|)
  }

  /** After a statement the scope is typed as the statement says. */
  lemma TypesKept(S: Program, b: Bld, st: FuncState, cur: nat, s: Stmt, ls: LoweredStmt)
    requires Typed(S, b, st.scope, cur) == true && ls == LowerStmt(S, b, st, cur, s) && ls.b.errs == []
    requires TypedStmt(S, TypesOf(st.scope.locals), s)
    ensures ls.st.scope.owner == st.scope.owner && TypesOf(ls.st.scope.locals) == TypesAfter(TypesOf(st.scope.locals), s)
    ensures ls.st.cur.Some? ==> Typed(S, ls.b, ls.st.scope, ls.st.cur.value)
  {
    hide LowerValueAs, LowerValue, SupportedType, GlobalsOk, ScopeOk, LowerStmt, NamesOf, NamesAfter, TypedExpr, BindLocal;
    GrowsStmt(S, b, st, cur, s);
    ScopeAfter(S, b, st, cur, s, ls);
    if s.VarDecl? {
      VarDeclParts(S, b, st, cur, s, ls);
      var ty := BindingType(s).value;
      var x := LowerValueAs(S, b, st.scope, cur, s.init.value, ty);
      ValueAsTy(S, b, st.scope, cur, s.init.value, ty, x);
      BoundTyped(b, st, s, ty, x, ls);
    } else {
      SameScopeAfter(S, b, st, cur, s, ls);
    }
  }

  lemma BoundTyped(b: Bld, st: FuncState, s: Stmt, ty: Ty, x: Lowered, ls: LoweredStmt)
    requires s.VarDecl? && BindingType(s) == Some(ty) && ScopeTyped(b.mod.values, st.scope) && b.mod.values <= x.b.mod.values
    requires HasTy(x.b, x.v, ty) && ls == BindLocal(x.b, st, x.cur, s, ty, x.v)
    ensures ls.st.scope.owner == st.scope.owner && TypesOf(ls.st.scope.locals) == TypesAfter(TypesOf(st.scope.locals), s)
    ensures ScopeTyped(ls.b.mod.values, ls.st.scope)
  {
    hide VerifyOk;
  }

  lemma {:induction false} BlockLinks(S: Program, b: Bld, st: FuncState, h: Home, cur: nat, stmts: seq<Stmt>, ls: LoweredStmt)
    requires Typed(S, b, st.scope, cur) == true && st.cur == Some(cur) && ls == LowerBlock(S, b, st, stmts) && ls.b.errs == []
    requires LinkedAt(b, st.scope.owner, h, cur) == true
    requires TypedBlock(S, TypesOf(st.scope.locals), stmts) && BlockPayloads(stmts)
    ensures LinkedEnd(ls.b, st.scope.owner, h, ls.st.cur)
    decreases stmts, 0
  {
    hide LowerStmt, GlobalsOk, ScopeOk, ScopeTyped, TypedStmt, StmtPayloads, TypesOf, Linked, NamesOf, NamesAfter, TypesAfter;
    if stmts != [] {
      var l1 := LowerStmt(S, b, st, cur, stmts[0]);
      BlockParts(S, b, st, cur, stmts, l1, ls);
      TypesKept(S, b, st, cur, stmts[0], l1);
      StmtLinks(S, b, st, h, cur, stmts[0], l1);
      if l1.st.cur.Some? {
        BlockLinks(S, l1.b, l1.st, h, l1.st.cur.value, stmts[1..], ls);
      }
    }
  }

  /** Lowering a well-typed statement keeps every edge among the function's blocks. */
  lemma {:induction false} StmtLinks(S: Program, b: Bld, st: FuncState, h: Home, cur: nat, s: Stmt, ls: LoweredStmt)
    requires Typed(S, b, st.scope, cur) == true && ls == LowerStmt(S, b, st, cur, s) && ls.b.errs == []
    requires LinkedAt(b, st.scope.owner, h, cur) == true && TypedStmt(S, TypesOf(st.scope.locals), s) && StmtPayloads(s)
    ensures LinkedEnd(ls.b, st.scope.owner, h, ls.st.cur)
    decreases s, 1
  {
    hide LowerValue, LowerValueAs, LowerIf, LowerWhile, LowerSwitch, GlobalsOk, ScopeOk, ScopeTyped, TypesOf, TypedExpr, PayloadTyped,
      TypedBlock, BlockPayloads, Linked, BindLocal, SupportedType, BindingType;
    match s
    case ExprStmt(Some(e)) => ValueLinks(S, b, st.scope, h, cur, e, LowerValue(S, b, st.scope, cur, e));
    case VarDecl(_, _, _, _, _, init) =>
      VarDeclParts(S, b, st, cur, s, ls);
      var ty := BindingType(s).value;
      var x := LowerValueAs(S, b, st.scope, cur, init.value, ty);
      ValueAsLinks(S, b, st.scope, h, cur, init.value, ty, x);
      BoundOnly(x.b, st, x.cur, s, ty, x.v);
      LinkedAtInsts(x.b, st.scope.owner, h, x.cur, ls.b);
    case If(_, _, _) => IfLinks(S, b, st, h, cur, s, ls);
    case While(_, _) => WhileLinks(S, b, st, h, cur, s, ls);
    case Switch(_, _) => SwitchLinks(S, b, st, h, cur, s, ls);
    case Return(None) => LinkedTerm(b, st.scope.owner, h, cur, TermRet(false, None));
    case Return(Some(e)) =>
      var x := LowerValueAs(S, b, st.scope, cur, e, st.scope.ret);
      ValueAsLinks(S, b, st.scope, h, cur, e, st.scope.ret, x);
      LinkedTerm(x.b, st.scope.owner, h, x.cur, TermRet(true, x.v));
    case _ =>
  }

  /** A nested block, and the jump after it to an earlier block without parameters. */
  lemma {:induction false} ArmLinks(S: Program, b: Bld, st: FuncState, h: Home, bb: nat, body: seq<Stmt>, target: nat, b': Bld)
    requires Typed(S, b, st.scope, bb) == true && b' == LowerArm(S, b, st, bb, body, target) && b'.errs == []
    requires LinkedAt(b, st.scope.owner, h, bb) == true
    requires h.first <= target < |b.mod.blocks| && b.mod.blocks[target].params == []
    requires TypedBlock(S, TypesOf(st.scope.locals), body) && BlockPayloads(body)
    ensures Linked(b', st.scope.owner, h)
    decreases body, 1
  {
    hide LowerBlock, GlobalsOk, ScopeOk, ScopeTyped, TypedBlock, BlockPayloads, TypesOf, Linked;
    var st1 := st.(cur := Some(bb));
    var r := LowerBlock(S, b, st1, body);
    ArmParts(S, b, st, bb, body, target, r, b');
    BlockLinks(S, b, st1, h, bb, body, r);
    if r.st.cur.Some? {
      var c := r.st.cur.value;
      assert r.b.mod.blocks[target].params == [] by { assert target == bb || target != bb; }
      assert EdgesIn(r.b.mod, h.first, |r.b.mod.blocks|, TermBr(target, []));
      LinkedTerm(r.b, st.scope.owner, h, c, TermBr(target, []));
    }
  }

  /** What a fork's later stages need: the invariant, and its new blocks without parameters. */
  predicate ForkReady(b: Bld, owner: nat, h: Home, t: nat) {
    && Linked(b, owner, h) && h.first <= t && t + 2 < |b.mod.blocks|
    && b.mod.blocks[t].params == [] && b.mod.blocks[t + 1].params == [] && b.mod.blocks[t + 2].params == []
  }

  lemma ForkIsReady(S: Program, b: Bld, sc: Scope, h: Home, cur: nat, term: Term, k: Forked)
    requires Typed(S, b, sc, cur) == true && LinkedAt(b, sc.owner, h, cur) == true && ForkGrows(S, b, sc, cur, term, k) == true
    requires term == TermBr(k.t, []) || (term.TermCondBr? && term.thenBb == k.t && term.elseBb == k.t + 1)
    ensures ForkReady(k.b1, sc.owner, h, k.t) && Typed(S, k.b1, sc, k.t)
  {
    hide Linked, AddThreeBlocks, Terminate, GlobalsOk, ScopeOk, ScopeTyped;
    LinkedFork(b, sc.owner, h, cur, term);
    GrowsFork(b, sc.owner, cur, term);
    TypedLater(S, b, sc, cur, k.b1, k.t);
  }

  lemma ForkStaysReady(b: Bld, owner: nat, h: Home, t: nat, b': Bld)
    requires ForkReady(b, owner, h, t) && Linked(b', owner, h) && Touches(b, b', {t})
    ensures ForkReady(b', owner, h, t)
  {
  }

  lemma {:induction false} IfLinks(S: Program, b: Bld, st: FuncState, h: Home, cur: nat, s: Stmt, ls: LoweredStmt)
    requires Typed(S, b, st.scope, cur) == true && s.If? && ls == LowerIf(S, b, st, cur, s) && ls.b.errs == []
    requires LinkedAt(b, st.scope.owner, h, cur) == true && TypedStmt(S, TypesOf(st.scope.locals), s) && StmtPayloads(s)
    ensures LinkedEnd(ls.b, st.scope.owner, h, ls.st.cur)
    decreases s, 0
  {
    hide LowerValue, LowerIf, LowerIfArms, LowerArm, GlobalsOk, ScopeOk, ScopeTyped, TypedExpr, PayloadTyped, TypedBlock, BlockPayloads,
      TypesOf, Linked, AddThreeBlocks, Terminate;
    var c := LowerValue(S, b, st.scope, cur, s.cond);
    IfParts(S, b, st, cur, s, ls, c);
    ValueLinks(S, b, st.scope, h, cur, s.cond, c);
    TypedLater(S, b, st.scope, cur, c.b, c.cur);
    var k := IfArmsParts(S, c.b, st, c.cur, s, c.v, ls);
    var term := TermCondBr(c.v, k.t, k.t + 1);
    ForkIsReady(S, c.b, st.scope, h, c.cur, term, k);
    ArmLinks(S, k.b1, st, h, k.t, s.thn, k.t + 2, k.b2);
    ForkStaysReady(k.b1, st.scope.owner, h, k.t, k.b2);
    TypedLater(S, k.b1, st.scope, k.t, k.b2, k.t + 1);
    ArmLinks(S, k.b2, st, h, k.t + 1, s.els, k.t + 2, k.b3);
  }

  lemma {:induction false} WhileLinks(S: Program, b: Bld, st: FuncState, h: Home, cur: nat, s: Stmt, ls: LoweredStmt)
    requires Typed(S, b, st.scope, cur) == true && s.While? && ls == LowerWhile(S, b, st, cur, s) && ls.b.errs == []
    requires LinkedAt(b, st.scope.owner, h, cur) == true && TypedStmt(S, TypesOf(st.scope.locals), s) && StmtPayloads(s)
    ensures LinkedEnd(ls.b, st.scope.owner, h, ls.st.cur)
    decreases s, 0
  {
    hide LowerValue, LowerWhile, LowerWhileHead, LowerArm, GlobalsOk, ScopeOk, ScopeTyped, TypedExpr, PayloadTyped, TypedBlock,
      BlockPayloads, TypesOf, Linked, AddThreeBlocks, Terminate;
    OpenBlock.NoMessageBefore(S, b, st, cur, s, ls);
    var k := WhileParts(S, b, st, cur, s, ls);
    ForkIsReady(S, b, st.scope, h, cur, TermBr(k.t, []), k);
    HeadLinks(S, k.b1, st, h, k.t, s, k.b2);
    ForkStaysReady(k.b1, st.scope.owner, h, k.t, k.b2);
    TypedLater(S, k.b1, st.scope, k.t, k.b2, k.t + 1);
    ArmLinks(S, k.b2, st, h, k.t + 1, s.body, k.t, k.b3);
  }

  lemma {:induction false} HeadLinks(S: Program, b: Bld, st: FuncState, h: Home, t: nat, s: Stmt, b': Bld)
    requires Typed(S, b, st.scope, t) == true && s.While? && b' == LowerWhileHead(S, b, st, t, s) && b'.errs == []
    requires ForkReady(b, st.scope.owner, h, t) == true && TypedExpr(S, TypesOf(st.scope.locals), s.cond) && PayloadTyped(s.cond)
    ensures Linked(b', st.scope.owner, h)
    decreases s, 0
  {
    hide LowerValue, LowerWhileHead, GlobalsOk, ScopeOk, ScopeTyped, TypedExpr, PayloadTyped, TypesOf, Linked;
    var c := LowerValue(S, b, st.scope, t, s.cond);
    HeadParts(S, b, st, t, s, b', c);
    ValueLinks(S, b, st.scope, h, t, s.cond, c);
    assert c.b.mod.blocks[t + 1].params == [] && c.b.mod.blocks[t + 2].params == [];
    assert EdgesIn(c.b.mod, h.first, |c.b.mod.blocks|, TermCondBr(c.v, t + 1, t + 2));
    LinkedTerm(c.b, st.scope.owner, h, c.cur, TermCondBr(c.v, t + 1, t + 2));
  }

  lemma {:induction false} SwitchLinks(S: Program, b: Bld, st: FuncState, h: Home, cur: nat, s: Stmt, ls: LoweredStmt)
    requires Typed(S, b, st.scope, cur) == true && s.Switch? && ls == LowerSwitch(S, b, st, cur, s) && ls.b.errs == []
    requires LinkedAt(b, st.scope.owner, h, cur) == true && TypedStmt(S, TypesOf(st.scope.locals), s) && StmtPayloads(s)
    ensures LinkedEnd(ls.b, st.scope.owner, h, ls.st.cur)
    decreases s, 0
  {
    hide LowerValue, LowerSwitch, LowerSwitchArms, LowerCases, GlobalsOk, ScopeOk, ScopeTyped, TypedExpr, PayloadTyped, TypedBlock,
      BlockPayloads, TypesOf, Linked, AddCases, AddBlock, Terminate, OnlyInsts, PresenceTest, SwitchableType, LinkedAt, LinkedEnd;
    var x := LowerValue(S, b, st.scope, cur, s.scrutinee);
    var v := if x.v.None? || !s.scrutinee.ty.Optional? then x else PresenceTest(x);
    SwitchParts(S, b, st, cur, s, ls, x, v);
    ValueLinks(S, b, st.scope, h, cur, s.scrutinee, x);
    LinkedAtInsts(x.b, st.scope.owner, h, x.cur, v.b);
    TypedLater(S, b, st.scope, cur, v.b, v.cur);
    if v.v.Some? {
      var k := SwitchArmsParts(S, v.b, st, v.cur, s, v.v, ls);
      SwitchLinked(S, v.b, st.scope, h, v.cur, s, v.v, k);
      TypedLater(S, v.b, st.scope, v.cur, k.b1, k.t);
      CasesLink(S, k.b1, st, h, k.t + 1, s.cases, k.t, ls.b);
    }
    SwitchEnd(ls, v, st.scope.owner, h);
  }

  lemma SwitchEnd(ls: LoweredStmt, v: Lowered, owner: nat, h: Home)
    requires if v.v.None? then ls.b == v.b && ls.st.cur == Some(v.cur) && LinkedAt(v.b, owner, h, v.cur)
             else ls.st.cur.Some? && Linked(ls.b, owner, h) && h.first <= ls.st.cur.value < |ls.b.mod.blocks|
    ensures LinkedEnd(ls.b, owner, h, ls.st.cur)
  {
  }

  /** Every target of a switch is one of the blocks made for it, none of which has parameters. */
  lemma SwitchLinked(S: Program, b: Bld, sc: Scope, h: Home, cur: nat, s: Stmt, v: Id, k: Switched)
    requires s.Switch? && SwitchGrows(S, b, sc, cur, s, v, k) && LinkedAt(b, sc.owner, h, cur)
    ensures Linked(k.b1, sc.owner, h) && h.first <= k.t && k.t < |k.b1.mod.blocks|
  {
    hide Linked, GlobalsOk, ScopeOk;
    var b0 := AddBlock(b, sc.owner);
    LinkedAdd(b, sc.owner, h);
    CasesLinked(b0, sc.owner, h, s.scrutinee.ty, s.cases, 0, k.t, [], k.t);
    GrowsSwitchBlocks(b, sc.owner, s.scrutinee.ty, s.cases);
    var term := TermSwitch(v, k.cs.defaultBb, k.cs.arms);
    assert EdgesIn(k.cs.b.mod, h.first, |k.cs.b.mod.blocks|, term);
    LinkedTerm(k.cs.b, sc.owner, h, cur, term);
  }

  lemma {:induction false} CasesLinked(b: Bld, owner: nat, h: Home, ty: Ty, cases: seq<Case>, i: nat, dflt: nat, arms: seq<Arm>, t: nat)
    requires i <= |cases| && Linked(b, owner, h) && h.first <= t < |b.mod.blocks| && t <= dflt < |b.mod.blocks|
    requires forall j :: 0 <= j < |arms| ==> t <= arms[j].target < |b.mod.blocks|
    ensures var r := AddCases(b, owner, ty, cases, i, dflt, arms);
            && Linked(Bld(r.b.mod, []), owner, h) && |b.mod.blocks| <= |r.b.mod.blocks|
            && t <= r.defaultBb < |r.b.mod.blocks| && forall j :: 0 <= j < |r.arms| ==> t <= r.arms[j].target < |r.b.mod.blocks|
    decreases |cases| - i
  {
    hide Range;
    if i < |cases| {
      var bb := |b.mod.blocks|;
      var b1 := AddBlock(b, owner);
      LinkedAdd(b, owner, h);
      if cases[i].isDefault {
        CasesLinked(b1, owner, h, ty, cases, i + 1, bb, arms, t);
      } else if CaseKey(ty, cases[i]).Some? {
        CasesLinked(b1, owner, h, ty, cases, i + 1, dflt, arms + [Arm(CaseKey(ty, cases[i]).value, bb)], t);
      }
    }
  }

  lemma {:induction false} CasesLink(S: Program, b: Bld, st: FuncState, h: Home, bb: nat, cases: seq<Case>, after: nat, b': Bld)
    requires cases != [] ==> Typed(S, b, st.scope, bb) == true
    requires bb + |cases| <= |b.mod.blocks| && Linked(b, st.scope.owner, h)
    requires h.first <= after < bb && after < |b.mod.blocks| && b.mod.blocks[after].params == []
    requires b' == LowerCases(S, b, st, bb, cases, after) && b'.errs == []
    requires forall i :: 0 <= i < |cases| ==> TypedBlock(S, TypesOf(st.scope.locals), cases[i].body) && BlockPayloads(cases[i].body)
    ensures Linked(b', st.scope.owner, h) && |b.mod.blocks| <= |b'.mod.blocks|
    decreases cases, 1
  {
    hide LowerArm, GlobalsOk, ScopeOk, ScopeTyped, TypedBlock, BlockPayloads, TypesOf, Linked;
    if cases != [] {
      var b1 := LowerArm(S, b, st, bb, cases[0].body, after);
      CasesParts(S, b, st, bb, cases, after, b1, b');
      ArmLinks(S, b, st, h, bb, cases[0].body, after, b1);
      if |cases| > 1 {
        TypedLater(S, b, st.scope, bb, b1, bb + 1);
      }
      CasesLink(S, b1, st, h, bb + 1, cases[1..], after, b');
    }
  }

  // ---- Functions and programs -----------------------------------------------------------

  /** The blocks of function `i`: a range from its entry, with edges among them only. */
  predicate FuncLinked(m: Module, i: nat) {
    && i < |m.reals| && m.reals[i].entry.Some?
    && Range(m, i, m.reals[i].entry.value, m.reals[i].entry.value + |m.reals[i].blocks|)
  }

  /** One function: the blocks it is given are exactly the new ones, and its edges stay among them. */
  lemma FuncLinks(S: Program, b: Bld, i: nat)
    requires i < |S.funcs| && GlobalsOk(S) && SupportedFunc(S.funcs[i]) && !S.funcs[i].isExtern && LowerFunc(S, b, i).errs == []
    requires i < |b.mod.reals| && b.mod.reals[i].blocks == []
    requires TypedBlock(S, ParamMap(S.funcs[i].params), S.funcs[i].body) && BlockPayloads(S.funcs[i].body)
    ensures Linked(LowerFunc(S, b, i), i, Home(|b.mod.blocks|, b.mod.reals))
  {
    hide OpenBody, LowerBlock, GlobalsOk, ScopeOk, ScopeTyped, SupportedFunc, TypedBlock, BlockPayloads, TypesOf, Linked, NamesOf,
      LinkedAt, ParamMap;
    var fn := S.funcs[i];
    var o := OpenBody(b, fn, i);
    var l := LowerBlock(S, o.b, o.st, fn.body);
    OpenBlock.OpenedBody(S, b, i, o);
    SupportedParams(fn);
    OpenedTyped(S, b, i, o);
    OpenBlock.NoMessageInBody(l.b, l.st.cur, fn.ret);
    BlockLinks(S, o.b, o.st, Home(|b.mod.blocks|, b.mod.reals), |b.mod.blocks|, fn.body, l);
    if l.st.cur.Some? {
      assert EdgesIn(l.b.mod, |b.mod.blocks|, |l.b.mod.blocks|, TermRet(false, None));
      LinkedTerm(l.b, i, Home(|b.mod.blocks|, b.mod.reals), l.st.cur.value, TermRet(false, None));
    }
  }

  lemma SupportedParams(fn: Func)
    requires SupportedFunc(fn) && !fn.isExtern
    ensures forall j :: 0 <= j < |fn.params| ==> SupportedType(fn.params[j].ty)
  {
  }

  lemma OpenedTyped(S: Program, b: Bld, i: nat, o: LoweredStmt)
    requires i < |S.funcs| && i < |b.mod.reals| && b.mod.reals[i].blocks == [] && o == OpenBody(b, S.funcs[i], i)
    requires forall j :: 0 <= j < |S.funcs[i].params| ==> SupportedType(S.funcs[i].params[j].ty)
    ensures ScopeTyped(o.b.mod.values, o.st.scope) && TypesOf(o.st.scope.locals) == ParamMap(S.funcs[i].params)
    ensures LinkedAt(o.b, i, Home(|b.mod.blocks|, b.mod.reals), |b.mod.blocks|)
  {
    var bb := |b.mod.blocks|;
    var b0 := SetEntry(AddBlock(b, i), i, bb);
    OpenBlock.ParamsScope(b0, bb, S.funcs[i].params, i, S.funcs[i].ret);
    ParamsTyped(b0, bb, S.funcs[i].params, i, S.funcs[i].ret);
    assert o.b.mod.reals[i].blocks == [bb] == Ids(bb, 1);
  }

  lemma {:induction false} ParamsTyped(b: Bld, bb: nat, params: seq<Param>, owner: nat, ret: Ty)
    requires bb < |b.mod.blocks|
    ensures var r := AddParams(b, bb, params);
            && ScopeTyped(r.b.mod.values, Scope(owner, ret, r.locals)) && TypesOf(r.locals) == ParamMap(params)
            && |r.b.mod.blocks| == |b.mod.blocks| && r.b.mod.reals == b.mod.reals
    decreases |params|
  {
    if params != [] {
      var n := |params| - 1;
      ParamsTyped(b, bb, params[..n], owner, ret);
      var r0, r := AddParams(b, bb, params[..n]), AddParams(b, bb, params);
      assert TypesOf(r.locals) == TypesOf(r0.locals)[params[n].sym := params[n].ty];
      assert r.b.mod.values == r0.b.mod.values + [PlainValue(params[n].ty, Pure, UnknownLayout)];
    }
  }

  predicate Owns(m: Module, i: nat, x: nat) { i < |m.reals| && x in m.reals[i].blocks }

  ghost predicate Owned(m: Module, x: nat) { exists i: nat :: Owns(m, i, x) }

  /** The functions before `n` own all blocks there are, each block one function. */
  ghost predicate Partition(S: Program, m: Module, n: nat) {
    && |m.reals| == |S.funcs|
    && (forall j :: 0 <= j < |S.funcs| && (n <= j || S.funcs[j].isExtern) ==> m.reals[j].blocks == [])
    && (forall j :: 0 <= j < n && j < |S.funcs| && !S.funcs[j].isExtern ==> FuncLinked(m, j))
    && (forall x :: 0 <= x < |m.blocks| ==> Owned(m, x))
    && (forall j: nat, k: nat, x: nat :: Owns(m, j, x) && Owns(m, k, x) ==> j == k)
  }

  lemma FuncLinkedLater(m: Module, m': Module, i: nat)
    requires FuncLinked(m, i) && i < |m'.reals| && m'.reals[i] == m.reals[i] && m.values <= m'.values && m.blocks <= m'.blocks
    ensures FuncLinked(m', i)
  {
    hide EdgesIn;
    var lo := m.reals[i].entry.value;
    var hi := lo + |m.reals[i].blocks|;
    forall x | lo <= x < hi && m'.blocks[x].term.Some?
      ensures EdgesIn(m', lo, hi, m'.blocks[x].term.value)
    {
      EdgesLater(m, m', lo, hi, hi, m.blocks[x].term.value);
    }
  }

  /** Who owns what after function `i` has been given the blocks from `n` on. */
  ghost predicate NewOwner(m1: Module, m: Module, i: nat) {
    && |m1.blocks| <= |m.blocks| && |m.reals| == |m1.reals| && i < |m.reals|
    && (forall j :: 0 <= j < |m.reals| && j != i ==> m.reals[j] == m1.reals[j])
    && m.reals[i].blocks == Ids(|m1.blocks|, |m.blocks| - |m1.blocks|)
  }

  lemma OwnedAfter(m1: Module, m: Module, i: nat, x: nat)
    requires NewOwner(m1, m, i) && m1.reals[i].blocks == [] && x < |m.blocks| && (x < |m1.blocks| ==> Owned(m1, x))
    ensures Owned(m, x)
  {
    if x < |m1.blocks| {
      var j: nat :| Owns(m1, j, x);
      assert Owns(m, j, x);
    } else {
      assert m.reals[i].blocks[x - |m1.blocks|] == x;
      assert Owns(m, i, x);
    }
  }

  lemma OwnerOnce(S: Program, m1: Module, m: Module, i: nat, j: nat, k: nat, x: nat)
    requires NewOwner(m1, m, i) && Partition(S, m1, i) && Owns(m, j, x) && Owns(m, k, x)
    ensures j == k
  {
    hide EdgesIn;
    if j != i {
      OwnedBelow(S, m1, i, j, x);
    }
    if k != i {
      OwnedBelow(S, m1, i, k, x);
    }
    if j != i && k != i {
      assert Owns(m1, j, x) && Owns(m1, k, x);
    }
  }

  lemma OwnedBelow(S: Program, m: Module, i: nat, j: nat, x: nat)
    requires Partition(S, m, i) && j < |m.reals| && x in m.reals[j].blocks
    ensures x < |m.blocks|
  {
    hide EdgesIn;
    assert j < i && FuncLinked(m, j);
  }

  lemma PartitionStep(S: Program, b1: Bld, b: Bld, i: nat)
    requires i < |S.funcs| && !S.funcs[i].isExtern && Partition(S, b1.mod, i)
    requires Linked(b, i, Home(|b1.mod.blocks|, b1.mod.reals)) && b.mod.reals[i].entry == Some(|b1.mod.blocks|)
    requires b1.mod.values <= b.mod.values && b1.mod.blocks <= b.mod.blocks
    ensures Partition(S, b.mod, i + 1)
  {
    hide EdgesIn, Owns, Owned, FuncLinked;
    assert FuncLinked(b.mod, i) by { NewLinked(b1, b, i); }
    forall j | 0 <= j < i && !S.funcs[j].isExtern
      ensures FuncLinked(b.mod, j)
    {
      FuncLinkedLater(b1.mod, b.mod, j);
    }
    forall j: nat, k: nat, x: nat | Owns(b.mod, j, x) && Owns(b.mod, k, x)
      ensures j == k
    {
      OwnerOnce(S, b1.mod, b.mod, i, j, k, x);
    }
    forall x | 0 <= x < |b.mod.blocks|
      ensures Owned(b.mod, x)
    {
      OwnedAfter(b1.mod, b.mod, i, x);
    }
  }

  lemma NewLinked(b1: Bld, b: Bld, i: nat)
    requires Linked(b, i, Home(|b1.mod.blocks|, b1.mod.reals)) && b.mod.reals[i].entry == Some(|b1.mod.blocks|)
    ensures FuncLinked(b.mod, i)
  {
    hide EdgesIn;
  }

  lemma {:induction false} FuncsLink(S: Program, d: Bld, n: nat)
    requires n <= |S.funcs| == |d.mod.reals| && d.mod.blocks == [] && LowerFuncs(S, d, n).errs == [] && GlobalsOk(S)
    requires forall i :: 0 <= i < |S.funcs| ==> SupportedFunc(S.funcs[i]) && d.mod.reals[i].blocks == []
    requires WellTyped(S) && ProgramPayloads(S)
    ensures Partition(S, LowerFuncs(S, d, n).mod, n)
    decreases n
  {
    hide SupportedFunc, GlobalsOk, TypedBlock, BlockPayloads, LowerFunc, Linked, Partition, ParamMap;
    if n == 0 {
      NoneYet(S, d);
    } else {
      var b1 := LowerFuncs(S, d, n - 1);
      GrowsFuncs(S, d, n - 1, n - 1);
      GrowsLowerFunc(S, b1, n - 1);
      FuncsLink(S, d, n - 1);
      PartitionReals(S, b1.mod, n - 1);
      if S.funcs[n - 1].isExtern {
        OpenBlock.ExternLowers(S, b1, n - 1);
        PartitionExtern(S, b1.mod, n - 1);
      } else {
        FuncLinks(S, b1, n - 1);
        PartitionStep(S, b1, LowerFunc(S, b1, n - 1), n - 1);
      }
    }
  }

  lemma NoneYet(S: Program, d: Bld)
    requires |S.funcs| == |d.mod.reals| && d.mod.blocks == []
    requires forall i :: 0 <= i < |S.funcs| ==> d.mod.reals[i].blocks == []
    ensures Partition(S, LowerFuncs(S, d, 0).mod, 0)
  {
  }

  lemma PartitionReals(S: Program, m: Module, i: nat)
    requires Partition(S, m, i) && i < |S.funcs|
    ensures i < |m.reals| && m.reals[i].blocks == []
  {
  }

  lemma PartitionExtern(S: Program, m: Module, i: nat)
    requires Partition(S, m, i) && i < |S.funcs| && S.funcs[i].isExtern
    ensures Partition(S, m, i + 1)
  {
  }

  /** A target of an edge, and what the edge brings there. */
  predicate EdgeOf(t: Term, target: nat, args: seq<Id>) {
    match t
    case TermBr(to, brought) => to == target && brought == args
    case TermCondBr(_, thenBb, elseBb) => (thenBb == target || elseBb == target) && args == []
    case TermSwitch(_, defaultBb, arms) =>
      args == [] && (defaultBb == target || exists i :: 0 <= i < |arms| && arms[i].target == target)
    case TermRet(_, _) => false
  }

  /** Edges from the blocks of a function lead to its blocks, with what those expect. */
  ghost predicate EdgesOwned(m: Module) {
    forall i: nat, x: nat, target: nat, args: seq<Id> ::
      (Owns(m, i, x) && x < |m.blocks| && m.blocks[x].term.Some? && EdgeOf(m.blocks[x].term.value, target, args)) ==>
        Owns(m, i, target) && EdgeOk(m, target, args)
  }

  /** In a well-typed program that lowers without a message every block belongs to exactly one
      function, and every edge leads to a block of its own function with what that block expects. */
  lemma EdgesStay(S: Program, m: Module)
    requires m == LowerProgram(S).mod && LowerProgram(S).errs == [] && WellTyped(S) && ProgramPayloads(S)
    ensures forall x :: 0 <= x < |m.blocks| ==> Owned(m, x)
    ensures forall i: nat, k: nat, x: nat :: Owns(m, i, x) && Owns(m, k, x) ==> i == k
    ensures EdgesOwned(m)
  {
    hide WellTyped, ProgramPayloads, GlobalsOk, SupportedFunc, EdgeOk, Owns, Owned, EdgeOf, LowerProgram, FuncLinked;
    var d := OpenBlock.DeclaredTables(S);
    assert |S.funcs| == |d.mod.reals| && forall i :: 0 <= i < |S.funcs| ==> d.mod.reals[i].blocks == [];
    FuncsLink(S, d, |S.funcs|);
    forall i: nat, x: nat, target: nat, args: seq<Id> |
        Owns(m, i, x) && x < |m.blocks| && m.blocks[x].term.Some? && EdgeOf(m.blocks[x].term.value, target, args)
      ensures Owns(m, i, target) && EdgeOk(m, target, args)
    {
      EdgeStays(S, m, i, x, target, args);
    }
  }

  lemma EdgeStays(S: Program, m: Module, i: nat, x: nat, target: nat, args: seq<Id>)
    requires Partition(S, m, |S.funcs|) && Owns(m, i, x)
    requires x < |m.blocks| && m.blocks[x].term.Some? && EdgeOf(m.blocks[x].term.value, target, args)
    ensures Owns(m, i, target) && EdgeOk(m, target, args)
  {
    hide EdgeOk, Owned;
    assert FuncLinked(m, i);
    var lo := m.reals[i].entry.value;
    assert m.reals[i].blocks[target - lo] == target;
  }

  /** What a terminator asks besides its edges: operands that exist, and keys that differ. */
  predicate OperandsOk(m: Module, t: Term) {
    match t
    case TermBr(_, _) => true
    case TermCondBr(cond, _, _) => ValidValue(m, cond)
    case TermSwitch(scrutinee, _, arms) => ValidValue(m, scrutinee) && DistinctKeys(arms)
    case TermRet(hasValue, val) => hasValue ==> ValidValue(m, val)
  }

  /** So of the module checks of a block's end neither the one for a missing terminator nor those for
      targets and arguments can fail, once every `??` joins. */
  lemma TailsOk(S: Program, m: Module, x: nat)
    requires m == LowerProgram(S).mod && LowerProgram(S).errs == [] && WellTyped(S) && ProgramPayloads(S) && x < |m.blocks|
    ensures OpenBlock.ProgramJoins(S) ==> m.blocks[x].term.Some?
    ensures m.blocks[x].term.Some? ==> (TailOk(m, m.blocks[x]) <==> OperandsOk(m, m.blocks[x].term.value))
  {
    hide WellTyped, ProgramPayloads, LowerProgram, OpenBlock.FuncJoins, EdgeOk, DistinctKeys, Owns;
    OpenBlock.OneOpenBlock(S);
    EdgesStay(S, m);
    assert Owned(m, x);
    var i: nat :| Owns(m, i, x);
    if m.blocks[x].term.Some? {
      var t := m.blocks[x].term.value;
      forall target: nat, args: seq<Id> | EdgeOf(t, target, args)
        ensures EdgeOk(m, target, args)
      {
      }
      AllEdges(m, t);
    }
  }

  lemma AllEdges(m: Module, t: Term)
    requires forall target: nat, args: seq<Id> :: EdgeOf(t, target, args) ==> EdgeOk(m, target, args)
    ensures TermOk(m, t) <==> OperandsOk(m, t)
  {
    hide EdgeOk, DistinctKeys;
    match t
    case TermBr(target, args) => assert EdgeOf(t, target, args);
    case TermCondBr(_, thenBb, elseBb) => assert EdgeOf(t, thenBb, []) && EdgeOf(t, elseBb, []);
    case TermSwitch(_, defaultBb, arms) =>
      assert EdgeOf(t, defaultBb, []);
      assert forall i :: 0 <= i < |arms| ==> EdgeOf(t, arms[i].target, []);
    case TermRet(_, _) =>
  }
}
