/** The facts of type checking that lowering relies on. Only names, assignments, bindings and
    call arity matter: everything else the builder and the module checks reject by themselves. */
module Typing {
  import opened Wrappers
  import opened Sir

  type Types = map<Sym, Ty>

  predicate GlobalTyped(S: Program, sym: Sym, ty: Ty) {
    var i := FindGlobal(S.globals, sym);
    i.Some? ==> S.globals[i.value].ty == ty
  }

  /** A value of unit type carries nothing, so it can only be stored where nothing is stored. */
  predicate Storable(from: Ty, target: Ty) { from == Unit ==> target == Unit }

  predicate ArityOk(S: Program, callee: Sym, n: nat) {
    var fi := FindFunc(S.funcs, callee);
    fi.Some? && !S.funcs[fi.value].isExtern ==> n == |S.funcs[fi.value].params|
  }

  predicate TypedExpr(S: Program, G: Types, e: Expr)
    decreases e
  {
    match e
    case Local(ty, sym) => if sym in G then ty == G[sym] else GlobalTyped(S, sym, ty)
    case Global(ty, sym) => GlobalTyped(S, sym, ty)
    case Unary(_, _, a) => TypedExpr(S, G, a)
    case Binary(_, _, a, b) => TypedExpr(S, G, a) && TypedExpr(S, G, b)
    case Cast(_, _, _, a) => TypedExpr(S, G, a)
    case Call(_, callee, args, _, _, _) =>
      ArityOk(S, callee, |args|) && forall i :: 0 <= i < |args| ==> TypedExpr(S, G, args[i])
    case Assign(ty, place, rhs) =>
      TypedExpr(S, G, place) && TypedExpr(S, G, rhs) && ty == place.ty && Storable(rhs.ty, place.ty)
    case _ => true
  }

  /** The names in scope after a statement. */
  function TypesAfter(G: Types, s: Stmt): Types {
    if s.VarDecl? && BindingType(s).Some? then G[s.sym := BindingType(s).value] else G
  }

  predicate TypedStmt(S: Program, G: Types, s: Stmt)
    decreases s
  {
    match s
    case ExprStmt(e) => e.Some? ==> TypedExpr(S, G, e.value)
    case VarDecl(_, _, _, _, _, init) =>
      init.Some? ==> TypedExpr(S, G, init.value) && Storable(init.value.ty, BindingType(s).value)
    case If(cond, thn, els) => TypedExpr(S, G, cond) && TypedBlock(S, G, thn) && TypedBlock(S, G, els)
    case While(cond, body) => TypedExpr(S, G, cond) && TypedBlock(S, G, body)
    case Switch(e, cases) =>
      TypedExpr(S, G, e) && forall i :: 0 <= i < |cases| ==> TypedBlock(S, G, cases[i].body)
    case Return(e) => e.Some? ==> TypedExpr(S, G, e.value)
    case OtherStmt => true
  }

  predicate TypedBlock(S: Program, G: Types, stmts: seq<Stmt>)
    decreases stmts
  {
    stmts == [] || (TypedStmt(S, G, stmts[0]) && TypedBlock(S, TypesAfter(G, stmts[0]), stmts[1..]))
  }

  function ParamMap(params: seq<Param>): Types {
    if params == [] then map[]
    else ParamMap(params[..|params| - 1])[params[|params| - 1].sym := params[|params| - 1].ty]
  }

  /** A type-checked program whose globals all store something. */
  predicate WellTyped(S: Program) {
    && (forall i :: 0 <= i < |S.globals| ==> S.globals[i].ty != Unit)
    && forall i :: 0 <= i < |S.funcs| ==> TypedBlock(S, ParamMap(S.funcs[i].params), S.funcs[i].body)
  }
}
