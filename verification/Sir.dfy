/** The structured IR (SIR) the gOIR builder consumes, with its types. Value, statement and
    block ids of the source's arenas are replaced by the trees they denote. */
module Sir {
  import opened Wrappers

  /** `Other` stands for every type outside the scalar, text, optional and tag-enum subset. */
  datatype Ty =
    | Unit | Bool | Char
    | Int(signed: bool, bits: nat)
    | Float(bits: nat)
    | Text
    | Optional(elem: Ty)
    | TagEnum(id: nat)
    | Other(id: nat)

  datatype LayoutClass = UnknownLayout | Scalar | TextView | OptionalScalar | TagEnumLayout

  function ClassifyLayout(ty: Ty): LayoutClass {
    match ty
    case Text => TextView
    case Optional(elem) =>
      if ClassifyLayout(elem) in {Scalar, TextView, TagEnumLayout} then OptionalScalar else UnknownLayout
    case TagEnum(_) => TagEnumLayout
    case Other(_) => UnknownLayout
    case _ => Scalar
  }

  /** Types that locals, parameters and results may have. */
  predicate SupportedType(ty: Ty) { ClassifyLayout(ty) != UnknownLayout }

  predicate ScalarType(ty: Ty) { ClassifyLayout(ty) == Scalar }

  type Sym = nat

  datatype Token =
    | Plus | Minus | Star | Slash | Percent
    | Lt | LtEq | Gt | GtEq | EqEq | BangEq
    | KwAnd | KwOr | KwNot | Bang
    | QuestionQuestion
    | OtherToken(code: nat)

  datatype CastKind = As | AsQ | AsB

  datatype Expr =
    | IntLit(ty: Ty, text: string)
    | FloatLit(ty: Ty, text: string)
    | StringLit(ty: Ty, text: string)
    | CharLit(ty: Ty, text: string)
    | BoolLit(ty: Ty, text: string)
    | NullLit(ty: Ty)
    | Local(ty: Ty, sym: Sym)
    | Global(ty: Ty, sym: Sym)
    | Unary(ty: Ty, tok: Token, a: Expr)
    | Binary(ty: Ty, tok: Token, a: Expr, b: Expr)
    | Cast(ty: Ty, kind: CastKind, to: Ty, a: Expr)
    | Call(ty: Ty, callee: Sym, args: seq<Expr>, isCore: bool, isThrowing: bool, isCAbi: bool)
    | EnumCtor(ty: Ty, tag: int, argCount: nat)
    | Assign(ty: Ty, place: Expr, rhs: Expr)
    | OtherExpr(ty: Ty)

  datatype Pattern =
    | IntPat(text: string) | BoolPat(text: string) | CharPat(text: string)
    | EnumPat(tag: int) | NullPat | StringPat | IdentPat | ErrorPat

  datatype Case = Case(isDefault: bool, pat: Pattern, enumBinds: nat, body: seq<Stmt>)

  datatype Stmt =
    | ExprStmt(expr: Option<Expr>)
    | VarDecl(sym: Sym, isStatic: bool, isSet: bool, isMut: bool, declared: Option<Ty>, init: Option<Expr>)
    | If(cond: Expr, thn: seq<Stmt>, els: seq<Stmt>)
    | While(cond: Expr, body: seq<Stmt>)
    | Switch(scrutinee: Expr, cases: seq<Case>)
    | Return(expr: Option<Expr>)
    | OtherStmt

  datatype Abi = Parus | C

  datatype Param = Param(sym: Sym, ty: Ty)

  datatype Func = Func(
    name: string, sym: Sym, params: seq<Param>, ret: Ty, body: seq<Stmt>,
    abi: Abi, isExtern: bool, isExport: bool, isThrowing: bool, isVariadic: bool, isMethod: bool)

  datatype GlobalDecl = GlobalDecl(
    name: string, hasSym: bool, sym: Sym, ty: Ty,
    isExtern: bool, isStatic: bool, isConst: bool, isMutable: bool, isExport: bool,
    abi: Abi, isTls: bool, hasConstInit: bool)

  datatype Program = Program(globals: seq<GlobalDecl>, funcs: seq<Func>)

  /** The index a symbol resolves to: the last declaration that carries it. */
  function FindGlobal(globals: seq<GlobalDecl>, sym: Sym): (r: Option<nat>)
    ensures r.Some? ==> r.value < |globals| && globals[r.value].sym == sym
    ensures r.None? ==> forall i :: 0 <= i < |globals| ==> globals[i].sym != sym
  {
    if globals == [] then None
    else if globals[|globals| - 1].sym == sym then Some(|globals| - 1)
    else FindGlobal(globals[..|globals| - 1], sym)
  }

  function FindFunc(funcs: seq<Func>, sym: Sym): (r: Option<nat>)
    ensures r.Some? ==> r.value < |funcs| && funcs[r.value].sym == sym
    ensures r.None? ==> forall i :: 0 <= i < |funcs| ==> funcs[i].sym != sym
  {
    if funcs == [] then None
    else if funcs[|funcs| - 1].sym == sym then Some(|funcs| - 1)
    else FindFunc(funcs[..|funcs| - 1], sym)
  }

  function ParamTypes(params: seq<Param>): (r: seq<Ty>)
    ensures |r| == |params| && forall i :: 0 <= i < |params| ==> r[i] == params[i].ty
  {
    seq(|params|, i requires 0 <= i < |params| => params[i].ty)
  }

  /** The type a `let`/`set` binds: the declared one, else the initializer's. */
  function BindingType(s: Stmt): Option<Ty>
    requires s.VarDecl?
  {
    if s.declared.Some? then s.declared
    else if s.init.Some? then Some(s.init.value.ty)
    else None
  }
}
