/** What a SIR program means: a definitional interpreter with lexical scoping. `fuel` bounds
    loop iterations and nested calls; running out of it is the outcome `Timeout`. Operators and
    external functions are parameters, so every statement made with them holds for all of them. */
module SirSemantics {
  import opened Wrappers
  import opened Literals
  import opened Sir

  datatype Val =
    | UnitV | NullV | NoneV
    | BoolV(b: bool) | IntV(n: int) | EnumV(tag: int)
    | FloatV(text: string) | TextV(text: string)
    | SomeV(inner: Val)

  datatype UnOp = OpPlus | OpNeg | OpNot | OpBitNot
  datatype BinOp =
    | Add | Sub | Mul | Div | Rem | CmpLt | CmpLe | CmpGt | CmpGe | CmpEq | CmpNe | LogicalAnd | LogicalOr

  function MapUnOp(t: Token): Option<UnOp> {
    match t
    case Plus => Some(OpPlus)
    case Minus => Some(OpNeg)
    case KwNot => Some(OpNot)
    case Bang => Some(OpBitNot)
    case _ => None
  }

  function MapBinOp(t: Token): Option<BinOp> {
    match t
    case Plus => Some(Add)
    case Minus => Some(Sub)
    case Star => Some(Mul)
    case Slash => Some(Div)
    case Percent => Some(Rem)
    case Lt => Some(CmpLt)
    case LtEq => Some(CmpLe)
    case Gt => Some(CmpGt)
    case GtEq => Some(CmpGe)
    case EqEq => Some(CmpEq)
    case BangEq => Some(CmpNe)
    case KwAnd => Some(LogicalAnd)
    case KwOr => Some(LogicalOr)
    case _ => None
  }

  /** The meaning of operators (by result type) and of external functions (by index). `None` is a trap. */
  datatype Prims = Prims(
    un: (UnOp, Ty, Val) -> Option<Val>,
    bin: (BinOp, Ty, Val, Val) -> Option<Val>,
    cast: (CastKind, Ty, Ty, Val) -> Option<Val>,
    ext: (nat, seq<Val>, seq<Val>) -> Option<(Val, seq<Val>)>)

  /** A name is bound to a value, or to a cell of the activation's store. */
  datatype Bind = Imm(v: Val) | Cell(loc: nat)
  type Env = map<Sym, Bind>

  datatype St = St(store: seq<Val>, globals: seq<Val>)

  datatype EvalResult = Ev(v: Val, st: St) | EvFault(globals: seq<Val>) | EvTimeout
  datatype ArgsResult = EvArgs(vs: seq<Val>, st: St) | ArgsFault(globals: seq<Val>) | ArgsTimeout
  datatype ExecResult =
    | Next(env: Env, st: St)
    | Returned(v: Val, globals: seq<Val>)
    | ExFault(globals: seq<Val>)
    | ExTimeout
  datatype CallResult = Result(v: Val, globals: seq<Val>) | CallFault(globals: seq<Val>) | CallTimeout

  /** The integer a switch compares. */
  function SwitchKey(v: Val): Option<int> {
    match v
    case IntV(n) => Some(n)
    case BoolV(b) => Some(if b then 1 else 0)
    case EnumV(tag) => Some(tag)
    case _ => None
  }

  /** The integer a case pattern stands for. */
  function PatternKey(p: Pattern): Option<int> {
    match p
    case IntPat(text) => ParseI64Literal(text)
    case BoolPat(text) => Some(if text == "true" then 1 else 0)
    case CharPat(text) => (match CharLiteralCode(text) case Some(c) => Some(c) case None => None)
    case EnumPat(tag) => Some(tag)
    case _ => None
  }

  /** Does a non-default case take a value? On an optional only `case null` exists. */
  predicate CaseTakes(c: Case, optional: bool, v: Val) {
    if optional then c.pat.NullPat? && v.NoneV?
    else PatternKey(c.pat).Some? && SwitchKey(v) == PatternKey(c.pat)
  }

  /** The body a switch runs: the first case that takes the value, else the last default, else none. */
  function SelectCase(cases: seq<Case>, optional: bool, v: Val): (r: Option<nat>)
    ensures r.Some? ==> r.value < |cases|
  {
    match FirstTaking(cases, optional, v, 0)
    case Some(i) => Some(i)
    case None => LastDefault(cases, 0)
  }

  function FirstTaking(cases: seq<Case>, optional: bool, v: Val, i: nat): (r: Option<nat>)
    requires i <= |cases|
    ensures r.Some? ==> i <= r.value < |cases|
    decreases |cases| - i
  {
    if i == |cases| then None
    else if !cases[i].isDefault && CaseTakes(cases[i], optional, v) then Some(i)
    else FirstTaking(cases, optional, v, i + 1)
  }

  function LastDefault(cases: seq<Case>, i: nat): (r: Option<nat>)
    requires i <= |cases|
    ensures r.Some? ==> i <= r.value < |cases|
    decreases |cases| - i
  {
    if i == |cases| then None
    else
      var r := LastDefault(cases, i + 1);
      if r.Some? then r else if cases[i].isDefault then Some(i) else None
  }

  /** Only switches over values a scrutinee can have select anything; other values are a fault. */
  predicate Switchable(optional: bool, v: Val) {
    if optional then v.NoneV? || v.SomeV? else SwitchKey(v).Some?
  }

  function ReadName(S: Program, env: Env, st: St, sym: Sym): Option<Val> {
    if sym in env then
      match env[sym]
      case Imm(v) => Some(v)
      case Cell(l) => if l < |st.store| then Some(st.store[l]) else None
    else ReadGlobal(S, st, sym)
  }

  function ReadGlobal(S: Program, st: St, sym: Sym): Option<Val> {
    var i := FindGlobal(S.globals, sym);
    if i.Some? && i.value < |st.globals| then Some(st.globals[i.value]) else None
  }

  /** Assigning to a name. A variable of unit type carries no value. */
  function WritePlace(S: Program, env: Env, st: St, place: Expr, v: Val): Option<St> {
    if place.Local? && place.sym in env then
      match env[place.sym]
      case Imm(_) => None
      case Cell(l) =>
        if l >= |st.store| then None
        else if place.ty == Unit then Some(st)
        else Some(st.(store := st.store[l := v]))
    else if place.Local? || place.Global? then
      var i := FindGlobal(S.globals, place.sym);
      if i.Some? && i.value < |st.globals| then Some(st.(globals := st.globals[i.value := v])) else None
    else None
  }

  function BindParams(params: seq<Param>, vs: seq<Val>): Env
    requires |params| == |vs|
  {
    if params == [] then map[]
    else
      var n := |params| - 1;
      BindParams(params[..n], vs[..n])[params[n].sym := Imm(vs[n])]
  }

  /** Evaluates `e` where a value of type `target` is wanted: `null` and bare payloads become optionals. */
  function EvalAs(P: Prims, S: Program, fuel: nat, env: Env, st: St, e: Expr, target: Ty): EvalResult
    decreases fuel, e, 3
  {
    if e.ty != target && target.Optional? && e.NullLit? then Ev(NoneV, st)
    else
      match Eval(P, S, fuel, env, st, e)
      case Ev(v, st1) =>
        if e.ty != target && target.Optional? && e.ty == target.elem then Ev(SomeV(v), st1) else Ev(v, st1)
      case r => r
  }

  function Eval(P: Prims, S: Program, fuel: nat, env: Env, st: St, e: Expr): EvalResult
    decreases fuel, e, 2
  {
    match e
    case Local(_, sym) => ReadResult(ReadName(S, env, st, sym), st)
    case Global(_, sym) => ReadResult(ReadGlobal(S, st, sym), st)
    case Unary(_, _, _) => EvalOperand(P, S, fuel, env, st, e)
    case Cast(_, _, _, _) => EvalOperand(P, S, fuel, env, st, e)
    case Binary(_, tok, _, _) =>
      if tok == QuestionQuestion then EvalCoalesce(P, S, fuel, env, st, e) else EvalBinary(P, S, fuel, env, st, e)
    case Call(_, _, _, _, _, _) => EvalCall(P, S, fuel, env, st, e)
    case EnumCtor(_, tag, _) => Ev(EnumV(tag), st)
    case Assign(_, _, _) => EvalAssign(P, S, fuel, env, st, e)
    case OtherExpr(_) => EvFault(st.globals)
    case _ => ReadResult(LiteralValue(e), st)
  }

  predicate IsLiteral(e: Expr) { e.IntLit? || e.FloatLit? || e.StringLit? || e.CharLit? || e.BoolLit? || e.NullLit? }

  function LiteralValue(e: Expr): Option<Val>
    requires IsLiteral(e)
  {
    match e
    case IntLit(_, text) => Some(IntV(IntLiteralValue(text)))
    case FloatLit(_, text) => Some(FloatV(text))
    case StringLit(_, text) => Some(TextV(text))
    case CharLit(_, text) => (match CharLiteralCode(text) case Some(c) => Some(IntV(c)) case None => None)
    case BoolLit(_, text) => Some(BoolV(BoolLiteralValue(text)))
    case NullLit(ty) => Some(if ty.Optional? && SupportedType(ty) then NoneV else NullV)
  }

  /** A value that was read or computed, or a fault when there is none. */
  function ReadResult(v: Option<Val>, st: St): EvalResult {
    if v.Some? then Ev(v.value, st) else EvFault(st.globals)
  }

  /** The meaning of a unary operator or a cast. */
  function OperandValue(P: Prims, e: Expr, v: Val): Option<Val>
    requires e.Unary? || e.Cast?
  {
    if e.Cast? then P.cast(e.kind, e.ty, e.to, v)
    else if MapUnOp(e.tok).Some? then P.un(MapUnOp(e.tok).value, e.ty, v)
    else None
  }

  function BinaryValue(P: Prims, e: Expr, x: Val, y: Val): Option<Val>
    requires e.Binary?
  {
    if MapBinOp(e.tok).Some? then P.bin(MapBinOp(e.tok).value, e.ty, x, y) else None
  }

  function EvalOperand(P: Prims, S: Program, fuel: nat, env: Env, st: St, e: Expr): EvalResult
    requires e.Unary? || e.Cast?
    decreases fuel, e, 0
  {
    match Eval(P, S, fuel, env, st, e.a)
    case Ev(v, st1) => ReadResult(OperandValue(P, e, v), st1)
    case r => r
  }

  /** Both operands are evaluated, left then right; `and` and `or` are no exception. */
  function EvalBinary(P: Prims, S: Program, fuel: nat, env: Env, st: St, e: Expr): EvalResult
    requires e.Binary?
    decreases fuel, e, 0
  {
    match Eval(P, S, fuel, env, st, e.a)
    case Ev(x, st1) =>
      (match Eval(P, S, fuel, env, st1, e.b)
       case Ev(y, st2) => ReadResult(BinaryValue(P, e, x, y), st2)
       case r => r)
    case r => r
  }

  function EvalAssign(P: Prims, S: Program, fuel: nat, env: Env, st: St, e: Expr): EvalResult
    requires e.Assign?
    decreases fuel, e, 0
  {
    match EvalAs(P, S, fuel, env, st, e.rhs, e.place.ty)
    case Ev(v, st1) => StoreResult(S, env, st1, e.place, v)
    case r => r
  }

  function StoreResult(S: Program, env: Env, st: St, place: Expr, v: Val): EvalResult {
    var w := WritePlace(S, env, st, place, v);
    if w.Some? then Ev(v, w.value) else EvFault(st.globals)
  }

  /** Arguments, then the callee: an external function, or a body in a fresh activation. */
  function EvalCall(P: Prims, S: Program, fuel: nat, env: Env, st: St, e: Expr): EvalResult
    requires e.Call?
    decreases fuel, e, 0
  {
    var fi := FindFunc(S.funcs, e.callee);
    if fi.None? then EvFault(st.globals)
    else
      match EvalArgs(P, S, fuel, env, st, e.args, ParamTypes(S.funcs[fi.value].params))
      case ArgsFault(g) => EvFault(g)
      case ArgsTimeout => EvTimeout
      case EvArgs(vs, st1) =>
        AfterCall(st1,
                  if S.funcs[fi.value].isExtern then CallExternal(P, fi.value, vs, st1.globals)
                  else if fuel == 0 then CallTimeout
                  else CallFunc(P, S, fuel - 1, fi.value, vs, st1.globals))
  }

  /** The caller's state after a call: its own cells, and the globals as the callee left them. */
  function AfterCall(st: St, r: CallResult): EvalResult {
    match r
    case Result(v, g) => Ev(v, st.(globals := g))
    case CallFault(g) => EvFault(g)
    case CallTimeout => EvTimeout
  }

  /** `a ?? b`: the payload when `a` is present, else `b`; `b` runs only when `a` is absent. */
  function EvalCoalesce(P: Prims, S: Program, fuel: nat, env: Env, st: St, e: Expr): EvalResult
    requires e.Binary?
    decreases fuel, e, 1
  {
    match Eval(P, S, fuel, env, st, e.a)
    case Ev(v, st1) => EvalFallback(P, S, fuel, env, st1, e, v)
    case r => r
  }

  /** What `a ?? b` comes to once `a` has given `v`. */
  function EvalFallback(P: Prims, S: Program, fuel: nat, env: Env, st: St, e: Expr, v: Val): EvalResult
    requires e.Binary?
    decreases fuel, e, 0
  {
    if v.SomeV? then Ev(v.inner, st)
    else if v.NoneV? then EvalAs(P, S, fuel, env, st, e.b, e.ty)
    else EvFault(st.globals)
  }

  /** Arguments left to right, each as its parameter's type; surplus arguments as their own. */
  function EvalArgs(P: Prims, S: Program, fuel: nat, env: Env, st: St, args: seq<Expr>, tys: seq<Ty>): ArgsResult
    decreases fuel, args, 0
  {
    if args == [] then EvArgs([], st)
    else
      match EvalAs(P, S, fuel, env, st, args[0], if tys == [] then args[0].ty else tys[0])
      case Ev(v, st1) => ConsArg(v, EvalArgs(P, S, fuel, env, st1, args[1..], if tys == [] then [] else tys[1..]))
      case r => StopArgs(r)
  }

  function ConsArg(v: Val, r: ArgsResult): ArgsResult {
    if r.EvArgs? then EvArgs([v] + r.vs, r.st) else r
  }

  function StopArgs(r: EvalResult): ArgsResult
    requires !r.Ev?
  {
    if r.EvFault? then ArgsFault(r.globals) else ArgsTimeout
  }

  /** An external function may change the globals, not their number. */
  function CallExternal(P: Prims, fi: nat, vs: seq<Val>, globals: seq<Val>): CallResult {
    match P.ext(fi, vs, globals)
    case Some(r) => if |r.1| == |globals| then Result(r.0, r.1) else CallFault(globals)
    case None => CallFault(globals)
  }

  /** A call runs the body in a fresh activation whose parameters are bound to the arguments. */
  function CallFunc(P: Prims, S: Program, fuel: nat, fi: nat, vs: seq<Val>, globals: seq<Val>): CallResult
    requires fi < |S.funcs|
    decreases fuel, S.funcs[fi].body, 1
  {
    var fn := S.funcs[fi];
    if |vs| != |fn.params| then CallFault(globals)
    else
      match ExecBlock(P, S, fuel, fn.ret, BindParams(fn.params, vs), St([], globals), fn.body)
      case Returned(v, g) => Result(v, g)
      case Next(_, st) => if fn.ret == Unit then Result(UnitV, st.globals) else CallFault(st.globals)
      case ExFault(g) => CallFault(g)
      case ExTimeout => CallTimeout
  }

  function Exec(P: Prims, S: Program, fuel: nat, ret: Ty, env: Env, st: St, s: Stmt): ExecResult
    decreases fuel, s, 2
  {
    match s
    case ExprStmt(None) => Next(env, st)
    case ExprStmt(Some(e)) =>
      (match Eval(P, S, fuel, env, st, e)
       case Ev(_, st1) => Next(env, st1)
       case r => Stop(r))
    case VarDecl(_, _, _, _, _, _) => ExecVarDecl(P, S, fuel, env, st, s)
    case If(_, _, _) => ExecIf(P, S, fuel, ret, env, st, s)
    case While(_, _) => ExecWhile(P, S, fuel, ret, env, st, s)
    case Switch(_, _) => ExecSwitch(P, S, fuel, ret, env, st, s)
    case Return(None) => Returned(UnitV, st.globals)
    case Return(Some(e)) =>
      (match EvalAs(P, S, fuel, env, st, e, ret)
       case Ev(v, st1) => Returned(v, st1.globals)
       case r => Stop(r))
    case OtherStmt => ExFault(st.globals)
  }

  /** A statement whose expression did not evaluate does not go on either. */
  function Stop(r: EvalResult): ExecResult
    requires !r.Ev?
  {
    if r.EvFault? then ExFault(r.globals) else ExTimeout
  }

  /** `let` binds a name to the value, `set` and `mut` to a new cell holding it. */
  function ExecVarDecl(P: Prims, S: Program, fuel: nat, env: Env, st: St, s: Stmt): ExecResult
    requires s.VarDecl?
    decreases fuel, s, 0
  {
    if s.init.None? then ExFault(st.globals)
    else
      match EvalAs(P, S, fuel, env, st, s.init.value, BindingType(s).value)
      case Ev(v, st1) => BindNew(env, st1, s, v)
      case r => Stop(r)
  }

  function BindNew(env: Env, st: St, s: Stmt, v: Val): ExecResult
    requires s.VarDecl?
  {
    if s.isSet || s.isMut then Next(env[s.sym := Cell(|st.store|)], st.(store := st.store + [v]))
    else Next(env[s.sym := Imm(v)], st)
  }

  function ExecIf(P: Prims, S: Program, fuel: nat, ret: Ty, env: Env, st: St, s: Stmt): ExecResult
    requires s.If?
    decreases fuel, s, 1
  {
    match Eval(P, S, fuel, env, st, s.cond)
    case Ev(v, st1) => ExecBranch(P, S, fuel, ret, env, st1, s, v)
    case r => Stop(r)
  }

  function ExecBranch(P: Prims, S: Program, fuel: nat, ret: Ty, env: Env, st: St, s: Stmt, v: Val): ExecResult
    requires s.If?
    decreases fuel, s, 0
  {
    if v.BoolV? then LeaveScope(env, ExecBlock(P, S, fuel, ret, env, st, if v.b then s.thn else s.els))
    else ExFault(st.globals)
  }

  function ExecWhile(P: Prims, S: Program, fuel: nat, ret: Ty, env: Env, st: St, s: Stmt): ExecResult
    requires s.While?
    decreases fuel, s, 1
  {
    match Eval(P, S, fuel, env, st, s.cond)
    case Ev(v, st1) => ExecIteration(P, S, fuel, ret, env, st1, s, v)
    case r => Stop(r)
  }

  /** The rest of a loop once its condition has given `v`. */
  function ExecIteration(P: Prims, S: Program, fuel: nat, ret: Ty, env: Env, st: St, s: Stmt, v: Val): ExecResult
    requires s.While?
    decreases fuel, s, 0
  {
    if !v.BoolV? then ExFault(st.globals)
    else if !v.b then Next(env, st)
    else
      match ExecBlock(P, S, fuel, ret, env, st, s.body)
      case Next(_, st1) => if fuel == 0 then ExTimeout else ExecWhile(P, S, fuel - 1, ret, env, st1, s)
      case r => r
  }

  function ExecSwitch(P: Prims, S: Program, fuel: nat, ret: Ty, env: Env, st: St, s: Stmt): ExecResult
    requires s.Switch?
    decreases fuel, s, 1
  {
    match Eval(P, S, fuel, env, st, s.scrutinee)
    case Ev(v, st1) => ExecSelected(P, S, fuel, ret, env, st1, s, v)
    case r => Stop(r)
  }

  function ExecSelected(P: Prims, S: Program, fuel: nat, ret: Ty, env: Env, st: St, s: Stmt, v: Val): ExecResult
    requires s.Switch?
    decreases fuel, s, 0
  {
    var optional := s.scrutinee.ty.Optional?;
    var i := SelectCase(s.cases, optional, v);
    if !Switchable(optional, v) then ExFault(st.globals)
    else if i.Some? then LeaveScope(env, ExecBlock(P, S, fuel, ret, env, st, s.cases[i.value].body))
    else Next(env, st)
  }

  /** Names declared inside a block end with it; cells and globals keep their contents. */
  function LeaveScope(env: Env, r: ExecResult): ExecResult {
    if r.Next? then Next(env, r.st) else r
  }

  function ExecBlock(P: Prims, S: Program, fuel: nat, ret: Ty, env: Env, st: St, stmts: seq<Stmt>): ExecResult
    decreases fuel, stmts, 0
  {
    if stmts == [] then Next(env, st)
    else
      match Exec(P, S, fuel, ret, env, st, stmts[0])
      case Next(env1, st1) => ExecBlock(P, S, fuel, ret, env1, st1, stmts[1..])
      case r => r
  }
}
