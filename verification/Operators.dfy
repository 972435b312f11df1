/** What the operators of a program come to, token by token: once the operators of the IR are those of
    integers and booleans, a program that returns `a tok b` ends, as source and as built, with the
    operation that the token stands for. */
module Operators {
  import opened Wrappers
  import opened Sir
  import opened SirSemantics
  import opened Goir
  import opened GoirMachine
  import opened GoirVerify
  import opened Lowering
  import opened Typing
  import opened SimulationBase
  import opened Correctness

  // ---- Operators on integers and booleans -------------------------------------------------

  function OnInts(op: BinOp, x: int, y: int): Option<Val> {
    match op
    case Add => Some(IntV(x + y))
    case Sub => Some(IntV(x - y))
    case Mul => Some(IntV(x * y))
    case Div => if y == 0 then None else Some(IntV(x / y))
    case Rem => if y == 0 then None else Some(IntV(x % y))
    case CmpLt => Some(BoolV(x < y))
    case CmpLe => Some(BoolV(x <= y))
    case CmpGt => Some(BoolV(x > y))
    case CmpGe => Some(BoolV(x >= y))
    case CmpEq => Some(BoolV(x == y))
    case CmpNe => Some(BoolV(x != y))
    case _ => None
  }

  function OnBools(op: BinOp, x: bool, y: bool): Option<Val> {
    match op
    case LogicalAnd => Some(BoolV(x && y))
    case LogicalOr => Some(BoolV(x || y))
    case _ => None
  }

  function OnOne(op: UnOp, v: Val): Option<Val> {
    match (op, v)
    case (OpPlus, IntV(_)) => Some(v)
    case (OpNeg, IntV(x)) => Some(IntV(-x))
    case (OpBitNot, IntV(x)) => Some(IntV(-x - 1))
    case (OpNot, BoolV(x)) => Some(BoolV(!x))
    case _ => None
  }

  function OnTwo(op: BinOp, v: Val, w: Val): Option<Val> {
    match (v, w)
    case (IntV(x), IntV(y)) => OnInts(op, x, y)
    case (BoolV(x), BoolV(y)) => OnBools(op, x, y)
    case _ => None
  }

  /** Operators with their usual meaning; casts and external functions trap. */
  function Usual(): Prims {
    Prims((op: UnOp, ty: Ty, v: Val) => OnOne(op, v),
          (op: BinOp, ty: Ty, v: Val, w: Val) => OnTwo(op, v, w),
          (kind: CastKind, from: Ty, to: Ty, v: Val) => None,
          (fi: nat, vs: seq<Val>, g: seq<Val>) => None)
  }

  // ---- Evaluation -------------------------------------------------------------------------

  /** Left operand, then right operand, then the operator. */
  lemma OperandsDone(P: Prims, S: Program, fuel: nat, env: Env, st: St, e: Expr, v: Val, w: Val, st1: St, st2: St)
    requires e.Binary? && e.tok != QuestionQuestion && Eval(P, S, fuel, env, st, e.a) == Ev(v, st1)
    requires Eval(P, S, fuel, env, st1, e.b) == Ev(w, st2)
    ensures Eval(P, S, fuel, env, st, e) == ReadResult(BinaryValue(P, e, v, w), st2)
  {
  }

  /** Both operands come to integers: the eleven operators on integers. */
  lemma IntsMean(S: Program, fuel: nat, env: Env, st: St, e: Expr, x: int, y: int, st1: St, st2: St)
    requires e.Binary? && e.tok != QuestionQuestion && Eval(Usual(), S, fuel, env, st, e.a) == Ev(IntV(x), st1)
    requires Eval(Usual(), S, fuel, env, st1, e.b) == Ev(IntV(y), st2)
    ensures var r := Eval(Usual(), S, fuel, env, st, e);
            && (e.tok == Plus ==> r == Ev(IntV(x + y), st2))
            && (e.tok == Minus ==> r == Ev(IntV(x - y), st2))
            && (e.tok == Star ==> r == Ev(IntV(x * y), st2))
            && (e.tok == Slash ==> r == if y == 0 then EvFault(st2.globals) else Ev(IntV(x / y), st2))
            && (e.tok == Percent ==> r == if y == 0 then EvFault(st2.globals) else Ev(IntV(x % y), st2))
            && (e.tok == Lt ==> r == Ev(BoolV(x < y), st2))
            && (e.tok == LtEq ==> r == Ev(BoolV(x <= y), st2))
            && (e.tok == Gt ==> r == Ev(BoolV(x > y), st2))
            && (e.tok == GtEq ==> r == Ev(BoolV(x >= y), st2))
            && (e.tok == EqEq ==> r == Ev(BoolV(x == y), st2))
            && (e.tok == BangEq ==> r == Ev(BoolV(x != y), st2))
  {
    hide Eval;
    OperandsDone(Usual(), S, fuel, env, st, e, IntV(x), IntV(y), st1, st2);
  }

  /** Both operands come to booleans: `and` and `or`, whose right side is evaluated in any case. */
  lemma BoolsMean(S: Program, fuel: nat, env: Env, st: St, e: Expr, x: bool, y: bool, st1: St, st2: St)
    requires e.Binary? && e.tok != QuestionQuestion && Eval(Usual(), S, fuel, env, st, e.a) == Ev(BoolV(x), st1)
    requires Eval(Usual(), S, fuel, env, st1, e.b) == Ev(BoolV(y), st2)
    ensures var r := Eval(Usual(), S, fuel, env, st, e);
            && (e.tok == KwAnd ==> r == Ev(BoolV(x && y), st2))
            && (e.tok == KwOr ==> r == Ev(BoolV(x || y), st2))
  {
    hide Eval;
    OperandsDone(Usual(), S, fuel, env, st, e, BoolV(x), BoolV(y), st1, st2);
  }

  /** The four prefix operators. */
  lemma OneMeans(S: Program, fuel: nat, env: Env, st: St, e: Expr, v: Val, st1: St)
    requires e.Unary? && Eval(Usual(), S, fuel, env, st, e.a) == Ev(v, st1)
    ensures var r := Eval(Usual(), S, fuel, env, st, e);
            && (e.tok == Plus && v.IntV? ==> r == Ev(v, st1))
            && (e.tok == Minus && v.IntV? ==> r == Ev(IntV(-v.n), st1))
            && (e.tok == Bang && v.IntV? ==> r == Ev(IntV(-v.n - 1), st1))
            && (e.tok == KwNot && v.BoolV? ==> r == Ev(BoolV(!v.b), st1))
  {
    assert Eval(Usual(), S, fuel, env, st, e) == ReadResult(OperandValue(Usual(), e, v), st1);
  }

  // ---- Runs -------------------------------------------------------------------------------

  /** Function `fi` of an accepted well-typed program is `return e`, of the type of `e`. */
  predicate JustReturns(S: Program, fi: nat, e: Expr) {
    && Accepted(S) && WellTyped(S) && fi < |S.funcs| && !S.funcs[fi].isExtern
    && S.funcs[fi].body == [Return(Some(e))] && S.funcs[fi].ret == e.ty
  }

  /** The call comes to `c`: in the source and in the module built of it. */
  ghost predicate ComesTo(P: Prims, S: Program, fi: nat, vs: seq<Val>, g: seq<Val>, c: Config)
    requires fi < |S.funcs|
  {
    && (exists fuel: nat :: SourceEnds(P, S, fi, vs, g, fuel, c))
    && exists k: nat :: Machine(P, S, fi, vs, g, k) == c
  }

  /** How evaluation ended, in the machine's words. */
  function Ended(r: EvalResult): Config
    requires !r.EvTimeout?
  {
    match r
    case Ev(v, st) => Halt(v, st.globals)
    case EvFault(g) => Fault(g)
  }

  /** `return e` comes to what `e` comes to. */
  lemma ReturnRuns(P: Prims, S: Program, fi: nat, vs: seq<Val>, g: seq<Val>, fuel: nat, e: Expr)
    requires JustReturns(S, fi, e) && Callable(S, fi, vs, g)
    requires !Eval(P, S, fuel, BindParams(S.funcs[fi].params, vs), St([], g), e).EvTimeout?
    ensures ComesTo(P, S, fi, vs, g, Ended(Eval(P, S, fuel, BindParams(S.funcs[fi].params, vs), St([], g), e)))
  {
    hide Accepted, WellTyped, Machine, Eval;
    var env := BindParams(S.funcs[fi].params, vs);
    var r := Eval(P, S, fuel, env, St([], g), e);
    assert EvalAs(P, S, fuel, env, St([], g), e, S.funcs[fi].ret) == r;
    assert Exec(P, S, fuel, S.funcs[fi].ret, env, St([], g), Return(Some(e)))
        == if r.Ev? then Returned(r.v, r.st.globals) else Stop(r);
    assert ExecBlock(P, S, fuel, S.funcs[fi].ret, env, St([], g), S.funcs[fi].body)
        == Exec(P, S, fuel, S.funcs[fi].ret, env, St([], g), Return(Some(e)));
    assert SourceEnds(P, S, fi, vs, g, fuel, Ended(r));
    SourceToMachine(P, S, fi, vs, g, fuel);
  }

  /** `fn f(a, b) { return e; }`, the parameters of type `from`, the result of the type of `e`. */
  function Returning(from: Ty, e: Expr): Program {
    Program([], [Func("f", 0, [Param(1, from), Param(2, from)], e.ty, [Return(Some(e))],
                      Parus, false, false, false, false, false)])
  }

  function OfBoth(tok: Token, from: Ty, to: Ty): Expr { Binary(to, tok, Local(from, 1), Local(from, 2)) }
  function OfFirst(tok: Token, ty: Ty): Expr { Unary(ty, tok, Local(ty, 1)) }

  /** The source and the compiled form of `return e` come to `v`. */
  ghost predicate Gives(from: Ty, e: Expr, x: Val, y: Val, v: Val) {
    ComesTo(Usual(), Returning(from, e), 0, [x, y], [], Halt(v, []))
  }

  ghost predicate Traps(from: Ty, e: Expr, x: Val, y: Val) {
    ComesTo(Usual(), Returning(from, e), 0, [x, y], [], Fault([]))
  }

  // ---- The programs are built -------------------------------------------------------------

  function Loc(x: nat, ty: Ty): Binding { Binding(Some(x), ty, ClassifyLayout(ty), false, false) }
  function Param0(ty: Ty): Value { PlainValue(ty, Pure, UnknownLayout) }

  function Mod(from: Ty, to: Ty, values: seq<Value>, insts: seq<Inst>, blocks: seq<Block>): Module {
    Module(Open, values, insts, blocks, [Sig([from, from], to)], [Computation(0, [0])],
           [Realization(0, Core, Parus, Internal, false, false, [0], Some(0), 0)], [])
  }

  predicate AtMod(b: Bld, from: Ty, to: Ty, values: seq<Value>, insts: seq<Inst>, blocks: seq<Block>)
    ensures AtMod(b, from, to, values, insts, blocks) ==> b == Bld(Mod(from, to, values, insts, blocks), [])
  {
    && b.errs == [] && b.mod.stage == Open && b.mod.values == values && b.mod.insts == insts && b.mod.blocks == blocks
    && b.mod.sigs == Mod(from, to, [], [], []).sigs && b.mod.comps == Mod(from, to, [], [], []).comps
    && b.mod.reals == Mod(from, to, [], [], []).reals && b.mod.globals == []
  }

  function BodyScope(from: Ty, to: Ty): Scope { Scope(0, to, map[1 := Loc(0, from), 2 := Loc(1, from)]) }

  function Entered(from: Ty, to: Ty): Bld {
    Bld(Mod(from, to, [Param0(from), Param0(from)], [], [Block([0, 1], [], None)]), [])
  }

  /** What is built of a body that is one operation. */
  function OneOp(from: Ty, to: Ty, op: Op): Module {
    Mod(from, to, [Param0(from), Param0(from), PlainValue(to, Pure, UnknownLayout)], [Inst(op, Pure, Some(2))],
        [Block([0, 1], [0], Some(TermRet(true, Some(2))))])
  }

  predicate Plain(from: Ty, e: Expr) { SupportedType(from) && SupportedType(e.ty) && e.ty != Unit }

  lemma DeclaredOne(from: Ty, e: Expr)
    requires Plain(from, e)
    ensures var d := Declare(Returning(from, e));
            && d.errs == []
            && d.mod == Mod(from, e.ty, [], [], []).(reals := [Realization(0, Core, Parus, Internal, false, false, [], None, 0)])
  {
    var S := Returning(from, e);
    var fn := S.funcs[0];
    assert SupportedFunc(fn);
    assert ParamTypes(fn.params) == [from, from];
    var b := Bld(EMPTY_MODULE, []);
    assert DeclareGlobals(b, [], 0) == b && DeclareFuncs(b, S.funcs, 0) == b;
    assert DeclareFuncs(b, S.funcs, 1) == DeclareFunc(b, fn, 0);
  }

  lemma OpenedOne(from: Ty, e: Expr)
    requires Plain(from, e)
    ensures OpenBody(Declare(Returning(from, e)), Returning(from, e).funcs[0], 0)
         == LoweredStmt(Entered(from, e.ty), FuncState(BodyScope(from, e.ty), Some(0)))
  {
    hide Declare, SupportedType;
    DeclaredOne(from, e);
    var fn := Returning(from, e).funcs[0];
    var b := SetEntry(AddBlock(Declare(Returning(from, e)), 0), 0, 0);
    assert b.mod.blocks == [EMPTY_BLOCK] && b.mod.reals[0].blocks == [0];
    assert AtMod(b, from, e.ty, [], [], [EMPTY_BLOCK]);
    assert AddParams(b, 0, fn.params[..1][..0]) == Params(b, map[]);
    var p := AddParams(b, 0, fn.params[..1]);
    assert fn.params[..1] == [Param(1, from)];
    assert p.b.mod.blocks[0].params == [0];
    assert AtMod(p.b, from, e.ty, [Param0(from)], [], [Block([0], [], None)]) && p.locals == map[1 := Loc(0, from)];
    var q := AddParams(b, 0, fn.params);
    assert q.b.mod.blocks[0].params == [0, 1];
    assert AtMod(q.b, from, e.ty, [Param0(from), Param0(from)], [], [Block([0, 1], [], None)]);
    assert q.locals == BodyScope(from, e.ty).locals;
  }

  /** The whole program, once its expression is known to be one operation. */
  lemma BuiltOne(from: Ty, e: Expr, op: Op)
    requires Plain(from, e)
    requires LowerValue(Returning(from, e), Entered(from, e.ty), BodyScope(from, e.ty), 0, e)
          == Emit(Entered(from, e.ty), 0, e.ty, Pure, op, UnknownLayout)
    ensures LowerProgram(Returning(from, e)) == Bld(OneOp(from, e.ty, op), [])
  {
    hide LowerValue, Declare, OpenBody, SupportedType;
    DeclaredOne(from, e);
    OpenedOne(from, e);
    var S := Returning(from, e);
    var d := Declare(S);
    var sc := BodyScope(from, e.ty);
    var x := Emit(Entered(from, e.ty), 0, e.ty, Pure, op, UnknownLayout);
    assert x.b.mod.blocks[0].insts == [0];
    assert AtMod(x.b, from, e.ty, [Param0(from), Param0(from), PlainValue(e.ty, Pure, UnknownLayout)],
                 [Inst(op, Pure, Some(2))], [Block([0, 1], [0], None)]);
    var r := LowerStmt(S, Entered(from, e.ty), FuncState(sc, Some(0)), 0, Return(Some(e)));
    assert r == LoweredStmt(Terminate(x.b, 0, TermRet(true, Some(2))), FuncState(sc, None));
    assert r.b.mod.blocks == OneOp(from, e.ty, op).blocks && r.b.mod == OneOp(from, e.ty, op);
    assert LowerBlock(S, Entered(from, e.ty), FuncState(sc, Some(0)), S.funcs[0].body) == r;
    assert LowerFuncs(S, d, 0) == d && LowerFuncs(S, d, 1) == LowerFunc(S, d, 0);
  }

  lemma OneOpOk(from: Ty, to: Ty, op: Op)
    requires (op.OpBinary? && op.lhs == Some(0) && op.rhs == Some(1)) || (op.OpUnary? && op.src == Some(0))
    ensures VerifyOk(OneOp(from, to, op))
  {
    var m := OneOp(from, to, op);
    assert InstOk(m, m.insts[0]);
    assert BlockOk(m, m.blocks[0]);
  }

  predicate BinaryToken(tok: Token) {
    tok in {Plus, Minus, Star, Slash, Percent, Lt, LtEq, Gt, GtEq, EqEq, BangEq, KwAnd, KwOr}
  }

  predicate UnaryToken(tok: Token) { tok in {Plus, Minus, KwNot, Bang} }

  lemma LoweredBoth(S: Program, tok: Token, from: Ty, to: Ty)
    requires BinaryToken(tok)
    ensures LowerValue(S, Entered(from, to), BodyScope(from, to), 0, OfBoth(tok, from, to))
         == Emit(Entered(from, to), 0, to, Pure, OpBinary(MapBinOp(tok).value, Some(0), Some(1)), UnknownLayout)
  {
    hide Emit;
    var e := OfBoth(tok, from, to);
    var b := Entered(from, to);
    var sc := BodyScope(from, to);
    assert LowerValue(S, b, sc, 0, e.a) == Lowered(b, 0, Some(0)) && LowerValue(S, b, sc, 0, e.b) == Lowered(b, 0, Some(1));
    assert LowerValue(S, b, sc, 0, e) == LowerBinary(S, b, sc, 0, e);
  }

  lemma LoweredFirst(S: Program, tok: Token, ty: Ty)
    requires UnaryToken(tok)
    ensures LowerValue(S, Entered(ty, ty), BodyScope(ty, ty), 0, OfFirst(tok, ty))
         == Emit(Entered(ty, ty), 0, ty, Pure, OpUnary(MapUnOp(tok).value, Some(0)), UnknownLayout)
  {
    hide Emit;
    var e := OfFirst(tok, ty);
    var b := Entered(ty, ty);
    var sc := BodyScope(ty, ty);
    assert LowerValue(S, b, sc, 0, e.a) == Lowered(b, 0, Some(0));
    assert LowerValue(S, b, sc, 0, e) == LowerOperand(S, b, sc, 0, e);
  }

  lemma BinaryAccepted(tok: Token, from: Ty, to: Ty)
    requires BinaryToken(tok) && SupportedType(from) && SupportedType(to) && to != Unit
    ensures JustReturns(Returning(from, OfBoth(tok, from, to)), 0, OfBoth(tok, from, to))
  {
    hide SupportedType, VerifyOk, LowerValue, LowerProgram, WellTyped, Emit;
    var e := OfBoth(tok, from, to);
    var op := OpBinary(MapBinOp(tok).value, Some(0), Some(1));
    LoweredBoth(Returning(from, e), tok, from, to);
    BuiltOne(from, e, op);
    OneOpOk(from, to, op);
    TypedOne(from, e);
  }

  lemma UnaryAccepted(tok: Token, ty: Ty)
    requires UnaryToken(tok) && SupportedType(ty) && ty != Unit
    ensures JustReturns(Returning(ty, OfFirst(tok, ty)), 0, OfFirst(tok, ty))
  {
    hide SupportedType, VerifyOk, LowerValue, LowerProgram, WellTyped, Emit;
    var e := OfFirst(tok, ty);
    var op := OpUnary(MapUnOp(tok).value, Some(0));
    LoweredFirst(Returning(ty, e), tok, ty);
    BuiltOne(ty, e, op);
    OneOpOk(ty, ty, op);
    TypedOne(ty, e);
  }

  lemma TypedOne(from: Ty, e: Expr)
    requires (e.Binary? && e == OfBoth(e.tok, from, e.ty)) || (e.Unary? && e == OfFirst(e.tok, from) && e.ty == from)
    ensures WellTyped(Returning(from, e))
  {
    var S := Returning(from, e);
    var ps := S.funcs[0].params;
    assert ParamMap(ps[..1][..0]) == map[] && ps[..1] == [Param(1, from)];
    assert ParamMap(ps[..1]) == map[1 := from];
    assert ParamMap(ps) == map[1 := from, 2 := from];
    assert TypedExpr(S, ParamMap(ps), Local(from, 1)) && TypedExpr(S, ParamMap(ps), Local(from, 2));
    assert TypedExpr(S, ParamMap(ps), e);
    assert TypedStmt(S, ParamMap(ps), Return(Some(e)));
    assert TypedBlock(S, ParamMap(ps), S.funcs[0].body);
  }

  // ---- The theorems -----------------------------------------------------------------------

  /** A call of the program comes to what its expression comes to on the arguments. */
  lemma OneRuns(from: Ty, e: Expr, x: Val, y: Val, r: EvalResult)
    requires JustReturns(Returning(from, e), 0, e) && !r.EvTimeout?
    requires r == Eval(Usual(), Returning(from, e), 0, map[1 := Imm(x), 2 := Imm(y)], St([], []), e)
    ensures ComesTo(Usual(), Returning(from, e), 0, [x, y], [], Ended(r))
  {
    hide JustReturns, ComesTo, Eval;
    var S := Returning(from, e);
    var ps := S.funcs[0].params;
    assert ps[..1] == [Param(1, from)] && ps[..1][..0] == [] && [x, y][..1] == [x] && [x][..0] == [];
    assert BindParams(ps[..1][..0], [x, y][..1][..0]) == map[];
    assert BindParams(ps[..1], [x, y][..1]) == map[1 := Imm(x)];
    assert BindParams(ps, [x, y]) == map[1 := Imm(x), 2 := Imm(y)];
    ReturnRuns(Usual(), S, 0, [x, y], [], 0, e);
  }

  /** `return a tok b` on integers, run as source and run as built, for each of the eleven operators. */
  lemma IntPrograms(from: Ty, to: Ty, x: int, y: int)
    requires SupportedType(from) && SupportedType(to) && to != Unit
    ensures Gives(from, OfBoth(Plus, from, to), IntV(x), IntV(y), IntV(x + y))
    ensures Gives(from, OfBoth(Minus, from, to), IntV(x), IntV(y), IntV(x - y))
    ensures Gives(from, OfBoth(Star, from, to), IntV(x), IntV(y), IntV(x * y))
    ensures y != 0 ==> Gives(from, OfBoth(Slash, from, to), IntV(x), IntV(y), IntV(x / y))
    ensures y == 0 ==> Traps(from, OfBoth(Slash, from, to), IntV(x), IntV(y))
    ensures y != 0 ==> Gives(from, OfBoth(Percent, from, to), IntV(x), IntV(y), IntV(x % y))
    ensures y == 0 ==> Traps(from, OfBoth(Percent, from, to), IntV(x), IntV(y))
    ensures Gives(from, OfBoth(Lt, from, to), IntV(x), IntV(y), BoolV(x < y))
    ensures Gives(from, OfBoth(LtEq, from, to), IntV(x), IntV(y), BoolV(x <= y))
    ensures Gives(from, OfBoth(Gt, from, to), IntV(x), IntV(y), BoolV(x > y))
    ensures Gives(from, OfBoth(GtEq, from, to), IntV(x), IntV(y), BoolV(x >= y))
    ensures Gives(from, OfBoth(EqEq, from, to), IntV(x), IntV(y), BoolV(x == y))
    ensures Gives(from, OfBoth(BangEq, from, to), IntV(x), IntV(y), BoolV(x != y))
  {
    hide SupportedType, Eval, ComesTo, JustReturns;
    IntProgram(Plus, from, to, x, y);
    IntProgram(Minus, from, to, x, y);
    IntProgram(Star, from, to, x, y);
    IntProgram(Slash, from, to, x, y);
    IntProgram(Percent, from, to, x, y);
    IntProgram(Lt, from, to, x, y);
    IntProgram(LtEq, from, to, x, y);
    IntProgram(Gt, from, to, x, y);
    IntProgram(GtEq, from, to, x, y);
    IntProgram(EqEq, from, to, x, y);
    IntProgram(BangEq, from, to, x, y);
  }

  /** The same for `and` and `or` on booleans. */
  lemma BoolPrograms(from: Ty, to: Ty, x: bool, y: bool)
    requires SupportedType(from) && SupportedType(to) && to != Unit
    ensures Gives(from, OfBoth(KwAnd, from, to), BoolV(x), BoolV(y), BoolV(x && y))
    ensures Gives(from, OfBoth(KwOr, from, to), BoolV(x), BoolV(y), BoolV(x || y))
  {
    hide SupportedType, Eval, ComesTo, JustReturns;
    BoolProgram(KwAnd, from, to, x, y);
    BoolProgram(KwOr, from, to, x, y);
  }

  /** `return tok a`, for the four prefix operators. */
  lemma UnaryPrograms(ty: Ty, x: int, p: bool, w: Val)
    requires SupportedType(ty) && ty != Unit
    ensures Gives(ty, OfFirst(Plus, ty), IntV(x), w, IntV(x))
    ensures Gives(ty, OfFirst(Minus, ty), IntV(x), w, IntV(-x))
    ensures Gives(ty, OfFirst(Bang, ty), IntV(x), w, IntV(-x - 1))
    ensures Gives(ty, OfFirst(KwNot, ty), BoolV(p), w, BoolV(!p))
  {
    hide SupportedType, Eval, ComesTo, JustReturns;
    UnaryProgram(Plus, ty, IntV(x), w);
    UnaryProgram(Minus, ty, IntV(x), w);
    UnaryProgram(Bang, ty, IntV(x), w);
    UnaryProgram(KwNot, ty, BoolV(p), w);
  }

  lemma IntProgram(tok: Token, from: Ty, to: Ty, x: int, y: int)
    requires BinaryToken(tok) && tok != KwAnd && tok != KwOr && SupportedType(from) && SupportedType(to) && to != Unit
    ensures var e := OfBoth(tok, from, to);
            var r := Eval(Usual(), Returning(from, e), 0, map[1 := Imm(IntV(x)), 2 := Imm(IntV(y))], St([], []), e);
            && !r.EvTimeout? && ComesTo(Usual(), Returning(from, e), 0, [IntV(x), IntV(y)], [], Ended(r))
            && (tok == Plus ==> r == Ev(IntV(x + y), St([], [])))
            && (tok == Minus ==> r == Ev(IntV(x - y), St([], [])))
            && (tok == Star ==> r == Ev(IntV(x * y), St([], [])))
            && (tok == Slash ==> r == if y == 0 then EvFault([]) else Ev(IntV(x / y), St([], [])))
            && (tok == Percent ==> r == if y == 0 then EvFault([]) else Ev(IntV(x % y), St([], [])))
            && (tok == Lt ==> r == Ev(BoolV(x < y), St([], [])))
            && (tok == LtEq ==> r == Ev(BoolV(x <= y), St([], [])))
            && (tok == Gt ==> r == Ev(BoolV(x > y), St([], [])))
            && (tok == GtEq ==> r == Ev(BoolV(x >= y), St([], [])))
            && (tok == EqEq ==> r == Ev(BoolV(x == y), St([], [])))
            && (tok == BangEq ==> r == Ev(BoolV(x != y), St([], [])))
  {
    hide SupportedType, ComesTo, JustReturns;
    var e := OfBoth(tok, from, to);
    var st := St([], []);
    var env: Env := map[1 := Imm(IntV(x)), 2 := Imm(IntV(y))];
    assert Eval(Usual(), Returning(from, e), 0, env, st, e.a) == Ev(IntV(x), st);
    assert Eval(Usual(), Returning(from, e), 0, env, st, e.b) == Ev(IntV(y), st);
    var r := Eval(Usual(), Returning(from, e), 0, env, st, e);
    hide Eval;
    IntsMean(Returning(from, e), 0, env, st, e, x, y, st, st);
    BinaryAccepted(tok, from, to);
    OneRuns(from, e, IntV(x), IntV(y), r);
  }

  lemma BoolProgram(tok: Token, from: Ty, to: Ty, x: bool, y: bool)
    requires (tok == KwAnd || tok == KwOr) && SupportedType(from) && SupportedType(to) && to != Unit
    ensures var e := OfBoth(tok, from, to);
            ComesTo(Usual(), Returning(from, e), 0, [BoolV(x), BoolV(y)], [],
                    Halt(BoolV(if tok == KwAnd then x && y else x || y), []))
  {
    hide SupportedType, ComesTo, JustReturns;
    var e := OfBoth(tok, from, to);
    var st := St([], []);
    var env: Env := map[1 := Imm(BoolV(x)), 2 := Imm(BoolV(y))];
    assert Eval(Usual(), Returning(from, e), 0, env, st, e.a) == Ev(BoolV(x), st);
    assert Eval(Usual(), Returning(from, e), 0, env, st, e.b) == Ev(BoolV(y), st);
    var r := Eval(Usual(), Returning(from, e), 0, env, st, e);
    hide Eval;
    BoolsMean(Returning(from, e), 0, env, st, e, x, y, st, st);
    BinaryAccepted(tok, from, to);
    OneRuns(from, e, BoolV(x), BoolV(y), r);
  }

  lemma UnaryProgram(tok: Token, ty: Ty, v: Val, w: Val)
    requires UnaryToken(tok) && SupportedType(ty) && ty != Unit && if tok == KwNot then v.BoolV? else v.IntV?
    ensures var e := OfFirst(tok, ty);
            ComesTo(Usual(), Returning(ty, e), 0, [v, w], [],
                    Halt(if tok == Plus then v else if tok == Minus then IntV(-v.n)
                         else if tok == Bang then IntV(-v.n - 1) else BoolV(!v.b), []))
  {
    hide SupportedType, ComesTo, JustReturns;
    var e := OfFirst(tok, ty);
    var st := St([], []);
    var env: Env := map[1 := Imm(v), 2 := Imm(w)];
    assert Eval(Usual(), Returning(ty, e), 0, env, st, e.a) == Ev(v, st);
    var r := Eval(Usual(), Returning(ty, e), 0, env, st, e);
    hide Eval;
    OneMeans(Returning(ty, e), 0, env, st, e, v, st);
    UnaryAccepted(tok, ty);
    OneRuns(ty, e, v, w, r);
  }
}
