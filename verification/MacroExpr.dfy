/** Constant expressions in C macros: the recursive-descent parser that evaluates while it parses,
    against trees, their evaluation and their minimally parenthesised text. Tokens come classified.
    Arithmetic is that of 64-bit words. */
module MacroExpr {
  import opened Wrappers
  import Bits

  datatype Val = IntC(i: int) | BoolC(b: bool) | CharC(i: int, text: string) | StrC(text: string)

  datatype Punct =
    | OrOr | AndAnd | Pipe | Caret | Amp | EqEq | BangEq | Less | LessEq | Greater | GreaterEq
    | LessLess | GreaterGreater | Plus | Minus | Star | Slash | Percent | Tilde | Bang | LParen | RParen

  datatype Tok = P(p: Punct) | Lit(v: Val) | Ident(name: string) | OtherTok

  /** The meaning of identifiers. */
  type Names = map<string, Val>

  // ---- Operators -------------------------------------------------------------------------

  const UNARY: nat := 10
  const PRIMARY: nat := 11

  /** The binding level of a binary operator, from `||` (0) to `*` (9). */
  function LevelOf(p: Punct): Option<nat> {
    match p
    case OrOr => Some(0)
    case AndAnd => Some(1)
    case Pipe => Some(2)
    case Caret => Some(3)
    case Amp => Some(4)
    case EqEq => Some(5)
    case BangEq => Some(5)
    case Less => Some(6)
    case LessEq => Some(6)
    case Greater => Some(6)
    case GreaterEq => Some(6)
    case LessLess => Some(7)
    case GreaterGreater => Some(7)
    case Plus => Some(8)
    case Minus => Some(8)
    case Star => Some(9)
    case Slash => Some(9)
    case Percent => Some(9)
    case _ => None
  }

  predicate BinaryAt(p: Punct, level: nat) { LevelOf(p) == Some(level) }
  predicate Binary(p: Punct) { LevelOf(p).Some? }
  predicate Unary(p: Punct) { p.Plus? || p.Minus? || p.Tilde? || p.Bang? }

  function ToInt(v: Val): Option<int> {
    match v
    case IntC(i) => Some(i)
    case CharC(i, _) => Some(i)
    case BoolC(b) => Some(if b then 1 else 0)
    case StrC(_) => None
  }

  function ToBool(v: Val): Option<bool> {
    match v
    case BoolC(b) => Some(b)
    case IntC(i) => Some(i != 0)
    case CharC(i, _) => Some(i != 0)
    case StrC(_) => None
  }

  /** Division rounding toward zero, and its remainder. */
  function TruncDiv(a: int, b: int): int
    requires b != 0
  {
    if a >= 0 then a / b else -((-a) / b)
  }

  function TruncMod(a: int, b: int): int
    requires b != 0
  {
    a - b * TruncDiv(a, b)
  }

  /** The 64-bit pattern of a number, and the number of a pattern. */
  function Word(i: int): nat { i % Bits.WORD64 }

  function Signed(n: nat): int { if n < Bits.WORD64 / 2 then n else n - Bits.WORD64 }

  function Bitwise(p: Punct, a: int, b: int): int {
    match p
    case Pipe => Signed(Bits.Or(Word(a), Word(b)))
    case Caret => Signed(Bits.Xor(Word(a), Word(b)))
    case _ => Signed(Bits.And(Word(a), Word(b)))
  }

  function Arith(p: Punct, a: int, b: int): Option<int> {
    match p
    case Plus => Some(a + b)
    case Minus => Some(a - b)
    case Star => Some(a * b)
    case Slash => if b == 0 then None else Some(TruncDiv(a, b))
    case Percent => if b == 0 then None else Some(TruncMod(a, b))
    case LessLess => if b < 0 || b >= 63 then None else Some(a * Bits.Pow2(b))
    case GreaterGreater => if b < 0 || b >= 63 then None else Some(a / Bits.Pow2(b))
    case _ => Some(Bitwise(p, a, b))
  }

  function Relation(p: Punct, a: int, b: int): bool {
    match p
    case Less => a < b
    case LessEq => a <= b
    case Greater => a > b
    case _ => a >= b
  }

  /** Strings compare with strings, numbers with numbers. */
  function Equal(l: Val, r: Val): Option<bool> {
    if l.StrC? && r.StrC? then Some(l.text == r.text)
    else if ToInt(l).Some? && ToInt(r).Some? then Some(ToInt(l).value == ToInt(r).value)
    else None
  }

  function Logical(p: Punct, l: Val, r: Val): Option<Val> {
    var a, b := ToBool(l), ToBool(r);
    if a.Some? && b.Some? then Some(BoolC(if p.OrOr? then a.value || b.value else a.value && b.value)) else None
  }

  function Numeric(p: Punct, a: int, b: int): Option<Val> {
    if LevelOf(p) == Some(6) then Some(BoolC(Relation(p, a, b)))
    else
      var n := Arith(p, a, b);
      if n.Some? then Some(IntC(n.value)) else None
  }

  /** The meaning of a binary operator on numbers of any size; `None` where the source reports an error. */
  function Exactly(p: Punct, l: Val, r: Val): Option<Val> {
    if p.OrOr? || p.AndAnd? then Logical(p, l, r)
    else if p.EqEq? || p.BangEq? then
      var e := Equal(l, r);
      if e.Some? then Some(BoolC(if p.EqEq? then e.value else !e.value)) else None
    else
      var a, b := ToInt(l), ToInt(r);
      if a.Some? && b.Some? then Numeric(p, a.value, b.value) else None
  }

  function ExactlyUnary(p: Punct, v: Val): Option<Val> {
    if p.Bang? then
      var b := ToBool(v);
      if b.Some? then Some(BoolC(!b.value)) else None
    else
      var i := ToInt(v);
      if i.Some? then Some(IntC(if p.Minus? then -i.value else if p.Tilde? then -i.value - 1 else i.value)) else None
  }

  /** A number cut to a 64-bit word. */
  function Wrapped(v: Option<Val>): Option<Val> {
    if v.Some? && v.value.IntC? then Some(IntC(Signed(Word(v.value.i)))) else v
  }

  function Apply(p: Punct, l: Val, r: Val): Option<Val> { Wrapped(Exactly(p, l, r)) }
  function ApplyUnary(p: Punct, v: Val): Option<Val> { Wrapped(ExactlyUnary(p, v)) }

  // ---- Trees -----------------------------------------------------------------------------

  datatype Tree = Const(v: Val) | Name(x: string) | Un(op: Punct, a: Tree) | Bin(op: Punct, l: Tree, r: Tree) | Paren(t: Tree)

  predicate Formed(t: Tree) {
    match t
    case Const(_) => true
    case Name(_) => true
    case Un(op, a) => Unary(op) && Formed(a)
    case Bin(op, l, r) => Binary(op) && Formed(l) && Formed(r)
    case Paren(a) => Formed(a)
  }

  /** Strict evaluation: every operand is evaluated, those of `&&` and `||` too. */
  function Eval(t: Tree, rho: Names): Option<Val> {
    match t
    case Const(v) => Some(v)
    case Name(x) => if x in rho then Some(rho[x]) else None
    case Un(op, a) => (match Eval(a, rho) case Some(v) => ApplyUnary(op, v) case None => None)
    case Bin(op, l, r) =>
      var a, b := Eval(l, rho), Eval(r, rho);
      if a.Some? && b.Some? then Apply(op, a.value, b.value) else None
    case Paren(a) => Eval(a, rho)
  }

  /** The same on numbers of any size. */
  function Exact(t: Tree, rho: Names): Option<Val> {
    match t
    case Const(v) => Some(v)
    case Name(x) => if x in rho then Some(rho[x]) else None
    case Un(op, a) => (match Exact(a, rho) case Some(v) => ExactlyUnary(op, v) case None => None)
    case Bin(op, l, r) =>
      var a, b := Exact(l, rho), Exact(r, rho);
      if a.Some? && b.Some? then Exactly(op, a.value, b.value) else None
    case Paren(a) => Exact(a, rho)
  }

  predicate Fits(v: Val) { v.IntC? || v.CharC? ==> -(Bits.WORD64 / 2) <= v.i < Bits.WORD64 / 2 }

  /** No operation of the tree leaves the range of a 64-bit integer. */
  predicate StaysInRange(t: Tree, rho: Names) {
    (Exact(t, rho).Some? ==> Fits(Exact(t, rho).value)) &&
    match t
    case Un(_, a) => StaysInRange(a, rho)
    case Bin(_, l, r) => StaysInRange(l, rho) && StaysInRange(r, rho)
    case Paren(a) => StaysInRange(a, rho)
    case _ => true
  }

  lemma WrapsNothing(v: Option<Val>)
    requires v.Some? ==> Fits(v.value)
    ensures Wrapped(v) == v
  {
    if v.Some? && v.value.IntC? && v.value.i < 0 {
      assert Word(v.value.i) == v.value.i + Bits.WORD64;
    }
  }

  /** Then words do as well as numbers of any size. */
  lemma {:induction false} ExactInRange(t: Tree, rho: Names)
    requires StaysInRange(t, rho)
    ensures Eval(t, rho) == Exact(t, rho)
  {
    hide Exactly, ExactlyUnary, Wrapped, Fits;
    WrapsNothing(Exact(t, rho));
    match t
    case Un(_, a) => ExactInRange(a, rho);
    case Bin(_, l, r) =>
      ExactInRange(l, rho);
      ExactInRange(r, rho);
    case Paren(a) => ExactInRange(a, rho);
    case _ =>
  }

  predicate AllFit(t: Tree, rho: Names) {
    match t
    case Const(v) => Fits(v)
    case Name(x) => x in rho ==> Fits(rho[x])
    case Un(_, a) => AllFit(a, rho)
    case Bin(_, l, r) => AllFit(l, rho) && AllFit(r, rho)
    case Paren(a) => AllFit(a, rho)
  }

  /** Whatever the operations do, from 64-bit numbers they lead to 64-bit numbers. */
  lemma {:induction false} EvalFits(t: Tree, rho: Names)
    requires AllFit(t, rho)
    ensures Eval(t, rho).Some? ==> Fits(Eval(t, rho).value)
  {
    match t
    case Paren(a) => EvalFits(a, rho);
    case Un(op, a) =>
      if Eval(a, rho).Some? {
        UnaryFits(op, Eval(a, rho).value);
      }
    case Bin(op, l, r) =>
      if Eval(l, rho).Some? && Eval(r, rho).Some? {
        BinaryFits(op, Eval(l, rho).value, Eval(r, rho).value);
      }
    case _ =>
  }

  lemma UnaryFits(op: Punct, v: Val)
    ensures ApplyUnary(op, v).Some? ==> Fits(ApplyUnary(op, v).value)
  {
  }

  lemma BinaryFits(op: Punct, l: Val, r: Val)
    ensures Apply(op, l, r).Some? ==> Fits(Apply(op, l, r).value)
  {
    hide Arith, Relation;
  }

  function Level(t: Tree): nat
    requires Formed(t)
  {
    match t
    case Bin(op, _, _) => LevelOf(op).value
    case Un(_, _) => UNARY
    case _ => PRIMARY
  }

  /** The text of a tree where level `lvl` is wanted: parentheses only where the tree binds weaker. */
  function Render(t: Tree, lvl: nat): seq<Tok>
    requires Formed(t)
    decreases t, 1
  {
    if Level(t) < lvl then [P(LParen)] + Body(t) + [P(RParen)] else Body(t)
  }

  /** Binary operators associate to the left. */
  function Body(t: Tree): seq<Tok>
    requires Formed(t)
    decreases t, 0
  {
    match t
    case Const(v) => [Lit(v)]
    case Name(x) => [Ident(x)]
    case Un(op, a) => [P(op)] + Render(a, UNARY)
    case Bin(op, l, r) => Render(l, Level(t)) + [P(op)] + Render(r, Level(t) + 1)
    case Paren(a) => [P(LParen)] + Render(a, 0) + [P(RParen)]
  }

  // ---- The parser, as a function of the tokens that remain -------------------------------

  /** What a parse leaves: the value so far and the tokens after it. */
  datatype Step = Step(v: Val, rest: seq<Tok>)
  type Parsed = Option<Step>

  function ParseLevel(level: nat, s: seq<Tok>, rho: Names): (r: Parsed)
    requires level <= PRIMARY
    ensures r.Some? ==> |r.value.rest| < |s|
    decreases |s|, PRIMARY - level + 3
  {
    if level == PRIMARY then ParsePrimary(s, rho)
    else if level == UNARY then ParseUnary(s, rho)
    else
      match ParseLevel(level + 1, s, rho)
      case None => None
      case Some(x) => ParseLoop(level, x.v, x.rest, rho)
  }

  /** After an operand: operators of this level, left to right. */
  function ParseLoop(level: nat, acc: Val, s: seq<Tok>, rho: Names): (r: Parsed)
    requires level < UNARY
    ensures r.Some? ==> |r.value.rest| <= |s|
    decreases |s|, 0
  {
    if s == [] || !s[0].P? || !BinaryAt(s[0].p, level) then Some(Step(acc, s))
    else
      match ParseLevel(level + 1, s[1..], rho)
      case None => None
      case Some(x) =>
        match Apply(s[0].p, acc, x.v)
        case None => None
        case Some(v) => ParseLoop(level, v, x.rest, rho)
  }

  function ParseUnary(s: seq<Tok>, rho: Names): (r: Parsed)
    ensures r.Some? ==> |r.value.rest| < |s|
    decreases |s|, 2
  {
    if s != [] && s[0].P? && Unary(s[0].p) then
      match ParseUnary(s[1..], rho)
      case None => None
      case Some(x) => (match ApplyUnary(s[0].p, x.v) case None => None case Some(v) => Some(Step(v, x.rest)))
    else ParsePrimary(s, rho)
  }

  function ParsePrimary(s: seq<Tok>, rho: Names): (r: Parsed)
    ensures r.Some? ==> |r.value.rest| < |s|
    decreases |s|, 1
  {
    if s == [] then None
    else
      match s[0]
      case P(p) =>
        if !p.LParen? then None
        else (match ParseLevel(0, s[1..], rho)
              case None => None
              case Some(x) =>
                if x.rest != [] && x.rest[0] == P(RParen) then Some(Step(x.v, x.rest[1..])) else None)
      case Lit(v) => Some(Step(v, s[1..]))
      case Ident(x) => if x in rho then Some(Step(rho[x], s[1..])) else None
      case OtherTok => None
  }

  /** A whole macro body: every token must be consumed. */
  function Parse(s: seq<Tok>, rho: Names): Option<Val> {
    match ParseLevel(0, s, rho)
    case Some(x) => if x.rest == [] then Some(x.v) else None
    case None => None
  }

  // ---- Trees to tokens to values ---------------------------------------------------------

  /** No operator of level `level` or above follows. */
  predicate Ends(rest: seq<Tok>, level: nat) {
    rest != [] && rest[0].P? && LevelOf(rest[0].p).Some? ==> LevelOf(rest[0].p).value < level
  }

  /** Going on after a value at level `level`: the loop, where the level has one. */
  function Then(level: nat, v: Option<Val>, rest: seq<Tok>, rho: Names): Parsed
    requires level <= PRIMARY
  {
    match v
    case None => None
    case Some(x) => if level < UNARY then ParseLoop(level, x, rest, rho) else Some(Step(x, rest))
  }

  /** Parsing the text of a tree at a level is evaluating it and going on at that level. */
  lemma {:induction false} ParseRender(t: Tree, level: nat, rest: seq<Tok>, rho: Names)
    requires Formed(t) && level <= PRIMARY && Ends(rest, level + 1)
    ensures ParseLevel(level, Render(t, level) + rest, rho) == Then(level, Eval(t, rho), rest, rho)
    decreases t, if Level(t) < level then 1 else 0, PRIMARY - level + 1
  {
    if level == PRIMARY {
      ParsePrimaryRender(t, rest, rho);
    } else if Level(t) != level {
      ParseRender(t, level + 1, rest, rho);
      LevelUp(t, level, Render(t, level) + rest, rest, rho);
    } else if level == UNARY {
      ParseRender(t.a, UNARY, rest, rho);
      UnaryStep(t.op, Render(t.a, UNARY) + rest, rho);
      assert Render(t, UNARY) + rest == [P(t.op)] + (Render(t.a, UNARY) + rest);
    } else {
      ParseBinaryRender(t, level, rest, rho);
    }
  }

  /** A tree of another level is written alike at the next level, and its value passes through this one. */
  lemma LevelUp(t: Tree, level: nat, s: seq<Tok>, rest: seq<Tok>, rho: Names)
    requires Formed(t) && level < PRIMARY && Level(t) != level && Ends(rest, level + 1)
    requires s == Render(t, level) + rest
    requires ParseLevel(level + 1, Render(t, level + 1) + rest, rho) == Then(level + 1, Eval(t, rho), rest, rho)
    ensures ParseLevel(level, s, rho) == Then(level, Eval(t, rho), rest, rho)
  {
    assert Render(t, level) == Render(t, level + 1);
    if level == UNARY {
      FirstToken(t);
      assert s[0] == Render(t, PRIMARY)[0];
      assert ParseLevel(PRIMARY, s, rho) == ParsePrimary(s, rho);
    }
  }

  lemma UnaryStep(op: Punct, s: seq<Tok>, rho: Names)
    requires Unary(op)
    ensures ParseLevel(UNARY, [P(op)] + s, rho) ==
            match ParseLevel(UNARY, s, rho)
            case None => None
            case Some(x) => (match ApplyUnary(op, x.v) case None => None case Some(v) => Some(Step(v, x.rest)))
  {
    assert ([P(op)] + s)[1..] == s;
    assert ParseLevel(UNARY, s, rho) == ParseUnary(s, rho);
  }

  /** One operator of the loop. */
  lemma LoopStep(level: nat, acc: Val, op: Punct, s: seq<Tok>, rho: Names)
    requires level < UNARY && BinaryAt(op, level)
    ensures ParseLoop(level, acc, [P(op)] + s, rho) ==
            match ParseLevel(level + 1, s, rho)
            case None => None
            case Some(x) =>
              match Apply(op, acc, x.v)
              case None => None
              case Some(v) => ParseLoop(level, v, x.rest, rho)
  {
    assert ([P(op)] + s)[1..] == s;
  }

  lemma {:induction false} ParsePrimaryRender(t: Tree, rest: seq<Tok>, rho: Names)
    requires Formed(t)
    ensures ParseLevel(PRIMARY, Render(t, PRIMARY) + rest, rho) == Then(PRIMARY, Eval(t, rho), rest, rho)
    decreases t, if Level(t) < PRIMARY then 1 else 0, 0
  {
    var s := Render(t, PRIMARY) + rest;
    if t.Const? || t.Name? {
      assert Render(t, PRIMARY) == Body(t) && |Body(t)| == 1;
      assert s[1..] == rest;
    } else {
      var inner := if t.Paren? then t.t else t;
      var tail := [P(RParen)] + rest;
      assert Render(inner, 0) == (if t.Paren? then Render(t.t, 0) else Body(t));
      assert s[1..] == Render(inner, 0) + tail;
      ParseRender(inner, 0, tail, rho);
      assert tail[1..] == rest;
    }
  }

  lemma {:induction false} ParseBinaryRender(t: Tree, level: nat, rest: seq<Tok>, rho: Names)
    requires Formed(t) && t.Bin? && level == Level(t) && Ends(rest, level + 1)
    ensures ParseLevel(level, Render(t, level) + rest, rho) == Then(level, Eval(t, rho), rest, rho)
    decreases t, 0, PRIMARY - level
  {
    var mid := Render(t.r, level + 1) + rest;
    var tail := [P(t.op)] + mid;
    assert Render(t, level) + rest == Render(t.l, level) + tail by {
      assert Render(t, level) == Body(t) == Render(t.l, level) + [P(t.op)] + Render(t.r, level + 1);
    }
    ParseRender(t.l, level, tail, rho);
    ParseRender(t.r, level + 1, rest, rho);
    BinaryValue(t, level, mid, rest, rho);
  }

  lemma BinaryValue(t: Tree, level: nat, mid: seq<Tok>, rest: seq<Tok>, rho: Names)
    requires Formed(t) && t.Bin? && level == Level(t) && Ends(rest, level + 1)
    requires ParseLevel(level + 1, mid, rho) == Then(level + 1, Eval(t.r, rho), rest, rho)
    ensures Then(level, Eval(t.l, rho), [P(t.op)] + mid, rho) == Then(level, Eval(t, rho), rest, rho)
  {
    if Eval(t.l, rho).Some? {
      LoopStep(level, Eval(t.l, rho).value, t.op, mid, rho);
    }
  }

  /** The text of a tree at the primary level starts with no operator. */
  lemma FirstToken(t: Tree)
    requires Formed(t)
    ensures var s := Render(t, PRIMARY); s != [] && (s[0].P? ==> s[0].p.LParen?)
  {
  }

  /** Parsing the minimally parenthesised text of a tree succeeds with a value if and only if strict
      evaluation of the tree gives it. */
  lemma ParseIsEval(t: Tree, rho: Names)
    requires Formed(t)
    ensures Parse(Render(t, 0), rho) == Eval(t, rho)
  {
    assert Render(t, 0) + [] == Render(t, 0);
    ParseRender(t, 0, [], rho);
  }

  /** So where no operation leaves the range of a 64-bit integer, it gives the exact value. */
  lemma ParseIsExact(t: Tree, rho: Names)
    requires Formed(t) && StaysInRange(t, rho)
    ensures Parse(Render(t, 0), rho) == Exact(t, rho)
  {
    ParseIsEval(t, rho);
    ExactInRange(t, rho);
  }

  // ---- Tokens to trees -------------------------------------------------------------------

  /** `s` starts with the text of a tree of at least level `level` with value `v`, before `rest`. */
  ghost predicate Derives(level: nat, s: seq<Tok>, v: Val, rest: seq<Tok>, rho: Names) {
    exists t: Tree :: DerivesBy(t, level, s, v, rest, rho)
  }

  predicate DerivesBy(t: Tree, level: nat, s: seq<Tok>, v: Val, rest: seq<Tok>, rho: Names) {
    Formed(t) && Level(t) >= level && s == Body(t) + rest && Eval(t, rho) == Some(v)
  }

  lemma {:induction false} LevelDerives(level: nat, s: seq<Tok>, rho: Names)
    requires level <= PRIMARY && ParseLevel(level, s, rho).Some?
    ensures var x := ParseLevel(level, s, rho).value; Derives(level, s, x.v, x.rest, rho)
    decreases |s|, PRIMARY - level + 3
  {
    if level == PRIMARY {
      PrimaryDerives(s, rho);
    } else if level == UNARY {
      UnaryDerives(s, rho);
    } else {
      LevelDerives(level + 1, s, rho);
      var x := ParseLevel(level + 1, s, rho).value;
      var t: Tree :| DerivesBy(t, level + 1, s, x.v, x.rest, rho);
      LoopDerives(level, t, s, x.v, x.rest, rho);
    }
  }

  lemma {:induction false} LoopDerives(level: nat, t: Tree, s: seq<Tok>, acc: Val, after: seq<Tok>, rho: Names)
    requires level < UNARY && DerivesBy(t, level, s, acc, after, rho) && ParseLoop(level, acc, after, rho).Some?
    ensures var x := ParseLoop(level, acc, after, rho).value; Derives(level, s, x.v, x.rest, rho)
    decreases |after|, 0
  {
    if !(after == [] || !after[0].P? || !BinaryAt(after[0].p, level)) {
      var op := after[0].p;
      LevelDerives(level + 1, after[1..], rho);
      var x := ParseLevel(level + 1, after[1..], rho).value;
      var r: Tree :| DerivesBy(r, level + 1, after[1..], x.v, x.rest, rho);
      var v := Apply(op, acc, x.v).value;
      assert after == [P(op)] + after[1..];
      BinDerives(op, level, t, r, s, acc, after[1..], x.v, v, x.rest, rho);
      LoopDerives(level, Bin(op, t, r), s, v, x.rest, rho);
    } else {
      assert DerivesBy(t, level, s, acc, after, rho);
    }
  }

  lemma BinDerives(op: Punct, level: nat, l: Tree, r: Tree, s: seq<Tok>, a: Val, mid: seq<Tok>, b: Val, v: Val, rest: seq<Tok>, rho: Names)
    requires BinaryAt(op, level) && level < UNARY
    requires DerivesBy(l, level, s, a, [P(op)] + mid, rho) && DerivesBy(r, level + 1, mid, b, rest, rho)
    requires Apply(op, a, b) == Some(v)
    ensures DerivesBy(Bin(op, l, r), level, s, v, rest, rho)
  {
    hide Apply;
    var t := Bin(op, l, r);
    assert Body(t) == Body(l) + [P(op)] + Body(r) by {
      assert Render(l, level) == Body(l) && Render(r, level + 1) == Body(r);
    }
    assert s == Body(t) + rest;
  }

  lemma UnDerives(op: Punct, a: Tree, s: seq<Tok>, v: Val, w: Val, rest: seq<Tok>, rho: Names)
    requires Unary(op) && DerivesBy(a, UNARY, s, v, rest, rho) && ApplyUnary(op, v) == Some(w)
    ensures DerivesBy(Un(op, a), UNARY, [P(op)] + s, w, rest, rho)
  {
    assert Render(a, UNARY) == Body(a);
    assert [P(op)] + s == Body(Un(op, a)) + rest;
  }

  lemma {:induction false} UnaryDerives(s: seq<Tok>, rho: Names)
    requires ParseUnary(s, rho).Some?
    ensures var x := ParseUnary(s, rho).value; Derives(UNARY, s, x.v, x.rest, rho)
    decreases |s|, 2
  {
    if s != [] && s[0].P? && Unary(s[0].p) {
      UnaryDerives(s[1..], rho);
      var x := ParseUnary(s[1..], rho).value;
      var a: Tree :| DerivesBy(a, UNARY, s[1..], x.v, x.rest, rho);
      assert s == [s[0]] + s[1..];
      UnDerives(s[0].p, a, s[1..], x.v, ApplyUnary(s[0].p, x.v).value, x.rest, rho);
    } else {
      PrimaryDerives(s, rho);
      var x := ParsePrimary(s, rho).value;
      var t: Tree :| DerivesBy(t, PRIMARY, s, x.v, x.rest, rho);
      assert DerivesBy(t, UNARY, s, x.v, x.rest, rho);
    }
  }

  lemma {:induction false} PrimaryDerives(s: seq<Tok>, rho: Names)
    requires ParsePrimary(s, rho).Some?
    ensures var x := ParsePrimary(s, rho).value; Derives(PRIMARY, s, x.v, x.rest, rho)
    decreases |s|, 1
  {
    var x := ParsePrimary(s, rho).value;
    assert s == [s[0]] + s[1..];
    match s[0]
    case P(p) =>
      LevelDerives(0, s[1..], rho);
      var y := ParseLevel(0, s[1..], rho).value;
      var a: Tree :| DerivesBy(a, 0, s[1..], y.v, y.rest, rho);
      assert y.rest == [P(RParen)] + x.rest;
      ParenDerives(a, s, y.v, x.rest, rho);
    case Lit(v) => assert DerivesBy(Const(v), PRIMARY, s, x.v, x.rest, rho);
    case Ident(n) => assert DerivesBy(Name(n), PRIMARY, s, x.v, x.rest, rho);
  }

  lemma ParenDerives(a: Tree, s: seq<Tok>, v: Val, rest: seq<Tok>, rho: Names)
    requires s != [] && s[0] == P(LParen) && DerivesBy(a, 0, s[1..], v, [P(RParen)] + rest, rho)
    ensures DerivesBy(Paren(a), PRIMARY, s, v, rest, rho)
  {
    assert Render(a, 0) == Body(a);
    assert s == [P(LParen)] + s[1..];
    assert s == Body(Paren(a)) + rest;
  }

  /** Conversely, every accepted token list is the text of a tree with the value it was given. */
  lemma AcceptedIsRendered(s: seq<Tok>, rho: Names)
    requires Parse(s, rho).Some?
    ensures exists t: Tree :: Formed(t) && Render(t, 0) == s && Eval(t, rho) == Parse(s, rho)
  {
    LevelDerives(0, s, rho);
    var x := ParseLevel(0, s, rho).value;
    var t: Tree :| DerivesBy(t, 0, s, x.v, x.rest, rho);
    assert Body(t) + [] == Body(t);
    assert Render(t, 0) == s;
  }

  // ---- Operators and how tightly they bind, said outright --------------------------------

  /** The binary operators, from those that bind the least; those in one list bind alike. */
  const LOOSEST_FIRST: seq<seq<Punct>> := [
    [OrOr], [AndAnd], [Pipe], [Caret], [Amp], [EqEq, BangEq], [Less, LessEq, Greater, GreaterEq],
    [LessLess, GreaterGreater], [Plus, Minus], [Star, Slash, Percent]]

  predicate InList(p: Punct, i: nat) { i < 10 && p in LOOSEST_FIRST[i] }

  ghost predicate IsOperator(p: Punct) { exists i: nat :: InList(p, i) }

  ghost predicate BindsTighter(q: Punct, p: Punct) { exists i: nat, j: nat :: InList(p, i) && InList(q, j) && i < j }

  /** The 64-bit integer that a number is cut to. */
  function Int64(n: int): (r: int)
    ensures -0x8000_0000_0000_0000 <= r < 0x8000_0000_0000_0000 && (n - r) % 0x1_0000_0000_0000_0000 == 0
  {
    (n + 0x8000_0000_0000_0000) % 0x1_0000_0000_0000_0000 - 0x8000_0000_0000_0000
  }

  /** What an operator makes of two numbers. A right shift rounds down, and bitwise operators work on
      64-bit patterns. */
  function OnNumbers(p: Punct, x: int, y: int): Option<Val> {
    match p
    case OrOr => Some(BoolC(x != 0 || y != 0))
    case AndAnd => Some(BoolC(x != 0 && y != 0))
    case Pipe => Some(IntC(Int64(Bits.Or(x % 0x1_0000_0000_0000_0000, y % 0x1_0000_0000_0000_0000))))
    case Caret => Some(IntC(Int64(Bits.Xor(x % 0x1_0000_0000_0000_0000, y % 0x1_0000_0000_0000_0000))))
    case Amp => Some(IntC(Int64(Bits.And(x % 0x1_0000_0000_0000_0000, y % 0x1_0000_0000_0000_0000))))
    case EqEq => Some(BoolC(x == y))
    case BangEq => Some(BoolC(x != y))
    case Less => Some(BoolC(x < y))
    case LessEq => Some(BoolC(x <= y))
    case Greater => Some(BoolC(x > y))
    case GreaterEq => Some(BoolC(x >= y))
    case LessLess => if 0 <= y <= 62 then Some(IntC(Int64(x * Bits.Pow2(y)))) else None
    case GreaterGreater => if 0 <= y <= 62 then Some(IntC(Int64(x / Bits.Pow2(y)))) else None
    case Plus => Some(IntC(Int64(x + y)))
    case Minus => Some(IntC(Int64(x - y)))
    case Star => Some(IntC(Int64(x * y)))
    case Slash => if y == 0 then None else Some(IntC(Int64(TruncDiv(x, y))))
    case Percent => if y == 0 then None else Some(IntC(Int64(TruncMod(x, y))))
    case _ => None
  }

  /** Characters count as their codes and truth values as 1 and 0; strings are no numbers, but can be equal. */
  function Meaning(p: Punct, l: Val, r: Val): Option<Val> {
    if l.StrC? && r.StrC? && (p.EqEq? || p.BangEq?) then Some(BoolC((l.text == r.text) == p.EqEq?))
    else if l.StrC? || r.StrC? then None
    else OnNumbers(p, NumberOf(l), NumberOf(r))
  }

  function NumberOf(v: Val): int
    requires !v.StrC?
  {
    if v.BoolC? then if v.b then 1 else 0 else v.i
  }

  function UnaryMeaning(p: Punct, v: Val): Option<Val> {
    if v.StrC? then None
    else if p.Bang? then Some(BoolC(NumberOf(v) == 0))
    else if p.Minus? then Some(IntC(Int64(-NumberOf(v))))
    else if p.Tilde? then Some(IntC(Int64(-1 - NumberOf(v))))
    else Some(IntC(Int64(NumberOf(v))))
  }

  lemma WordOf(n: int)
    ensures Signed(Word(n)) == Int64(n) && Word(n) == n % 0x1_0000_0000_0000_0000
  {
    var w := n % 0x1_0000_0000_0000_0000;
    var k := n / 0x1_0000_0000_0000_0000;
    assert n == k * 0x1_0000_0000_0000_0000 + w;
  }

  /** Division rounds toward zero: what remains is less than the divisor and has the dividend's sign. */
  lemma Divisions(x: int, y: int)
    requires y != 0
    ensures y * TruncDiv(x, y) + TruncMod(x, y) == x
    ensures var r := TruncMod(x, y); -y < r < y || y < r < -y
    ensures x >= 0 ==> TruncMod(x, y) >= 0
    ensures x <= 0 ==> TruncMod(x, y) <= 0
  {
    var a := if x >= 0 then x else -x;
    assert a == y * (a / y) + a % y;
    assert y * -(a / y) == -(y * (a / y));
  }

  /** The operators of the parser are these. */
  lemma ApplyMeans(p: Punct, l: Val, r: Val)
    requires IsOperator(p)
    ensures Apply(p, l, r) == Meaning(p, l, r)
  {
    if !l.StrC? && !r.StrC? {
      NumbersMean(p, NumberOf(l), NumberOf(r), l, r);
    }
  }

  lemma NumbersMean(p: Punct, x: int, y: int, l: Val, r: Val)
    requires IsOperator(p) && !l.StrC? && !r.StrC? && x == NumberOf(l) && y == NumberOf(r)
    ensures Apply(p, l, r) == OnNumbers(p, x, y)
  {
    hide OnNumbers, Apply, LevelOf, IsOperator;
    Sorts(p);
    if Arithmetic(p) {
      ArithMeans(p, x, y);
      ArithApplies(p, x, y, l, r);
    } else {
      TruthMeans(p, x, y, l, r);
    }
  }

  lemma Sorts(p: Punct)
    requires IsOperator(p)
    ensures Arithmetic(p) || p in [OrOr, AndAnd, EqEq, BangEq, Less, LessEq, Greater, GreaterEq]
  {
    hide InList;
    var i: nat :| InList(p, i);
    RankIs(p, i);
  }

  lemma TruthMeans(p: Punct, x: int, y: int, l: Val, r: Val)
    requires p in [OrOr, AndAnd, EqEq, BangEq, Less, LessEq, Greater, GreaterEq]
    requires !l.StrC? && !r.StrC? && x == NumberOf(l) && y == NumberOf(r)
    ensures Apply(p, l, r) == OnNumbers(p, x, y)
  {
    hide Arith, Int64;
    assert ToInt(l) == Some(x) && ToInt(r) == Some(y) && ToBool(l) == Some(x != 0) && ToBool(r) == Some(y != 0);
  }

  lemma ArithApplies(p: Punct, x: int, y: int, l: Val, r: Val)
    requires Arithmetic(p) && !l.StrC? && !r.StrC? && x == NumberOf(l) && y == NumberOf(r)
    ensures Apply(p, l, r) == Wrapped(if Arith(p, x, y).Some? then Some(IntC(Arith(p, x, y).value)) else None)
  {
    hide Arith;
    assert ToInt(l) == Some(x) && ToInt(r) == Some(y);
  }

  predicate Arithmetic(p: Punct) { LevelOf(p).Some? && 2 <= LevelOf(p).value && LevelOf(p).value != 5 && LevelOf(p).value != 6 }

  lemma ArithMeans(p: Punct, x: int, y: int)
    requires Arithmetic(p)
    ensures OnNumbers(p, x, y) == Wrapped(if Arith(p, x, y).Some? then Some(IntC(Arith(p, x, y).value)) else None)
  {
    hide Int64, TruncDiv, TruncMod, Signed, Word, Bitwise;
    if Arith(p, x, y).Some? {
      WordOf(Arith(p, x, y).value);
    }
    if p.Pipe? || p.Caret? || p.Amp? {
      WordOf(x);
      WordOf(y);
      BitwiseTwice(p, x, y);
    }
  }

  /** A bitwise result is a word already. */
  lemma BitwiseTwice(p: Punct, x: int, y: int)
    ensures Signed(Word(Bitwise(p, x, y))) == Bitwise(p, x, y)
    ensures Bitwise(Pipe, x, y) == Int64(Bits.Or(Word(x), Word(y))) && Bitwise(Caret, x, y) == Int64(Bits.Xor(Word(x), Word(y)))
    ensures Bitwise(Amp, x, y) == Int64(Bits.And(Word(x), Word(y)))
  {
    hide Bits.And, Bits.Or, Bits.Xor, Signed, Word, Int64;
    WordBound(x);
    WordBound(y);
    Bits.XorBound(Word(x), Word(y), 64);
    OrAndBound(Word(x), Word(y), 64);
    SignedTwice(Bits.Or(Word(x), Word(y)));
    SignedTwice(Bits.Xor(Word(x), Word(y)));
    SignedTwice(Bits.And(Word(x), Word(y)));
  }

  lemma WordBound(x: int)
    ensures Word(x) < Bits.Pow2(64) == 0x1_0000_0000_0000_0000
  {
    Bits.Pow2Words();
  }

  lemma SignedTwice(v: nat)
    requires v < Bits.Pow2(64) == 0x1_0000_0000_0000_0000
    ensures Signed(Word(Signed(v))) == Signed(v) == Int64(v)
  {
    hide Bits.Pow2;
    WordOf(v);
    WordOf(Signed(v));
  }

  lemma {:induction false} OrAndBound(x: nat, y: nat, n: nat)
    requires x < Bits.Pow2(n) && y < Bits.Pow2(n)
    ensures Bits.Or(x, y) < Bits.Pow2(n) && Bits.And(x, y) < Bits.Pow2(n)
    decreases n
  {
    if n > 0 {
      OrAndBound(x / 2, y / 2, n - 1);
    }
  }

  lemma ApplyUnaryMeans(p: Punct, v: Val)
    requires Unary(p)
    ensures ApplyUnary(p, v) == UnaryMeaning(p, v)
  {
    hide Int64, Signed, Word;
    if !v.StrC? {
      WordOf(NumberOf(v));
      WordOf(-NumberOf(v));
      WordOf(-1 - NumberOf(v));
    }
  }

  function Combined(p: Punct, l: Option<Val>, r: Option<Val>): Option<Val> {
    if l.Some? && r.Some? then Meaning(p, l.value, r.value) else None
  }

  lemma Ranks(p: Punct, q: Punct)
    requires IsOperator(p) && IsOperator(q)
    ensures Binary(p) && Binary(q) && (BindsTighter(q, p) <==> LevelOf(q).value > LevelOf(p).value)
  {
    hide LevelOf, InList;
    RanksOf(p);
    RanksOf(q);
  }

  lemma RanksOf(p: Punct)
    ensures forall j: nat :: InList(p, j) <==> LevelOf(p) == Some(j)
  {
    hide LevelOf, InList;
    forall j: nat ensures InList(p, j) <==> LevelOf(p) == Some(j) {
      RankIs(p, j);
    }
  }

  lemma RankIs(p: Punct, j: nat)
    ensures InList(p, j) <==> LevelOf(p) == Some(j)
  {
    if j < 5 {
      hide LevelOf, InList;
      LowRank(p, j);
    } else if j < 10 {
      hide LevelOf, InList;
      HighRank(p, j);
    }
  }

  lemma LowRank(p: Punct, j: nat)
    requires j < 5
    ensures InList(p, j) <==> LevelOf(p) == Some(j)
  {
    match j
    case 0 => assert LOOSEST_FIRST[0] == [OrOr];
    case 1 => assert LOOSEST_FIRST[1] == [AndAnd];
    case 2 => assert LOOSEST_FIRST[2] == [Pipe];
    case 3 => assert LOOSEST_FIRST[3] == [Caret];
    case 4 => assert LOOSEST_FIRST[4] == [Amp];
  }

  lemma HighRank(p: Punct, j: nat)
    requires 5 <= j < 10
    ensures InList(p, j) <==> LevelOf(p) == Some(j)
  {
    match j
    case 5 => assert LOOSEST_FIRST[5] == [EqEq, BangEq];
    case 6 => assert LOOSEST_FIRST[6] == [Less, LessEq, Greater, GreaterEq];
    case 7 => assert LOOSEST_FIRST[7] == [LessLess, GreaterGreater];
    case 8 => assert LOOSEST_FIRST[8] == [Plus, Minus];
    case 9 => assert LOOSEST_FIRST[9] == [Star, Slash, Percent];
  }

  lemma EvalPair(p: Punct, a: Tree, b: Tree, rho: Names)
    ensures Eval(Bin(p, a, b), rho) ==
      if Eval(a, rho).Some? && Eval(b, rho).Some? then Apply(p, Eval(a, rho).value, Eval(b, rho).value) else None
    ensures forall v :: Eval(Const(v), rho) == Some(v)
    ensures Eval(Paren(a), rho) == Eval(a, rho)
    ensures Eval(Un(p, a), rho) == if Eval(a, rho).Some? then ApplyUnary(p, Eval(a, rho).value) else None
  {
  }

  /** The tokens of two literals under an operator, where they need no parentheses. */
  lemma PairText(a: Val, p: Punct, b: Val, level: nat)
    requires Binary(p) && level <= LevelOf(p).value
    ensures Formed(Bin(p, Const(a), Const(b))) && Level(Bin(p, Const(a), Const(b))) == LevelOf(p).value
    ensures Render(Bin(p, Const(a), Const(b)), level) == [Lit(a), P(p), Lit(b)]
  {
    LiteralText(a, LevelOf(p).value);
    LiteralText(b, LevelOf(p).value + 1);
    assert [Lit(a)] + [P(p)] + [Lit(b)] == [Lit(a), P(p), Lit(b)];
  }

  lemma LevelBound(p: Punct)
    ensures Binary(p) ==> LevelOf(p).value < UNARY
  {
  }

  lemma LiteralText(a: Val, level: nat)
    requires level <= UNARY
    ensures Formed(Const(a)) && Render(Const(a), level) == [Lit(a)]
  {
  }

  /** `a p b q c` groups to the right just when `q` binds tighter than `p`, whatever the operators. */
  lemma Grouping(a: Val, p: Punct, b: Val, q: Punct, c: Val, rho: Names)
    requires IsOperator(p) && IsOperator(q)
    ensures Parse([Lit(a), P(p), Lit(b), P(q), Lit(c)], rho)
         == if BindsTighter(q, p) then Combined(p, Some(a), Meaning(q, b, c)) else Combined(q, Meaning(p, a, b), Some(c))
  {
    hide BindsTighter, Parse, Meaning, Apply, LevelOf, IsOperator;
    Ranks(p, q);
    if BindsTighter(q, p) {
      GroupsRight(a, p, b, q, c, rho);
    } else {
      GroupsLeft(a, p, b, q, c, rho);
    }
  }

  lemma GroupsRight(a: Val, p: Punct, b: Val, q: Punct, c: Val, rho: Names)
    requires IsOperator(p) && IsOperator(q) && Binary(p) && Binary(q) && LevelOf(q).value > LevelOf(p).value
    ensures Parse([Lit(a), P(p), Lit(b), P(q), Lit(c)], rho) == Combined(p, Some(a), Meaning(q, b, c))
  {
    hide Parse, Meaning, Apply, LevelOf, IsOperator;
    var r := Bin(q, Const(b), Const(c));
    var t := Bin(p, Const(a), r);
    LevelBound(p);
    PairText(b, q, c, LevelOf(p).value + 1);
    LiteralText(a, LevelOf(p).value);
    assert Render(t, 0) == [Lit(a)] + [P(p)] + [Lit(b), P(q), Lit(c)] == [Lit(a), P(p), Lit(b), P(q), Lit(c)];
    ParseIsEval(t, rho);
    EvalPair(q, Const(b), Const(c), rho);
    EvalPair(p, Const(a), r, rho);
    ApplyMeans(q, b, c);
    if Meaning(q, b, c).Some? {
      ApplyMeans(p, a, Meaning(q, b, c).value);
    }
  }

  lemma GroupsLeft(a: Val, p: Punct, b: Val, q: Punct, c: Val, rho: Names)
    requires IsOperator(p) && IsOperator(q) && Binary(p) && Binary(q) && LevelOf(q).value <= LevelOf(p).value
    ensures Parse([Lit(a), P(p), Lit(b), P(q), Lit(c)], rho) == Combined(q, Meaning(p, a, b), Some(c))
  {
    hide Parse, Meaning, Apply, LevelOf, IsOperator;
    var l := Bin(p, Const(a), Const(b));
    var t := Bin(q, l, Const(c));
    LevelBound(q);
    PairText(a, p, b, LevelOf(q).value);
    LiteralText(c, LevelOf(q).value + 1);
    assert Render(t, 0) == [Lit(a), P(p), Lit(b)] + [P(q)] + [Lit(c)] == [Lit(a), P(p), Lit(b), P(q), Lit(c)];
    ParseIsEval(t, rho);
    EvalPair(p, Const(a), Const(b), rho);
    EvalPair(q, l, Const(c), rho);
    ApplyMeans(p, a, b);
    if Meaning(p, a, b).Some? {
      ApplyMeans(q, Meaning(p, a, b).value, c);
    }
  }

  /** A prefix operator binds tighter than all of them, and parentheses bind what is in them. */
  lemma PrefixAndParens(u: Punct, a: Val, p: Punct, b: Val, q: Punct, c: Val, rho: Names)
    requires u in [Plus, Minus, Tilde, Bang] && IsOperator(p) && IsOperator(q)
    ensures Parse([P(u), Lit(a), P(p), Lit(b)], rho) == Combined(p, UnaryMeaning(u, a), Some(b))
    ensures Parse([P(LParen), Lit(a), P(p), Lit(b), P(RParen), P(q), Lit(c)], rho) == Combined(q, Meaning(p, a, b), Some(c))
  {
    hide Apply, ApplyUnary, Parse, Meaning, UnaryMeaning, IsOperator, LevelOf;
    Ranks(p, q);
    PrefixFirst(u, a, p, b, rho);
    ParensFirst(a, p, b, q, c, rho);
  }

  lemma PrefixFirst(u: Punct, a: Val, p: Punct, b: Val, rho: Names)
    requires Unary(u) && IsOperator(p) && Binary(p)
    ensures Parse([P(u), Lit(a), P(p), Lit(b)], rho) == Combined(p, UnaryMeaning(u, a), Some(b))
  {
    hide Apply, ApplyUnary, Parse, Meaning, UnaryMeaning, IsOperator, LevelOf;
    var n := Un(u, Const(a));
    var t := Bin(p, n, Const(b));
    LevelBound(p);
    LiteralText(a, UNARY);
    LiteralText(b, LevelOf(p).value + 1);
    assert Render(n, LevelOf(p).value) == [P(u)] + [Lit(a)];
    assert Render(t, 0) == [P(u)] + [Lit(a)] + [P(p)] + [Lit(b)] == [P(u), Lit(a), P(p), Lit(b)];
    ParseIsEval(t, rho);
    EvalPair(u, Const(a), Const(a), rho);
    EvalPair(p, n, Const(b), rho);
    ApplyUnaryMeans(u, a);
    if UnaryMeaning(u, a).Some? {
      ApplyMeans(p, UnaryMeaning(u, a).value, b);
    }
  }

  lemma ParensFirst(a: Val, p: Punct, b: Val, q: Punct, c: Val, rho: Names)
    requires IsOperator(p) && IsOperator(q) && Binary(p) && Binary(q)
    ensures Parse([P(LParen), Lit(a), P(p), Lit(b), P(RParen), P(q), Lit(c)], rho) == Combined(q, Meaning(p, a, b), Some(c))
  {
    hide Apply, Parse, Meaning, IsOperator, LevelOf;
    var l := Bin(p, Const(a), Const(b));
    var g := Bin(q, Paren(l), Const(c));
    LevelBound(q);
    PairText(a, p, b, 0);
    LiteralText(c, LevelOf(q).value + 1);
    assert Render(Paren(l), LevelOf(q).value) == [P(LParen)] + [Lit(a), P(p), Lit(b)] + [P(RParen)];
    assert Render(g, 0) == [P(LParen)] + [Lit(a), P(p), Lit(b)] + [P(RParen)] + [P(q)] + [Lit(c)]
        == [P(LParen), Lit(a), P(p), Lit(b), P(RParen), P(q), Lit(c)];
    ParseIsEval(g, rho);
    EvalPair(p, Const(a), Const(b), rho);
    EvalPair(p, l, l, rho);
    EvalPair(q, Paren(l), Const(c), rho);
    ApplyMeans(p, a, b);
    if Meaning(p, a, b).Some? {
      ApplyMeans(q, Meaning(p, a, b).value, c);
    }
  }
}
