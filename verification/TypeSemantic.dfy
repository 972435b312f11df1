/** The text form of imported types: a recursive grammar with length-prefixed names. */
module TypeSemantic {
  import opened Wrappers
  import opened Bits
  import opened Literals

  datatype Kind = Builtin | Named | Optional | Borrow | Escape | Ptr | Array | Fn

  datatype CallConv = Default | Cdecl | StdCall | FastCall | VectorCall | Win64 | SysV

  /** A type node. A kind uses some of the fields only; the others keep their defaults. */
  datatype Node = Node(
    kind: Kind, name: string, mut: bool, hasSize: bool, size: U32,
    throwing: bool, cAbi: bool, variadic: bool, cc: CallConv, children: seq<Node>)

  const MAX_U32: nat := 0xFFFF_FFFF

  function Blank(kind: Kind): Node { Node(kind, "", false, false, 0, false, false, false, Default, []) }

  function CallConvChar(cc: CallConv): char {
    match cc
    case Cdecl => 'c'
    case StdCall => 's'
    case FastCall => 'f'
    case VectorCall => 'v'
    case Win64 => 'w'
    case SysV => 'y'
    case Default => 'd'
  }

  function CallConvOf(c: char): CallConv {
    match c
    case 'c' => Cdecl
    case 's' => StdCall
    case 'f' => FastCall
    case 'v' => VectorCall
    case 'w' => Win64
    case 'y' => SysV
    case _ => Default
  }

  // ---- The grammar, on the text that is left ---------------------------------------------

  type Parsed<T> = Option<(T, string)>

  function Eat(s: string, c: char): Option<string> { if s != [] && s[0] == c then Some(s[1..]) else None }

  /** A number up to a delimiter, which is consumed; it has a digit and fits 32 bits. */
  function U32Until(s: string, delim: char): (r: Parsed<U32>)
    ensures r.Some? ==> |r.value.1| < |s|
  {
    if s == [] || !IsDigit(s[0]) then None else U32Rest(s, delim, 0)
  }

  function U32Rest(s: string, delim: char, v: U32): (r: Parsed<U32>)
    ensures r.Some? ==> |r.value.1| < |s|
  {
    if s == [] then None else
    if s[0] == delim then Some((v, s[1..])) else
    if !IsDigit(s[0]) || 10 * v + DigitOf(s[0]) > MAX_U32 then None else
    U32Rest(s[1..], delim, 10 * v + DigitOf(s[0]))
  }

  function LenString(s: string): (r: Parsed<string>)
    ensures r.Some? ==> |r.value.0| <= MAX_U32 && |r.value.1| < |s|
  {
    var len := U32Until(s, '_');
    if len.None? || len.value.0 > |len.value.1| then None else
    Some((len.value.1[..len.value.0], len.value.1[len.value.0..]))
  }

  function Bit(s: string): (r: Parsed<bool>)
    ensures r.Some? ==> |r.value.1| < |s|
  {
    if s == [] || (s[0] != '0' && s[0] != '1') then None else Some((s[0] == '1', s[1..]))
  }

  function NodeText(s: string): (r: Parsed<Node>)
    ensures r.Some? ==> |r.value.1| < |s|
    decreases |s|, 0
  {
    if s == [] then None else
    var t := s[1..];
    match s[0]
    case 'b' =>
      var name := LenString(t);
      if name.None? then None else Some((Blank(Builtin).(name := name.value.0), name.value.1))
    case 'n' =>
      var name := LenString(t);
      if name.None? then None else NamedRest(Blank(Named).(name := name.value.0), name.value.1)
    case 'o' => Bracketed(Blank(Optional), t)
    case 'e' => Bracketed(Blank(Escape), t)
    case 'r' => var m := Bit(t); if m.None? then None else Bracketed(Blank(Borrow).(mut := m.value.0), m.value.1)
    case 'p' => var m := Bit(t); if m.None? then None else Bracketed(Blank(Ptr).(mut := m.value.0), m.value.1)
    case 'a' => ArrayRest(t)
    case 'f' => FnRest(t)
    case _ => None
  }

  /** A named node may have arguments: a `[` here always belongs to it. */
  function NamedRest(node: Node, s: string): (r: Parsed<Node>)
    ensures r.Some? ==> |r.value.1| <= |s|
    decreases |s|, 1
  {
    if Eat(s, '[').None? then Some((node, s)) else
    var args := UntilClose(s[1..]);
    if args.None? || Eat(args.value.1, ']').None? then None else
    Some((node.(children := args.value.0), args.value.1[1..]))
  }

  /** Nodes up to a `]`, which is left, or to the end. */
  function UntilClose(s: string): (r: Parsed<seq<Node>>)
    ensures r.Some? ==> |r.value.1| <= |s|
    decreases |s|, 2
  {
    if s == [] || s[0] == ']' then Some(([], s)) else
    var first := NodeText(s);
    if first.None? then None else
    var others := UntilClose(first.value.1);
    if others.None? then None else Some(([first.value.0] + others.value.0, others.value.1))
  }

  function Bracketed(node: Node, s: string): (r: Parsed<Node>)
    ensures r.Some? ==> |r.value.1| < |s|
    decreases |s|, 1
  {
    if Eat(s, '[').None? then None else OneChild(node, s[1..])
  }

  function OneChild(node: Node, s: string): (r: Parsed<Node>)
    ensures r.Some? ==> |r.value.1| < |s|
    decreases |s|, 1
  {
    var child := NodeText(s);
    if child.None? || Eat(child.value.1, ']').None? then None else
    Some((node.(children := [child.value.0]), child.value.1[1..]))
  }

  function ArrayRest(s: string): (r: Parsed<Node>)
    ensures r.Some? ==> |r.value.1| < |s|
    decreases |s|, 1
  {
    var has := Bit(s);
    if has.None? || Eat(has.value.1, '_').None? then None else
    var size := U32Until(has.value.1[1..], '[');
    if size.None? then None else
    OneChild(Blank(Array).(hasSize := has.value.0, size := size.value.0), size.value.1)
  }

  /** Whether a function throws is a digit before its `[`; older texts have no such digit. */
  function ThrowingThenOpen(s: string): (r: Parsed<bool>)
    ensures r.Some? ==> |r.value.1| < |s|
  {
    if Eat(s, '[').Some? then Some((false, s[1..])) else
    var throwing := Bit(s);
    if throwing.None? || Eat(throwing.value.1, '[').None? then None else
    Some((throwing.value.0, throwing.value.1[1..]))
  }

  function FnRest(s: string): (r: Parsed<Node>)
    ensures r.Some? ==> |r.value.1| < |s|
    decreases |s|, 1
  {
    if |s| < 3 || Bit(s).None? || Bit(s[1..]).None? then None else
    var count := U32Until(s[3..], '_');
    if count.None? then None else
    var throwing := ThrowingThenOpen(count.value.1);
    if throwing.None? then None else
    var types := Several(throwing.value.1, count.value.0 + 1);
    if types.None? || Eat(types.value.1, ']').None? then None else
    Some((Blank(Fn).(cAbi := s[0] == '1', variadic := s[1] == '1', cc := CallConvOf(s[2]),
                     throwing := throwing.value.0, children := types.value.0), types.value.1[1..]))
  }

  function Several(s: string, n: nat): (r: Parsed<seq<Node>>)
    ensures r.Some? ==> |r.value.1| <= |s| && |r.value.0| == n
    decreases |s|, 2
  {
    if n == 0 then Some(([], s)) else
    var first := NodeText(s);
    if first.None? then None else
    var others := Several(first.value.1, n - 1);
    if others.None? then None else Some(([first.value.0] + others.value.0, others.value.1))
  }

  /** The node a whole text stands for. */
  function NodeOf(s: string): Option<Node> {
    var r := NodeText(s);
    if r.Some? && r.value.1 == [] then Some(r.value.0) else None
  }

  // ---- Serialising -----------------------------------------------------------------------

  function BitChar(b: bool): char { if b then '1' else '0' }

  /** What a node's text has before its children. */
  function Opening(n: Node): string {
    match n.kind
    case Builtin => "b" + NatText(|n.name|) + "_" + n.name
    case Named => "n" + NatText(|n.name|) + "_" + n.name + if n.children == [] then "" else "["
    case Optional => "o["
    case Borrow => "r" + [BitChar(n.mut)] + "["
    case Escape => "e["
    case Ptr => "p" + [BitChar(n.mut)] + "["
    case Array => "a" + [BitChar(n.hasSize)] + "_" + NatText(n.size) + "["
    case Fn =>
      "f" + [BitChar(n.cAbi), BitChar(n.variadic), CallConvChar(n.cc)]
      + NatText(if n.children == [] then 0 else (|n.children| - 1) % WORD32) + "_" + [BitChar(n.throwing)] + "["
  }

  function Closing(n: Node): string {
    if n.kind == Builtin || (n.kind == Named && n.children == []) then "" else "]"
  }

  /** How many of its children a node's text has. */
  function Shown(n: Node): (k: nat)
    ensures k <= |n.children|
  {
    match n.kind
    case Builtin => 0
    case Named => |n.children|
    case Fn => |n.children|
    case _ => if n.children == [] then 0 else 1
  }

  function Serialized(n: Node): string
    decreases n, |n.children| + 1
  {
    Opening(n) + ChildrenText(n, 0) + Closing(n)
  }

  /** The texts of the shown children from the i-th on. */
  function ChildrenText(n: Node, i: nat): string
    requires i <= Shown(n)
    decreases n, Shown(n) - i
  {
    if i == Shown(n) then "" else Serialized(n.children[i]) + ChildrenText(n, i + 1)
  }

  // ---- Reading back what was serialised --------------------------------------------------

  /** A node uses only its kind's fields, and has as many children as its kind needs. */
  predicate Shape(n: Node) {
    match n.kind
    case Builtin => n == Blank(Builtin).(name := n.name)
    case Named => n == Blank(Named).(name := n.name, children := n.children)
    case Optional => n == Blank(Optional).(children := n.children) && |n.children| == 1
    case Escape => n == Blank(Escape).(children := n.children) && |n.children| == 1
    case Borrow => n == Blank(Borrow).(mut := n.mut, children := n.children) && |n.children| == 1
    case Ptr => n == Blank(Ptr).(mut := n.mut, children := n.children) && |n.children| == 1
    case Array =>
      n == Blank(Array).(hasSize := n.hasSize, size := n.size, children := n.children) && |n.children| == 1
    case Fn =>
      n == Blank(Fn).(throwing := n.throwing, cAbi := n.cAbi, variadic := n.variadic, cc := n.cc, children := n.children)
      && 1 <= |n.children| <= WORD32
  }

  predicate Shaped(n: Node) { Shape(n) && forall c <- n.children :: Shaped(c) }

  /** A shaped node whose names have lengths that fit 32 bits. */
  predicate WellFormed(n: Node) { Shape(n) && |n.name| <= MAX_U32 && forall c <- n.children :: WellFormed(c) }

  predicate AllWell(n: Node, i: nat) { forall j :: i <= j < |n.children| ==> WellFormed(n.children[j]) }

  lemma {:induction false} DigitsRead(s: string, delim: char, rest: string, v: U32)
    requires !IsDigit(delim) && forall i :: 0 <= i < |s| ==> IsDigit(s[i])
    ensures DigitsValue(s, v) >= v
    ensures U32Rest(s + [delim] + rest, delim, v)
         == if DigitsValue(s, v) <= MAX_U32 then Some((DigitsValue(s, v), rest)) else None
    decreases |s|
  {
    var t := s + [delim] + rest;
    if s != [] {
      assert t[1..] == s[1..] + [delim] + rest;
      var w := v * 10 + DigitOf(s[0]);
      if w <= MAX_U32 {
        DigitsRead(s[1..], delim, rest, w);
      } else {
        DigitsGrow(s[1..], w);
      }
    } else {
      assert t[1..] == rest;
    }
  }

  lemma {:induction false} DigitsGrow(s: string, v: nat)
    ensures DigitsValue(s, v) >= v
    decreases |s|
  {
    if s != [] {
      if IsDigit(s[0]) {
        DigitsGrow(s[1..], v * 10 + DigitOf(s[0]));
      } else if s[0] == '_' {
        DigitsGrow(s[1..], v);
      }
    }
  }

  /** A number is the digits a text starts with, leading zeros included: there is one at least, the delimiter
      comes next, and it fits 32 bits. */
  lemma NumberShape(s: string, delim: char, k: nat)
    requires !IsDigit(delim) && k <= |s| && (forall i :: 0 <= i < k ==> IsDigit(s[i])) && (k < |s| ==> !IsDigit(s[k]))
    ensures U32Until(s, delim) == if 0 < k < |s| && s[k] == delim && DigitsValue(s[..k], 0) <= 0xFFFF_FFFF
                                  then Some((DigitsValue(s[..k], 0), s[k + 1..])) else None
  {
    if k < |s| && s[k] == delim {
      DigitsRead(s[..k], delim, s[k + 1..], 0);
      assert s == s[..k] + [delim] + s[k + 1..];
    } else {
      NotDelimited(s, delim, k, 0);
    }
  }

  lemma {:induction false} NotDelimited(s: string, delim: char, k: nat, v: U32)
    requires !IsDigit(delim) && k <= |s| && (forall i :: 0 <= i < k ==> IsDigit(s[i]))
    requires k < |s| ==> !IsDigit(s[k]) && s[k] != delim
    ensures U32Rest(s, delim, v) == None
    decreases k
  {
    if k > 0 && 10 * v + DigitOf(s[0]) <= MAX_U32 {
      NotDelimited(s[1..], delim, k - 1, 10 * v + DigitOf(s[0]));
    }
  }

  lemma NumberRead(k: nat, delim: char, rest: string)
    requires !IsDigit(delim)
    ensures U32Until(NatText(k) + [delim] + rest, delim) == if k <= MAX_U32 then Some((k, rest)) else None
  {
    DigitsOfNatText(k);
    DigitsRead(NatText(k), delim, rest, 0);
  }

  lemma NameRead(name: string, rest: string)
    ensures LenString(NatText(|name|) + "_" + name + rest)
         == if |name| <= MAX_U32 then Some((name, rest)) else None
  {
    hide U32Until, NatText;
    NumberRead(|name|, '_', name + rest);
    assert NatText(|name|) + ['_'] + (name + rest) == NatText(|name|) + "_" + name + rest;
  }

  /** A node's text starts with its tag. */
  lemma Head(n: Node)
    ensures Serialized(n) != [] && Serialized(n)[0] != '[' && Serialized(n)[0] != ']'
  {
    hide ChildrenText, NatText;
  }

  predicate NoOpen(s: string) { s == [] || s[0] != '[' }

  lemma TextOf(n: Node)
    ensures Serialized(n) == Opening(n) + ChildrenText(n, 0) + Closing(n)
  {
  }

  lemma ChildrenStep(n: Node, i: nat)
    requires i <= Shown(n)
    ensures i == Shown(n) ==> ChildrenText(n, i) == ""
    ensures i < Shown(n) ==> ChildrenText(n, i) == Serialized(n.children[i]) + ChildrenText(n, i + 1)
  {
  }

  /** A node's text is read back, up to a text that could not be taken for its arguments. */
  lemma {:induction false} Reads(n: Node, rest: string)
    requires Shaped(n) && NoOpen(rest)
    ensures NodeText(Serialized(n) + rest) == if WellFormed(n) then Some((n, rest)) else None
    decreases n, |n.children| + 4
  {
    hide NodeText, Serialized, ChildrenText, WellFormed;
    match n.kind
    case Builtin => ReadsBuiltin(n, rest);
    case Named => ReadsNamed(n, rest);
    case Fn => ReadsFn(n, rest);
    case Array => ReadsArray(n, rest);
    case _ => ReadsWrapped(n, rest);
  }

  lemma ReadsBuiltin(n: Node, rest: string)
    requires Shaped(n) && n.kind == Builtin
    ensures NodeText(Serialized(n) + rest) == if WellFormed(n) then Some((n, rest)) else None
  {
    hide Serialized, ChildrenText, LenString, NatText;
    TextOf(n);
    ChildrenStep(n, 0);
    NameRead(n.name, rest);
    var s := Serialized(n) + rest;
    assert s[0] == 'b' && s[1..] == NatText(|n.name|) + "_" + n.name + rest;
  }

  lemma {:induction false} ReadsWrapped(n: Node, rest: string)
    requires Shaped(n) && (n.kind == Optional || n.kind == Escape || n.kind == Borrow || n.kind == Ptr)
    ensures NodeText(Serialized(n) + rest) == if WellFormed(n) then Some((n, rest)) else None
    decreases n, 3
  {
    hide Serialized, ChildrenText, OneChild;
    TextOf(n);
    var s, types := Serialized(n) + rest, ChildrenText(n, 0) + "]" + rest;
    if n.kind == Optional || n.kind == Escape {
      ReadsOne(n, Blank(n.kind), rest);
      assert s[1] == '[' && s[1..][1..] == types;
    } else {
      ReadsOne(n, Blank(n.kind).(mut := n.mut), rest);
      assert s[1] == BitChar(n.mut) && s[2] == '[' && s[1..][1..] == "[" + types;
      assert ("[" + types)[1..] == types;
    }
  }

  lemma {:induction false} ReadsArray(n: Node, rest: string)
    requires Shaped(n) && n.kind == Array
    ensures NodeText(Serialized(n) + rest) == if WellFormed(n) then Some((n, rest)) else None
    decreases n, 3
  {
    hide Serialized, ChildrenText, OneChild, U32Until, NatText;
    TextOf(n);
    var s, types := Serialized(n) + rest, ChildrenText(n, 0) + "]" + rest;
    ReadsOne(n, Blank(Array).(hasSize := n.hasSize, size := n.size), rest);
    NumberRead(n.size, '[', types);
    var number := NatText(n.size) + ['['] + types;
    assert s[0] == 'a' && s[1..] == [BitChar(n.hasSize)] + "_" + number;
    assert s[1..][1..] == "_" + number && ("_" + number)[1..] == number;
  }

  lemma {:induction false} ReadsOne(n: Node, node: Node, rest: string)
    requires Shaped(n) && |n.children| == 1 == Shown(n)
    ensures OneChild(node, ChildrenText(n, 0) + "]" + rest)
         == if WellFormed(n.children[0]) then Some((node.(children := n.children), rest)) else None
    decreases n, 2
  {
    hide Serialized, ChildrenText, NodeText;
    var c := n.children[0];
    Reads(c, "]" + rest);
    ChildrenStep(n, 0);
    ChildrenStep(n, 1);
    assert ChildrenText(n, 0) + "]" + rest == Serialized(c) + ("]" + rest);
    assert n.children == [c] && ("]" + rest)[1..] == rest;
  }

  lemma NamedText(t: string)
    ensures var name := LenString(t);
            NodeText("n" + t) == if name.None? then None else NamedRest(Blank(Named).(name := name.value.0), name.value.1)
  {
    hide LenString, NamedRest;
    assert ("n" + t)[1..] == t;
  }

  lemma {:induction false} ReadsNamed(n: Node, rest: string)
    requires Shaped(n) && n.kind == Named && NoOpen(rest)
    ensures NodeText(Serialized(n) + rest) == if WellFormed(n) then Some((n, rest)) else None
    decreases n, |n.children| + 1
  {
    hide Serialized, ChildrenText, LenString, NatText, UntilClose, NodeText;
    TextOf(n);
    ChildrenStep(n, 0);
    var types := ChildrenText(n, 0) + "]" + rest;
    var after := if n.children == [] then rest else "[" + types;
    NameRead(n.name, after);
    NamedText(NatText(|n.name|) + "_" + n.name + after);
    assert Serialized(n) + rest == "n" + (NatText(|n.name|) + "_" + n.name + after);
    if n.children != [] {
      ReadsUntilClose(n, 0, rest);
      assert after[1..] == types && ("]" + rest)[1..] == rest && n.children[0..] == n.children;
    }
  }

  lemma {:induction false} ReadsUntilClose(n: Node, i: nat, rest: string)
    requires Shaped(n) && n.kind == Named && i <= |n.children|
    ensures UntilClose(ChildrenText(n, i) + "]" + rest)
         == if AllWell(n, i) then Some((n.children[i..], "]" + rest)) else None
    decreases n, |n.children| - i
  {
    hide Serialized, ChildrenText, NodeText, WellFormed;
    ChildrenStep(n, i);
    var s := ChildrenText(n, i) + "]" + rest;
    if i < |n.children| {
      var c, after := n.children[i], ChildrenText(n, i + 1) + "]" + rest;
      assert s == Serialized(c) + after;
      Head(c);
      AfterChild(n, i, rest);
      Reads(c, after);
      ReadsUntilClose(n, i + 1, rest);
      assert [c] + n.children[i + 1..] == n.children[i..];
    } else {
      assert s == "]" + rest && n.children[i..] == [];
    }
  }

  lemma AfterChild(n: Node, i: nat, rest: string)
    requires i < Shown(n)
    ensures NoOpen(ChildrenText(n, i + 1) + "]" + rest)
  {
    hide Serialized, ChildrenText;
    ChildrenStep(n, i + 1);
    if i + 1 < Shown(n) {
      Head(n.children[i + 1]);
    }
  }

  lemma {:induction false} ReadsFn(n: Node, rest: string)
    requires Shaped(n) && n.kind == Fn
    ensures NodeText(Serialized(n) + rest) == if WellFormed(n) then Some((n, rest)) else None
    decreases n, |n.children| + 1
  {
    hide Serialized, ChildrenText, U32Until, NatText, Several, BitChar, CallConvChar, CallConvOf, ThrowingThenOpen;
    TextOf(n);
    var s, types := Serialized(n) + rest, ChildrenText(n, 0) + "]" + rest;
    var tail := [BitChar(n.throwing)] + "[" + types;
    var number := NatText(|n.children| - 1) + ['_'] + tail;
    NumberRead(|n.children| - 1, '_', tail);
    ReadsSeveral(n, 0, rest);
    FnHead(n, s, number);
    ThrowingHead(n.throwing, types);
    assert ("]" + rest)[1..] == rest && n.children[0..] == n.children;
  }

  lemma ThrowingHead(b: bool, types: string)
    ensures ThrowingThenOpen([BitChar(b)] + "[" + types) == Some((b, types))
  {
    var tail := [BitChar(b)] + "[" + types;
    assert tail[1..] == "[" + types && ("[" + types)[1..] == types;
  }

  lemma FnHead(n: Node, s: string, number: string)
    requires s == "f" + [BitChar(n.cAbi), BitChar(n.variadic), CallConvChar(n.cc)] + number
    ensures var t := s[1..];
      && s[0] == 'f' && |t| >= 3 && t[3..] == number && Bit(t) == Some((n.cAbi, t[1..]))
      && Bit(t[1..]) == Some((n.variadic, t[2..])) && CallConvOf(t[2]) == n.cc
      && t[0] == BitChar(n.cAbi) && t[1] == BitChar(n.variadic)
  {
  }

  lemma {:induction false} ReadsSeveral(n: Node, i: nat, rest: string)
    requires Shaped(n) && n.kind == Fn && i <= |n.children|
    ensures Several(ChildrenText(n, i) + "]" + rest, |n.children| - i)
         == if AllWell(n, i) then Some((n.children[i..], "]" + rest)) else None
    decreases n, |n.children| - i
  {
    hide Serialized, ChildrenText, NodeText, WellFormed;
    ChildrenStep(n, i);
    var s := ChildrenText(n, i) + "]" + rest;
    if i < |n.children| {
      var c, after := n.children[i], ChildrenText(n, i + 1) + "]" + rest;
      assert s == Serialized(c) + after;
      AfterChild(n, i, rest);
      Reads(c, after);
      ReadsSeveral(n, i + 1, rest);
      assert [c] + n.children[i + 1..] == n.children[i..];
    } else {
      assert s == "]" + rest && n.children[i..] == [];
    }
  }

  // ---- What is read is well-formed -------------------------------------------------------

  predicate ListWell(ns: seq<Node>) { forall c <- ns :: WellFormed(c) }

  lemma {:induction false} ReadIsWell(s: string)
    requires NodeText(s).Some?
    ensures WellFormed(NodeText(s).value.0)
    decreases |s|, 0
  {
    var t := s[1..];
    match s[0] {
      case 'b' =>
      case 'n' =>
        var name := LenString(t);
        NamedIsWell(name.value.0, name.value.1);
      case 'o' => OneIsWell(Blank(Optional), t[1..]);
      case 'e' => OneIsWell(Blank(Escape), t[1..]);
      case 'r' => OneIsWell(Blank(Borrow).(mut := Bit(t).value.0), t[2..]);
      case 'p' => OneIsWell(Blank(Ptr).(mut := Bit(t).value.0), t[2..]);
      case 'a' =>
        var size := U32Until(t[2..], '[');
        OneIsWell(Blank(Array).(hasSize := Bit(t).value.0, size := size.value.0), size.value.1);
      case _ => FnIsWell(t);
    }
  }

  lemma {:induction false} OneIsWell(node: Node, s: string)
    requires OneChild(node, s).Some? && node == Blank(node.kind).(mut := node.mut, hasSize := node.hasSize, size := node.size)
    requires node.kind in {Optional, Escape, Borrow, Ptr, Array}
    requires node.mut ==> node.kind == Borrow || node.kind == Ptr
    requires node.hasSize || node.size != 0 ==> node.kind == Array
    ensures WellFormed(OneChild(node, s).value.0)
    decreases |s|, 1
  {
    hide NodeText;
    ReadIsWell(s);
  }

  lemma {:induction false} NamedIsWell(name: string, s: string)
    requires |name| <= MAX_U32 && NamedRest(Blank(Named).(name := name), s).Some?
    ensures WellFormed(NamedRest(Blank(Named).(name := name), s).value.0)
    decreases |s|, 1
  {
    hide UntilClose;
    if Eat(s, '[').Some? {
      ListIsWell(s[1..]);
    }
  }

  lemma {:induction false} ListIsWell(s: string)
    requires UntilClose(s).Some?
    ensures ListWell(UntilClose(s).value.0)
    decreases |s|, 2
  {
    hide NodeText, WellFormed;
    if s != [] && s[0] != ']' {
      ReadIsWell(s);
      ListIsWell(NodeText(s).value.1);
    }
  }

  lemma {:induction false} FnIsWell(s: string)
    requires FnRest(s).Some?
    ensures WellFormed(FnRest(s).value.0)
    decreases |s|, 1
  {
    hide Several, U32Until;
    var count := U32Until(s[3..], '_');
    var throwing := ThrowingThenOpen(count.value.1);
    var params: nat := count.value.0;
    SeveralAreWell(throwing.value.1, params + 1);
  }

  lemma {:induction false} SeveralAreWell(s: string, n: nat)
    requires Several(s, n).Some?
    ensures ListWell(Several(s, n).value.0)
    decreases |s|, 2, n
  {
    hide NodeText, WellFormed;
    if n > 0 {
      ReadIsWell(s);
      SeveralAreWell(NodeText(s).value.1, n - 1);
    }
  }

  // ---- The codec -------------------------------------------------------------------------

  lemma {:induction false} WellIsShaped(n: Node)
    requires WellFormed(n)
    ensures Shaped(n)
  {
    forall c | c in n.children ensures Shaped(c) {
      WellIsShaped(c);
    }
  }

  /** A node comes back from its text just when it is well-formed. */
  lemma RoundTrip(n: Node)
    ensures NodeOf(Serialized(n)) == Some(n) <==> WellFormed(n)
  {
    hide NodeText, Serialized, WellFormed;
    if WellFormed(n) {
      WellIsShaped(n);
      Reads(n, "");
      assert Serialized(n) + "" == Serialized(n);
    }
    if NodeOf(Serialized(n)) == Some(n) {
      ReadIsWell(Serialized(n));
    }
  }

  /** No two well-formed nodes have the same text. */
  lemma Injective(a: Node, b: Node)
    requires WellFormed(a) && WellFormed(b) && Serialized(a) == Serialized(b)
    ensures a == b
  {
    hide NodeText, Serialized, WellFormed;
    RoundTrip(a);
    RoundTrip(b);
  }

  /** Whatever text is accepted, with leading zeros, an empty `[]` or no throwing digit, serialising what it
      stands for and reading that again changes nothing. */
  lemma Stable(s: string)
    requires NodeOf(s).Some?
    ensures NodeOf(Serialized(NodeOf(s).value)) == NodeOf(s)
  {
    hide NodeText, Serialized, WellFormed;
    ReadIsWell(s);
    RoundTrip(NodeOf(s).value);
  }

  // ---- The parser and the serialiser -----------------------------------------------------

  class Parser {
    const text: string
    var pos: nat

    constructor (text: string)
      ensures this.text == text && pos == 0
    {
      this.text, pos := text, 0;
    }

    function Left(): string
      requires pos <= |text|
      reads this
    {
      text[pos..]
    }

    method EatChar(c: char) returns (ok: bool)
      requires pos <= |text|
      modifies this
      ensures pos <= |text| && ok == Eat(old(Left()), c).Some?
      ensures Left() == if ok then Eat(old(Left()), c).value else old(Left())
    {
      if pos >= |text| || text[pos] != c {
        return false;
      }
      pos := pos + 1;
      ok := true;
    }

    method ParseU32Until(delim: char) returns (ok: bool, out: U32)
      requires pos <= |text|
      modifies this
      ensures pos <= |text| && ok == U32Until(old(Left()), delim).Some?
      ensures ok ==> U32Until(old(Left()), delim) == Some((out, Left()))
    {
      out := 0;
      if pos >= |text| || !IsDigit(text[pos]) {
        return false, 0;
      }
      var value: nat := 0;
      while pos < |text| && text[pos] != delim
        invariant pos <= |text| && value <= MAX_U32
        invariant U32Until(old(Left()), delim) == U32Rest(Left(), delim, value)
        decreases |text| - pos
      {
        if !IsDigit(text[pos]) {
          return false, 0;
        }
        value := value * 10 + DigitOf(text[pos]);
        if value > MAX_U32 {
          return false, 0;
        }
        assert Left()[1..] == text[pos + 1..];
        pos := pos + 1;
      }
      out := value;
      ok := EatChar(delim);
    }

    method ParseLenString() returns (ok: bool, out: string)
      requires pos <= |text|
      modifies this
      ensures pos <= |text| && ok == LenString(old(Left())).Some?
      ensures ok ==> LenString(old(Left())) == Some((out, Left()))
    {
      out := "";
      var len: U32;
      ok, len := ParseU32Until('_');
      if !ok || pos + len > |text| {
        return false, "";
      }
      out := text[pos..pos + len];
      assert Left()[..len] == out && Left()[len..] == text[pos + len..];
      pos := pos + len;
    }

    method ParseBit() returns (ok: bool, out: bool)
      requires pos <= |text|
      modifies this
      ensures pos <= |text| && ok == Bit(old(Left())).Some?
      ensures ok ==> Bit(old(Left())) == Some((out, Left()))
    {
      if pos >= |text| {
        return false, false;
      }
      var c := text[pos];
      pos := pos + 1;
      ok, out := c == '0' || c == '1', c == '1';
    }

    method ParseNode() returns (ok: bool, out: Node)
      requires pos <= |text|
      modifies this
      ensures pos <= |text| && ok == NodeText(old(Left())).Some?
      ensures ok ==> NodeText(old(Left())) == Some((out, Left())) && pos > old(pos)
      decreases |text| - pos, 0
    {
      hide LenString, U32Until;
      out := Blank(Builtin);
      if pos >= |text| {
        return false, out;
      }
      var tag := text[pos];
      assert Left()[1..] == text[pos + 1..];
      pos := pos + 1;
      var bit: bool;
      match tag {
        case 'b' =>
          var name: string;
          ok, name := ParseLenString();
          out := Blank(Builtin).(name := name);
        case 'n' =>
          var name: string;
          ok, name := ParseLenString();
          if ok {
            ok, out := ParseNamedRest(Blank(Named).(name := name));
          }
        case 'o' =>
          ok, out := ParseBracketed(Blank(Optional));
        case 'e' =>
          ok, out := ParseBracketed(Blank(Escape));
        case 'r' =>
          ok, bit := ParseBit();
          if ok {
            ok, out := ParseBracketed(Blank(Borrow).(mut := bit));
          }
        case 'p' =>
          ok, bit := ParseBit();
          if ok {
            ok, out := ParseBracketed(Blank(Ptr).(mut := bit));
          }
        case 'a' =>
          ok, out := ParseArrayRest();
        case 'f' =>
          ok, out := ParseFnRest();
        case _ =>
          ok := false;
      }
    }

    method ParseNamedRest(node: Node) returns (ok: bool, out: Node)
      requires pos <= |text|
      modifies this
      ensures pos <= |text| && ok == NamedRest(node, old(Left())).Some?
      ensures ok ==> NamedRest(node, old(Left())) == Some((out, Left()))
      decreases |text| - pos, 2
    {
      out := node;
      var open := EatChar('[');
      if !open {
        return true, out;
      }
      hide NodeText;
      ghost var all := UntilClose(Left());
      var children: seq<Node> := [];
      PrefixedOnce([], node, all);
      while pos < |text| && text[pos] != ']'
        invariant old(pos) < pos <= |text|
        invariant all == Prefixed(children, UntilClose(Left()))
        decreases |text| - pos
      {
        var child: Node;
        ok, child := ParseNode();
        if !ok {
          return false, out;
        }
        PrefixedOnce(children, child, UntilClose(Left()));
        children := children + [child];
      }
      assert children + [] == children;
      ok := EatChar(']');
      out := node.(children := children);
    }

    method ParseBracketed(node: Node) returns (ok: bool, out: Node)
      requires pos <= |text|
      modifies this
      ensures pos <= |text| && ok == Bracketed(node, old(Left())).Some?
      ensures ok ==> Bracketed(node, old(Left())) == Some((out, Left()))
      decreases |text| - pos, 2
    {
      out := node;
      ok := EatChar('[');
      if ok {
        ok, out := ParseOneChild(node);
      }
    }

    method ParseOneChild(node: Node) returns (ok: bool, out: Node)
      requires pos <= |text|
      modifies this
      ensures pos <= |text| && ok == OneChild(node, old(Left())).Some?
      ensures ok ==> OneChild(node, old(Left())) == Some((out, Left()))
      decreases |text| - pos, 1
    {
      out := node;
      var child: Node;
      ok, child := ParseNode();
      if !ok {
        return;
      }
      out := node.(children := [child]);
      ok := EatChar(']');
    }

    method ParseArrayRest() returns (ok: bool, out: Node)
      requires pos <= |text|
      modifies this
      ensures pos <= |text| && ok == ArrayRest(old(Left())).Some?
      ensures ok ==> ArrayRest(old(Left())) == Some((out, Left()))
      decreases |text| - pos, 2
    {
      out := Blank(Array);
      var has: bool;
      var size: U32;
      ok, has := ParseBit();
      if !ok {
        return;
      }
      ok := EatChar('_');
      if !ok {
        return;
      }
      ok, size := ParseU32Until('[');
      if !ok {
        return;
      }
      ok, out := ParseOneChild(Blank(Array).(hasSize := has, size := size));
    }

    method ParseFnRest() returns (ok: bool, out: Node)
      requires pos <= |text|
      modifies this
      ensures pos <= |text| && ok == FnRest(old(Left())).Some?
      ensures ok ==> FnRest(old(Left())) == Some((out, Left()))
      decreases |text| - pos, 2
    {
      hide NodeText, U32Until;
      out := Blank(Fn);
      if pos + 3 > |text| {
        return false, out;
      }
      var cAbi, variadic, cc := text[pos], text[pos + 1], text[pos + 2];
      assert Left()[1..] == text[pos + 1..] && Left()[3..] == text[pos + 3..];
      pos := pos + 3;
      if (cAbi != '0' && cAbi != '1') || (variadic != '0' && variadic != '1') {
        return false, out;
      }
      var count: U32;
      var throwing: bool;
      ok, count := ParseU32Until('_');
      if !ok {
        return;
      }
      ok, throwing := ParseThrowing();
      if !ok {
        return;
      }
      var children: seq<Node>;
      ok, children := ParseSeveral(count + 1);
      if !ok {
        return;
      }
      out := Blank(Fn).(cAbi := cAbi == '1', variadic := variadic == '1', cc := CallConvOf(cc), throwing := throwing,
                        children := children);
      ok := EatChar(']');
    }

    method ParseThrowing() returns (ok: bool, throwing: bool)
      requires pos <= |text|
      modifies this
      ensures pos <= |text| && ok == ThrowingThenOpen(old(Left())).Some?
      ensures ok ==> ThrowingThenOpen(old(Left())) == Some((throwing, Left()))
    {
      var older := EatChar('[');
      if older {
        return true, false;
      }
      ok, throwing := ParseBit();
      if ok {
        ok := EatChar('[');
      }
    }

    method ParseSeveral(n: nat) returns (ok: bool, children: seq<Node>)
      requires pos <= |text|
      modifies this
      ensures pos <= |text| && ok == Several(old(Left()), n).Some?
      ensures ok ==> Several(old(Left()), n) == Some((children, Left()))
      decreases |text| - pos, 2
    {
      hide NodeText;
      ghost var all := Several(Left(), n);
      children := [];
      PrefixedOnce([], Blank(Fn), all);
      var i := 0;
      while i < n
        invariant 0 <= i <= n && old(pos) <= pos <= |text|
        invariant all == Prefixed(children, Several(Left(), n - i))
        decreases n - i
      {
        var child: Node;
        ok, child := ParseNode();
        if !ok {
          return;
        }
        PrefixedOnce(children, child, Several(Left(), n - i - 1));
        children := children + [child];
        i := i + 1;
      }
      assert children + [] == children;
      ok := true;
    }
  }

  method ParseTypeSemantic(text: string) returns (ok: bool, out: Node)
    ensures ok == NodeOf(text).Some? && (ok ==> NodeOf(text) == Some(out))
  {
    var p := new Parser(text);
    assert p.Left() == text;
    ok, out := p.ParseNode();
    if ok {
      ok := p.pos == |text|;
    }
  }

  /** Appends a node's text. */
  method SerializeInto(out: string, n: Node) returns (r: string)
    ensures r == out + Serialized(n)
    decreases n
  {
    hide Serialized, ChildrenText, Opening, Closing;
    TextOf(n);
    r := out + Opening(n);
    for i := 0 to Shown(n)
      invariant out + Serialized(n) == r + ChildrenText(n, i) + Closing(n)
    {
      ChildrenStep(n, i);
      r := SerializeInto(r, n.children[i]);
    }
    ChildrenStep(n, Shown(n));
    r := r + Closing(n);
  }

  /** A list in front of one that was read. */
  function Prefixed(first: seq<Node>, r: Parsed<seq<Node>>): Parsed<seq<Node>> {
    if r.None? then None else Some((first + r.value.0, r.value.1))
  }

  lemma PrefixedOnce(a: seq<Node>, b: Node, r: Parsed<seq<Node>>)
    ensures Prefixed(a, Prefixed([b], r)) == Prefixed(a + [b], r) && Prefixed([], r) == r
  {
    if r.Some? {
      assert a + ([b] + r.value.0) == a + [b] + r.value.0 && [] + r.value.0 == r.value.0;
    }
  }

  // ---- The texts themselves --------------------------------------------------------------

  /** The texts of nodes, one after the other. */
  function Texts(ns: seq<Node>): string { if ns == [] then "" else Serialized(ns[0]) + Texts(ns[1..]) }

  lemma {:induction false} ChildrenAreTexts(n: Node, i: nat)
    requires i <= Shown(n) == |n.children|
    ensures ChildrenText(n, i) == Texts(n.children[i..])
    decreases Shown(n) - i
  {
    hide Serialized;
    ChildrenStep(n, i);
    if i < Shown(n) {
      ChildrenAreTexts(n, i + 1);
      assert n.children[i..][1..] == n.children[i + 1..];
    }
  }

  /** The letters of the calling conventions, and back; another letter is read as the default. */
  lemma Conventions(c: char)
    ensures CallConvChar(Default) == 'd' && CallConvChar(Cdecl) == 'c' && CallConvChar(StdCall) == 's'
    ensures CallConvChar(FastCall) == 'f' && CallConvChar(VectorCall) == 'v'
    ensures CallConvChar(Win64) == 'w' && CallConvChar(SysV) == 'y'
    ensures forall cc :: CallConvOf(CallConvChar(cc)) == cc
    ensures (forall cc :: CallConvChar(cc) != c) ==> CallConvOf(c) == Default
  {
    assert CallConvOf(c) != Default ==> CallConvChar(CallConvOf(c)) == c;
  }

  function Mark(b: bool): string { if b then "1" else "0" }

  /** What the text of a node looks like, kind by kind. */
  lemma {:induction false} TextShape(n: Node)
    requires WellFormed(n)
    ensures n.kind == Builtin ==> Serialized(n) == "b" + NatText(|n.name|) + "_" + n.name
    ensures n.kind == Named && n.children == [] ==> Serialized(n) == "n" + NatText(|n.name|) + "_" + n.name
    ensures n.kind == Named && n.children != [] ==>
      Serialized(n) == "n" + NatText(|n.name|) + "_" + n.name + "[" + Texts(n.children) + "]"
    ensures n.kind == Optional ==> Serialized(n) == "o[" + Texts(n.children) + "]"
    ensures n.kind == Escape ==> Serialized(n) == "e[" + Texts(n.children) + "]"
    ensures n.kind == Borrow ==> Serialized(n) == "r" + Mark(n.mut) + "[" + Texts(n.children) + "]"
    ensures n.kind == Ptr ==> Serialized(n) == "p" + Mark(n.mut) + "[" + Texts(n.children) + "]"
    ensures n.kind == Array ==>
      Serialized(n) == "a" + Mark(n.hasSize) + "_" + NatText(n.size) + "[" + Texts(n.children) + "]"
  {
    hide NatText, ChildrenText, Texts, Serialized, WellFormed;
    ShownAll(n);
    TextOf(n);
    ChildrenStep(n, 0);
    if n.kind != Builtin {
      ChildrenAreTexts(n, 0);
      assert n.children[0..] == n.children;
    }
    match n.kind
    case Named => assert "n" + NatText(|n.name|) + "_" + n.name + "" == "n" + NatText(|n.name|) + "_" + n.name;
    case _ =>
  }

  lemma ShownAll(n: Node)
    requires WellFormed(n)
    ensures Shape(n) && (n.kind != Builtin ==> Shown(n) == |n.children|) && (n.kind == Builtin ==> Shown(n) == 0)
  {
  }

  lemma {:induction false} FnText(n: Node)
    requires WellFormed(n) && n.kind == Fn
    ensures Serialized(n) == "f" + Mark(n.cAbi) + Mark(n.variadic) + [CallConvChar(n.cc)] + NatText(|n.children| - 1) + "_"
                             + Mark(n.throwing) + "[" + Texts(n.children) + "]"
  {
    hide NatText, ChildrenText, Texts, Serialized, WellFormed, CallConvChar;
    ShownAll(n);
    TextOf(n);
    ChildrenAreTexts(n, 0);
    assert n.children[0..] == n.children;
  }

  /** A node that is read leaves what its kind does not use at its default. */
  lemma ReadDefaults(s: string, n: Node)
    requires NodeOf(s) == Some(n)
    ensures n.kind != Borrow && n.kind != Ptr ==> !n.mut
    ensures n.kind != Array ==> !n.hasSize && n.size == 0
    ensures n.kind != Fn ==> !n.throwing && !n.cAbi && !n.variadic && n.cc == Default
    ensures n.kind != Builtin && n.kind != Named ==> n.name == ""
    ensures n.kind == Builtin ==> n.children == []
  {
    hide NodeText;
    ReadIsWell(s);
  }

  /** A function's text as it was before there was a digit for throwing: it is read as one that does not throw. */
  lemma {:induction false} OlderText(n: Node)
    requires WellFormed(n) && n.kind == Fn && !n.throwing
    ensures var before := "f" + Mark(n.cAbi) + Mark(n.variadic) + [CallConvChar(n.cc)] + NatText(|n.children| - 1) + "_";
            var after := "[" + Texts(n.children) + "]";
            Serialized(n) == before + "0" + after && NodeOf(before + after) == Some(n)
  {
    hide NatText, ChildrenText, Texts, Serialized;
    FnText(n);
    WellIsShaped(n);
    ChildrenAreTexts(n, 0);
    assert n.children[0..] == n.children;
    var before := "f" + Mark(n.cAbi) + Mark(n.variadic) + [CallConvChar(n.cc)] + NatText(|n.children| - 1) + "_";
    OlderRead(n, before + ("[" + Texts(n.children) + "]"));
  }

  lemma {:induction false} OlderRead(n: Node, s: string)
    requires Shaped(n) && WellFormed(n) && n.kind == Fn && !n.throwing
    requires s == "f" + Mark(n.cAbi) + Mark(n.variadic) + [CallConvChar(n.cc)] + NatText(|n.children| - 1) + "_"
                  + ("[" + ChildrenText(n, 0) + "]")
    ensures NodeOf(s) == Some(n)
  {
    hide Serialized, ChildrenText, U32Until, NatText, Several, BitChar, CallConvChar, CallConvOf, ThrowingThenOpen;
    var types := ChildrenText(n, 0) + "]";
    var number := NatText(|n.children| - 1) + ['_'] + ("[" + types);
    NumberRead(|n.children| - 1, '_', "[" + types);
    ReadsSeveral(n, 0, "");
    assert types + "" == types && "]" + "" == "]";
    Marks(n);
    assert s == "f" + [BitChar(n.cAbi), BitChar(n.variadic), CallConvChar(n.cc)] + number;
    FnHead(n, s, number);
    NoDigit(types);
    assert types == ChildrenText(n, 0) + "]" && |"]"| == 1 && "]"[1..] == "" && n.children[0..] == n.children;
    var t := s[1..];
    assert U32Until(t[3..], '_') == Some((|n.children| - 1, "[" + types));
    assert Several(types, |n.children|) == Some((n.children, "]"));
    assert FnRest(t) == Some((n, ""));
  }

  lemma Marks(n: Node)
    ensures Mark(n.cAbi) == [BitChar(n.cAbi)] && Mark(n.variadic) == [BitChar(n.variadic)]
  {
  }

  lemma NoDigit(types: string)
    ensures ThrowingThenOpen("[" + types) == Some((false, types))
  {
    assert ("[" + types)[1..] == types;
  }

  /** Brackets with nothing between them are as good as none. */
  lemma NoArguments(name: string)
    requires |name| <= MAX_U32
    ensures NodeOf("n" + (NatText(|name|) + "_" + name + "[]")) == Some(Blank(Named).(name := name))
    ensures NodeOf("n" + (NatText(|name|) + "_" + name + "")) == Some(Blank(Named).(name := name))
  {
    hide LenString, NatText, NodeText, NamedRest;
    var t := NatText(|name|) + "_" + name;
    NameRead(name, "[]");
    NameRead(name, "");
    NamedText(t + "[]");
    NamedText(t + "");
    NothingInside(Blank(Named).(name := name));
  }

  lemma NothingInside(node: Node)
    requires node.children == []
    ensures NamedRest(node, "") == Some((node, "")) && NamedRest(node, "[]") == Some((node, ""))
  {
    hide NodeText;
    assert "[]"[1..] == "]" && "]"[1..] == "";
    assert UntilClose("]") == Some(([], "]"));
  }
}
