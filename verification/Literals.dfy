/** Literal texts: decimal integers, characters and booleans, as the gOIR builder reads them. */
module Literals {
  import opened Wrappers

  predicate IsDigit(c: char) { '0' <= c <= '9' }

  function DigitOf(c: char): nat
    requires IsDigit(c)
  {
    c as int - '0' as int
  }

  function DigitChar(d: nat): (c: char)
    requires d < 10
    ensures IsDigit(c) && DigitOf(c) == d
  {
    '0' + d as char
  }

  /** The decimal text of a natural number, as `std::to_string` prints it. */
  function NatText(n: nat): (s: string)
    ensures |s| > 0 && forall i :: 0 <= i < |s| ==> IsDigit(s[i])
  {
    if n < 10 then [DigitChar(n)] else NatText(n / 10) + [DigitChar(n % 10)]
  }

  /** Digits are accumulated, `_` is skipped, and anything else ends the number. */
  function DigitsValue(text: string, acc: nat): nat {
    if text == [] then acc
    else if IsDigit(text[0]) then DigitsValue(text[1..], acc * 10 + DigitOf(text[0]))
    else if text[0] == '_' then DigitsValue(text[1..], acc)
    else acc
  }

  predicate SawDigit(text: string) {
    text != [] && (IsDigit(text[0]) || (text[0] == '_' && SawDigit(text[1..])))
  }

  /** The number an integer literal denotes: an optional sign, then digits; no digit means zero. */
  function IntLiteralValue(text: string): int {
    if text != [] && text[0] == '-' then -(DigitsValue(text[1..], 0) as int)
    else if text != [] && text[0] == '+' then DigitsValue(text[1..], 0)
    else DigitsValue(text, 0)
  }

  const I64_MIN: int := -0x8000_0000_0000_0000
  const I64_MAX: int := 0x7FFF_FFFF_FFFF_FFFF

  /** `std::from_chars` on the sanitized text: it takes no leading `+` and must fit 64 bits. */
  function ParseI64Literal(text: string): Option<int> {
    if text != [] && text[0] == '+' && SawDigit(text[1..]) then None
    else
      var v := IntLiteralValue(text);
      if I64_MIN <= v <= I64_MAX then Some(v) else None
  }

  function HexDigit(c: char): Option<nat> {
    if '0' <= c <= '9' then Some(c as int - '0' as int)
    else if 'a' <= c <= 'f' then Some(10 + c as int - 'a' as int)
    else if 'A' <= c <= 'F' then Some(10 + c as int - 'A' as int)
    else None
  }

  function EscapeCode(c: char): Option<nat> {
    match c
    case 'n' => Some(10)
    case 'r' => Some(13)
    case 't' => Some(9)
    case '\\' => Some(92)
    case '\'' => Some(39)
    case '0' => Some(0)
    case _ => None
  }

  /** The code of a quoted character literal: plain, escaped, or `\xHH`. */
  function CharLiteralCode(text: string): Option<nat> {
    if |text| < 3 || text[0] != '\'' || text[|text| - 1] != '\'' then None
    else
      var body := text[1..|text| - 1];
      if body[0] != '\\' then
        if |body| == 1 then Some(body[0] as int) else None
      else if |body| == 2 then EscapeCode(body[1])
      else if |body| == 4 && body[1] == 'x' && HexDigit(body[2]).Some? && HexDigit(body[3]).Some? then
        Some(HexDigit(body[2]).value * 16 + HexDigit(body[3]).value)
      else None
  }

  function BoolLiteralValue(text: string): bool { text == "true" || text == "1" }

  /** Reading digits continues where an earlier run of digits stopped. */
  lemma {:induction false} DigitsValueAppend(s: string, t: string, acc: nat)
    requires forall i :: 0 <= i < |s| ==> IsDigit(s[i])
    ensures DigitsValue(s + t, acc) == DigitsValue(t, DigitsValue(s, acc))
  {
    if s == [] {
      assert s + t == t;
    } else {
      assert (s + t)[1..] == s[1..] + t;
      DigitsValueAppend(s[1..], t, acc * 10 + DigitOf(s[0]));
    }
  }

  /** Printing a number and reading it back as a literal gives the number. */
  lemma {:induction false} NatTextRoundTrip(n: nat)
    ensures IntLiteralValue(NatText(n)) == n
  {
    DigitsOfNatText(n);
  }

  lemma {:induction false} DigitsOfNatText(n: nat)
    ensures DigitsValue(NatText(n), 0) == n
  {
    if n >= 10 {
      DigitsOfNatText(n / 10);
      DigitsValueAppend(NatText(n / 10), [DigitChar(n % 10)], 0);
      assert DigitsValue([DigitChar(n % 10)], n / 10) == n / 10 * 10 + n % 10 by {
        assert [DigitChar(n % 10)][1..] == [];
      }
    } else {
      assert [DigitChar(n)][1..] == [];
    }
  }

  // ---- What the texts mean ----------------------------------------------------------------

  /** Digits and `_`, as they may follow the sign. */
  predicate DigitsOnly(s: string) { forall i :: 0 <= i < |s| ==> IsDigit(s[i]) || s[i] == '_' }

  /** One character more: a digit is appended to the number, `_` changes nothing, and whatever follows
      another character changes nothing either. */
  lemma {:induction false} DigitByDigit(s: string, c: char, rest: string, acc: nat)
    requires DigitsOnly(s)
    ensures '0' <= c <= '9' ==> DigitsValue(s + [c], acc) == 10 * DigitsValue(s, acc) + (c as int - '0' as int)
    ensures c == '_' ==> DigitsValue(s + [c], acc) == DigitsValue(s, acc)
    ensures c != '_' && !('0' <= c <= '9') ==> DigitsValue(s + [c] + rest, acc) == DigitsValue(s, acc)
  {
    if s == [] {
      assert s + [c] == [c] && ([c] + rest)[0] == c && [c][1..] == [];
      assert s + [c] + rest == [c] + rest;
    } else {
      assert (s + [c])[1..] == s[1..] + [c] && (s + [c] + rest)[1..] == s[1..] + [c] + rest;
      DigitByDigit(s[1..], c, rest, if IsDigit(s[0]) then acc * 10 + DigitOf(s[0]) else acc);
    }
  }

  /** Signs: a number with one in front, and one that is behind no sign. */
  lemma Signs(s: string)
    ensures IntLiteralValue("-" + s) == -(DigitsValue(s, 0) as int) && IntLiteralValue("+" + s) == DigitsValue(s, 0)
    ensures s != [] && '0' <= s[0] <= '9' ==> IntLiteralValue(s) == DigitsValue(s, 0)
    ensures IntLiteralValue([]) == 0
  {
    assert ("-" + s)[1..] == s && ("+" + s)[1..] == s;
  }

  /** The numbers a pattern can have: those of 64 bits, without a `+`. */
  lemma PatternNumbers(n: nat)
    ensures ParseI64Literal(NatText(n)) == if n < 0x8000_0000_0000_0000 then Some(n) else None
    ensures ParseI64Literal("-" + NatText(n)) == if n <= 0x8000_0000_0000_0000 then Some(-(n as int)) else None
    ensures ParseI64Literal("+" + NatText(n)) == None
  {
    var s := NatText(n);
    NatTextRoundTrip(n);
    DigitsOfNatText(n);
    Signs(s);
    assert IsDigit(s[0]) && ("+" + s)[1..] == s && ("-" + s)[0] == '-';
  }

  /** A pattern without a digit stands for zero, whatever its sign. */
  lemma {:induction false} PatternWithoutDigit(s: string)
    requires forall i :: 0 <= i < |s| ==> s[i] == '_'
    ensures DigitsValue(s, 0) == 0 && !SawDigit(s)
    ensures ParseI64Literal(s) == Some(0) && ParseI64Literal("+" + s) == Some(0) && ParseI64Literal("-" + s) == Some(0)
  {
    if s != [] {
      PatternWithoutDigit(s[1..]);
    }
    Signs(s);
    assert ("+" + s)[1..] == s && ("-" + s)[0] == '-';
  }

  const ESCAPES := "nrt\\'0"
  const ESCAPED := [10, 13, 9, 92, 39, 0]
  const LOWER_HEX := "0123456789abcdef"
  const UPPER_HEX := "0123456789ABCDEF"

  predicate IsHex(c: char, d: nat)
    requires d < 16
  {
    c == LOWER_HEX[d] || c == UPPER_HEX[d]
  }

  lemma HexDigits(c: char, d: nat)
    requires d < 16
    ensures HexDigit(c) == Some(d) <==> IsHex(c, d)
  {
  }

  /** The texts of the character `n`: itself in quotes, an escape, or two hexadecimal digits. */
  ghost predicate CharText(text: string, n: nat) {
    || (exists c: char :: c != '\\' && n == c as int && text == ['\'', c, '\''])
    || (exists i :: 0 <= i < 6 && n == ESCAPED[i] && text == ['\'', '\\', ESCAPES[i], '\''])
    || (exists c: char, d: char, h: nat, l: nat ::
          h < 16 && l < 16 && IsHex(c, h) && IsHex(d, l) && n == 16 * h + l && text == ['\'', '\\', 'x', c, d, '\''])
  }

  lemma CharTextsAreRead(text: string, n: nat)
    requires CharText(text, n)
    ensures CharLiteralCode(text) == Some(n)
  {
    hide CharLiteralCode, IsHex;
    if c: char :| c != '\\' && n == c as int && text == ['\'', c, '\''] {
      PlainRead(c);
    } else if i :| 0 <= i < 6 && n == ESCAPED[i] && text == ['\'', '\\', ESCAPES[i], '\''] {
      EscapeRead(i);
    } else {
      var c: char, d: char, h: nat, l: nat :|
        h < 16 && l < 16 && IsHex(c, h) && IsHex(d, l) && n == 16 * h + l && text == ['\'', '\\', 'x', c, d, '\''];
      HexRead(c, d, h, l);
    }
  }

  lemma PlainRead(c: char)
    requires c != '\\'
    ensures CharLiteralCode(['\'', c, '\'']) == Some(c as int)
  {
    Quoted([c]);
  }

  lemma EscapeRead(i: nat)
    requires i < 6
    ensures CharLiteralCode(['\'', '\\', ESCAPES[i], '\'']) == Some(ESCAPED[i])
  {
    var c := ESCAPES[i];
    Quoted(['\\', c]);
    assert EscapeCode(c) == Some(ESCAPED[i]);
    hide EscapeCode;
  }

  lemma HexRead(c: char, d: char, h: nat, l: nat)
    requires h < 16 && l < 16 && IsHex(c, h) && IsHex(d, l)
    ensures CharLiteralCode(['\'', '\\', 'x', c, d, '\'']) == Some(16 * h + l)
  {
    HexDigits(c, h);
    HexDigits(d, l);
    hide IsHex, HexDigit, EscapeCode;
    Quoted(['\\', 'x', c, d]);
  }

  lemma Quoted(body: string)
    ensures var text := ['\''] + body + ['\'']; |text| == |body| + 2 && text[1..|text| - 1] == body
    ensures |body| == 1 ==> ['\''] + body + ['\''] == ['\'', body[0], '\'']
    ensures |body| == 2 ==> ['\''] + body + ['\''] == ['\'', body[0], body[1], '\'']
    ensures |body| == 4 ==> ['\''] + body + ['\''] == ['\'', body[0], body[1], body[2], body[3], '\'']
  {
  }

  /** The texts that are read as the character `n` are exactly its texts. */
  lemma CharTexts(text: string, n: nat)
    ensures CharLiteralCode(text) == Some(n) <==> CharText(text, n)
  {
    hide IsHex;
    if CharText(text, n) {
      CharTextsAreRead(text, n);
    }
    if CharLiteralCode(text) == Some(n) {
      var body := text[1..|text| - 1];
      assert text == ['\''] + body + ['\''];
      if body[0] != '\\' {
        assert text == ['\'', body[0], '\''];
      } else if |body| == 2 {
        assert text == ['\'', '\\', body[1], '\''];
        assert exists i :: 0 <= i < 6 && n == ESCAPED[i] && body[1] == ESCAPES[i] by {
          assert ESCAPES[0] == 'n' && ESCAPES[1] == 'r' && ESCAPES[2] == 't' && ESCAPES[3] == '\\'
              && ESCAPES[4] == '\'' && ESCAPES[5] == '0';
        }
      } else {
        var h, l := HexDigit(body[2]).value, HexDigit(body[3]).value;
        HexDigits(body[2], h);
        HexDigits(body[3], l);
        assert text == ['\'', '\\', 'x', body[2], body[3], '\''];
      }
    }
  }
}
