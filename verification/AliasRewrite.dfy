/** Qualifying imported type names with the alias of their import: on type nodes and on type texts. */
module AliasRewrite {
  import opened Wrappers
  import opened TypeSemantic

  // ---- On nodes --------------------------------------------------------------------------

  predicate Qualified(name: string) { exists i :: 0 <= i && i + 1 < |name| && name[i] == ':' && name[i + 1] == ':' }

  function NewName(name: string, alias: string, known: set<string>): string {
    if !Qualified(name) && alias != "" && name in known then alias + "::" + name else name
  }

  function Rewritten(n: Node, alias: string, known: set<string>): (r: Node)
    ensures r.kind == n.kind && |r.children| == |n.children|
  {
    n.(name := if n.kind == Named then NewName(n.name, alias, known) else n.name,
       children := seq(|n.children|, i requires 0 <= i < |n.children| => Rewritten(n.children[i], alias, known)))
  }

  method RewriteNode(n: Node, alias: string, known: set<string>) returns (r: Node)
    ensures r == Rewritten(n, alias, known)
  {
    r := n;
    if n.kind == Named {
      r := r.(name := NewName(n.name, alias, known));
    }
    var children := [];
    for i := 0 to |n.children|
      invariant |children| == i && forall j :: 0 <= j < i ==> children[j] == Rewritten(n.children[j], alias, known)
    {
      var child := RewriteNode(n.children[i], alias, known);
      children := children + [child];
    }
    r := r.(children := children);
  }

  function RewrittenText(text: string, alias: string, known: set<string>): string {
    if text == "" || alias == "" || known == {} || NodeOf(text).None? then text
    else Serialized(Rewritten(NodeOf(text).value, alias, known))
  }

  method RewriteTypeSemanticWithAlias(text: string, alias: string, known: set<string>) returns (r: string)
    ensures r == RewrittenText(text, alias, known)
  {
    hide Serialized, NodeOf;
    if text == "" || alias == "" || known == {} {
      return text;
    }
    var ok, node := ParseTypeSemantic(text);
    if !ok {
      return text;
    }
    var rewritten := RewriteNode(node, alias, known);
    r := SerializeInto("", rewritten);
    assert "" + Serialized(rewritten) == Serialized(rewritten);
  }

  lemma QualifiedNow(name: string, alias: string)
    ensures Qualified(alias + "::" + name)
  {
    var s := alias + "::" + name;
    assert s[|alias|] == ':' && s[|alias| + 1] == ':';
  }

  lemma {:induction false} RewrittenTwice(n: Node, alias: string, known: set<string>)
    ensures Rewritten(Rewritten(n, alias, known), alias, known) == Rewritten(n, alias, known)
  {
    QualifiedNow(n.name, alias);
    forall c | c in n.children ensures Rewritten(Rewritten(c, alias, known), alias, known) == Rewritten(c, alias, known) {
      RewrittenTwice(c, alias, known);
    }
    var once, twice := Rewritten(n, alias, known), Rewritten(Rewritten(n, alias, known), alias, known);
    forall i | 0 <= i < |n.children| ensures twice.children[i] == once.children[i] {
      assert n.children[i] in n.children;
    }
    assert twice.children == once.children;
  }

  lemma {:induction false} RewrittenShape(n: Node, alias: string, known: set<string>)
    requires Shaped(n)
    ensures Shaped(Rewritten(n, alias, known))
  {
    var r := Rewritten(n, alias, known);
    forall i | 0 <= i < |n.children| ensures Shaped(r.children[i]) {
      RewrittenShape(n.children[i], alias, known);
    }
  }

  lemma {:induction false} NothingToRewrite(n: Node, alias: string, known: set<string>)
    requires alias == "" || known == {}
    ensures Rewritten(n, alias, known) == n
  {
    forall i | 0 <= i < |n.children| ensures Rewritten(n.children[i], alias, known) == n.children[i] {
      NothingToRewrite(n.children[i], alias, known);
    }
    assert Rewritten(n, alias, known).children == n.children;
  }

  /** Rewriting the text of a node gives the text of the rewritten node. */
  lemma RewriteCommutes(n: Node, alias: string, known: set<string>)
    requires WellFormed(n)
    ensures RewrittenText(Serialized(n), alias, known) == Serialized(Rewritten(n, alias, known))
  {
    hide NodeOf, Serialized, WellFormed;
    RoundTrip(n);
    Head(n);
    if alias == "" || known == {} {
      NothingToRewrite(n, alias, known);
    }
  }

  /** Rewriting a text, whatever it is, a second time changes nothing. */
  lemma RewriteIdempotent(text: string, alias: string, known: set<string>)
    ensures RewrittenText(RewrittenText(text, alias, known), alias, known) == RewrittenText(text, alias, known)
  {
    hide NodeText, Serialized, WellFormed, Rewritten;
    if RewrittenText(text, alias, known) != text {
      var n := NodeOf(text).value;
      var r := Rewritten(n, alias, known);
      ReadIsWell(text);
      WellIsShaped(n);
      RewrittenShape(n, alias, known);
      Reads(r, "");
      assert Serialized(r) + "" == Serialized(r);
      RewrittenTwice(n, alias, known);
    }
  }

  // ---- On texts of types -----------------------------------------------------------------

  predicate IdentStart(c: char) { c == '_' || 'a' <= c <= 'z' || 'A' <= c <= 'Z' }

  predicate IdentContinue(c: char) { IdentStart(c) || '0' <= c <= '9' }

  const BUILTIN_TOKENS: set<string> :=
    {"void", "bool", "char", "i8", "i16", "i32", "i64", "i128", "u8", "u16", "u32", "u64", "u128", "isize", "usize",
     "f32", "f64", "f128", "text", "null", "const", "mut", "def"}

  /** How far an identifier goes on. */
  function IdentLength(s: string): (k: nat)
    ensures k <= |s| && (forall i :: 0 <= i < k ==> IdentContinue(s[i])) && (k < |s| ==> !IdentContinue(s[k]))
  {
    if s == "" || !IdentContinue(s[0]) then 0 else 1 + IdentLength(s[1..])
  }

  predicate IsBuiltinToken(tok: string) { tok in BUILTIN_TOKENS }

  predicate StartsScope(s: string) { |s| >= 2 && s[0] == ':' && s[1] == ':' }

  /** Whether a token becomes qualified: it is a known name, no builtin, with no `::` on either side. */
  predicate Renames(tok: string, colons: nat, after: string, known: set<string>) {
    colons < 2 && !StartsScope(after) && !IsBuiltinToken(tok) && tok in known
  }

  /** The rewriting of the rest of a text, `colons` many colons standing just before it. */
  function Scanned(s: string, colons: nat, alias: string, known: set<string>): string
    decreases |s|
  {
    if s == "" then "" else
    if !IdentStart(s[0]) then [s[0]] + Scanned(s[1..], if s[0] == ':' then colons + 1 else 0, alias, known) else
    var k := IdentLength(s);
    var tok, after := s[..k], s[k..];
    (if Renames(tok, colons, after, known) then alias + "::" + tok else tok) + Scanned(after, 0, alias, known)
  }

  function TypeRewritten(text: string, alias: string, known: set<string>): string {
    if text == "" || alias == "" || known == {} then text else Scanned(text, 0, alias, known)
  }

  /** How many colons stand at the end. */
  function Colons(s: string): nat {
    if s == "" || s[|s| - 1] != ':' then 0 else 1 + Colons(s[..|s| - 1])
  }

  lemma ColonsBefore(text: string, i: nat)
    requires i <= |text|
    ensures Colons(text[..i]) >= 2 <==> i >= 2 && text[i - 1] == ':' && text[i - 2] == ':'
    ensures i < |text| ==> Colons(text[..i + 1]) == if text[i] == ':' then Colons(text[..i]) + 1 else 0
  {
    assert i >= 1 ==> text[..i][..i - 1] == text[..i - 1];
    assert i >= 2 ==> text[..i - 1][..i - 2] == text[..i - 2];
    assert i < |text| ==> text[..i + 1][..i] == text[..i];
  }

  lemma ScanStep(s: string, colons: nat, alias: string, known: set<string>)
    requires s != ""
    ensures !IdentStart(s[0]) ==>
      Scanned(s, colons, alias, known) == [s[0]] + Scanned(s[1..], if s[0] == ':' then colons + 1 else 0, alias, known)
    ensures IdentStart(s[0]) ==>
      var k := IdentLength(s);
      Scanned(s, colons, alias, known)
      == (if Renames(s[..k], colons, s[k..], known) then alias + "::" + s[..k] else s[..k])
         + Scanned(s[k..], 0, alias, known)
  {
  }

  method RewriteCImportTypeWithAlias(text: string, alias: string, known: set<string>) returns (out: string)
    ensures out == TypeRewritten(text, alias, known)
  {
    if text == "" || alias == "" || known == {} {
      return text;
    }
    hide Scanned, IdentStart, Colons, IdentLength;
    out := "";
    var i := 0;
    NoColons(text);
    assert text[0..] == text;
    while i < |text|
      invariant 0 <= i <= |text|
      invariant Scanned(text, 0, alias, known) == out + Scanned(text[i..], Colons(text[..i]), alias, known)
    {
      var piece: string;
      if IdentStart(text[i]) {
        piece, i := RewriteToken(text, i, alias, known);
      } else {
        OtherStep(text, i, alias, known);
        piece, i := [text[i]], i + 1;
      }
      Regroup(out, piece, Scanned(text[i..], Colons(text[..i]), alias, known));
      out := out + piece;
    }
    ScannedEmpty(text[i..], Colons(text[..i]), alias, known);
  }

  lemma Regroup(a: string, b: string, c: string)
    ensures a + (b + c) == a + b + c
  {
  }

  /** Takes the token that begins at `begin`, qualified if need be, and where the text goes on. */
  method RewriteToken(text: string, begin: nat, alias: string, known: set<string>) returns (piece: string, i: nat)
    requires begin < |text| && IdentStart(text[begin])
    ensures begin < i <= |text|
    ensures Scanned(text[begin..], Colons(text[..begin]), alias, known)
         == piece + Scanned(text[i..], Colons(text[..i]), alias, known)
  {
    hide Scanned, IdentStart, Colons, IdentLength, IsBuiltinToken;
    i := EndOfIdent(text, begin);
    var tok := text[begin..i];
    ghost var s := text[begin..];
    assert s[..i - begin] == tok && s[i - begin..] == text[i..];
    var prefixed := begin >= 2 && text[begin - 1] == ':' && text[begin - 2] == ':';
    var suffixed := i + 1 < |text| && text[i] == ':' && text[i + 1] == ':';
    ScanStep(s, Colons(text[..begin]), alias, known);
    ColonsBefore(text, begin);
    ColonsBefore(text, i - 1);
    assert suffixed == StartsScope(text[i..]);
    piece := if !prefixed && !suffixed && !IsBuiltinToken(tok) && tok in known then alias + "::" + tok else tok;
  }

  lemma OtherStep(text: string, i: nat, alias: string, known: set<string>)
    requires i < |text| && !IdentStart(text[i])
    ensures Scanned(text[i..], Colons(text[..i]), alias, known)
         == [text[i]] + Scanned(text[i + 1..], Colons(text[..i + 1]), alias, known)
  {
    hide Colons;
    ColonsBefore(text, i);
    assert text[i..][1..] == text[i + 1..];
  }

  lemma NoColons(text: string)
    ensures Colons(text[..0]) == 0
  {
  }

  lemma ScannedEmpty(s: string, colons: nat, alias: string, known: set<string>)
    requires s == ""
    ensures Scanned(s, colons, alias, known) == ""
  {
  }

  method EndOfIdent(text: string, begin: nat) returns (i: nat)
    requires begin < |text| && IdentStart(text[begin])
    ensures begin < i <= |text| && i - begin == IdentLength(text[begin..]) && text[i - 1] != ':'
  {
    i := begin + 1;
    while i < |text| && IdentContinue(text[i])
      invariant begin < i <= |text| && forall j :: begin <= j < i ==> IdentContinue(text[j])
    {
      i := i + 1;
    }
    IdentLengthIs(text[begin..], i - begin);
  }

  lemma {:induction false} IdentLengthIs(s: string, k: nat)
    requires k <= |s| && (forall i :: 0 <= i < k ==> IdentContinue(s[i])) && (k < |s| ==> !IdentContinue(s[k]))
    ensures IdentLength(s) == k
  {
    if k > 0 {
      IdentLengthIs(s[1..], k - 1);
    }
  }

  predicate IsIdent(s: string) { s != "" && IdentStart(s[0]) && forall i :: 0 <= i < |s| ==> IdentContinue(s[i]) }

  /** Rewriting keeps whether a text begins with `::`, and what it begins with when that is no identifier. */
  lemma ScannedHead(s: string, colons: nat, alias: string, known: set<string>)
    requires IsIdent(alias)
    ensures var r := Scanned(s, colons, alias, known);
      && (r == "" <==> s == "")
      && (s != "" && !IdentStart(s[0]) ==> r[0] == s[0])
      && (s != "" && IdentStart(s[0]) ==> IdentStart(r[0]))
      && (StartsScope(r) <==> StartsScope(s))
  {
    if s != "" && s[0] == ':' {
      FirstOf(s[1..], colons + 1, alias, known);
    }
    FirstOf(s, colons, alias, known);
  }

  lemma FirstOf(s: string, colons: nat, alias: string, known: set<string>)
    requires IsIdent(alias)
    ensures var r := Scanned(s, colons, alias, known);
      && (r == "" <==> s == "")
      && (s != "" && !IdentStart(s[0]) ==> r[0] == s[0])
      && (s != "" && IdentStart(s[0]) ==> IdentStart(r[0]))
  {
  }

  /** A token and what follows it are scanned as such again. */
  lemma ScanToken(tok: string, after: string, colons: nat, alias: string, known: set<string>)
    requires IsIdent(tok) && (after == "" || !IdentContinue(after[0]))
    ensures Scanned(tok + after, colons, alias, known)
         == (if Renames(tok, colons, after, known) then alias + "::" + tok else tok) + Scanned(after, 0, alias, known)
  {
    var s := tok + after;
    IdentLengthIs(s, |tok|);
    assert s[..|tok|] == tok && s[|tok|..] == after;
  }

  lemma ScanScope(s: string, alias: string, known: set<string>)
    ensures Scanned("::" + s, 0, alias, known) == "::" + Scanned(s, 2, alias, known)
  {
    var t := "::" + s;
    assert t[1..] == ":" + s && (":" + s)[1..] == s;
  }

  /** Rewriting again, with an identifier as alias, changes nothing. */
  lemma {:induction false} ScannedTwice(s: string, colons: nat, alias: string, known: set<string>)
    requires IsIdent(alias)
    ensures Scanned(Scanned(s, colons, alias, known), colons, alias, known) == Scanned(s, colons, alias, known)
    decreases |s|
  {
    hide IdentStart, IdentContinue;
    if s != "" {
      if !IdentStart(s[0]) {
        var c := if s[0] == ':' then colons + 1 else 0;
        var rest := Scanned(s[1..], c, alias, known);
        ScannedTwice(s[1..], c, alias, known);
        assert ([s[0]] + rest)[1..] == rest;
      } else {
        TokenTwice(s, colons, alias, known);
      }
    }
  }

  lemma {:induction false} TokenTwice(s: string, colons: nat, alias: string, known: set<string>)
    requires IsIdent(alias) && s != "" && IdentStart(s[0])
    ensures Scanned(Scanned(s, colons, alias, known), colons, alias, known) == Scanned(s, colons, alias, known)
    decreases |s|, 0
  {
    hide Scanned;
    var k := IdentLength(s);
    var tok, after := s[..k], s[k..];
    var rest := Scanned(after, 0, alias, known);
    assert s == tok + after;
    StartIsContinue();
    ScanToken(tok, after, colons, alias, known);
    ScannedHead(after, 0, alias, known);
    ScannedTwice(after, 0, alias, known);
    if Renames(tok, colons, after, known) {
      ScanToken(tok, rest, 2, alias, known);
      ScanScope(tok + rest, alias, known);
      ScanToken(alias, "::" + (tok + rest), colons, alias, known);
      assert alias + ("::" + (tok + rest)) == alias + "::" + tok + rest;
    } else {
      ScanToken(tok, rest, colons, alias, known);
    }
  }

  lemma StartIsContinue()
    ensures forall c :: IdentStart(c) ==> IdentContinue(c)
    ensures !IdentContinue(':')
  {
  }

  lemma TypeRewrittenTwice(text: string, alias: string, known: set<string>)
    requires IsIdent(alias) || alias == ""
    ensures TypeRewritten(TypeRewritten(text, alias, known), alias, known) == TypeRewritten(text, alias, known)
  {
    if text != "" && alias != "" && known != {} {
      ScannedTwice(text, 0, alias, known);
      FirstOf(text, 0, alias, known);
    }
  }

  /** Whether some token of a text is a known name without a `::` on either side. */
  predicate HasBareName(s: string, colons: nat, known: set<string>)
    decreases |s|
  {
    s != "" &&
    if !IdentStart(s[0]) then HasBareName(s[1..], if s[0] == ':' then colons + 1 else 0, known) else
    var k := IdentLength(s);
    Renames(s[..k], colons, s[k..], known) || HasBareName(s[k..], 0, known)
  }

  /** Rewriting leaves a text as it is just when all its known names are qualified already. */
  lemma {:induction false} UnchangedIff(s: string, colons: nat, alias: string, known: set<string>)
    ensures |Scanned(s, colons, alias, known)| >= |s|
    ensures Scanned(s, colons, alias, known) == s <==> !HasBareName(s, colons, known)
    decreases |s|
  {
    if s != "" {
      if !IdentStart(s[0]) {
        UnchangedIff(s[1..], if s[0] == ':' then colons + 1 else 0, alias, known);
        assert s == [s[0]] + s[1..];
      } else {
        var k := IdentLength(s);
        UnchangedIff(s[k..], 0, alias, known);
        assert s == s[..k] + s[k..];
      }
    }
  }

  // ---- What is renamed, and to what ------------------------------------------------------

  /** The node under a path of child numbers. */
  function Under(n: Node, path: seq<nat>): Option<Node>
    decreases |path|
  {
    if path == [] then Some(n) else if path[0] >= |n.children| then None else Under(n.children[path[0]], path[1..])
  }

  function Path(a: string, b: string): string { a + "::" + b }

  ghost predicate IsPath(name: string) { exists a: string, b: string :: name == Path(a, b) }

  lemma PathIs(name: string)
    ensures IsPath(name) <==> Qualified(name)
  {
    if a: string, b: string :| name == Path(a, b) {
      assert name[|a|] == ':' && name[|a| + 1] == ':';
    }
    if Qualified(name) {
      var i :| 0 <= i && i + 1 < |name| && name[i] == ':' && name[i + 1] == ':';
      assert name == Path(name[..i], name[i + 2..]);
    }
  }

  /** Every node of a rewritten tree, at any depth: a named one with a known name that has no `::` in it is
      called by its name under the alias; nothing else about it, and no other node, changes. */
  lemma {:induction false} RenamedNode(n: Node, alias: string, known: set<string>, path: seq<nat>)
    ensures Under(n, path).Some? <==> Under(Rewritten(n, alias, known), path).Some?
    ensures Under(n, path).Some? ==>
      var was, now := Under(n, path).value, Under(Rewritten(n, alias, known), path).value;
      && |was.children| == |now.children|
      && now.(children := []) == was.(children := []).(name :=
           if was.kind == Named && was.name in known && alias != "" && !IsPath(was.name) then alias + "::" + was.name
           else was.name)
    decreases |path|
  {
    if path == [] {
      PathIs(n.name);
    } else if path[0] < |n.children| {
      RenamedNode(n.children[path[0]], alias, known, path[1..]);
    }
  }

  /** Letters and the underscore, and digits, by their ASCII codes. */
  predicate Letter(c: char) { var n := c as int; n == 95 || 65 <= n < 91 || 97 <= n < 123 }
  predicate Digit(c: char) { 48 <= c as int < 58 }

  predicate AnIdent(s: string) { s != "" && Letter(s[0]) && forall c <- s :: Letter(c) || Digit(c) }

  /** An identifier in a text, whatever stands before it and after it: it is qualified if it is a known name,
      is none of the built-in words, and has no `::` on either side; the rest of the text is rewritten by itself. */
  lemma TokenRewritten(before: string, tok: string, after: string, alias: string, known: set<string>)
    requires AnIdent(tok) && alias != "" && known != {}
    requires before != "" ==> !Letter(before[|before| - 1]) && !Digit(before[|before| - 1])
    requires after != "" ==> !Letter(after[0]) && !Digit(after[0])
    ensures var renamed := tok in known
              && tok !in ["void", "bool", "char", "i8", "i16", "i32", "i64", "i128", "u8", "u16", "u32", "u64", "u128",
                          "isize", "usize", "f32", "f64", "f128", "text", "null", "const", "mut", "def"]
              && !(|before| >= 2 && before[|before| - 2..] == "::") && !(|after| >= 2 && after[..2] == "::");
            TypeRewritten(before + tok + after, alias, known)
              == TypeRewritten(before, alias, known) + (if renamed then alias + "::" + tok else tok)
                 + TypeRewritten(after, alias, known)
  {
    hide Scanned, IdentLength, Colons, Trailing, IsBuiltinToken;
    var s := tok + after;
    assert before + tok + after == before + s && s[0] == tok[0];
    assert IsIdent(tok) by { AnIdentIs(tok); }
    ScanPrefix(before, s, 0, alias, known);
    ScanToken(tok, after, Trailing(before, 0), alias, known);
    TrailingColons(before);
    BuiltinWords(tok);
    ScopeParts(before, after);
    EmptyTexts(alias, known);
  }

  lemma EmptyTexts(alias: string, known: set<string>)
    ensures Scanned("", 0, alias, known) == ""
  {
  }

  lemma AnIdentIs(s: string)
    requires AnIdent(s)
    ensures IsIdent(s)
  {
    assert forall i :: 0 <= i < |s| ==> s[i] in s;
  }

  lemma BuiltinWords(tok: string)
    ensures IsBuiltinToken(tok) <==>
      tok in ["void", "bool", "char", "i8", "i16", "i32", "i64", "i128", "u8", "u16", "u32", "u64", "u128",
              "isize", "usize", "f32", "f64", "f128", "text", "null", "const", "mut", "def"]
  {
  }

  lemma ScopeParts(before: string, after: string)
    ensures |before| >= 2 ==>
      (before[|before| - 2..] == "::" <==> before[|before| - 1] == ':' && before[|before| - 2] == ':')
    ensures |after| >= 2 ==> (after[..2] == "::" <==> after[0] == ':' && after[1] == ':')
  {
  }

  /** How many colons stand at the end, `colons` more before the text. */
  function Trailing(s: string, colons: nat): nat {
    if s == "" then colons else Trailing(s[1..], if s[0] == ':' then colons + 1 else 0)
  }

  lemma {:induction false} TrailingIs(s: string, i: nat)
    requires i <= |s|
    ensures Trailing(s[i..], Colons(s[..i])) == Colons(s)
    decreases |s| - i
  {
    hide Colons;
    if i < |s| {
      ColonsBefore(s, i);
      assert s[i..][1..] == s[i + 1..];
      TrailingIs(s, i + 1);
    } else {
      assert s[..i] == s;
    }
  }

  lemma TrailingColons(s: string)
    ensures Trailing(s, 0) >= 2 <==> |s| >= 2 && s[|s| - 1] == ':' && s[|s| - 2] == ':'
  {
    hide Colons, Trailing;
    TrailingIs(s, 0);
    NoColons(s);
    ColonsBefore(s, |s|);
    assert s[0..] == s && s[..|s|] == s;
  }

  /** A text that ends in no identifier character is scanned by itself. */
  lemma {:induction false} ScanPrefix(s: string, t: string, colons: nat, alias: string, known: set<string>)
    requires s != "" ==> !IdentContinue(s[|s| - 1])
    requires t != "" && t[0] != ':'
    ensures Scanned(s + t, colons, alias, known) == Scanned(s, colons, alias, known) + Scanned(t, Trailing(s, colons), alias, known)
    decreases |s|
  {
    hide Scanned, IdentStart, IdentContinue, IdentLength, IsBuiltinToken;
    if s == "" {
      assert s + t == t;
      ScannedEmpty(s, colons, alias, known);
    } else {
      ScanStep(s, colons, alias, known);
      ScanStep(s + t, colons, alias, known);
      if !IdentStart(s[0]) {
        assert (s + t)[1..] == s[1..] + t;
        ScanPrefix(s[1..], t, if s[0] == ':' then colons + 1 else 0, alias, known);
      } else {
        ScanPrefixToken(s, t, colons, alias, known);
      }
    }
  }

  lemma {:induction false} ScanPrefixToken(s: string, t: string, colons: nat, alias: string, known: set<string>)
    requires s != "" && IdentStart(s[0]) && !IdentContinue(s[|s| - 1]) && t != "" && t[0] != ':'
    ensures Scanned(s + t, colons, alias, known) == Scanned(s, colons, alias, known) + Scanned(t, Trailing(s, colons), alias, known)
    decreases |s|, 0
  {
    hide Scanned, IdentStart, IdentContinue, IdentLength, IsBuiltinToken;
    var k := IdentLength(s);
    StartContinues(s[0]);
    KnownLength(s, t, k);
    ScanStep(s, colons, alias, known);
    ScanStep(s + t, colons, alias, known);
    assert (s + t)[..k] == s[..k] && (s + t)[k..] == s[k..] + t;
    assert StartsScope(s[k..] + t) == StartsScope(s[k..]);
    ScanPrefix(s[k..], t, 0, alias, known);
    TrailingSkips(s, k, colons);
  }

  lemma StartContinues(c: char)
    ensures IdentStart(c) ==> IdentContinue(c) && c != ':'
    ensures IdentContinue(c) ==> c != ':'
  {
  }

  lemma KnownLength(s: string, t: string, k: nat)
    requires s != "" && IdentContinue(s[0]) && !IdentContinue(s[|s| - 1]) && k == IdentLength(s)
    ensures 0 < k < |s| && IdentLength(s + t) == k
  {
    hide IdentContinue;
    IdentLengthIs(s + t, k);
  }

  lemma {:induction false} TrailingSkips(s: string, k: nat, colons: nat)
    requires 0 < k <= |s| && forall i :: 0 <= i < k ==> IdentContinue(s[i])
    ensures Trailing(s, colons) == Trailing(s[k..], 0)
    decreases k
  {
    hide IdentContinue;
    StartContinues(s[0]);
    if k > 1 {
      TrailingSkips(s[1..], k - 1, 0);
      assert s[1..][k - 1..] == s[k..];
    }
  }
}
