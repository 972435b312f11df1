/** The tab-separated texts of the ExportCIndex and NativeDeps chunks. */
module ParlibText {
  import opened Wrappers
  import opened Bits
  import Literals
  import opened ParlibFormat

  const TAB: Byte := 9
  const NEWLINE: Byte := 10
  const CR: Byte := 13
  const SPACE: Byte := 32

  type Text = seq<Byte>

  // ---- Lines and fields ------------------------------------------------------------------

  /** The place of the first `c`, or the length. */
  function Find(s: Text, c: Byte): (k: nat)
    ensures k <= |s| && c !in s[..k] && (k < |s| ==> s[k] == c)
  {
    if s == [] || s[0] == c then 0 else 1 + Find(s[1..], c)
  }

  function Split(s: Text, c: Byte): (r: seq<Text>)
    ensures r != []
    decreases |s|
  {
    var k := Find(s, c);
    if k == |s| then [s] else [s[..k]] + Split(s[k + 1..], c)
  }

  /** The lines of a text; a final newline starts no further line. */
  function Lines(s: Text): seq<Text>
    decreases |s|
  {
    var k := Find(s, NEWLINE);
    if s == [] then [] else if k == |s| then [s] else [s[..k]] + Lines(s[k + 1..])
  }

  function Join(fields: seq<Text>, c: Byte): Text {
    if fields == [] then [] else if |fields| == 1 then fields[0] else fields[0] + [c] + Join(fields[1..], c)
  }

  function Joined(rows: seq<Text>): Text {
    if rows == [] then [] else rows[0] + [NEWLINE] + Joined(rows[1..])
  }

  lemma {:induction false} FindIn(a: Text, c: Byte, b: Text)
    requires c !in a
    ensures Find(a + [c] + b, c) == |a| && Find(a, c) == |a|
    decreases |a|
  {
    if a != [] {
      FindIn(a[1..], c, b);
      assert (a + [c] + b)[1..] == a[1..] + [c] + b;
    }
  }

  predicate Free(fields: seq<Text>, c: Byte) { forall f <- fields :: c !in f }

  lemma {:induction false} SplitOfJoin(fields: seq<Text>, c: Byte)
    requires fields != [] && Free(fields, c)
    ensures Split(Join(fields, c), c) == fields
    decreases |fields|
  {
    if |fields| == 1 {
      FindIn(fields[0], c, []);
    } else {
      var s, rest := Join(fields, c), Join(fields[1..], c);
      FindIn(fields[0], c, rest);
      assert s[..|fields[0]|] == fields[0] && s[|fields[0]| + 1..] == rest;
      SplitOfJoin(fields[1..], c);
    }
  }

  lemma {:induction false} LinesOfJoined(rows: seq<Text>)
    requires Free(rows, NEWLINE)
    ensures Lines(Joined(rows)) == rows
    decreases |rows|
  {
    if rows != [] {
      var s, rest := Joined(rows), Joined(rows[1..]);
      FindIn(rows[0], NEWLINE, rest);
      assert s[..|rows[0]|] == rows[0] && s[|rows[0]| + 1..] == rest;
      LinesOfJoined(rows[1..]);
    }
  }

  lemma {:induction false} JoinFree(fields: seq<Text>, c: Byte, d: Byte)
    requires fields != [] && Free(fields, d) && c != d
    ensures d !in Join(fields, c) && (|fields| > 1 ==> Join(fields, c) != [])
    decreases |fields|
  {
    if |fields| > 1 {
      JoinFree(fields[1..], c, d);
    }
  }

  lemma SplitStep(s: Text, c: Byte)
    ensures var k := Find(s, c); Split(s, c) == [s[..k]] + if k == |s| then [] else Split(s[k + 1..], c)
  {
    assert s[..|s|] == s;
  }

  lemma LinesStep(s: Text)
    requires s != []
    ensures var k := Find(s, NEWLINE); Lines(s) == [s[..k]] + Lines(if k == |s| then [] else s[k + 1..])
  {
    assert s[..|s|] == s;
  }

  method SplitView(s: Text, c: Byte) returns (out: seq<Text>)
    ensures out == Split(s, c)
  {
    hide Find, Split;
    out := [];
    var pos := 0;
    assert s[0..] == s;
    while true
      invariant 0 <= pos <= |s| && Split(s, c) == out + Split(s[pos..], c)
      decreases |s| - pos
    {
      var rest := s[pos..];
      var k := Find(rest, c);
      SplitStep(rest, c);
      out := out + [rest[..k]];
      if k == |rest| {
        break;
      }
      assert rest[k + 1..] == s[pos + k + 1..];
      pos := pos + k + 1;
    }
  }

  /** The line that starts at `pos`, and where the next one starts. */
  method GetLine(s: Text, pos: nat) returns (line: Text, next: nat)
    requires pos < |s|
    ensures pos < next <= |s| && Lines(s[pos..]) == [line] + Lines(s[next..])
  {
    hide Lines, Find;
    var rest := s[pos..];
    var k := Find(rest, NEWLINE);
    LinesStep(rest);
    line := rest[..k];
    if k == |rest| {
      next := |s|;
      assert s[next..] == [];
    } else {
      next := pos + k + 1;
      assert rest[k + 1..] == s[next..];
    }
  }

  // ---- Fields ----------------------------------------------------------------------------

  function Clean(b: Byte): Byte { if b == TAB || b == NEWLINE || b == CR then SPACE else b }

  /** A text with tabs and line ends replaced by spaces. */
  function Sanitized(s: Text): (r: Text)
    ensures |r| == |s| && TAB !in r && NEWLINE !in r
  {
    seq(|s|, i requires 0 <= i < |s| => Clean(s[i]))
  }

  method SanitizeLineField(s: Text) returns (out: Text)
    ensures out == Sanitized(s)
  {
    out := [];
    for i := 0 to |s|
      invariant |out| == i && forall j :: 0 <= j < i ==> out[j] == Clean(s[j])
    {
      out := out + [Clean(s[i])];
    }
  }

  function Ascii(s: string): Text { seq(|s|, i requires 0 <= i < |s| => s[i] as int % 256) }

  function Digits(n: nat): Text { Ascii(Literals.NatText(n)) }

  lemma DigitsStep(n: nat)
    ensures Digits(n) != [] && forall b <- Digits(n) :: IsDigit(b)
    ensures Digits(n) == if n < 10 then [48 + n] else Digits(n / 10) + [48 + n % 10]
  {
    var s := Literals.NatText(n);
    forall i | 0 <= i < |s| ensures IsDigit(Digits(n)[i]) {
      assert Literals.IsDigit(s[i]);
    }
    if n >= 10 {
      var c := Literals.DigitChar(n % 10);
      assert Ascii(Literals.NatText(n / 10) + [c]) == Digits(n / 10) + Ascii([c]);
    }
  }

  predicate IsDigit(b: Byte) { 48 <= b < 58 }

  predicate IsSpace(b: Byte) { 9 <= b <= 13 || b == SPACE }

  /** The value of the leading digits, and how many there are. */
  function Leading(s: Text): (nat, nat) {
    LeadingFrom(s, 0, 0)
  }

  function LeadingFrom(s: Text, i: nat, v: nat): (r: (nat, nat))
    requires i <= |s|
    decreases |s| - i
  {
    if i == |s| || !IsDigit(s[i]) then (v, i) else LeadingFrom(s, i + 1, 10 * v + (s[i] - 48))
  }

  function SkipSpace(s: Text): Text { if s != [] && IsSpace(s[0]) then SkipSpace(s[1..]) else s }

  /** A number read as `stoull` reads it: after white space and a sign, up to the first other character;
      0 when there are no digits or they do not fit. A minus sign wraps. */
  function ParseU64OrZero(s: Text): U64 {
    var t := SkipSpace(s);
    var minus := t != [] && t[0] == 45;
    var digits := if t != [] && (t[0] == 45 || t[0] == 43) then t[1..] else t;
    var (v, count) := Leading(digits);
    if count == 0 || v >= 0x1_0000_0000_0000_0000 then 0
    else if minus && v > 0 then 0x1_0000_0000_0000_0000 - v else v
  }

  lemma {:induction false} LeadingDigits(a: Text, b: Text, v: nat, i: nat)
    requires i <= |a| && forall x <- a :: IsDigit(x)
    ensures LeadingFrom(a + b, i, v) == LeadingFrom(a + b, |a|, LeadingFrom(a, i, v).0)
    ensures LeadingFrom(a, i, v).1 == |a|
    decreases |a| - i
  {
    if i < |a| {
      assert IsDigit(a[i]);
      LeadingDigits(a, b, 10 * v + (a[i] - 48), i + 1);
    }
  }

  lemma {:induction false} LeadingOfDigits(n: nat)
    ensures Leading(Digits(n)) == (n, |Digits(n)|)
    decreases n
  {
    hide Digits;
    DigitsStep(n);
    if n >= 10 {
      var a, b := Digits(n / 10), [48 + n % 10];
      LeadingOfDigits(n / 10);
      DigitsStep(n / 10);
      LeadingDigits(a, b, 0, 0);
      var d := a + b;
      assert d[|a|] == b[0] && IsDigit(d[|a|]) && 10 * (n / 10) + (d[|a|] - 48) == n;
      assert LeadingFrom(d, |a|, n / 10) == LeadingFrom(d, |a| + 1, n) == (n, |d|);
      assert Digits(n) == d && LeadingFrom(d, 0, 0) == LeadingFrom(d, |a|, n / 10);
    } else {
      assert IsDigit(Digits(n)[0]) && LeadingFrom(Digits(n), 1, n) == (n, 1);
    }
  }

  /** A written number is read back. */
  lemma NumberRoundTrip(n: U64)
    ensures ParseU64OrZero(Digits(n)) == n
  {
    hide Digits;
    LeadingOfDigits(n);
    DigitsStep(n);
    assert IsDigit(Digits(n)[0]);
  }

  // ---- Names -----------------------------------------------------------------------------

  function LaneName(lane: U16): string {
    match lane
    case 0 => "global"
    case 1 => "pcore"
    case 2 => "prt"
    case 3 => "pstd"
    case 0x8000 => "vendor"
    case _ => "unknown"
  }

  function KindName(kind: U16): string {
    match kind
    case 1 => "Manifest"
    case 2 => "StringTable"
    case 3 => "ExportCIndex"
    case 4 => "NativeDeps"
    case 5 => "SymbolIndex"
    case 6 => "TypeMeta"
    case 7 => "OIRArchive"
    case 8 => "ObjectArchive"
    case 9 => "Debug"
    case 10 => "SourceMap"
    case 11 => "NativeArchivePayload"
    case 0x7FFF => "Reserved"
    case _ => "Unknown"
  }

  function DepKindName(kind: Byte): string {
    match kind
    case 0 => "static"
    case 1 => "shared"
    case 2 => "framework"
    case 3 => "system"
    case _ => "unknown"
  }

  function DepModeName(mode: Byte): string {
    match mode
    case 0 => "embed"
    case 1 => "reference"
    case _ => "unknown"
  }

  function ParseLaneName(s: string): Option<U16> {
    if s == "global" then Some(0) else if s == "pcore" then Some(1)
    else if s == "prt" then Some(2) else if s == "pstd" then Some(3)
    else if s == "vendor" then Some(0x8000) else None
  }

  function ParseKindName(s: string): Option<U16> {
    if s == "Manifest" then Some(1) else if s == "StringTable" then Some(2)
    else if s == "ExportCIndex" then Some(3) else if s == "NativeDeps" then Some(4)
    else if s == "SymbolIndex" then Some(5) else if s == "TypeMeta" then Some(6)
    else if s == "OIRArchive" then Some(7) else if s == "ObjectArchive" then Some(8)
    else if s == "Debug" then Some(9) else if s == "SourceMap" then Some(10)
    else if s == "NativeArchivePayload" then Some(11) else if s == "Reserved" then Some(0x7FFF)
    else None
  }

  function ParseDepKindName(s: string): Option<Byte> {
    if s == "static" then Some(0) else if s == "shared" then Some(1)
    else if s == "framework" then Some(2) else if s == "system" then Some(3) else None
  }

  function ParseDepModeName(s: string): Option<Byte> {
    if s == "embed" then Some(0) else if s == "reference" then Some(1) else None
  }

  /** The text's bytes as characters. */
  function Chars(s: Text): string { seq(|s|, i requires 0 <= i < |s| => s[i] as char) }

  predicate Plain(s: string) { forall c <- s :: '\r' < c < 128 as char }

  lemma CharsOfAscii(s: string)
    requires Plain(s)
    ensures Chars(Ascii(s)) == s && TAB !in Ascii(s) && NEWLINE !in Ascii(s)
  {
    forall i | 0 <= i < |s| ensures Chars(Ascii(s))[i] == s[i] && Ascii(s)[i] > CR {
      assert s[i] in s;
    }
  }

  predicate NamedLane(lane: U16) { lane < 4 || lane == 0x8000 }
  predicate NamedKind(kind: U16) { 1 <= kind <= 11 || kind == 0x7FFF }

  lemma LaneNames(lane: U16)
    ensures ParseLaneName(LaneName(lane)) == if NamedLane(lane) then Some(lane) else None
    ensures Plain(LaneName(lane))
  {
  }

  lemma KindNames(kind: U16)
    ensures ParseKindName(KindName(kind)) == if NamedKind(kind) then Some(kind) else None
    ensures Plain(KindName(kind))
  {
    KindPlain(kind);
    if kind < 4 {
      LowKindNames(kind);
    } else if kind < 8 {
      MiddleKindNames(kind);
    } else if kind < 11 {
      HighKindNames(kind);
    } else if kind == 11 || kind == 0x7FFF {
      LastKindNames(kind);
    } else {
      assert KindName(kind) == "Unknown";
    }
  }

  /** Values without a name of their own share one that is not read back. */
  lemma Unnamed(lane: U16, kind: U16, depKind: Byte, mode: Byte)
    ensures !NamedLane(lane) ==> LaneName(lane) == "unknown"
    ensures !NamedKind(kind) ==> KindName(kind) == "Unknown"
    ensures depKind >= 4 ==> DepKindName(depKind) == "unknown"
    ensures mode >= 2 ==> DepModeName(mode) == "unknown"
  {
  }

  lemma KindPlain(kind: U16)
    ensures Plain(KindName(kind))
  {
    if kind < 7 {
      EarlyKindPlain(kind);
    } else {
      LateKindPlain(kind);
    }
  }

  lemma EarlyKindPlain(kind: U16)
    requires kind < 7
    ensures Plain(KindName(kind))
  {
  }

  lemma LateKindPlain(kind: U16)
    requires kind >= 7
    ensures Plain(KindName(kind))
  {
  }

  lemma LowKindNames(kind: U16)
    requires kind < 4
    ensures ParseKindName(KindName(kind)) == if NamedKind(kind) then Some(kind) else None
  {
  }

  lemma MiddleKindNames(kind: U16)
    requires 4 <= kind < 8
    ensures ParseKindName(KindName(kind)) == if NamedKind(kind) then Some(kind) else None
  {
  }

  lemma HighKindNames(kind: U16)
    requires 8 <= kind < 11
    ensures ParseKindName(KindName(kind)) == if NamedKind(kind) then Some(kind) else None
  {
  }

  lemma LastKindNames(kind: U16)
    requires kind == 11 || kind == 0x7FFF
    ensures ParseKindName(KindName(kind)) == if NamedKind(kind) then Some(kind) else None
  {
  }

  lemma DepNames(kind: Byte, mode: Byte)
    ensures ParseDepKindName(DepKindName(kind)) == if kind < 4 then Some(kind) else None
    ensures ParseDepModeName(DepModeName(mode)) == if mode < 2 then Some(mode) else None
    ensures Plain(DepKindName(kind)) && Plain(DepModeName(mode))
  {
  }

  // ---- The two lists ---------------------------------------------------------------------

  datatype Export = Export(symbol: Text, signature: Text, lane: U16, kind: U16, target: U32, visible: bool)

  datatype Dep = Dep(
    name: Text, kind: Byte, mode: Byte, filter: Text, order: U32, required: bool, hash: U64, reference: Text)

  function Flag(b: bool): Text { if b then [49] else [48] }

  function ExportFields(e: Export): (r: seq<Text>)
    ensures |r| == 6
  {
    [Sanitized(e.symbol), Sanitized(e.signature), Ascii(LaneName(e.lane)), Ascii(KindName(e.kind)),
     Digits(e.target), Flag(e.visible)]
  }

  function DepFields(d: Dep): (r: seq<Text>)
    ensures |r| == 8
  {
    [Sanitized(d.name), Ascii(DepKindName(d.kind)), Ascii(DepModeName(d.mode)), Sanitized(d.filter),
     Digits(d.order), Flag(d.required), Digits(d.hash), Sanitized(d.reference)]
  }

  function ExportOf(f: seq<Text>): Option<Export> {
    if |f| < 6 then None else
    var lane, kind := ParseLaneName(Chars(f[2])), ParseKindName(Chars(f[3]));
    if lane.None? || kind.None? then None else
    Some(Export(f[0], f[1], lane.value, kind.value, ParseU64OrZero(f[4]) % 0x1_0000_0000, ParseU64OrZero(f[5]) != 0))
  }

  function DepOf(f: seq<Text>): Option<Dep> {
    if |f| < 8 then None else
    var kind, mode := ParseDepKindName(Chars(f[1])), ParseDepModeName(Chars(f[2]));
    if kind.None? || mode.None? then None else
    Some(Dep(f[0], kind.value, mode.value, f[3], ParseU64OrZero(f[4]) % 0x1_0000_0000, ParseU64OrZero(f[5]) != 0,
             ParseU64OrZero(f[6]), f[7]))
  }

  /** An entry as it comes back: its texts sanitized, or not at all when an enum value has no name. */
  function ExportBack(e: Export): Option<Export> {
    if NamedExport(e) then Some(SanitizedExport(e)) else None
  }

  function DepBack(d: Dep): Option<Dep> {
    if NamedDep(d) then Some(SanitizedDep(d)) else None
  }

  lemma ExportFieldsBack(e: Export)
    ensures Free(ExportFields(e), TAB) && Free(ExportFields(e), NEWLINE) && ExportOf(ExportFields(e)) == ExportBack(e)
  {
    hide ParseU64OrZero, Sanitized, Digits, LaneName, KindName, ParseLaneName, ParseKindName;
    LaneNames(e.lane);
    KindNames(e.kind);
    CharsOfAscii(LaneName(e.lane));
    CharsOfAscii(KindName(e.kind));
    NumberRoundTrip(e.target);
    DigitsStep(e.target);
    FlagBack(e.visible);
  }

  lemma DepFieldsBack(d: Dep)
    ensures Free(DepFields(d), TAB) && Free(DepFields(d), NEWLINE) && DepOf(DepFields(d)) == DepBack(d)
  {
    hide ParseU64OrZero, Sanitized, Digits, DepKindName, DepModeName, ParseDepKindName, ParseDepModeName;
    DepNames(d.kind, d.mode);
    CharsOfAscii(DepKindName(d.kind));
    CharsOfAscii(DepModeName(d.mode));
    NumberRoundTrip(d.order);
    DigitsStep(d.order);
    DigitsStep(d.hash);
    NumberRoundTrip(d.hash);
    FlagBack(d.required);
  }

  lemma FlagBack(b: bool)
    ensures ParseU64OrZero(Flag(b)) == if b then 1 else 0
  {
    DigitsStep(if b then 1 else 0);
    assert Flag(b) == Digits(if b then 1 else 0);
    NumberRoundTrip(if b then 1 else 0);
  }

  // ---- Encoding and parsing --------------------------------------------------------------

  /** The texts of a list of rows of fields. */
  function Rows(rows: seq<seq<Text>>): (r: seq<Text>)
    ensures |r| == |rows| && forall i :: 0 <= i < |rows| ==> r[i] == Join(rows[i], TAB)
  {
    if rows == [] then [] else [Join(rows[0], TAB)] + Rows(rows[1..])
  }

  function Encoded(rows: seq<seq<Text>>): Text { Joined(Rows(rows)) }

  /** The field lists of the lines that are not empty. */
  function Decoded(lines: seq<Text>): seq<seq<Text>> {
    if lines == [] then [] else (if lines[0] == [] then [] else [Split(lines[0], TAB)]) + Decoded(lines[1..])
  }

  /** Field lists without tabs and line ends come back as they were. */
  lemma RowsBack(rows: seq<seq<Text>>)
    requires forall row <- rows :: |row| > 1 && Free(row, TAB) && Free(row, NEWLINE)
    ensures Decoded(Lines(Encoded(rows))) == rows
  {
    var lines := Rows(rows);
    forall i | 0 <= i < |lines| ensures NEWLINE !in lines[i] {
      JoinFree(rows[i], TAB, NEWLINE);
    }
    LinesOfJoined(lines);
    DecodedRows(rows, lines);
  }

  lemma {:induction false} DecodedRows(rows: seq<seq<Text>>, lines: seq<Text>)
    requires forall row <- rows :: |row| > 1 && Free(row, TAB) && Free(row, NEWLINE)
    requires |lines| == |rows| && forall i :: 0 <= i < |rows| ==> lines[i] == Join(rows[i], TAB)
    ensures Decoded(lines) == rows
    decreases |rows|
  {
    if rows != [] {
      JoinFree(rows[0], TAB, NEWLINE);
      SplitOfJoin(rows[0], TAB);
      DecodedRows(rows[1..], lines[1..]);
    }
  }

  /** The values present in a list. */
  function Present<T>(s: seq<Option<T>>): seq<T> {
    if s == [] then [] else (if s[0].Some? then [s[0].value] else []) + Present(s[1..])
  }

  function Mapped<A, B>(f: A -> B, s: seq<A>): (r: seq<B>)
    ensures |r| == |s| && forall i :: 0 <= i < |s| ==> r[i] == f(s[i])
  {
    if s == [] then [] else [f(s[0])] + Mapped(f, s[1..])
  }

  function EncodedExports(es: seq<Export>): Text { Encoded(Mapped(ExportFields, es)) }
  function ParsedExports(bytes: Text): seq<Export> { Present(Mapped(ExportOf, Decoded(Lines(bytes)))) }

  function EncodedDeps(ds: seq<Dep>): Text { Encoded(Mapped(DepFields, ds)) }
  function ParsedDeps(bytes: Text): seq<Dep> { Present(Mapped(DepOf, Decoded(Lines(bytes)))) }

  /** What comes back of a list: its entries with named enum values, sanitized. */
  lemma ExportsRoundTrip(es: seq<Export>)
    ensures ParsedExports(EncodedExports(es)) == Present(Mapped(ExportBack, es))
  {
    var rows := Mapped(ExportFields, es);
    forall i | 0 <= i < |es| ensures Free(rows[i], TAB) && Free(rows[i], NEWLINE) && ExportOf(rows[i]) == ExportBack(es[i]) {
      ExportFieldsBack(es[i]);
    }
    RowsBack(rows);
    assert Mapped(ExportOf, rows) == Mapped(ExportBack, es);
  }

  lemma DepsRoundTrip(ds: seq<Dep>)
    ensures ParsedDeps(EncodedDeps(ds)) == Present(Mapped(DepBack, ds))
  {
    var rows := Mapped(DepFields, ds);
    forall i | 0 <= i < |ds| ensures Free(rows[i], TAB) && Free(rows[i], NEWLINE) && DepOf(rows[i]) == DepBack(ds[i]) {
      DepFieldsBack(ds[i]);
    }
    RowsBack(rows);
    assert Mapped(DepOf, rows) == Mapped(DepBack, ds);
  }

  /** When only some entries come back, a list comes back whole just when it has no others. */
  lemma {:induction false} BackWhole<A>(back: A -> Option<A>, clean: A -> A, named: A -> bool, s: seq<A>)
    requires forall x <- s :: back(x) == if named(x) then Some(clean(x)) else None
    ensures |Present(Mapped(back, s))| <= |s|
    ensures Present(Mapped(back, s)) == Mapped(clean, s) <==> forall x <- s :: named(x)
    decreases |s|
  {
    if s != [] {
      BackWhole(back, clean, named, s[1..]);
      assert s == [s[0]] + s[1..];
      var b, c := Mapped(back, s), Mapped(clean, s);
      assert b[1..] == Mapped(back, s[1..]) && c[1..] == Mapped(clean, s[1..]);
      if named(s[0]) {
        assert Present(b)[1..] == Present(b[1..]);
      }
    }
  }

  function SanitizedDep(d: Dep): Dep {
    d.(name := Sanitized(d.name), filter := Sanitized(d.filter), reference := Sanitized(d.reference))
  }

  function SanitizedExport(e: Export): Export {
    e.(symbol := Sanitized(e.symbol), signature := Sanitized(e.signature))
  }

  predicate NamedDep(d: Dep) { d.kind < 4 && d.mode < 2 }
  predicate NamedExport(e: Export) { NamedLane(e.lane) && NamedKind(e.kind) }

  /** A list comes back whole, with its texts sanitized, just when all its enum values have names. */
  lemma DepsBackWhole(ds: seq<Dep>)
    ensures ParsedDeps(EncodedDeps(ds)) == Mapped(SanitizedDep, ds) <==> forall d <- ds :: NamedDep(d)
  {
    DepsRoundTrip(ds);
    BackWhole(DepBack, SanitizedDep, NamedDep, ds);
  }

  lemma ExportsBackWhole(es: seq<Export>)
    ensures ParsedExports(EncodedExports(es)) == Mapped(SanitizedExport, es) <==> forall e <- es :: NamedExport(e)
  {
    ExportsRoundTrip(es);
    BackWhole(ExportBack, SanitizedExport, NamedExport, es);
  }

  method EncodeExportCIndex(es: seq<Export>) returns (out: Text)
    ensures out == EncodedExports(es)
  {
    hide Join, Digits, LaneName, KindName, Sanitized, Flag, Encoded, Mapped;
    out := [];
    assert es[0..] == es;
    for i := 0 to |es|
      invariant EncodedExports(es) == out + EncodedExports(es[i..])
    {
      var e := es[i];
      var symbol := SanitizeLineField(e.symbol);
      var signature := SanitizeLineField(e.signature);
      var row := Join([symbol, signature, Ascii(LaneName(e.lane)), Ascii(KindName(e.kind)), Digits(e.target),
                       Flag(e.visible)], TAB);
      assert es[i..] == [e] + es[i + 1..];
      EncodedStep(ExportFields, e, es[i + 1..]);
      out := out + (row + [NEWLINE]);
    }
    NothingEncoded(es[|es|..], []);
  }

  method EncodeNativeDeps(ds: seq<Dep>) returns (out: Text)
    ensures out == EncodedDeps(ds)
  {
    hide Join, Digits, DepKindName, DepModeName, Sanitized, Flag, Encoded, Mapped;
    out := [];
    assert ds[0..] == ds;
    for i := 0 to |ds|
      invariant EncodedDeps(ds) == out + EncodedDeps(ds[i..])
    {
      var d := ds[i];
      var name := SanitizeLineField(d.name);
      var filter := SanitizeLineField(d.filter);
      var reference := SanitizeLineField(d.reference);
      var row := Join([name, Ascii(DepKindName(d.kind)), Ascii(DepModeName(d.mode)), filter, Digits(d.order),
                       Flag(d.required), Digits(d.hash), reference], TAB);
      assert ds[i..] == [d] + ds[i + 1..];
      EncodedStep(DepFields, d, ds[i + 1..]);
      out := out + (row + [NEWLINE]);
    }
    NothingEncoded([], ds[|ds|..]);
  }

  lemma NothingEncoded(es: seq<Export>, ds: seq<Dep>)
    ensures es == [] ==> EncodedExports(es) == []
    ensures ds == [] ==> EncodedDeps(ds) == []
  {
  }

  lemma EncodedStep<A>(f: A -> seq<Text>, x: A, rest: seq<A>)
    ensures Encoded(Mapped(f, [x] + rest)) == Join(f(x), TAB) + [NEWLINE] + Encoded(Mapped(f, rest))
  {
    assert ([x] + rest)[1..] == rest;
    assert ([f(x)] + Mapped(f, rest))[1..] == Mapped(f, rest);
    assert ([Join(f(x), TAB)] + Rows(Mapped(f, rest)))[1..] == Rows(Mapped(f, rest));
  }

  method ParseExportCIndex(bytes: Text) returns (out: seq<Export>)
    ensures out == ParsedExports(bytes)
  {
    hide Lines, Split, ParseU64OrZero, ParseLaneName, ParseKindName;
    out := [];
    var pos := 0;
    assert bytes[0..] == bytes;
    while pos < |bytes|
      invariant pos <= |bytes| && ParsedExports(bytes) == out + ParsedExports(bytes[pos..])
    {
      var line, next := GetLine(bytes, pos);
      ParsedStep(ExportOf, line, Lines(bytes[next..]));
      pos := next;
      if line == [] {
        continue;
      }
      var f := SplitView(line, TAB);
      if |f| < 6 {
        continue;
      }
      var lane, kind := ParseLaneName(Chars(f[2])), ParseKindName(Chars(f[3]));
      if lane.None? || kind.None? {
        continue;
      }
      out := out + [Export(f[0], f[1], lane.value, kind.value, ParseU64OrZero(f[4]) % 0x1_0000_0000,
                           ParseU64OrZero(f[5]) != 0)];
    }
    NothingParsed(bytes[pos..]);
  }

  method ParseNativeDeps(bytes: Text) returns (out: seq<Dep>)
    ensures out == ParsedDeps(bytes)
  {
    hide Lines, Split, ParseU64OrZero, ParseDepKindName, ParseDepModeName;
    out := [];
    var pos := 0;
    assert bytes[0..] == bytes;
    while pos < |bytes|
      invariant pos <= |bytes| && ParsedDeps(bytes) == out + ParsedDeps(bytes[pos..])
    {
      var line, next := GetLine(bytes, pos);
      ParsedStep(DepOf, line, Lines(bytes[next..]));
      pos := next;
      if line == [] {
        continue;
      }
      var f := SplitView(line, TAB);
      if |f| < 8 {
        continue;
      }
      var kind, mode := ParseDepKindName(Chars(f[1])), ParseDepModeName(Chars(f[2]));
      if kind.None? || mode.None? {
        continue;
      }
      out := out + [Dep(f[0], kind.value, mode.value, f[3], ParseU64OrZero(f[4]) % 0x1_0000_0000,
                        ParseU64OrZero(f[5]) != 0, ParseU64OrZero(f[6]), f[7])];
    }
    NothingParsed(bytes[pos..]);
  }

  lemma ParsedStep<A>(f: seq<Text> -> Option<A>, line: Text, lines: seq<Text>)
    ensures var rest := Present(Mapped(f, Decoded(lines)));
      Present(Mapped(f, Decoded([line] + lines)))
      == if line == [] || f(Split(line, TAB)).None? then rest else [f(Split(line, TAB)).value] + rest
  {
    var rest := Present(Mapped(f, Decoded(lines)));
    assert ([line] + lines)[1..] == lines && [] + Decoded(lines) == Decoded(lines) && [] + rest == rest;
    if line != [] {
      var row := Split(line, TAB);
      assert ([row] + Decoded(lines))[1..] == Decoded(lines);
      assert ([f(row)] + Mapped(f, Decoded(lines)))[1..] == Mapped(f, Decoded(lines));
    }
  }

  lemma NothingParsed(s: Text)
    requires s == []
    ensures ParsedExports(s) == [] && ParsedDeps(s) == []
  {
  }

  // ---- The texts, byte by byte -----------------------------------------------------------

  /** Tab, newline and carriage return become spaces, other bytes stay. */
  lemma SanitizedAt(s: Text, i: nat)
    requires i < |s|
    ensures Sanitized(s)[i] == if s[i] == 9 || s[i] == 10 || s[i] == 13 then 32 else s[i]
  {
  }

  /** The line of an export: six fields with tabs between them and a newline behind. */
  lemma ExportLine(e: Export, rest: seq<Export>)
    ensures EncodedExports([]) == []
    ensures EncodedExports([e] + rest)
         == Sanitized(e.symbol) + [9] + (Sanitized(e.signature) + [9] + (Ascii(LaneName(e.lane)) + [9]
            + (Ascii(KindName(e.kind)) + [9] + (Digits(e.target) + [9] + [if e.visible then 49 else 48])))) + [10]
            + EncodedExports(rest)
  {
    hide Sanitized, Ascii, LaneName, KindName, Digits, Encoded, Mapped, Join;
    NothingEncoded([], []);
    EncodedStep(ExportFields, e, rest);
    JoinSix(ExportFields(e));
  }

  /** The line of a dependency: eight fields. */
  lemma DepLine(d: Dep, rest: seq<Dep>)
    ensures EncodedDeps([]) == []
    ensures EncodedDeps([d] + rest)
         == Sanitized(d.name) + [9] + (Ascii(DepKindName(d.kind)) + [9] + (Ascii(DepModeName(d.mode)) + [9]
            + (Sanitized(d.filter) + [9] + (Digits(d.order) + [9] + ([if d.required then 49 else 48] + [9]
            + (Digits(d.hash) + [9] + Sanitized(d.reference))))))) + [10] + EncodedDeps(rest)
  {
    hide Sanitized, Ascii, DepKindName, DepModeName, Digits, Encoded, Mapped, Join;
    NothingEncoded([], []);
    EncodedStep(DepFields, d, rest);
    JoinEight(DepFields(d));
  }

  lemma JoinSix(f: seq<Text>)
    requires |f| == 6
    ensures Join(f, TAB) == f[0] + [9] + (f[1] + [9] + (f[2] + [9] + (f[3] + [9] + (f[4] + [9] + f[5]))))
  {
    hide Join;
    JoinFrom(f, 0);
    JoinFrom(f, 1);
    JoinFrom(f, 2);
    JoinFrom(f, 3);
    JoinFrom(f, 4);
  }

  lemma JoinEight(f: seq<Text>)
    requires |f| == 8
    ensures Join(f, TAB)
         == f[0] + [9] + (f[1] + [9] + (f[2] + [9] + (f[3] + [9] + (f[4] + [9] + (f[5] + [9] + (f[6] + [9] + f[7]))))))
  {
    hide Join;
    JoinFrom(f, 0);
    JoinFrom(f, 1);
    JoinFrom(f, 2);
    JoinFrom(f, 3);
    JoinFrom(f, 4);
    JoinFrom(f, 5);
    JoinFrom(f, 6);
  }

  lemma JoinFrom(f: seq<Text>, i: nat)
    requires i + 1 < |f|
    ensures Join(f[i..], TAB) == f[i] + [9] + Join(f[i + 1..], TAB)
    ensures i == 0 ==> f[i..] == f
    ensures i + 2 == |f| ==> Join(f[i + 1..], TAB) == f[i + 1]
  {
    assert f[i..][1..] == f[i + 1..];
  }

  /** A decimal text and a plain text, byte by byte. */
  lemma PlainBytes(s: string, n: nat)
    ensures |Ascii(s)| == |s| && forall i :: 0 <= i < |s| && s[i] < 128 as char ==> Ascii(s)[i] == s[i] as int
    ensures Digits(n) == if n < 10 then [48 + n] else Digits(n / 10) + [48 + n % 10]
  {
    DigitsStep(n);
  }

  /** Numbers with white space before, a sign, and other text behind, as `stoull` takes them. */
  lemma NumbersRead(n: nat, blank: Byte, rest: Text)
    requires rest == [] || rest[0] < 48 || rest[0] > 57
    ensures 9 <= blank <= 13 || blank == 32 ==> ParseU64OrZero([blank] + Digits(n)) == ParseU64OrZero(Digits(n))
    ensures ParseU64OrZero(Digits(n)) == if n < 0x1_0000_0000_0000_0000 then n else 0
    ensures ParseU64OrZero([43] + Digits(n)) == if n < 0x1_0000_0000_0000_0000 then n else 0
    ensures ParseU64OrZero([45] + Digits(n))
         == if 0 < n < 0x1_0000_0000_0000_0000 then 0x1_0000_0000_0000_0000 - n else 0
    ensures n < 0x1_0000_0000_0000_0000 ==> ParseU64OrZero(Digits(n) + rest) == n
    ensures (rest == [] || rest[0] !in {9, 10, 11, 12, 13, 32, 43, 45}) ==> ParseU64OrZero(rest) == 0
  {
    hide Digits;
    LeadingOfDigits(n);
    DigitsStep(n);
    var d := Digits(n);
    assert IsDigit(d[0]);
    assert ([blank] + d)[1..] == d && ([43] + d)[1..] == d && ([45] + d)[1..] == d;
    assert 9 <= blank <= 13 || blank == 32 ==> SkipSpace([blank] + d) == SkipSpace(d);
    LeadingDigits(d, rest, 0, 0);
    assert Leading(d + rest) == (n, |d|);
  }

  /** Lines end with newlines; what follows the last one is a line unless it is empty. */
  lemma {:induction false} LastLine(rows: seq<Text>, last: Text)
    requires Free(rows, 10) && 10 !in last
    ensures Lines(Joined(rows) + last) == rows + if last == [] then [] else [last]
    decreases |rows|
  {
    if rows == [] {
      assert Joined(rows) + last == last;
      FindNone(last);
    } else {
      var rest := Joined(rows[1..]) + last;
      var s := Joined(rows) + last;
      assert s == rows[0] + [10] + rest;
      FindIn(rows[0], 10, rest);
      assert s[..|rows[0]|] == rows[0] && s[|rows[0]| + 1..] == rest;
      LastLine(rows[1..], last);
    }
  }

  lemma {:induction false} FindNone(s: Text)
    requires 10 !in s
    ensures Find(s, 10) == |s|
  {
  }

  /** What a line becomes: an export if it has at least six fields and names of a lane and a kind; the
      target is cut to 32 bits, any number but zero makes it visible, and further fields do not matter. */
  lemma ExportRead(f: seq<Text>, lane: U16, kind: U16, target: U64, visible: U64)
    ensures |f| < 6 ==> ExportOf(f) == None
    ensures |f| >= 6 && NamedLane(lane) && NamedKind(kind) && f[2] == Ascii(LaneName(lane)) && f[3] == Ascii(KindName(kind))
            && f[4] == Digits(target) && f[5] == Digits(visible) ==>
              ExportOf(f) == Some(Export(f[0], f[1], lane, kind, target % 0x1_0000_0000, visible > 0))
  {
    hide ParseU64OrZero, Digits, LaneName, KindName, ParseLaneName, ParseKindName;
    LaneNames(lane);
    KindNames(kind);
    CharsOfAscii(LaneName(lane));
    CharsOfAscii(KindName(kind));
    NumberRoundTrip(target);
    NumberRoundTrip(visible);
  }

  /** The same for dependencies, with eight fields. */
  lemma DepRead(f: seq<Text>, kind: Byte, mode: Byte, order: U64, required: U64, hash: U64)
    ensures |f| < 8 ==> DepOf(f) == None
    ensures |f| >= 8 && kind < 4 && mode < 2 && f[1] == Ascii(DepKindName(kind)) && f[2] == Ascii(DepModeName(mode))
            && f[4] == Digits(order) && f[5] == Digits(required) && f[6] == Digits(hash) ==>
              DepOf(f) == Some(Dep(f[0], kind, mode, f[3], order % 0x1_0000_0000, required > 0, hash, f[7]))
  {
    hide ParseU64OrZero, Digits, DepKindName, DepModeName, ParseDepKindName, ParseDepModeName;
    DepNames(kind, mode);
    CharsOfAscii(DepKindName(kind));
    CharsOfAscii(DepModeName(mode));
    NumberRoundTrip(order);
    NumberRoundTrip(required);
    NumberRoundTrip(hash);
  }
}
