/** Where each number and text of a parlib file lies, byte by byte, and what a written file holds there. */
module ParlibBytes {
  import opened Wrappers
  import opened Bits
  import opened LittleEndian
  import opened ParlibFormat
  import opened ParlibFile
  import opened ParlibReader
  import opened ParlibRoundTrip
  import opened ParlibBuild

  // ---- Numbers ----------------------------------------------------------------------------

  /** The number of `n` bytes at `at`, the lowest byte first; zero when the input ends before. */
  function Num(s: seq<Byte>, at: nat, n: nat): nat {
    if at + n <= |s| then UnLE(s[at..at + n]) else 0
  }

  /** The numbers of two, four and eight bytes. */
  lemma NumBytes(s: seq<Byte>, at: nat)
    ensures at + 2 <= |s| ==> Num(s, at, 2) == (s[at] as nat) + 0x100 * (s[at + 1] as nat)
    ensures at + 4 <= |s| ==> Num(s, at, 4) == (s[at] as nat) + 0x100 * (s[at + 1] as nat) + 0x1_0000 * (s[at + 2] as nat) + 0x100_0000 * (s[at + 3] as nat)
    ensures at + 8 <= |s| ==> Num(s, at, 8) == Num(s, at, 4) + 0x1_0000_0000 * Num(s, at + 4, 4)
  {
    if at + 2 <= |s| {
      Peel(s, at, at + 2);
      Peel(s, at + 1, at + 2);
    }
    if at + 4 <= |s| {
      FourBytes(s, at, at + 4);
    }
    if at + 8 <= |s| {
      FourBytes(s, at, at + 8);
      FourBytes(s, at + 4, at + 8);
    }
  }

  lemma Peel(s: seq<Byte>, at: nat, to: nat)
    requires at < to <= |s|
    ensures UnLE(s[at..to]) == s[at] + 0x100 * UnLE(s[at + 1..to])
  {
    assert s[at..to][1..] == s[at + 1..to];
  }

  lemma FourBytes(s: seq<Byte>, at: nat, to: nat)
    requires at + 4 <= to <= |s|
    ensures UnLE(s[at..to]) == (s[at] as nat) + 0x100 * (s[at + 1] as nat) + 0x1_0000 * (s[at + 2] as nat) + 0x100_0000 * (s[at + 3] as nat)
                               + 0x1_0000_0000 * UnLE(s[at + 4..to])
  {
    Peel(s, at, to);
    Peel(s, at + 1, to);
    Peel(s, at + 2, to);
    Peel(s, at + 3, to);
  }

  /** The i-th number of a run. */
  lemma {:induction false} NumAt(ws: seq<nat>, s: seq<Byte>, off: nat, i: nat, j: nat)
    requires i <= j < |ws| && off + Width(ws, i) <= |s|
    ensures Width(ws, j) <= Width(ws, i)
    ensures Unpack(ws, s, off, i)[j - i] == Num(s, off + Width(ws, i) - Width(ws, j), ws[j])
    decreases j - i
  {
    if i < j {
      NumAt(ws, s, off + ws[i], i + 1, j);
    }
  }

  // ---- Header, TOC entries and footer -----------------------------------------------------

  predicate StartsWith(s: seq<Byte>, a: Byte, b: Byte, c: Byte, d: Byte) {
    |s| >= 4 && s[0] == a && s[1] == b && s[2] == c && s[3] == d
  }

  /** The text of a field of 32 bytes: what comes before the first zero. */
  predicate TextAt(s: seq<Byte>, at: nat, text: seq<Byte>) {
    && at + 32 <= |s| && |text| <= 32 && s[at..at + |text|] == text
    && (forall i :: 0 <= i < |text| ==> text[i] != 0)
    && (|text| < 32 ==> s[at + |text|] == 0)
  }

  lemma {:induction false} UntilFirstZero(s: seq<Byte>)
    ensures var r := UntilZero(s);
            && r == s[..|r|] && (forall i :: 0 <= i < |r| ==> r[i] != 0) && (|r| < |s| ==> s[|r|] == 0)
    decreases |s|
  {
    if s != [] && s[0] != 0 {
      UntilFirstZero(s[1..]);
    }
  }

  lemma TextHere(s: seq<Byte>, at: nat)
    requires at + 32 <= |s|
    ensures TextAt(s, at, UntilZero(s[at..at + 32]))
  {
    UntilFirstZero(s[at..at + 32]);
    var r := UntilZero(s[at..at + 32]);
    assert s[at..at + |r|] == s[at..at + 32][..|r|];
  }

  /** Where a header's numbers and texts are read from. */
  ghost predicate HeaderIsAt(s: seq<Byte>, h: Header) {
    && h.major == Num(s, 4, 2) && h.minor == Num(s, 6, 2) && h.flags == Num(s, 8, 4) && h.headerSize == Num(s, 12, 4)
    && h.streamOffset == Num(s, 16, 8) && h.streamSize == Num(s, 24, 8)
    && h.tocOffset == Num(s, 32, 8) && h.tocSize == Num(s, 40, 8) && h.fileSize == Num(s, 48, 8)
    && h.featureBits == Num(s, 56, 8) && h.compilerHash == Num(s, 64, 8)
    && h.tocCount == Num(s, 72, 4) && h.tocEntrySize == Num(s, 76, 4)
    && TextAt(s, 80, h.triple) && TextAt(s, 112, h.bundle) && TextAt(s, 144, h.summary)
  }

  /** A header is whatever starts with `PRLB` and has 256 bytes. */
  lemma HeaderRead(s: seq<Byte>)
    ensures ParseHeader(s).Some? <==> |s| >= 256 && StartsWith(s, 80, 82, 76, 66)
    ensures ParseHeader(s).Some? ==> HeaderIsAt(s, ParseHeader(s).value)
  {
    hide Unpack, Width, UnLE, UntilZero, Num;
    assert |s| >= 4 ==> s[..4] == [s[0], s[1], s[2], s[3]];
    if ParseHeader(s).Some? {
      Widths();
      TextHere(s, 80);
      TextHere(s, 112);
      TextHere(s, 144);
      HeaderNumbersRead(s);
    }
  }

  lemma HeaderNumbersRead(s: seq<Byte>)
    requires |s| >= 256 && Width(HEADER_WIDTHS) == 76
    ensures forall j :: 0 <= j < 13 ==> Unpack(HEADER_WIDTHS, s, 4)[j] == Num(s, HEADER_OFFSETS[j], HEADER_WIDTHS[j])
  {
    hide Unpack, Width, Num;
    forall j | 0 <= j < 13
      ensures Unpack(HEADER_WIDTHS, s, 4)[j] == Num(s, HEADER_OFFSETS[j], HEADER_WIDTHS[j])
    {
      NumAt(HEADER_WIDTHS, s, 4, 0, j);
      Offsets(j);
    }
  }

  /** Where the numbers of a TOC entry at `at` are read from. */
  ghost predicate EntryIsAt(s: seq<Byte>, at: nat, r: Record) {
    && r.kind == Num(s, at, 2) && r.lane == Num(s, at + 2, 2) && r.target == Num(s, at + 4, 4) && r.align == Num(s, at + 8, 4)
    && r.compression == Num(s, at + 12, 2) && r.offset == Num(s, at + 16, 8) && r.size == Num(s, at + 24, 8)
    && r.checksum == Num(s, at + 32, 8) && r.hash == Num(s, at + 40, 8)
  }

  lemma EntryRead(s: seq<Byte>, at: nat)
    requires at + 64 <= |s|
    ensures EntryIsAt(s, at, ParseEntry(s, at))
  {
    hide Unpack, Width, Num;
    Widths();
    forall j | 0 <= j < 12
      ensures Unpack(ENTRY_WIDTHS, s, at)[j] == Num(s, at + ENTRY_OFFSETS[j], ENTRY_WIDTHS[j])
    {
      NumAt(ENTRY_WIDTHS, s, at, 0, j);
      Offsets(j);
    }
  }

  /** A footer is `PFT1`, the version 1, the place of the TOC, and the FNV-1a hash of these 24 bytes. */
  ghost predicate FooterIsAt(s: seq<Byte>, tocOffset: nat, tocSize: nat) {
    && |s| == 32 && StartsWith(s, 80, 70, 84, 49) && Num(s, 4, 4) == 1
    && tocOffset == Num(s, 8, 8) && tocSize == Num(s, 16, 8) && Num(s, 24, 8) == Fnv(1469598103934665603, s[..24])
  }

  lemma FooterRead(s: seq<Byte>, tocOffset: U64, tocSize: U64)
    ensures ParseFooter(s) == Some((tocOffset, tocSize)) <==> FooterIsAt(s, tocOffset, tocSize)
  {
    hide Unpack, Width, Fnv, UnLE;
    assert |s| >= 4 ==> s[..4] == [s[0], s[1], s[2], s[3]];
    if |s| == 32 {
      Widths();
      FooterNumbersRead(s);
    }
  }

  lemma FooterNumbersRead(s: seq<Byte>)
    requires |s| == 32 && Width(FOOTER_WIDTHS) == 20
    ensures var ns := Unpack(FOOTER_WIDTHS, s, 4); ns[0] == Num(s, 4, 4) && ns[1] == Num(s, 8, 8) && ns[2] == Num(s, 16, 8)
  {
    hide Unpack, Num;
    NumAt(FOOTER_WIDTHS, s, 4, 0, 0);
    NumAt(FOOTER_WIDTHS, s, 4, 0, 1);
    NumAt(FOOTER_WIDTHS, s, 4, 0, 2);
    assert Width(FOOTER_WIDTHS, 1) == 16 && Width(FOOTER_WIDTHS, 2) == 8;
  }

  // ---- What is written --------------------------------------------------------------------

  /** What a field of 32 bytes keeps of a text: at most 31 bytes, and none from the first zero on. */
  predicate Survives(text: seq<Byte>, kept: seq<Byte>) {
    && |kept| <= 31 && kept <= text && (forall i :: 0 <= i < |kept| ==> kept[i] != 0)
    && (|kept| < 31 && |kept| < |text| ==> text[|kept|] == 0)
  }

  lemma FieldSurvives(text: seq<Byte>)
    ensures Survives(text, FieldText(text))
  {
    var cut := text[..Min(31, |text|)];
    UntilFirstZero(cut);
    assert forall i :: 0 <= i < |cut| ==> cut[i] == text[i];
  }

  /** A record says of a payload what it is, how long, and its two hashes. */
  ghost predicate RecordSays(r: Record, p: Payload) {
    && r.kind == p.kind && r.lane == p.lane && r.target == p.target && r.align == p.align
    && r.compression == p.compression && r.size == |p.bytes|
    && r.hash == Fnv(1469598103934665603, p.bytes)
    && r.checksum == Xor(Fnv(1099511628211, p.bytes), |p.bytes|)
  }

  /** What the header of a finished file says: the options, and the places and sizes of its parts. */
  ghost predicate HeaderSays(h: Header, opt: Options, body: nat, count: nat, size: nat) {
    && h.major == 1 && h.minor == 1 && h.flags == opt.flags && h.headerSize == 256
    && h.streamOffset == 256 && h.streamSize == h.tocOffset - 256
    && body <= h.tocOffset < body + 8 && h.tocOffset % 8 == 0 && h.tocSize == 64 * count
    && h.fileSize == size == h.tocOffset + h.tocSize + 32
    && h.featureBits == opt.features && h.compilerHash == opt.compiler
    && h.tocCount == count && h.tocEntrySize == 64
    && Survives(opt.triple, h.triple) && Survives(opt.bundle, h.bundle) && Survives(opt.summary, h.summary)
  }

  /** What opening a finished file gives. */
  lemma OpenedSays(opt: Options, items: seq<Item>)
    requires FileSize(items) <= MAX_POS && |Kept(items)| < WORD32
    ensures Opened(Image(opt, items)).Ok?
    ensures var r := Opened(Image(opt, items)).value;
            && HeaderSays(r.header, opt, |Body(items)|, |Kept(items)|, |Image(opt, items)|)
            && r.footerOffset == r.header.tocOffset + r.header.tocSize && |r.records| == |Kept(items)|
            && forall i :: 0 <= i < |Kept(items)| ==> RecordSays(r.records[i], Kept(items)[i])
  {
    hide Opened, Body, Kept, Records, Fnv, Image, FieldText, Survives;
    OpenedImage(opt, items);
    FieldSurvives(opt.triple);
    FieldSurvives(opt.bundle);
    FieldSurvives(opt.summary);
    TocAligned(items);
    forall i | 0 <= i < |Kept(items)|
      ensures RecordSays(Records(items)[i], Kept(items)[i])
    {
      ChunkInBody(items, i);
    }
  }

  lemma TocAligned(items: seq<Item>)
    ensures |Body(items)| <= TocStart(items) < |Body(items)| + 8 && TocStart(items) % 8 == 0
  {
    AlignUpBounds(|Body(items)|, 8);
  }

  /** So the bytes themselves: magic, numbers and texts where a reader looks for them, and zeros between. */
  lemma HeaderWritten(h: Header)
    ensures var s := HeaderBytes(h);
            && |s| == 256 && StartsWith(s, 80, 82, 76, 66)
            && HeaderIsAt(s, h.(triple := FieldText(h.triple), bundle := FieldText(h.bundle), summary := FieldText(h.summary)))
            && TextField(s, 80, h.triple) && TextField(s, 112, h.bundle) && TextField(s, 144, h.summary)
            && forall i :: 176 <= i < 256 ==> s[i] == 0
  {
    var s := HeaderBytes(h);
    HeaderTail(h);
    HeaderParts(h);
    TextWritten(s, 80, h.triple);
    TextWritten(s, 112, h.bundle);
    TextWritten(s, 144, h.summary);
    hide HeaderBytes, ParseHeader, HeaderIsAt, FieldText;
    HeaderRead(s);
    HeaderRoundTrip(h);
  }

  /** A text cut to 31 bytes, and zeros after it. */
  predicate TextField(s: seq<Byte>, at: nat, text: seq<Byte>) {
    && at + 32 <= |s|
    && forall i :: 0 <= i < 32 ==> s[at + i] == if i < 31 && i < |text| then text[i] else 0
  }

  lemma TextWritten(s: seq<Byte>, at: nat, text: seq<Byte>)
    requires at + 32 <= |s| && s[at..at + 32] == CStr(STRING_FIELD, text)
    ensures TextField(s, at, text)
  {
    forall i | 0 <= i < 32
      ensures s[at + i] == if i < 31 && i < |text| then text[i] else 0
    {
      assert s[at + i] == s[at..at + 32][i] == CStr(STRING_FIELD, text)[i];
    }
  }

  lemma HeaderTail(h: Header)
    ensures forall i :: 176 <= i < 256 ==> HeaderBytes(h)[i] == 0
  {
    hide Pack, CStr, HeaderNumbers;
    Widths();
  }

  /** A TOC entry: its numbers, and zeros in the reserved places. */
  lemma EntryWritten(r: Record)
    ensures var s := EntryBytes(r);
            |s| == 64 && EntryIsAt(s, 0, r) && Num(s, 14, 2) == 0 && Num(s, 48, 8) == 0 && Num(s, 56, 8) == 0
  {
    hide Pack, Unpack, Width, Num, UnLE;
    var s := EntryBytes(r);
    assert s[0..64] == s;
    EntryRoundTrip(r, s, 0);
    EntryRead(s, 0);
    Widths();
    EntryFits(r);
    UnpackPack(ENTRY_WIDTHS, EntryNumbers(r), s, 0);
    assert EntryNumbers(r)[0..] == EntryNumbers(r);
    NumAt(ENTRY_WIDTHS, s, 0, 0, 5);
    NumAt(ENTRY_WIDTHS, s, 0, 0, 10);
    NumAt(ENTRY_WIDTHS, s, 0, 0, 11);
    Offsets(5);
    Offsets(10);
    Offsets(11);
  }

  lemma FooterWritten(tocOffset: U64, tocSize: U64)
    ensures FooterIsAt(FooterBytes(tocOffset, tocSize), tocOffset, tocSize)
  {
    hide FooterBytes, ParseFooter, FooterIsAt;
    FooterRoundTrip(tocOffset, tocSize);
    FooterRead(FooterBytes(tocOffset, tocSize), tocOffset, tocSize);
  }

  // ---- When a file opens ------------------------------------------------------------------

  /** The checks of opening, in their order, on the bytes of the file; the numbers are those of the header. */
  predicate Passes(s: seq<Byte>, check: nat)
    requires check < 12
  {
    match check
    case 0 => |s| >= 288
    case 1 => StartsWith(s, 80, 82, 76, 66)
    case 2 => !(Num(s, 4, 2) == 1 && Num(s, 6, 2) == 0)
    case 3 => Num(s, 4, 2) == 1 && Num(s, 6, 2) == 1
    case 4 => Num(s, 12, 4) == 256
    case 5 => Num(s, 48, 8) == |s|
    case 6 =>
      && |s| >= 32 && StartsWith(s[|s| - 32..], 80, 70, 84, 49) && Num(s, |s| - 28, 4) == 1
      && Num(s, |s| - 8, 8) == Fnv(1469598103934665603, s[|s| - 32..|s| - 8])
    case 7 => |s| >= 32 && Num(s, |s| - 24, 8) == Num(s, 32, 8) && Num(s, |s| - 16, 8) == Num(s, 40, 8)
    case 8 => Num(s, 76, 4) == 64
    case 9 => (Num(s, 32, 8) + Num(s, 40, 8) + 32) % 0x1_0000_0000_0000_0000 == |s|
    case 10 => Num(s, 40, 8) == 64 * Num(s, 72, 4)
    case 11 => Num(s, 32, 8) + Num(s, 40, 8) <= |s|
  }

  const ERRORS: seq<OpenError> := [
    TooSmall, BadHeader, LegacyFormat, UnsupportedVersion, UnsupportedHeaderSize, FileSizeMismatch, BadFooter,
    TocPointerMismatch, UnsupportedEntrySize, BadLayout, TocCountMismatch, TocUnreadable]

  /** The first check that fails; 12 when none does. */
  predicate FailsFirst(s: seq<Byte>, check: nat)
    requires check <= 12
  {
    && (forall j :: 0 <= j < check ==> Passes(s, j))
    && (check < 12 ==> !Passes(s, check))
  }

  lemma NumSlice(s: seq<Byte>, from: nat, to: nat, at: nat, n: nat)
    requires from <= to <= |s| && from + at + n <= to
    ensures Num(s[from..to], at, n) == Num(s, from + at, n)
  {
    var a, b := s[from..to][at..at + n], s[from + at..from + at + n];
    assert |a| == |b| && forall i :: 0 <= i < n ==> a[i] == b[i];
    assert a == b;
  }

  /** The header's part of the checks. */
  lemma HeaderChecks(s: seq<Byte>)
    requires |s| >= 288
    ensures ParseHeader(s[..256]).Some? <==> Passes(s, 1)
    ensures Passes(s, 1) ==> HeaderIsAt(s, ParseHeader(s[..256]).value)
  {
    hide ParseHeader, Num;
    HeaderRead(s[..256]);
    if Passes(s, 1) {
      var h := ParseHeader(s[..256]).value;
      assert s[..256] == s[0..256];
      NumSlice(s, 0, 256, 4, 2);
      NumSlice(s, 0, 256, 6, 2);
      NumSlice(s, 0, 256, 8, 4);
      NumSlice(s, 0, 256, 12, 4);
      NumSlice(s, 0, 256, 16, 8);
      NumSlice(s, 0, 256, 24, 8);
      NumSlice(s, 0, 256, 32, 8);
      NumSlice(s, 0, 256, 40, 8);
      NumSlice(s, 0, 256, 48, 8);
      NumSlice(s, 0, 256, 56, 8);
      NumSlice(s, 0, 256, 64, 8);
      NumSlice(s, 0, 256, 72, 4);
      NumSlice(s, 0, 256, 76, 4);
      TextSlice(s, 80, h.triple);
      TextSlice(s, 112, h.bundle);
      TextSlice(s, 144, h.summary);
    }
  }

  lemma TextSlice(s: seq<Byte>, at: nat, text: seq<Byte>)
    requires |s| >= 256 && at + 32 <= 256 && TextAt(s[..256], at, text)
    ensures TextAt(s, at, text)
  {
    assert s[at..at + |text|] == s[..256][at..at + |text|];
  }

  /** The footer's part. */
  lemma FooterChecks(s: seq<Byte>)
    requires |s| >= 288
    ensures var footer := ParseFooter(s[|s| - 32..]);
            && (footer.Some? <==> Passes(s, 6))
            && (footer.Some? ==> footer.value.0 == Num(s, |s| - 24, 8) && footer.value.1 == Num(s, |s| - 16, 8))
  {
    hide ParseFooter, Num, Fnv;
    var n := |s|;
    var f := s[n - 32..n];
    assert s[n - 32..] == f;
    NumSlice(s, n - 32, n, 4, 4);
    NumSlice(s, n - 32, n, 8, 8);
    NumSlice(s, n - 32, n, 16, 8);
    NumSlice(s, n - 32, n, 24, 8);
    assert f[..24] == s[n - 32..n - 8];
    NumBound(f, 8);
    NumBound(f, 16);
    if ParseFooter(f).Some? {
      FooterRead(f, ParseFooter(f).value.0, ParseFooter(f).value.1);
    }
    if Passes(s, 6) {
      FooterRead(f, Num(f, 8, 8), Num(f, 16, 8));
    }
  }

  lemma NumBound(s: seq<Byte>, at: nat)
    ensures Num(s, at, 8) < WORD64
  {
    Pow256Words();
    if at + 8 <= |s| {
      UnLEBound(s[at..at + 8]);
    }
  }

  lemma HeaderErrors(s: seq<Byte>, h: Header)
    requires HeaderIsAt(s, h)
    ensures HeaderError(h, |s|) == if !Passes(s, 2) then Some(LegacyFormat) else if !Passes(s, 3) then Some(UnsupportedVersion)
                                   else if !Passes(s, 4) then Some(UnsupportedHeaderSize)
                                   else if !Passes(s, 5) then Some(FileSizeMismatch) else None
  {
    hide Num;
  }

  lemma TocErrors(s: seq<Byte>, h: Header, footer: (U64, U64))
    requires |s| >= 288 && HeaderIsAt(s, h) && footer.0 == Num(s, |s| - 24, 8) && footer.1 == Num(s, |s| - 16, 8)
    ensures TocError(h, footer, |s|) == if !Passes(s, 7) then Some(TocPointerMismatch)
                                        else if !Passes(s, 8) then Some(UnsupportedEntrySize)
                                        else if !Passes(s, 9) then Some(BadLayout)
                                        else if !Passes(s, 10) then Some(TocCountMismatch) else None
  {
    hide Num;
    assert Sum64(Sum64(h.tocOffset, h.tocSize), FOOTER_SIZE) == (h.tocOffset + h.tocSize + 32) % WORD64;
  }

  /** Opening reports the first check that fails. */
  lemma OpenReports(s: seq<Byte>, check: nat)
    requires |s| <= MAX_POS && check < 12 && FailsFirst(s, check)
    ensures Opened(s) == Err(ERRORS[check])
  {
    hide ParseHeader, ParseFooter, Num, Fnv, Entries, HeaderError, TocError, Passes;
    AtLeast288(s);
    if check > 0 {
      assert Passes(s, 0);
      HeaderChecks(s);
      FooterChecks(s);
      if check > 1 {
        assert Passes(s, 1);
        var h := ParseHeader(s[..256]).value;
        HeaderErrors(s, h);
        if check > 5 {
          assert Passes(s, 2) && Passes(s, 3) && Passes(s, 4) && Passes(s, 5);
          if check > 6 {
            TocErrors(s, h, ParseFooter(s[|s| - 32..]).value);
            LastCheck(s, h);
          }
        }
      }
    }
  }

  lemma AtLeast288(s: seq<Byte>)
    ensures Passes(s, 0) <==> |s| >= 288
  {
  }

  lemma LastCheck(s: seq<Byte>, h: Header)
    requires HeaderIsAt(s, h)
    ensures Passes(s, 11) <==> h.tocOffset + h.tocSize <= |s|
  {
  }

  /** Reading the entries of a TOC at `at`: all of them, or the first that points outside. */
  ghost predicate EntriesAre(s: seq<Byte>, at: nat, count: nat, i: nat, r: Result<seq<Record>, OpenError>)
    requires i <= count
  {
    match r
    case Ok(rs) =>
      && |rs| == count - i
      && forall j :: i <= j < count ==> Inside(s, at + 64 * j) && EntryIsAt(s, at + 64 * j, rs[j - i])
    case Err(e) =>
      exists j :: i <= j < count && e == ChunkOutOfBounds(j) && !Inside(s, at + 64 * j)
                  && forall k :: i <= k < j ==> Inside(s, at + 64 * k)
  }

  predicate Inside(s: seq<Byte>, at: nat) {
    (Num(s, at + 16, 8) + Num(s, at + 24, 8)) % 0x1_0000_0000_0000_0000 <= |s|
  }

  lemma {:induction false} EntriesRead(s: seq<Byte>, at: nat, count: nat, i: nat)
    requires at + 64 * count <= |s| < WORD64 && i <= count
    ensures EntriesAre(s, at, count, i, Entries(s[at..at + 64 * count], count, |s|, i))
    decreases count - i
  {
    hide ParseEntry, Num;
    if i < count {
      var toc := s[at..at + 64 * count];
      var record := ParseEntry(toc, i * 64);
      EntryRead(toc, i * 64);
      EntrySlice(s, at, count, i, record);
      EntriesRead(s, at, count, i + 1);
      EntriesStep(s, at, count, i, record, Entries(toc, count, |s|, i + 1));
    }
  }

  lemma EntrySlice(s: seq<Byte>, at: nat, count: nat, i: nat, r: Record)
    requires at + 64 * count <= |s| && i < count && EntryIsAt(s[at..at + 64 * count], i * 64, r)
    ensures EntryIsAt(s, at + 64 * i, r)
  {
    hide Num;
    var to := at + 64 * count;
    NumSlice(s, at, to, 64 * i, 2);
    NumSlice(s, at, to, 64 * i + 2, 2);
    NumSlice(s, at, to, 64 * i + 4, 4);
    NumSlice(s, at, to, 64 * i + 8, 4);
    NumSlice(s, at, to, 64 * i + 12, 2);
    NumSlice(s, at, to, 64 * i + 16, 8);
    NumSlice(s, at, to, 64 * i + 24, 8);
    NumSlice(s, at, to, 64 * i + 32, 8);
    NumSlice(s, at, to, 64 * i + 40, 8);
  }

  lemma EntriesStep(s: seq<Byte>, at: nat, count: nat, i: nat, record: Record, rest: Result<seq<Record>, OpenError>)
    requires i < count && EntryIsAt(s, at + 64 * i, record) && EntriesAre(s, at, count, i + 1, rest)
    ensures EntriesAre(s, at, count, i,
                       if Sum64(record.offset, record.size) > |s| then Err(ChunkOutOfBounds(i)) else Preceded([record], rest))
  {
    hide Num;
    assert Inside(s, at + 64 * i) <==> Sum64(record.offset, record.size) <= |s|;
    if Inside(s, at + 64 * i) && rest.Err? {
      var j :| i + 1 <= j < count && rest.error == ChunkOutOfBounds(j) && !Inside(s, at + 64 * j)
               && forall k :: i + 1 <= k < j ==> Inside(s, at + 64 * k);
    }
  }

  /** A file that passes the checks opens with what its bytes say, unless an entry points outside. */
  lemma OpensWithItsBytes(s: seq<Byte>)
    requires |s| <= MAX_POS && FailsFirst(s, 12)
    ensures var toc, count, r := Num(s, 32, 8), Num(s, 72, 4), Opened(s);
            && (r.Ok? ==> && EntriesAre(s, toc, count, 0, Ok(r.value.records)) && HeaderIsAt(s, r.value.header)
                          && r.value.file == s && r.value.footerOffset == toc + 64 * count)
            && (r.Err? ==> EntriesAre(s, toc, count, 0, Err(r.error)))
  {
    hide ParseHeader, ParseFooter, Num, Fnv, Entries, HeaderError, TocError, Passes, EntriesAre;
    AtLeast288(s);
    assert Passes(s, 0) && Passes(s, 1) && Passes(s, 2) && Passes(s, 3) && Passes(s, 4) && Passes(s, 5);
    assert Passes(s, 6) && Passes(s, 7) && Passes(s, 8) && Passes(s, 9) && Passes(s, 10) && Passes(s, 11);
    HeaderChecks(s);
    FooterChecks(s);
    var h := ParseHeader(s[..256]).value;
    HeaderErrors(s, h);
    TocErrors(s, h, ParseFooter(s[|s| - 32..]).value);
    LastCheck(s, h);
    assert Num(s, 40, 8) == 64 * Num(s, 72, 4) by { CountCheck(s); }
    EntriesRead(s, h.tocOffset, h.tocCount, 0);
  }

  lemma CountCheck(s: seq<Byte>)
    requires Passes(s, 10)
    ensures Num(s, 40, 8) == 64 * Num(s, 72, 4)
  {
  }

  // ---- Damage -----------------------------------------------------------------------------

  /** A chunk that was intact is no longer so once any one of its bytes is changed. */
  lemma DamageIsSeen(s: seq<Byte>, r: Record, i: nat, b: Byte)
    requires |s| <= MAX_POS && r.offset <= i < End(r) <= |s| && s[i] != b && Intact(s, r)
    ensures !Intact(s[i := b], r)
  {
    hide Fnv, XorU64, Slice;
    var t := s[i := b];
    SliceInside(s, r, 0, r.size);
    SliceInside(t, r, 0, r.size);
    var chunk := s[r.offset..End(r)];
    assert chunk[0..][..r.size] == chunk;
    assert t[r.offset..End(r)][0..][..r.size] == chunk[i - r.offset := b];
    FnvSeesByte(SEED_CONTENT, chunk, i - r.offset, b);
  }

  /** And an intact chunk has its length and both hashes. */
  lemma IntactSays(s: seq<Byte>, r: Record)
    requires |s| <= MAX_POS && End(r) <= |s|
    ensures Intact(s, r) <==> && r.hash == Fnv(1469598103934665603, s[r.offset..End(r)])
                              && r.checksum == Xor(Fnv(1099511628211, s[r.offset..End(r)]), r.size)
  {
    hide Fnv, Slice;
    SliceInside(s, r, 0, r.size);
    assert s[r.offset..End(r)][0..][..r.size] == s[r.offset..End(r)];
  }

  /** Any slice of any record: nothing past the chunk or the file, else the bytes there are, up to both ends. */
  lemma SliceAnywhere(s: seq<Byte>, r: Record, offset: U64, size: U64)
    requires |s| <= MAX_POS && r.offset + offset < WORD64
    ensures var at := r.offset + offset;
            if offset > r.size || at >= |s| then Slice(s, r, offset, size) == []
            else Slice(s, r, offset, size) == s[at..Min(|s|, Min(at + size, r.offset + r.size))]
  {
    assert Sum64(r.offset, offset) == r.offset + offset;
  }
}
