/** The byte formats of a parlib file: little-endian numbers, fixed string fields, header, TOC
    entries and footer; and the two small algorithms under them, alignment and FNV-1a. */
module ParlibFormat {
  import opened Wrappers
  import opened Bits
  import opened LittleEndian

  const HEADER_SIZE: nat := 256
  const TOC_ENTRY_SIZE: nat := 64
  const FOOTER_SIZE: nat := 32
  const STRING_FIELD: nat := 32
  const SEED_CONTENT: U64 := 1469598103934665603
  const SEED_CHECKSUM: U64 := 1099511628211
  const FNV_PRIME: nat := 1099511628211

  const MAGIC: seq<Byte> := [80, 82, 76, 66]
  const FOOTER_MAGIC: seq<Byte> := [80, 70, 84, 49]

  function Zeros(n: nat): (r: seq<Byte>)
    ensures |r| == n && forall i :: 0 <= i < n ==> r[i] == 0
  {
    seq(n, i => 0)
  }

  // ---- Runs of numbers of given widths ---------------------------------------------------

  /** The bytes taken by the numbers from the i-th on. */
  function Width(ws: seq<nat>, i: nat := 0): nat
    requires i <= |ws|
    decreases |ws| - i
  {
    if i == |ws| then 0 else ws[i] + Width(ws, i + 1)
  }

  function Pack(ws: seq<nat>, vs: seq<nat>, i: nat := 0): (r: seq<Byte>)
    requires i <= |ws| == |vs|
    ensures |r| == Width(ws, i)
    decreases |ws| - i
  {
    if i == |ws| then [] else LE(ws[i], vs[i]) + Pack(ws, vs, i + 1)
  }

  /** The numbers, from the i-th on, that lie at `off`. */
  function Unpack(ws: seq<nat>, s: seq<Byte>, off: nat, i: nat := 0): (r: seq<nat>)
    requires i <= |ws| && off + Width(ws, i) <= |s|
    ensures |r| == |ws| - i
    decreases |ws| - i
  {
    if i == |ws| then [] else [UnLE(s[off..off + ws[i]])] + Unpack(ws, s, off + ws[i], i + 1)
  }

  predicate Fits(ws: seq<nat>, vs: seq<nat>) {
    |ws| == |vs| && forall i :: 0 <= i < |ws| ==> vs[i] < Pow256(ws[i])
  }

  /** Reading a run of numbers gives back what was written. */
  lemma {:induction false} UnpackPack(ws: seq<nat>, vs: seq<nat>, s: seq<Byte>, off: nat, i: nat := 0)
    requires Fits(ws, vs) && i <= |ws| && off + Width(ws, i) <= |s|
    requires s[off..off + Width(ws, i)] == Pack(ws, vs, i)
    ensures Unpack(ws, s, off, i) == vs[i..]
    decreases |ws| - i
  {
    if i < |ws| {
      UnLEOfLE(ws[i], vs[i]);
      var run := s[off..off + Width(ws, i)];
      assert run[..ws[i]] == LE(ws[i], vs[i]) && run[..ws[i]] == s[off..off + ws[i]];
      assert run[ws[i]..] == Pack(ws, vs, i + 1) && run[ws[i]..] == s[off + ws[i]..off + Width(ws, i)];
      UnpackPack(ws, vs, s, off + ws[i], i + 1);
    }
  }

  lemma PackStep(ws: seq<nat>, vs: seq<nat>, i: nat)
    requires |ws| == |vs| && i <= |ws|
    ensures Width(ws, |ws|) == 0 && Pack(ws, vs, |ws|) == []
    ensures i < |ws| ==> Width(ws, i) == ws[i] + Width(ws, i + 1)
    ensures i < |ws| ==> Pack(ws, vs, i) == LE(ws[i], vs[i]) + Pack(ws, vs, i + 1)
  {
  }

  /** Writes a run of numbers at `off`. */
  method WriteAll(out: array<Byte>, off: nat, ws: seq<nat>, vs: seq<nat>)
    requires |ws| == |vs| && off + Width(ws) <= out.Length
    modifies out
    ensures out[..] == old(out[..off]) + Pack(ws, vs) + old(out[off + Width(ws)..])
  {
    hide LE, Pack, Width;
    PackStep(ws, vs, 0);
    var at := off;
    ghost var done: seq<Byte> := [];
    for i := 0 to |ws|
      invariant at == off + |done| && at + Width(ws, i) == off + Width(ws)
      invariant Pack(ws, vs) == done + Pack(ws, vs, i)
      invariant out[..] == old(out[..off]) + done + old(out[at..])
    {
      PackStep(ws, vs, i);
      WriteLE(out, at, ws[i], vs[i]);
      done := done + LE(ws[i], vs[i]);
      at := at + ws[i];
    }
  }

  /** Reads a run of numbers at `off`. */
  method ReadAll(input: seq<Byte>, off: nat, ws: seq<nat>) returns (r: Option<seq<nat>>)
    requires off <= |input|
    ensures r == if off + Width(ws) <= |input| then Some(Unpack(ws, input, off)) else None
  {
    hide UnLE;
    var at, vs := off, [];
    for i := 0 to |ws|
      invariant at + Width(ws, i) == off + Width(ws) && off <= at <= |input|
      invariant off + Width(ws) <= |input| ==> Unpack(ws, input, off) == vs + Unpack(ws, input, at, i)
    {
      var v := ReadLE(input, at, ws[i]);
      if v.None? {
        return None;
      }
      vs := vs + [v.value];
      at := at + ws[i];
    }
    assert vs == vs + Unpack(ws, input, at, |ws|);
    r := Some(vs);
  }

  // ---- String fields ---------------------------------------------------------------------

  function Min(a: nat, b: nat): nat { if a <= b then a else b }

  /** A string in a field of `size` bytes: cut to fit before a terminating zero. */
  function CStr(size: nat, s: seq<Byte>): (r: seq<Byte>)
    requires size > 0
    ensures |r| == size
  {
    var n := Min(size - 1, |s|);
    s[..n] + Zeros(size - n)
  }

  /** The bytes before the first zero. */
  function UntilZero(s: seq<Byte>): (r: seq<Byte>)
    ensures |r| <= |s| && r == s[..|r|]
  {
    if s == [] || s[0] == 0 then [] else [s[0]] + UntilZero(s[1..])
  }

  /** What survives of a string in a field: its bytes up to a zero or the field's end. */
  lemma {:induction false} CStrRead(size: nat, s: seq<Byte>)
    requires size > 0
    ensures UntilZero(CStr(size, s)) == UntilZero(s[..Min(size - 1, |s|)])
  {
    var n := Min(size - 1, |s|);
    UntilZeroZeros(s[..n], size - n);
  }

  lemma {:induction false} UntilZeroZeros(s: seq<Byte>, n: nat)
    requires n > 0
    ensures UntilZero(s + Zeros(n)) == UntilZero(s)
    decreases |s|
  {
    if s != [] && s[0] != 0 {
      UntilZeroZeros(s[1..], n);
      assert (s + Zeros(n))[1..] == s[1..] + Zeros(n);
    }
  }

  method WriteCStr(out: array<Byte>, off: nat, size: nat, s: seq<Byte>)
    requires size > 0 && off + size <= out.Length && forall j :: off <= j < off + size ==> out[j] == 0
    modifies out
    ensures out[..off] == old(out[..off]) && out[off..off + size] == CStr(size, s)
    ensures forall j :: off + size <= j < out.Length ==> out[j] == old(out[j])
  {
    var n := Min(size - 1, |s|);
    for i := 0 to n
      invariant forall j :: 0 <= j < i ==> out[off + j] == s[j]
      invariant forall j :: 0 <= j < off || off + i <= j < out.Length ==> out[j] == old(out[j])
    {
      out[off + i] := s[i];
    }
    out[off + n] := 0;
    assert out[off..off + size] == CStr(size, s) by {
      forall j | 0 <= j < size ensures out[off + j] == CStr(size, s)[j] {
      }
    }
  }

  lemma UntilZeroStep(s: seq<Byte>, from: nat, to: nat)
    requires from <= to <= |s|
    ensures UntilZero(s[from..to]) == if from == to || s[from] == 0 then [] else [s[from]] + UntilZero(s[from + 1..to])
  {
    if from < to {
      assert s[from..to][1..] == s[from + 1..to];
    }
  }

  method ReadCStr(input: seq<Byte>, off: nat, size: nat) returns (s: seq<Byte>)
    requires off + size <= |input|
    ensures s == UntilZero(input[off..off + size])
  {
    hide UntilZero;
    s := [];
    var i := 0;
    UntilZeroStep(input, off + size, off + size);
    while i < size
      invariant 0 <= i <= size
      invariant UntilZero(input[off..off + size]) == s + UntilZero(input[off + i..off + size])
    {
      UntilZeroStep(input, off + i, off + size);
      if input[off + i] == 0 {
        return;
      }
      s := s + [input[off + i]];
      i := i + 1;
    }
  }

  // ---- Hashing ---------------------------------------------------------------------------

  function FnvStep(h: U64, b: Byte): U64 { Xor(h, b) * FNV_PRIME % 0x1_0000_0000_0000_0000 }

  function Fnv(h: U64, s: seq<Byte>): U64
    decreases |s|
  {
    if s == [] then h else Fnv(FnvStep(h, s[0]), s[1..])
  }

  /** Hashing in pieces is hashing the whole. */
  lemma {:induction false} FnvConcat(h: U64, a: seq<Byte>, b: seq<Byte>)
    ensures Fnv(Fnv(h, a), b) == Fnv(h, a + b)
    decreases |a|
  {
    if a == [] {
      assert a + b == b;
    } else {
      FnvConcat(FnvStep(h, a[0]), a[1..], b);
      assert (a + b)[1..] == a[1..] + b;
    }
  }

  /** The published hash of the text `a`, and its hash from the seed used here, which is the published
      one without its last digit. */
  lemma FnvVectors()
    ensures Fnv(14695981039346656037, [97]) == 0xaf63_dc4c_8601_ec8c
    ensures SEED_CONTENT == 1469598103934665603 && Fnv(SEED_CONTENT, [97]) == 4953267810257967366
  {
    hide Xor, Fnv;
    XorLetter();
    OneByte(14695981039346656037, 97);
    OneByte(1469598103934665603, 97);
  }

  lemma XorLetter()
    ensures Xor(14695981039346656037, 97) == 14695981039346656068 && Xor(1469598103934665603, 97) == 1469598103934665698
  {
    assert Xor(229624703739791500, 1) == 229624703739791501;
    assert Xor(459249407479583001, 3) == 459249407479583002;
    assert Xor(918498814959166002, 6) == 918498814959166004;
    assert Xor(1836997629918332004, 12) == 1836997629918332008;
    assert Xor(3673995259836664009, 24) == 3673995259836664017;
    assert Xor(7347990519673328018, 48) == 7347990519673328034;
    assert Xor(22962470373979150, 1) == 22962470373979151;
    assert Xor(45924940747958300, 3) == 45924940747958303;
    assert Xor(91849881495916600, 6) == 91849881495916606;
    assert Xor(183699762991833200, 12) == 183699762991833212;
    assert Xor(367399525983666400, 24) == 367399525983666424;
    assert Xor(734799051967332801, 48) == 734799051967332849;
  }

  lemma OneByte(h: U64, b: Byte)
    ensures Fnv(h, [b]) == FnvStep(h, b)
  {
    assert [b][1..] == [];
  }

  /** A step is undone by the inverse of the prime, which is odd: it loses nothing of either operand. */
  lemma StepInjective(g: U64, h: U64, b: Byte, c: Byte)
    ensures FnvStep(g, b) == FnvStep(h, b) ==> g == h
    ensures FnvStep(h, b) == FnvStep(h, c) ==> b == c
  {
    hide Xor, Pow2;
    Pow2Words();
    XorBound64(g, b);
    XorBound64(h, b);
    XorBound64(h, c);
    TimesPrime(Xor(g, b), Xor(h, b));
    TimesPrime(Xor(h, b), Xor(h, c));
    if FnvStep(g, b) == FnvStep(h, b) {
      XorInjective(g, h, b, 64);
    }
    if FnvStep(h, b) == FnvStep(h, c) {
      XorSwap(h, b);
      XorSwap(h, c);
      XorInjective(b, c, h, 64);
    }
  }

  const PRIME_INVERSE: nat := 14886173955864302971

  lemma TimesPrime(x: U64, y: U64)
    ensures x * FNV_PRIME % 0x1_0000_0000_0000_0000 == y * FNV_PRIME % 0x1_0000_0000_0000_0000 ==> x == y
  {
    assert FNV_PRIME * PRIME_INVERSE == 1 + 887285111055 * 0x1_0000_0000_0000_0000;
    var d: int := x - y;
    var k: int := x * FNV_PRIME / 0x1_0000_0000_0000_0000 - y * FNV_PRIME / 0x1_0000_0000_0000_0000;
    if x * FNV_PRIME % 0x1_0000_0000_0000_0000 == y * FNV_PRIME % 0x1_0000_0000_0000_0000 {
      assert d * FNV_PRIME == k * 0x1_0000_0000_0000_0000;
      assert d == (k * PRIME_INVERSE - 887285111055 * d) * 0x1_0000_0000_0000_0000;
    }
  }

  lemma {:induction false} FnvInjective(g: U64, h: U64, s: seq<Byte>)
    requires g != h
    ensures Fnv(g, s) != Fnv(h, s)
    decreases |s|
  {
    if s != [] {
      StepInjective(g, h, s[0], s[0]);
      FnvInjective(FnvStep(g, s[0]), FnvStep(h, s[0]), s[1..]);
    }
  }

  /** Changing one byte of a text changes its hash. */
  lemma FnvSeesByte(h: U64, s: seq<Byte>, i: nat, b: Byte)
    requires i < |s| && s[i] != b
    ensures Fnv(h, s[i := b]) != Fnv(h, s)
  {
    var before, after := s[..i], s[i + 1..];
    var t := Fnv(h, before);
    FnvConcat(h, before, [b] + after);
    FnvConcat(h, before, [s[i]] + after);
    assert s[i := b] == before + ([b] + after) && s == before + ([s[i]] + after);
    assert ([b] + after)[1..] == after && ([s[i]] + after)[1..] == after;
    StepInjective(t, t, s[i], b);
    assert FnvStep(t, s[i]) != FnvStep(t, b);
    FnvInjective(FnvStep(t, b), FnvStep(t, s[i]), after);
  }

  method FnvUpdate(h: U64, s: seq<Byte>) returns (r: U64)
    ensures r == Fnv(h, s)
  {
    r := h;
    for i := 0 to |s|
      invariant Fnv(h, s) == Fnv(r, s[i..])
    {
      assert s[i..][1..] == s[i + 1..];
      r := FnvStep(r, s[i]);
    }
  }

  function XorU64(a: U64, b: U64): U64 {
    XorBound64(a, b);
    Xor(a, b)
  }

  lemma XorBound64(a: U64, b: U64)
    ensures Xor(a, b) < 0x1_0000_0000_0000_0000
  {
    Pow2Words();
    XorBound(a, b, 64);
  }

  // ---- Alignment -------------------------------------------------------------------------

  /** The least multiple of `a` at or above `v`; no alignment at all below 2. */
  function AlignUp(v: nat, a: nat): (r: nat)
    ensures v <= r <= v + a && (a > 1 ==> r % a == 0)
  {
    if a <= 1 then v else
    AlignUpBounds(v, a);
    (v + a - 1) / a * a
  }

  lemma AlignUpBounds(v: nat, a: nat)
    requires a > 1
    ensures var r := (v + a - 1) / a * a; v <= r < v + a && r % a == 0
  {
    var q := (v + a - 1) / a;
    assert q * a + (v + a - 1) % a == v + a - 1;
    ModUnique(q * a, q, a, 0);
  }

  lemma AlignUpLeast(v: nat, a: nat, m: nat)
    requires a > 1 && m >= v && m % a == 0
    ensures AlignUp(v, a) <= m
  {
    var q, n := (v + a - 1) / a, m / a;
    assert q * a + (v + a - 1) % a == v + a - 1 && n * a == m;
    Quotients(q, n, a);
  }

  lemma Quotients(q: nat, n: nat, a: nat)
    requires n * a + a > q * a
    ensures q * a <= n * a
  {
    assert (q - n) * a == q * a - n * a;
    if q > n {
      AtLeast(q - n, a);
    } else if n > q {
      assert (n - q) * a == n * a - q * a;
    }
  }

  /** The mask form used on offsets finds it, for power-of-two alignments. */
  method AlignUpMask(value: U64, align: U32) returns (r: nat)
    requires IsPow2(align) && value + align <= 0x1_0000_0000_0000_0000
    ensures r == AlignUp(value, align)
  {
    if align <= 1 {
      return value;
    }
    var mask := align - 1;
    r := And(value + mask, 0xFFFF_FFFF_FFFF_FFFF - mask);
    MaskIsAlign(value, align);
  }

  lemma MaskIsAlign(value: U64, align: U32)
    requires align > 1 && IsPow2(align) && value + align <= 0x1_0000_0000_0000_0000
    ensures And(value + (align - 1), 0xFFFF_FFFF_FFFF_FFFF - (align - 1)) == AlignUp(value, align)
  {
    var k: nat :| k <= align && align == Pow2(k);
    SmallPower(k);
    Pow2Words();
    AlignInWord(value, align, k, 64);
  }

  lemma AlignInWord(value: nat, align: nat, k: nat, n: nat)
    requires k <= n && align > 1 && align == Pow2(k) && value + align <= Pow2(n)
    ensures And(value + (align - 1), Pow2(n) - align) == AlignUp(value, align)
  {
    hide And, Pow2;
    var x := value + align - 1;
    AndHigh(x, k, n);
    assert x - x % align == x / align * align;
  }

  lemma SmallPower(k: nat)
    requires Pow2(k) < WORD32
    ensures k < 32
  {
    Pow2Words();
    if k >= 32 {
      Pow2Mono(32, k);
    }
  }

  method IsPowerOfTwo(x: U32) returns (r: bool)
    ensures r <==> x > 0 && IsPow2(x)
  {
    if x == 0 {
      return false;
    }
    PowerOfTwoTest(x);
    r := And(x, x - 1) == 0;
  }

  // ---- Header, TOC entries, footer -------------------------------------------------------

  datatype Header = Header(
    major: U16, minor: U16, flags: U32, headerSize: U32, streamOffset: U64, streamSize: U64,
    tocOffset: U64, tocSize: U64, fileSize: U64, featureBits: U64, compilerHash: U64,
    tocCount: U32, tocEntrySize: U32, triple: seq<Byte>, bundle: seq<Byte>, summary: seq<Byte>)

  datatype Record = Record(
    kind: U16, lane: U16, target: U32, align: U32, compression: U16,
    offset: U64, size: U64, checksum: U64, hash: U64)

  const HEADER_WIDTHS: seq<nat> := [2, 2, 4, 4, 8, 8, 8, 8, 8, 8, 8, 4, 4]
  const ENTRY_WIDTHS: seq<nat> := [2, 2, 4, 4, 2, 2, 8, 8, 8, 8, 8, 8]
  const FOOTER_WIDTHS: seq<nat> := [4, 8, 8]

  function HeaderNumbers(h: Header): seq<nat> {
    [h.major, h.minor, h.flags, h.headerSize, h.streamOffset, h.streamSize, h.tocOffset, h.tocSize, h.fileSize,
     h.featureBits, h.compilerHash, h.tocCount, h.tocEntrySize]
  }

  function EntryNumbers(r: Record): seq<nat> {
    [r.kind, r.lane, r.target, r.align, r.compression, 0, r.offset, r.size, r.checksum, r.hash, 0, 0]
  }

  lemma Widths()
    ensures Width(HEADER_WIDTHS) == 76 && Width(ENTRY_WIDTHS) == TOC_ENTRY_SIZE && Width(FOOTER_WIDTHS) == 20
  {
    Four(HEADER_WIDTHS, 0);
    Four(HEADER_WIDTHS, 4);
    Four(HEADER_WIDTHS, 8);
    Four(ENTRY_WIDTHS, 0);
    Four(ENTRY_WIDTHS, 4);
    Four(ENTRY_WIDTHS, 8);
    assert Width(FOOTER_WIDTHS, 1) == 16;
  }

  lemma Four(w: seq<nat>, i: nat)
    requires |w| >= i + 4
    ensures Width(w, i) == w[i] + w[i + 1] + w[i + 2] + w[i + 3] + Width(w, i + 4)
  {
    assert Width(w, i) == w[i] + w[i + 1] + Width(w, i + 2);
  }

  /** Where each number of the header, and of a TOC entry, lies. */
  const HEADER_OFFSETS: seq<nat> := [4, 6, 8, 12, 16, 24, 32, 40, 48, 56, 64, 72, 76]
  const ENTRY_OFFSETS: seq<nat> := [0, 2, 4, 8, 12, 14, 16, 24, 32, 40, 48, 56]

  lemma Offsets(i: nat)
    ensures i < 13 ==> HEADER_OFFSETS[i] == 4 + Width(HEADER_WIDTHS) - Width(HEADER_WIDTHS, i)
    ensures i < 12 ==> ENTRY_OFFSETS[i] == Width(ENTRY_WIDTHS) - Width(ENTRY_WIDTHS, i)
    decreases 13 - i
  {
    hide Width;
    Widths();
    if i < 13 {
      WidthStep(HEADER_WIDTHS, i);
      Offsets(i + 1);
    }
    if i < 12 {
      WidthStep(ENTRY_WIDTHS, i);
    }
  }

  lemma WidthStep(ws: seq<nat>, i: nat)
    requires i < |ws|
    ensures Width(ws, i) == ws[i] + Width(ws, i + 1) && Width(ws, |ws|) == 0
  {
  }

  lemma {:induction false} UnpackFits(ws: seq<nat>, s: seq<Byte>, off: nat, i: nat, j: nat)
    requires i <= j < |ws| && off + Width(ws, i) <= |s|
    ensures Unpack(ws, s, off, i)[j - i] < Pow256(ws[j])
    decreases |ws| - i
  {
    if i == j {
      UnLEBound(s[off..off + ws[i]]);
    } else {
      UnpackFits(ws, s, off + ws[i], i + 1, j);
    }
  }

  lemma AllFit(ws: seq<nat>, s: seq<Byte>, off: nat)
    requires off + Width(ws) <= |s|
    ensures Fits(ws, Unpack(ws, s, off))
  {
    forall j | 0 <= j < |ws| ensures Unpack(ws, s, off)[j] < Pow256(ws[j]) {
      UnpackFits(ws, s, off, 0, j);
    }
  }

  function HeaderBytes(h: Header): (r: seq<Byte>)
    ensures |r| == HEADER_SIZE
  {
    Widths();
    MAGIC + Pack(HEADER_WIDTHS, HeaderNumbers(h)) + CStr(STRING_FIELD, h.triple) + CStr(STRING_FIELD, h.bundle)
    + CStr(STRING_FIELD, h.summary) + Zeros(80)
  }

  function HeaderOf(ns: seq<nat>, triple: seq<Byte>, bundle: seq<Byte>, summary: seq<Byte>): Header
    requires Fits(HEADER_WIDTHS, ns)
  {
    Pow256Words();
    Header(Field(HEADER_WIDTHS, ns, 0), Field(HEADER_WIDTHS, ns, 1), Field(HEADER_WIDTHS, ns, 2),
           Field(HEADER_WIDTHS, ns, 3), Field(HEADER_WIDTHS, ns, 4), Field(HEADER_WIDTHS, ns, 5),
           Field(HEADER_WIDTHS, ns, 6), Field(HEADER_WIDTHS, ns, 7), Field(HEADER_WIDTHS, ns, 8),
           Field(HEADER_WIDTHS, ns, 9), Field(HEADER_WIDTHS, ns, 10), Field(HEADER_WIDTHS, ns, 11),
           Field(HEADER_WIDTHS, ns, 12), triple, bundle, summary)
  }

  function Field(ws: seq<nat>, ns: seq<nat>, i: nat): (r: nat)
    requires Fits(ws, ns) && i < |ws|
    ensures r == ns[i] < Pow256(ws[i])
  {
    ns[i]
  }

  /** Reading a header; `None` for too few bytes or other leading bytes. */
  function ParseHeader(input: seq<Byte>): Option<Header> {
    if |input| < HEADER_SIZE || input[..4] != MAGIC then None else
    Widths();
    AllFit(HEADER_WIDTHS, input, 4);
    Some(HeaderOf(Unpack(HEADER_WIDTHS, input, 4), UntilZero(input[80..112]), UntilZero(input[112..144]),
                  UntilZero(input[144..176])))
  }

  /** What a header field keeps of a string. */
  function FieldText(s: seq<Byte>): seq<Byte> { UntilZero(s[..Min(STRING_FIELD - 1, |s|)]) }

  lemma HeaderRoundTrip(h: Header)
    ensures ParseHeader(HeaderBytes(h))
         == Some(h.(triple := FieldText(h.triple), bundle := FieldText(h.bundle), summary := FieldText(h.summary)))
  {
    var s, ns := HeaderBytes(h), HeaderNumbers(h);
    Widths();
    HeaderFits(h);
    HeaderParts(h);
    UnpackPack(HEADER_WIDTHS, ns, s, 4);
    CStrRead(STRING_FIELD, h.triple);
    CStrRead(STRING_FIELD, h.bundle);
    CStrRead(STRING_FIELD, h.summary);
    assert ns[0..] == ns;
  }

  lemma HeaderParts(h: Header)
    ensures var s := HeaderBytes(h);
      && s[..4] == MAGIC && s[4..80] == Pack(HEADER_WIDTHS, HeaderNumbers(h))
      && s[80..112] == CStr(STRING_FIELD, h.triple) && s[112..144] == CStr(STRING_FIELD, h.bundle)
      && s[144..176] == CStr(STRING_FIELD, h.summary)
  {
    hide Pack, CStr, HeaderNumbers;
    Widths();
  }

  lemma HeaderFits(h: Header)
    ensures Fits(HEADER_WIDTHS, HeaderNumbers(h))
  {
    Pow256Words();
  }

  method SerializeHeader(h: Header) returns (out: seq<Byte>)
    ensures out == HeaderBytes(h)
  {
    hide Pack, CStr;
    Widths();
    var a := new Byte[256](_ => 0);
    a[0], a[1], a[2], a[3] := MAGIC[0], MAGIC[1], MAGIC[2], MAGIC[3];
    WriteAll(a, 4, HEADER_WIDTHS, HeaderNumbers(h));
    ghost var numbers := MAGIC + Pack(HEADER_WIDTHS, HeaderNumbers(h));
    assert a[..80] == numbers;
    WriteCStr(a, 80, STRING_FIELD, h.triple);
    ghost var upTo112 := numbers + CStr(STRING_FIELD, h.triple);
    assert a[..112] == upTo112;
    WriteCStr(a, 112, STRING_FIELD, h.bundle);
    ghost var upTo144 := upTo112 + CStr(STRING_FIELD, h.bundle);
    assert a[..144] == upTo144;
    WriteCStr(a, 144, STRING_FIELD, h.summary);
    assert a[..176] == upTo144 + CStr(STRING_FIELD, h.summary);
    out := a[..];
  }

  method DeserializeHeader(input: seq<Byte>) returns (r: Option<Header>)
    ensures r == ParseHeader(input)
  {
    if |input| < HEADER_SIZE || input[..4] != MAGIC {
      return None;
    }
    Widths();
    var ns := ReadAll(input, 4, HEADER_WIDTHS);
    var triple := ReadCStr(input, 80, STRING_FIELD);
    var bundle := ReadCStr(input, 112, STRING_FIELD);
    var summary := ReadCStr(input, 144, STRING_FIELD);
    AllFit(HEADER_WIDTHS, input, 4);
    r := Some(HeaderOf(ns.value, triple, bundle, summary));
  }

  function EntryBytes(r: Record): (s: seq<Byte>)
    ensures |s| == TOC_ENTRY_SIZE
  {
    Widths();
    Pack(ENTRY_WIDTHS, EntryNumbers(r))
  }

  function RecordOf(ns: seq<nat>): Record
    requires Fits(ENTRY_WIDTHS, ns)
  {
    Pow256Words();
    Record(Field(ENTRY_WIDTHS, ns, 0), Field(ENTRY_WIDTHS, ns, 1), Field(ENTRY_WIDTHS, ns, 2),
           Field(ENTRY_WIDTHS, ns, 3), Field(ENTRY_WIDTHS, ns, 4), Field(ENTRY_WIDTHS, ns, 6),
           Field(ENTRY_WIDTHS, ns, 7), Field(ENTRY_WIDTHS, ns, 8), Field(ENTRY_WIDTHS, ns, 9))
  }

  function ParseEntry(input: seq<Byte>, off: nat): Record
    requires off + TOC_ENTRY_SIZE <= |input|
  {
    Widths();
    AllFit(ENTRY_WIDTHS, input, off);
    RecordOf(Unpack(ENTRY_WIDTHS, input, off))
  }

  lemma EntryRoundTrip(r: Record, s: seq<Byte>, off: nat)
    requires off + TOC_ENTRY_SIZE <= |s| && s[off..off + TOC_ENTRY_SIZE] == EntryBytes(r)
    ensures ParseEntry(s, off) == r
  {
    hide Pack, Unpack, Width;
    Widths();
    EntryFits(r);
    UnpackPack(ENTRY_WIDTHS, EntryNumbers(r), s, off);
    assert EntryNumbers(r)[0..] == EntryNumbers(r);
  }

  lemma EntryFits(r: Record)
    ensures Fits(ENTRY_WIDTHS, EntryNumbers(r))
  {
    Pow256Words();
  }

  method SerializeEntry(r: Record) returns (out: seq<Byte>)
    ensures out == EntryBytes(r)
  {
    Widths();
    var a := new Byte[64](_ => 0);
    WriteAll(a, 0, ENTRY_WIDTHS, EntryNumbers(r));
    out := a[..];
  }

  method DeserializeEntry(input: seq<Byte>, off: nat) returns (r: Option<Record>)
    requires off <= |input|
    ensures r == if off + TOC_ENTRY_SIZE <= |input| then Some(ParseEntry(input, off)) else None
  {
    Widths();
    var ns := ReadAll(input, off, ENTRY_WIDTHS);
    if ns.None? {
      return None;
    }
    AllFit(ENTRY_WIDTHS, input, off);
    r := Some(RecordOf(ns.value));
  }

  function FooterStart(tocOffset: U64, tocSize: U64): (r: seq<Byte>)
    ensures |r| == 24
  {
    Widths();
    FOOTER_MAGIC + Pack(FOOTER_WIDTHS, [1, tocOffset, tocSize])
  }

  function FooterBytes(tocOffset: U64, tocSize: U64): (r: seq<Byte>)
    ensures |r| == FOOTER_SIZE
  {
    var start := FooterStart(tocOffset, tocSize);
    start + LE(8, Fnv(SEED_CONTENT, start))
  }

  /** The TOC's offset and size, if the footer's magic, version and checksum are right. */
  function ParseFooter(input: seq<Byte>): Option<(U64, U64)> {
    if |input| != FOOTER_SIZE || input[..4] != FOOTER_MAGIC then None else
    Widths();
    AllFit(FOOTER_WIDTHS, input, 4);
    Pow256Words();
    var ns := Unpack(FOOTER_WIDTHS, input, 4);
    if ns[0] != 1 || UnLE(input[24..32]) != Fnv(SEED_CONTENT, input[..24]) then None
    else Some((Field(FOOTER_WIDTHS, ns, 1), Field(FOOTER_WIDTHS, ns, 2)))
  }

  lemma FooterRoundTrip(tocOffset: U64, tocSize: U64)
    ensures ParseFooter(FooterBytes(tocOffset, tocSize)) == Some((tocOffset, tocSize))
  {
    var s, ns := FooterBytes(tocOffset, tocSize), [1, tocOffset, tocSize];
    Widths();
    FooterFits(tocOffset, tocSize);
    UnLEOfLE(8, Fnv(SEED_CONTENT, FooterStart(tocOffset, tocSize)));
    assert s[..24] == FooterStart(tocOffset, tocSize) && s[..4] == FOOTER_MAGIC;
    assert s[24..32] == LE(8, Fnv(SEED_CONTENT, FooterStart(tocOffset, tocSize)));
    assert s[4..24] == Pack(FOOTER_WIDTHS, ns);
    UnpackPack(FOOTER_WIDTHS, ns, s, 4);
    assert ns[0..] == ns;
    FooterParts(s, ns);
  }

  lemma FooterParts(s: seq<Byte>, ns: seq<nat>)
    requires |s| == FOOTER_SIZE && s[..4] == FOOTER_MAGIC && Width(FOOTER_WIDTHS) == 20
    requires Unpack(FOOTER_WIDTHS, s, 4) == ns && ns[0] == 1 && UnLE(s[24..32]) == Fnv(SEED_CONTENT, s[..24])
    ensures ParseFooter(s) == Some((ns[1], ns[2]))
  {
  }

  lemma FooterFits(tocOffset: U64, tocSize: U64)
    ensures Fits(FOOTER_WIDTHS, [1, tocOffset, tocSize]) && Pow256(8) == 0x1_0000_0000_0000_0000
  {
    Pow256Words();
  }

  method SerializeFooter(tocOffset: U64, tocSize: U64) returns (out: seq<Byte>)
    ensures out == FooterBytes(tocOffset, tocSize)
  {
    Widths();
    var a := new Byte[32](_ => 0);
    a[0], a[1], a[2], a[3] := FOOTER_MAGIC[0], FOOTER_MAGIC[1], FOOTER_MAGIC[2], FOOTER_MAGIC[3];
    WriteAll(a, 4, FOOTER_WIDTHS, [1, tocOffset, tocSize]);
    assert a[..24] == FooterStart(tocOffset, tocSize);
    var checksum := FnvUpdate(SEED_CONTENT, a[..24]);
    WriteLE(a, 24, 8, checksum);
    out := a[..];
  }

  method DeserializeFooter(input: seq<Byte>) returns (r: Option<(U64, U64)>)
    ensures r == ParseFooter(input)
  {
    if |input| != FOOTER_SIZE || input[..4] != FOOTER_MAGIC {
      return None;
    }
    Widths();
    var ns := ReadAll(input, 4, FOOTER_WIDTHS);
    var checksum := ReadLE(input, 24, 8);
    AllFit(FOOTER_WIDTHS, input, 4);
    Pow256Words();
    if ns.value[0] != 1 {
      return None;
    }
    var now := FnvUpdate(SEED_CONTENT, input[..24]);
    if checksum.value != now {
      return None;
    }
    r := Some((Field(FOOTER_WIDTHS, ns.value, 1), Field(FOOTER_WIDTHS, ns.value, 2)));
  }
}
