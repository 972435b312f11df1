/** Bitfields of imported C structs: the importer's layout check, and the loads and stores made for them. */
module Bitfields {
  import opened Bits
  import opened LittleEndian

  /** A bitfield as it is declared: the bit offset in the struct, the width, and the size in bytes and the
      signedness of its storage type. */
  datatype Declared = Declared(offsetBits: nat, width: int, unit: nat, signed: bool)

  /** An imported bitfield. Its offsets and width are 32-bit numbers. */
  datatype Field = Field(bitOffset: U32, width: U32, storageOffset: U32, unit: nat, signed: bool)

  /** The sizes of C integer types. */
  predicate IsUnit(n: nat) { n == 1 || n == 2 || n == 4 || n == 8 || n == 16 }

  predicate WellDeclared(d: Declared) { IsUnit(d.unit) && d.offsetBits / 8 < WORD32 && d.width < WORD32 / 2 }

  /** Where the field starts in its storage unit, the one that its first byte lies in. */
  function UnitShift(d: Declared): nat
    requires WellDeclared(d)
  {
    d.offsetBits % (d.unit * 8)
  }

  /** The importer takes a field that lies in one storage unit. */
  predicate Accepted(d: Declared)
    requires WellDeclared(d)
  {
    d.width > 0 && UnitShift(d) + d.width <= d.unit * 8
  }

  function Imported(d: Declared): Field
    requires WellDeclared(d) && Accepted(d)
  {
    Field(d.offsetBits % WORD32, d.width, (d.offsetBits / 8) / d.unit * d.unit, d.unit, d.signed)
  }

  /** The importer's check as it is written: 32-bit differences and comparisons. */
  method Import(d: Declared) returns (ok: bool, f: Field)
    requires WellDeclared(d)
    ensures ok == Accepted(d) && (ok ==> f == Imported(d))
  {
    f := Field(0, 0, 0, d.unit, d.signed);
    if d.width <= 0 {
      return false, f;
    }
    var storageBits := d.unit * 8 % WORD32;
    var shift := (d.offsetBits - d.offsetBits / 8 / d.unit * d.unit * 8) % WORD32;
    UnitShiftIs(d);
    if d.width > storageBits || shift >= storageBits || shift + d.width > storageBits {
      return false, f;
    }
    ok := true;
    f := Field(d.offsetBits % WORD32, d.width, (d.offsetBits / 8) / d.unit * d.unit, d.unit, d.signed);
  }

  lemma UnitShiftIs(d: Declared)
    requires WellDeclared(d)
    ensures d.offsetBits - d.offsetBits / 8 / d.unit * d.unit * 8 == UnitShift(d) < d.unit * 8
  {
    var bytes := d.offsetBits / 8;
    var q, c := bytes / d.unit, bytes % d.unit;
    assert q * d.unit + c == bytes && c <= d.unit - 1;
    assert q * (d.unit * 8) == 8 * (q * d.unit);
    ModUnique(d.offsetBits, q, d.unit * 8, 8 * c + d.offsetBits % 8);
  }

  /** The importer accepts a field just when it has bits and the first and the last of them lie in the same
      storage unit, units lying at the multiples of their size. */
  lemma AcceptedIff(d: Declared)
    requires WellDeclared(d)
    ensures Accepted(d) <==> d.width > 0 && d.offsetBits / (8 * d.unit) == (d.offsetBits + d.width - 1) / (8 * d.unit)
  {
    var u := 8 * d.unit;
    var q, r := d.offsetBits / u, d.offsetBits % u;
    assert q * u + r == d.offsetBits;
    if d.width > 0 {
      var last := d.offsetBits + d.width - 1;
      if r + d.width <= u {
        ModUnique(last, q, u, r + d.width - 1);
      } else {
        NextUnit(last, q, u);
      }
    }
  }

  lemma NextUnit(n: nat, q: nat, u: nat)
    requires u > 0 && n >= q * u + u
    ensures n / u > q
  {
    if n / u <= q {
      MulMono(n / u, q, u);
    }
  }

  // ---- What is emitted for a load and a store --------------------------------------------

  function Bits8(f: Field): nat { f.unit * 8 }

  /** The place of the field in its unit, as the lowering finds it again from 32-bit offsets. */
  function Shift(f: Field): U32 {
    var unitBits := f.storageOffset * 8 % WORD32;
    if f.bitOffset >= unitBits then f.bitOffset - unitBits else f.bitOffset
  }

  /** A number and its multiple of `u` below wrap together, at a multiple of `u`. */
  lemma WrapTogether(q: nat, r: nat, u: nat, m: nat)
    requires r < u && m > 0
    ensures m * u > 0 && (q * u + r) % (m * u) == (q * u) % (m * u) + r
  {
    var k := q % m;
    Distribute(q / m, m, k, u);
    Distribute(1, m - k, k, u);
    AtLeast(m - k, u);
    ModUnique(q * u, q / m, m * u, k * u);
    ModUnique(q * u + r, q / m, m * u, k * u + r);
  }

  lemma Distribute(a: nat, m: nat, k: nat, u: nat)
    ensures (a * m + k) * u == a * (m * u) + k * u
  {
    assert (a * m + k) * u == (a * m) * u + k * u;
    assert (a * m) * u == a * (m * u);
  }

  lemma ShiftAgain(d: Declared)
    requires WellDeclared(d) && Accepted(d)
    ensures Shift(Imported(d)) == UnitShift(d)
  {
    hide Imported;
    var u := d.unit * 8;
    var q := d.offsetBits / u;
    UnitShiftIs(d);
    UnitDivides(d.unit);
    WrapTogether(q, UnitShift(d), u, WORD32 / u);
    ImportedOffsets(d, q);
  }

  lemma UnitDivides(unit: nat)
    requires IsUnit(unit)
    ensures WORD32 / (unit * 8) * (unit * 8) == WORD32
  {
  }

  lemma ImportedOffsets(d: Declared, q: nat)
    requires WellDeclared(d) && Accepted(d) && q == d.offsetBits / (d.unit * 8)
    ensures Imported(d).storageOffset * 8 == q * (d.unit * 8) == d.offsetBits - UnitShift(d)
    ensures Imported(d).bitOffset == d.offsetBits % WORD32
  {
    UnitShiftIs(d);
  }

  /** What an accepted field is imported as: its storage unit is the one its first byte lies in. */
  lemma ImportedSays(d: Declared)
    requires WellDeclared(d) && Accepted(d)
    ensures var f := Imported(d);
            && f.width == d.width && f.unit == d.unit && f.signed == d.signed && f.bitOffset == d.offsetBits % 0x1_0000_0000
            && f.storageOffset % f.unit == 0 && f.storageOffset <= d.offsetBits / 8 < f.storageOffset + f.unit
  {
    var q := d.offsetBits / 8 / d.unit;
    assert d.offsetBits / 8 == q * d.unit + d.offsetBits / 8 % d.unit;
    ModUnique(q * d.unit, q, d.unit, 0);
  }

  /** The C++ shifts of 64-bit masks are defined: storage of at most 64 bits always, wider storage sometimes. */
  predicate Defined(f: Field) { f.unit <= 8 || (f.width < 64 && Shift(f) < 64) }

  function Shl(x: nat, k: nat, bits: nat): nat { x * Pow2(k) % Pow2(bits) }

  function Complement(x: nat, bits: nat): (r: nat)
    requires x < Pow2(bits)
    ensures r < Pow2(bits)
  {
    Pow2(bits) - 1 - x
  }

  /** The arithmetic shift: copies of the top bit come in. */
  function Ashr(x: nat, k: nat, bits: nat): nat
    requires x < Pow2(bits)
  {
    if bits == 0 || BitAt(x, bits - 1) == 0 then Shr(x, k) else Complement(Shr(Complement(x, bits), k), bits)
  }

  /** The value a load gives for the bits of the storage unit. */
  function Loaded(f: Field, word: nat): nat
    requires word < Pow2(Bits8(f))
  {
    var bits := Bits8(f);
    var shifted := Shr(word, Shift(f));
    if f.width == 0 || f.width >= bits then shifted else
    var masked := And(shifted, Pow2(f.width) - 1);
    if !f.signed then masked else Ashr(Shl(masked, bits - f.width, bits), bits - f.width, bits)
  }

  function FieldMask(f: Field): nat {
    if f.width == 0 || f.width >= Bits8(f) then WORD64 - 1 else Pow2(f.width) - 1
  }

  /** The bits of the storage unit after a store. The masks are computed in 64 bits; as constants of the
      storage type they are cut, or extended with zeros, to its width. */
  function Stored(f: Field, word: nat, v: nat): nat
    requires word < Pow2(Bits8(f))
  {
    var bits := Bits8(f);
    var shiftedMask := FieldMask(f) * Pow2(Shift(f)) % WORD64;
    var cleared := And(word, (WORD64 - 1 - shiftedMask) % Pow2(bits));
    var taken := And(v, FieldMask(f) % Pow2(bits));
    Or(cleared, Shl(taken, Shift(f), bits))
  }

  // ---- Their bits ------------------------------------------------------------------------

  predicate Narrow(f: Field) {
    (f.unit == 1 || f.unit == 2 || f.unit == 4 || f.unit == 8) && f.width > 0 && Shift(f) + f.width <= Bits8(f)
  }

  lemma FieldMaskBit(f: Field, j: nat)
    requires Narrow(f)
    ensures BitAt(FieldMask(f), j) == if j < (if f.width >= Bits8(f) then 64 else f.width) then 1 else 0
  {
    Pow2Words();
    MaskBit(64, j);
    MaskBit(f.width, j);
  }

  lemma ShiftedMaskBit(f: Field, j: nat)
    requires Narrow(f) && j < Bits8(f)
    ensures var m := FieldMask(f) * Pow2(Shift(f)) % WORD64;
      BitAt(m, j) == (if Shift(f) <= j < Shift(f) + f.width then 1 else 0)
      && BitAt((WORD64 - 1 - m) % Pow2(Bits8(f)), j) == if Shift(f) <= j < Shift(f) + f.width then 0 else 1
  {
    hide FieldMask, Pow2, BitAt;
    Pow2Words();
    var s, mask := Shift(f), FieldMask(f);
    var m := mask * Pow2(s) % WORD64;
    LowBit(mask * Pow2(s), 64, j);
    ShiftedBit(mask, s, j);
    if j >= s {
      FieldMaskBit(f, j - s);
    }
    ComplementBit(m, 64, j);
    LowBit(WORD64 - 1 - m, Bits8(f), j);
  }

  /** A store puts the low bits of the value in the field's place and keeps the other bits of the unit. */
  lemma StoredBit(f: Field, word: nat, v: nat, j: nat)
    requires Narrow(f) && word < Pow2(Bits8(f)) && j < Bits8(f)
    ensures BitAt(Stored(f, word, v), j)
         == if Shift(f) <= j < Shift(f) + f.width then BitAt(v, j - Shift(f)) else BitAt(word, j)
  {
    hide FieldMask, Pow2, BitAt, And, Or;
    var s, mask, bits := Shift(f), FieldMask(f), Bits8(f);
    var kept := (WORD64 - 1 - mask * Pow2(s) % WORD64) % Pow2(bits);
    var taken := And(v, mask % Pow2(bits));
    ShiftedMaskBit(f, j);
    AndBit(word, kept, j);
    LowBit(taken * Pow2(s), bits, j);
    ShiftedBit(taken, s, j);
    if j >= s {
      AndBit(v, mask % Pow2(bits), j - s);
      LowBit(mask, bits, j - s);
      FieldMaskBit(f, j - s);
    }
    OrBit(And(word, kept), Shl(taken, s, bits), j);
  }

  lemma AshrBit(x: nat, k: nat, bits: nat, j: nat)
    requires x < Pow2(bits) && k < bits && j < bits
    ensures BitAt(Ashr(x, k, bits), j) == BitAt(x, if j + k < bits then j + k else bits - 1)
  {
    hide Pow2, BitAt, Shr;
    if BitAt(x, bits - 1) == 0 {
      HighBit(x, k, j);
      if j + k >= bits {
        NoHighBit(x, bits, j + k);
      }
    } else {
      var c := Complement(x, bits);
      ComplementBit(x, bits, j + k);
      HighBit(c, k, j);
      ComplementBit(Shr(c, k), bits, j);
    }
  }

  lemma NoHighBit(x: nat, bits: nat, j: nat)
    requires x < Pow2(bits) && j >= bits
    ensures BitAt(x, j) == 0
  {
    hide BitAt;
    LowBit(x, bits, j);
    ModSmall(x, Pow2(bits));
  }

  /** A load gives the field's bits, and above them zeros or copies of the sign. */
  lemma LoadedBit(f: Field, word: nat, j: nat)
    requires Narrow(f) && word < Pow2(Bits8(f)) && j < Bits8(f)
    ensures Loaded(f, word) < Pow2(Bits8(f))
    ensures BitAt(Loaded(f, word), j)
         == if j < f.width then BitAt(word, Shift(f) + j)
            else if f.signed then BitAt(word, Shift(f) + f.width - 1) else 0
  {
    hide Pow2, BitAt, And, Shr, Ashr;
    var s, w, bits := Shift(f), f.width, Bits8(f);
    var shifted := Shr(word, s);
    if w < bits {
      var masked := And(shifted, Pow2(w) - 1);
      var up := bits - w;
      MaskedBit(word, s, w, j);
      AndSmall(shifted, Pow2(w) - 1);
      if f.signed {
        var k := if j + up < bits then j + up else bits - 1;
        AshrBit(Shl(masked, up, bits), up, bits, j);
        LowBit(masked * Pow2(up), bits, k);
        ShiftedBit(masked, up, k);
        MaskedBit(word, s, w, k - up);
        AshrSmall(Shl(masked, up, bits), up, bits);
      }
      Pow2Mono(w, bits);
    } else {
      HighBit(word, s, j);
    }
  }

  lemma MaskedBit(word: nat, s: nat, w: nat, j: nat)
    ensures BitAt(And(Shr(word, s), Pow2(w) - 1), j) == if j < w then BitAt(word, s + j) else 0
  {
    hide Pow2, BitAt, And, Shr;
    AndBit(Shr(word, s), Pow2(w) - 1, j);
    HighBit(word, s, j);
    MaskBit(w, j);
  }

  lemma {:induction false} AndSmall(x: nat, y: nat)
    ensures And(x, y) <= y
    decreases x
  {
    if x > 0 && y > 0 {
      AndSmall(x / 2, y / 2);
    }
  }

  lemma AshrSmall(x: nat, k: nat, bits: nat)
    requires x < Pow2(bits)
    ensures Ashr(x, k, bits) < Pow2(bits)
  {
  }

  // ---- In memory -------------------------------------------------------------------------

  /** A bit of the memory: eight to a byte, the lowest first. */
  function MemBit(mem: seq<Byte>, k: nat): nat
    requires k < 8 * |mem|
  {
    BitAt(mem[k / 8], k % 8)
  }

  predicate InMemory(f: Field, mem: seq<Byte>) { f.storageOffset + f.unit <= |mem| }

  /** The storage unit of a field lies in a record of a given size if and only if the field begins among the
      record's whole units; so it always does when the size is a multiple of the unit. */
  lemma UnitInRecord(d: Declared, size: nat)
    requires WellDeclared(d) && Accepted(d)
    ensures Imported(d).storageOffset + d.unit <= size <==> d.offsetBits / 8 < size - size % d.unit
    ensures size % d.unit == 0 && d.offsetBits / 8 < size ==> Imported(d).storageOffset + d.unit <= size
  {
    var byte, u := d.offsetBits / 8, d.unit;
    var q, n := byte / u, size / u;
    assert q * u <= byte < q * u + u && n * u + size % u == size;
    assert (q + 1) * u == q * u + u;
    if q >= n {
      MulMono(n, q, u);
    } else {
      MulMono(q + 1, n, u);
    }
  }

  lemma MulMono(a: nat, b: nat, u: nat)
    requires a <= b
    ensures a * u <= b * u
  {
  }

  /** A packed record need not leave it: `int a; int b : 8;` packed takes 5 bytes, and the importer accepts
      `b`, whose 4-byte unit ends at 8. */
  lemma UnitPastPackedRecord()
    ensures var b := Declared(32, 8, 4, true); WellDeclared(b) && Accepted(b) && Imported(b).storageOffset + b.unit == 8 > 5
  {
  }

  function Unit(f: Field, mem: seq<Byte>): (r: seq<Byte>)
    requires InMemory(f, mem)
    ensures |r| == f.unit
  {
    mem[f.storageOffset..f.storageOffset + f.unit]
  }

  lemma UnitFits(s: seq<Byte>)
    ensures UnLE(s) < Pow2(8 * |s|) == Pow256(|s|)
  {
    UnLEBound(s);
    BytesAreBits(|s|);
  }

  lemma {:induction false} BytesAreBits(n: nat)
    ensures Pow256(n) == Pow2(8 * n)
  {
    if n > 0 {
      BytesAreBits(n - 1);
      Pow2Add(8, 8 * (n - 1));
      Pow2Words();
    }
  }

  lemma {:induction false} UnLEBit(s: seq<Byte>, j: nat)
    requires j < 8 * |s|
    ensures BitAt(UnLE(s), j) == MemBit(s, j)
    decreases |s|
  {
    hide BitAt;
    Pow2Words();
    JoinedBit(s[0], UnLE(s[1..]), 8, j);
    if j >= 8 {
      UnLEBit(s[1..], j - 8);
    }
  }

  function LoadFrom(f: Field, mem: seq<Byte>): nat
    requires InMemory(f, mem)
  {
    UnitFits(Unit(f, mem));
    Loaded(f, UnLE(Unit(f, mem)))
  }

  function StoreTo(f: Field, mem: seq<Byte>, v: nat): (r: seq<Byte>)
    requires InMemory(f, mem)
    ensures |r| == |mem|
  {
    UnitFits(Unit(f, mem));
    mem[..f.storageOffset] + LE(f.unit, Stored(f, UnLE(Unit(f, mem)), v)) + mem[f.storageOffset + f.unit..]
  }

  /** A declared bitfield that is imported, with storage of at most 64 bits. */
  predicate Usable(d: Declared) { WellDeclared(d) && Accepted(d) && d.unit <= 8 }

  lemma ImportedIsNarrow(d: Declared)
    requires Usable(d)
    ensures var f := Imported(d);
      Narrow(f) && f.width == d.width && f.signed == d.signed && 8 * f.storageOffset + Shift(f) == d.offsetBits
  {
    hide Imported;
    ShiftAgain(d);
    ImportedOffsets(d, d.offsetBits / (d.unit * 8));
    ImportedParts(d);
    UnitShiftIs(d);
  }

  lemma ImportedParts(d: Declared)
    requires WellDeclared(d) && Accepted(d)
    ensures var f := Imported(d); f.width == d.width && f.signed == d.signed && f.unit == d.unit
  {
  }

  lemma UnitBit(f: Field, mem: seq<Byte>, j: nat)
    requires InMemory(f, mem) && j < Bits8(f)
    ensures UnLE(Unit(f, mem)) < Pow2(Bits8(f))
    ensures BitAt(UnLE(Unit(f, mem)), j) == MemBit(mem, 8 * f.storageOffset + j)
  {
    hide BitAt, UnLE, Pow2;
    UnitFits(Unit(f, mem));
    UnLEBit(Unit(f, mem), j);
  }

  predicate InField(d: Declared, k: nat) { d.offsetBits <= k < d.offsetBits + d.width }

  /** A store changes the field's bits, to those of the value, and no other bit of the memory. */
  lemma StoreBits(d: Declared, mem: seq<Byte>, v: nat, k: nat)
    requires Usable(d) && InMemory(Imported(d), mem) && k < 8 * |mem|
    ensures MemBit(StoreTo(Imported(d), mem, v), k)
         == if InField(d, k) then BitAt(v, k - d.offsetBits) else MemBit(mem, k)
  {
    hide BitAt, UnLE, Pow2, Stored, LE, Imported, Shift;
    var f := Imported(d);
    var word, r := UnLE(Unit(f, mem)), StoreTo(f, mem, v);
    ImportedIsNarrow(d);
    UnitFits(Unit(f, mem));
    var from := 8 * f.storageOffset;
    if from <= k < from + Bits8(f) {
      var j := k - from;
      var bytes := LE(f.unit, Stored(f, word, v));
      StoredFits(f, word, v);
      UnLEOfLE(f.unit, Stored(f, word, v));
      UnLEBit(bytes, j);
      assert r[k / 8] == bytes[j / 8] && k % 8 == j % 8;
      StoredBit(f, word, v, j);
      UnitBit(f, mem, j);
    } else {
      assert r[k / 8] == mem[k / 8];
    }
  }

  lemma StoredFits(f: Field, word: nat, v: nat)
    requires word < Pow2(Bits8(f))
    ensures Stored(f, word, v) < Pow2(Bits8(f)) == Pow256(f.unit)
  {
    hide Pow2, FieldMask;
    var bits := Bits8(f);
    var kept := (WORD64 - 1 - FieldMask(f) * Pow2(Shift(f)) % WORD64) % Pow2(bits);
    AndSmall(word, kept);
    OrBound(And(word, kept), Shl(And(v, FieldMask(f) % Pow2(bits)), Shift(f), bits), bits);
    BytesAreBits(f.unit);
  }

  /** What a load gives is a matter of the field's bits only. */
  lemma LoadBits(d: Declared, mem: seq<Byte>, j: nat)
    requires Usable(d) && InMemory(Imported(d), mem) && j < d.unit * 8
    ensures d.offsetBits + d.width <= 8 * |mem|
    ensures LoadFrom(Imported(d), mem) < Pow2(d.unit * 8)
    ensures BitAt(LoadFrom(Imported(d), mem), j)
         == if j < d.width then MemBit(mem, d.offsetBits + j)
            else if d.signed then MemBit(mem, d.offsetBits + d.width - 1) else 0
  {
    hide BitAt, UnLE, Pow2, Loaded, Imported, Shift, MemBit;
    var f := Imported(d);
    ImportedIsNarrow(d);
    ImportedParts(d);
    UnitFits(Unit(f, mem));
    LoadedBit(f, UnLE(Unit(f, mem)), j);
    var i := if j < d.width then j else d.width - 1;
    UnitBit(f, mem, Shift(f) + i);
  }

  /** A value cut to a width, as the bits of a storage unit: above it zeros, or copies of the sign. */
  function Reduced(v: nat, width: nat, signed: bool, bits: nat): nat
    requires 0 < width <= bits
  {
    var low := v % Pow2(width);
    Pow2Mono(width, bits);
    if signed && low >= Pow2(width - 1) then low + (Pow2(bits) - Pow2(width)) else low
  }

  /** A load after a store gives the stored value cut to the field's width. */
  lemma StoreThenLoad(d: Declared, mem: seq<Byte>, v: nat)
    requires Usable(d) && InMemory(Imported(d), mem)
    ensures LoadFrom(Imported(d), StoreTo(Imported(d), mem, v)) == Reduced(v, d.width, d.signed, d.unit * 8)
  {
    hide Imported, StoreTo, LoadFrom, Reduced, Pow2, BitAt, MemBit;
    var f, bits := Imported(d), d.unit * 8;
    var after := StoreTo(f, mem, v);
    LoadBits(d, after, 0);
    forall j | 0 <= j < bits ensures BitAt(LoadFrom(f, after), j) == BitAt(Reduced(v, d.width, d.signed, bits), j) {
      LoadBits(d, after, j);
      StoreBits(d, mem, v, d.offsetBits + if j < d.width then j else d.width - 1);
      ReducedBit(v, d.width, d.signed, bits, j);
    }
    ReducedBit(v, d.width, d.signed, bits, 0);
    SameBits(LoadFrom(f, after), Reduced(v, d.width, d.signed, bits), bits);
  }

  lemma ReducedBit(v: nat, width: nat, signed: bool, bits: nat, j: nat)
    requires 0 < width <= bits && j < bits
    ensures Reduced(v, width, signed, bits) < Pow2(bits)
    ensures BitAt(Reduced(v, width, signed, bits), j)
         == if j < width then BitAt(v, j) else if signed then BitAt(v, width - 1) else 0
  {
    hide BitAt, Pow2;
    var p := Pow2(width);
    var low := v % p;
    Pow2Mono(width, bits);
    LowBit(v, width, j);
    LowBit(v, width, width - 1);
    TopBit(low, width);
    if signed && low >= Pow2(width - 1) {
      ComplementBit(p - 1 - low, bits, j);
      ComplementBit(low, width, j);
    }
  }

  /** The top bit tells whether a number is in the upper half. */
  lemma {:induction false} TopBit(x: nat, n: nat)
    requires n > 0 && x < Pow2(n)
    ensures BitAt(x, n - 1) == 1 <==> x >= Pow2(n - 1)
    decreases n
  {
    if n > 1 {
      TopBit(x / 2, n - 1);
    }
  }

  // ---- Several fields --------------------------------------------------------------------

  predicate Disjoint(d: Declared, e: Declared) {
    d.offsetBits + d.width <= e.offsetBits || e.offsetBits + e.width <= d.offsetBits
  }

  /** A store to one field leaves what a load of another gives, even when their storage units overlap. */
  lemma OtherFieldKept(d: Declared, e: Declared, mem: seq<Byte>, v: nat)
    requires Usable(d) && Usable(e) && Disjoint(d, e) && InMemory(Imported(d), mem) && InMemory(Imported(e), mem)
    ensures LoadFrom(Imported(e), StoreTo(Imported(d), mem, v)) == LoadFrom(Imported(e), mem)
  {
    hide Imported, StoreTo, LoadFrom, Pow2, BitAt, MemBit;
    var f, after, bits := Imported(e), StoreTo(Imported(d), mem, v), e.unit * 8;
    LoadBits(e, after, 0);
    LoadBits(e, mem, 0);
    forall j | 0 <= j < bits ensures BitAt(LoadFrom(f, after), j) == BitAt(LoadFrom(f, mem), j) {
      LoadBits(e, after, j);
      LoadBits(e, mem, j);
      StoreBits(d, mem, v, e.offsetBits + if j < e.width then j else e.width - 1);
    }
    SameBits(LoadFrom(f, after), LoadFrom(f, mem), bits);
  }

  /** Stores to disjoint fields may be made in either order. */
  lemma StoresCommute(d: Declared, e: Declared, mem: seq<Byte>, u: nat, v: nat)
    requires Usable(d) && Usable(e) && Disjoint(d, e) && InMemory(Imported(d), mem) && InMemory(Imported(e), mem)
    ensures StoreTo(Imported(e), StoreTo(Imported(d), mem, u), v) == StoreTo(Imported(d), StoreTo(Imported(e), mem, v), u)
  {
    hide Imported, StoreTo, BitAt, MemBit;
    var f, g := Imported(d), Imported(e);
    var one, two := StoreTo(g, StoreTo(f, mem, u), v), StoreTo(f, StoreTo(g, mem, v), u);
    forall k | 0 <= k < 8 * |mem| ensures MemBit(one, k) == MemBit(two, k) {
      StoreBits(d, mem, u, k);
      StoreBits(e, StoreTo(f, mem, u), v, k);
      StoreBits(e, mem, v, k);
      StoreBits(d, StoreTo(g, mem, v), u, k);
    }
    SameMemory(one, two);
  }

  lemma SameMemory(a: seq<Byte>, b: seq<Byte>)
    requires |a| == |b| && forall k :: 0 <= k < 8 * |a| ==> MemBit(a, k) == MemBit(b, k)
    ensures a == b
  {
    hide BitAt;
    Pow2Words();
    forall i | 0 <= i < |a| ensures a[i] == b[i] {
      forall j | 0 <= j < 8 ensures BitAt(a[i], j) == BitAt(b[i], j) {
        assert MemBit(a, 8 * i + j) == MemBit(b, 8 * i + j);
      }
      SameBits(a[i], b[i], 8);
    }
  }

  // ---- Storage of 128 bits ---------------------------------------------------------------

  /** The importer also takes fields with 128-bit storage, but masks are made of 64 bits: a store clears the
      top of the unit, which such a field does not reach. */
  lemma WideStoreClears(d: Declared, mem: seq<Byte>, v: nat)
    requires WellDeclared(d) && Accepted(d) && d.unit == 16 && d.width < 64 && UnitShift(d) < 64
    requires InMemory(Imported(d), mem)
    ensures var k := 8 * Imported(d).storageOffset + 127;
      k < 8 * |mem| && !InField(d, k) && MemBit(StoreTo(Imported(d), mem, v), k) == 0
  {
    hide BitAt, UnLE, Pow2, Stored, LE, Imported, Shift;
    var f := Imported(d);
    var word, r := UnLE(Unit(f, mem)), StoreTo(f, mem, v);
    ShiftAgain(d);
    ImportedParts(d);
    ImportedOffsets(d, d.offsetBits / (d.unit * 8));
    UnitFits(Unit(f, mem));
    StoredFits(f, word, v);
    UnLEOfLE(16, Stored(f, word, v));
    var bytes := LE(16, Stored(f, word, v));
    UnLEBit(bytes, 127);
    assert r[f.storageOffset + 15] == bytes[15];
    WideTopBit(f, word, v);
  }

  lemma WideTopBit(f: Field, word: nat, v: nat)
    requires f.unit == 16 && 0 < f.width < 64 && Shift(f) < 64 && word < Pow2(128)
    ensures BitAt(Stored(f, word, v), 127) == 0
  {
    hide Pow2, BitAt, And, Or, Shift;
    var s, mask := Shift(f), FieldMask(f);
    var m := mask * Pow2(s) % WORD64;
    var taken := And(v, mask % Pow2(128));
    Pow2Words();
    LowBit(WORD64 - 1 - m, 128, 127);
    NoHighBit(WORD64 - 1 - m, 64, 127);
    AndBit(word, (WORD64 - 1 - m) % Pow2(128), 127);
    LowBit(taken * Pow2(s), 128, 127);
    ShiftedBit(taken, s, 127);
    AndBit(v, mask % Pow2(128), 127 - s);
    LowBit(mask, 128, 127 - s);
    MaskBit(f.width, 127 - s);
    OrBit(And(word, (WORD64 - 1 - m) % Pow2(128)), Shl(taken, s, 128), 127);
  }

  /** Stores to a field keep all other bits, in every memory. */
  ghost predicate KeepsOthers(d: Declared)
    requires WellDeclared(d) && Accepted(d)
  {
    forall mem: seq<Byte>, v: nat, k: nat :: InMemory(Imported(d), mem) && k < 8 * |mem| && !InField(d, k) ==>
      MemBit(StoreTo(Imported(d), mem, v), k) == MemBit(mem, k)
  }

  /** They do just when the storage type has at most 64 bits, wherever the masks are defined at all. */
  lemma KeepsOthersIff(d: Declared)
    requires WellDeclared(d) && Accepted(d) && Defined(Imported(d))
    ensures KeepsOthers(d) <==> d.unit <= 8
  {
    hide Imported, StoreTo, MemBit;
    ImportedParts(d);
    if d.unit <= 8 {
      forall mem: seq<Byte>, v: nat, k: nat | InMemory(Imported(d), mem) && k < 8 * |mem| && !InField(d, k)
        ensures MemBit(StoreTo(Imported(d), mem, v), k) == MemBit(mem, k)
      {
        StoreBits(d, mem, v, k);
      }
    } else {
      var mem, k := WideStoreChanges(d);
    }
  }

  lemma WideStoreChanges(d: Declared) returns (mem: seq<Byte>, k: nat)
    requires WellDeclared(d) && Accepted(d) && d.unit == 16 && Defined(Imported(d))
    ensures InMemory(Imported(d), mem) && k < 8 * |mem| && !InField(d, k)
    ensures MemBit(StoreTo(Imported(d), mem, 0), k) != MemBit(mem, k)
  {
    hide Imported, StoreTo, MemBit;
    ImportedParts(d);
    k := 8 * Imported(d).storageOffset + 127;
    mem := seq(Imported(d).storageOffset + 16, _ => 255);
    ShiftAgain(d);
    WideStoreClears(d, mem, 0);
    AllOnes(mem, k);
  }

  lemma AllOnes(mem: seq<Byte>, k: nat)
    requires k < 8 * |mem| && mem[k / 8] == 255
    ensures MemBit(mem, k) == 1
  {
    Pow2Words();
    MaskBit(8, k % 8);
  }

  // ---- The emitter -----------------------------------------------------------------------

  /** The instructions made for a load, each on the current value. */
  datatype Op = LoadUnit | ShiftRight(k: nat) | Mask(m: nat) | ShiftLeft(k: nat) | ShiftRightSigned(k: nat)

  function RunOp(op: Op, bits: nat, word: nat, current: nat): nat {
    match op
    case LoadUnit => word
    case ShiftRight(k) => Shr(current, k)
    case Mask(m) => And(current, m)
    case ShiftLeft(k) => Shl(current, k, bits)
    case ShiftRightSigned(k) => if current < Pow2(bits) then Ashr(current, k, bits) else current
  }

  function RunOps(ops: seq<Op>, bits: nat, word: nat): nat {
    if ops == [] then 0 else RunOp(ops[|ops| - 1], bits, word, RunOps(ops[..|ops| - 1], bits, word))
  }

  lemma RunMore(ops: seq<Op>, op: Op, bits: nat, word: nat)
    ensures RunOps(ops + [op], bits, word) == RunOp(op, bits, word, RunOps(ops, bits, word))
  {
    assert (ops + [op])[..|ops|] == ops;
  }

  /** Emits a load of a bitfield. */
  method EmitLoad(f: Field, ghost word: nat) returns (ops: seq<Op>)
    requires word < Pow2(Bits8(f)) && Defined(f)
    ensures RunOps(ops, Bits8(f), word) == Loaded(f, word)
  {
    hide Shr, And, Ashr, Shl, RunOps, Pow2;
    var bits, shift := Bits8(f), Shift(f);
    RunMore([], LoadUnit, bits, word);
    ops := [] + [LoadUnit];
    if shift != 0 {
      RunMore(ops, ShiftRight(shift), bits, word);
      ops := ops + [ShiftRight(shift)];
    } else {
      ShrNone(word);
    }
    if f.width != 0 && f.width < bits {
      RunMore(ops, Mask(Pow2(f.width) - 1), bits, word);
      ops := ops + [Mask(Pow2(f.width) - 1)];
      if f.signed {
        var up := bits - f.width;
        RunMore(ops, ShiftLeft(up), bits, word);
        ops := ops + [ShiftLeft(up)];
        ShlFits(And(Shr(word, shift), Pow2(f.width) - 1), up, bits);
        RunMore(ops, ShiftRightSigned(up), bits, word);
        ops := ops + [ShiftRightSigned(up)];
      }
    }
  }

  lemma ShrNone(x: nat)
    ensures Shr(x, 0) == x
  {
  }

  lemma ShlFits(x: nat, k: nat, bits: nat)
    ensures Shl(x, k, bits) < Pow2(bits)
  {
    hide Pow2;
  }

  /** Stores a value into a bitfield in memory. */
  method Store(mem: array<Byte>, f: Field, v: nat)
    requires f.storageOffset + f.unit <= mem.Length && Defined(f)
    modifies mem
    ensures mem[..] == StoreTo(f, old(mem[..]), v)
  {
    hide And, Or, Pow2, LE, UnLE;
    var bits, shift := Bits8(f), Shift(f);
    ghost var before := mem[..];
    UnitFits(Unit(f, before));
    var read := ReadLE(mem[..], f.storageOffset, f.unit);
    var oldBits := read.value;
    assert oldBits == UnLE(Unit(f, before));
    var fieldMask := if f.width == 0 || f.width >= bits then WORD64 - 1 else Pow2(f.width) - 1;
    var shiftedMask := fieldMask * Pow2(shift) % WORD64;
    var cleared := And(oldBits, (WORD64 - 1 - shiftedMask) % Pow2(bits));
    var shiftedNew := Shl(And(v, fieldMask % Pow2(bits)), shift, bits);
    WriteLE(mem, f.storageOffset, f.unit, Or(cleared, shiftedNew));
  }
}
