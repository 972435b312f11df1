/** Sizes, alignments and field offsets of layout(c) records. */
module CLayout {
  import opened Wrappers
  import opened Bits

  datatype Prim =
    | Bool | I8 | U8 | I16 | U16 | Char | I32 | U32 | F32 | I64 | U64 | ISize | USize | F64 | Unit
    | I128 | U128 | F128 | Text | Never | Null

  /** A named type may have a record layout; other types have none. Records do not contain themselves. */
  datatype Type = Builtin(prim: Prim) | Named(layout: Option<Layout>) | Other
  datatype Layout = Layout(isC: bool, align: Bits.U32, fields: seq<Field>)
  datatype Field = Field(name: string, ty: Type)

  function PrimAlign(p: Prim): Option<nat> {
    match p
    case Bool => Some(1) case I8 => Some(1) case U8 => Some(1)
    case I16 => Some(2) case U16 => Some(2)
    case Char => Some(4) case I32 => Some(4) case U32 => Some(4) case F32 => Some(4)
    case I64 => Some(8) case U64 => Some(8) case ISize => Some(8) case USize => Some(8) case F64 => Some(8)
    case Unit => Some(1)
    case _ => None
  }

  function PrimSize(p: Prim): Option<nat> { if p == Unit then Some(0) else PrimAlign(p) }

  predicate IsTag(l: Layout) { |l.fields| == 1 && l.fields[0].name == "__tag" }

  function Max(a: nat, b: nat): nat { if a >= b then a else b }

  /** The next multiple of `align`, as the layout loops step to it. */
  function Rounded(n: nat, align: nat): nat
    requires align > 0
  {
    if n % align == 0 then n else n + (align - n % align)
  }

  // ---- Alignment, size, offset -----------------------------------------------------------

  function AlignOf(t: Type): (r: Option<nat>)
    ensures r.Some? ==> r.value > 0
    decreases t, 0
  {
    match t
    case Builtin(p) => PrimAlign(p)
    case Other => None
    case Named(None) => None
    case Named(Some(l)) =>
      if IsTag(l) then AlignOf(l.fields[0].ty) else
      if !l.isC then None else
      var m := FieldsAlign(l, |l.fields|);
      if m.None? then None else Some(Max(m.value, l.align))
  }

  /** The largest alignment of the first `n` fields. */
  function FieldsAlign(l: Layout, n: nat): (r: Option<nat>)
    requires n <= |l.fields|
    ensures r.Some? ==> r.value > 0
    decreases l, n
  {
    if n == 0 then Some(1) else
    var before, a := FieldsAlign(l, n - 1), AlignOf(l.fields[n - 1].ty);
    if before.None? || a.None? then None else Some(Max(before.value, a.value))
  }

  function SizeOf(t: Type): Option<nat>
    decreases t, 0
  {
    match t
    case Builtin(p) => PrimSize(p)
    case Other => None
    case Named(None) => None
    case Named(Some(l)) =>
      if IsTag(l) then SizeOf(l.fields[0].ty) else
      if !l.isC || AlignOf(t).None? then None else
      var end := EndOf(l, |l.fields|);
      if end.None? then None else Some(Rounded(end.value, AlignOf(t).value))
  }

  /** Where the first `n` fields end. */
  function EndOf(l: Layout, n: nat): Option<nat>
    requires n <= |l.fields|
    decreases l, n, 0
  {
    if n == 0 then Some(0) else
    var start, size := StartOf(l, n - 1), SizeOf(l.fields[n - 1].ty);
    if start.None? || size.None? then None else Some(start.value + size.value)
  }

  /** Where the n-th field starts. */
  function StartOf(l: Layout, n: nat): Option<nat>
    requires n < |l.fields|
    decreases l, n, 1
  {
    var end, a := EndOf(l, n), AlignOf(l.fields[n].ty);
    if end.None? || a.None? then None else Some(Rounded(end.value, a.value))
  }

  method CAbiAlign(t: Type) returns (r: Option<nat>)
    ensures r == AlignOf(t)
    decreases t
  {
    if t.Builtin? {
      return PrimAlign(t.prim);
    }
    if t.Other? || t.layout.None? {
      return None;
    }
    var l := t.layout.value;
    if IsTag(l) {
      r := CAbiAlign(l.fields[0].ty);
      return;
    }
    if !l.isC {
      return None;
    }
    var maxAlign := 1;
    for i := 0 to |l.fields|
      invariant FieldsAlign(l, i) == Some(maxAlign)
    {
      var a := CAbiAlign(l.fields[i].ty);
      if a.None? {
        NoneStays(l, i + 1);
        return None;
      }
      maxAlign := Max(maxAlign, a.value);
    }
    if l.align != 0 {
      maxAlign := Max(maxAlign, l.align);
    }
    r := Some(maxAlign);
  }

  lemma {:induction false} NoneStays(l: Layout, n: nat)
    requires n <= |l.fields| && FieldsAlign(l, n).None?
    ensures FieldsAlign(l, |l.fields|).None?
    decreases |l.fields| - n
  {
    if n < |l.fields| {
      NoneStays(l, n + 1);
    }
  }

  method CAbiSize(t: Type) returns (r: Option<nat>)
    ensures r == SizeOf(t)
    decreases t
  {
    if t.Builtin? {
      return PrimSize(t.prim);
    }
    if t.Other? || t.layout.None? {
      return None;
    }
    var l := t.layout.value;
    if IsTag(l) {
      r := CAbiSize(l.fields[0].ty);
      return;
    }
    if !l.isC {
      return None;
    }
    var size, structAlign := 0, 1;
    for i := 0 to |l.fields|
      invariant EndOf(l, i) == Some(size) && FieldsAlign(l, i) == Some(structAlign)
    {
      var fieldAlign := CAbiAlign(l.fields[i].ty);
      var fieldSize := CAbiSize(l.fields[i].ty);
      if fieldAlign.None? || fieldSize.None? {
        NoSize(l, i + 1);
        return None;
      }
      structAlign := Max(structAlign, fieldAlign.value);
      size := Rounded(size, fieldAlign.value) + fieldSize.value;
    }
    if l.align != 0 {
      structAlign := Max(structAlign, l.align);
    }
    r := Some(Rounded(size, structAlign));
  }

  lemma {:induction false} NoSize(l: Layout, n: nat)
    requires n <= |l.fields| && (EndOf(l, n).None? || FieldsAlign(l, n).None?)
    ensures EndOf(l, |l.fields|).None? || FieldsAlign(l, |l.fields|).None?
    decreases |l.fields| - n
  {
    if n < |l.fields| {
      NoSize(l, n + 1);
    }
  }

  /** The first field of a name, the number of fields if there is none. */
  function Index(l: Layout, name: string, i: nat := 0): (k: nat)
    requires i <= |l.fields|
    ensures i <= k <= |l.fields|
    decreases |l.fields| - i
  {
    if i == |l.fields| || l.fields[i].name == name then i else Index(l, name, i + 1)
  }

  /** The offset of a field; none for another layout, a missing name, or a field before it without a size. */
  function OffsetOf(t: Type, name: string): Option<nat> {
    if !t.Named? || t.layout.None? || !t.layout.value.isC then None else
    var l := t.layout.value;
    var k := Index(l, name);
    if k == |l.fields| || SizeOf(l.fields[k].ty).None? then None else StartOf(l, k)
  }

  method CAbiFieldOffset(t: Type, name: string) returns (r: Option<nat>)
    ensures r == OffsetOf(t, name)
  {
    if !t.Named? || t.layout.None? || !t.layout.value.isC {
      return None;
    }
    var l := t.layout.value;
    var offset := 0;
    for i := 0 to |l.fields|
      invariant EndOf(l, i) == Some(offset) && Index(l, name) == Index(l, name, i)
    {
      var a := CAbiAlign(l.fields[i].ty);
      var size := CAbiSize(l.fields[i].ty);
      if a.None? || size.None? {
        NoStart(l, name, i);
        return None;
      }
      offset := Rounded(offset, a.value);
      if l.fields[i].name == name {
        return Some(offset);
      }
      offset := offset + size.value;
    }
    r := None;
  }

  lemma {:induction false} NoStart(l: Layout, name: string, i: nat)
    requires i < |l.fields| && (AlignOf(l.fields[i].ty).None? || SizeOf(l.fields[i].ty).None?)
    requires Index(l, name) == Index(l, name, i)
    ensures OffsetOf(Named(Some(l)), name).None?
  {
    var k := Index(l, name);
    if i < k < |l.fields| {
      NoEnd(l, i + 1, k);
    }
  }

  lemma {:induction false} NoEnd(l: Layout, i: nat, k: nat)
    requires i <= k <= |l.fields| && EndOf(l, i).None?
    ensures EndOf(l, k).None?
    decreases k - i
  {
    if i < k {
      NoEnd(l, i + 1, k);
    }
  }

  /** The alignment used for globals, computed apart from the one used for record layouts: the same. */
  method HostAbiAlign(t: Type) returns (r: Option<nat>)
    ensures r == AlignOf(t)
    decreases t
  {
    match t {
      case Builtin(p) => r := PrimAlign(p);
      case Named(layout) =>
        if layout.Some? && |layout.value.fields| == 1 && layout.value.fields[0].name == "__tag" {
          r := HostAbiAlign(layout.value.fields[0].ty);
          return;
        }
        if layout.None? || !layout.value.isC {
          return None;
        }
        var l := layout.value;
        var maxAlign := 1;
        for i := 0 to |l.fields|
          invariant FieldsAlign(l, i) == Some(maxAlign)
        {
          var a := HostAbiAlign(l.fields[i].ty);
          if a.None? {
            NoneStays(l, i + 1);
            return None;
          }
          maxAlign := Max(maxAlign, a.value);
        }
        r := Some(if l.align != 0 then Max(maxAlign, l.align) else maxAlign);
      case Other => r := None;
    }
  }

  // ---- Powers of two ---------------------------------------------------------------------

  lemma {:induction false} Pow2Divides(m: nat, n: nat)
    requires m <= n
    ensures Pow2(n) % Pow2(m) == 0
    decreases n - m
  {
    Pow2Add(n - m, m);
    ModUnique(Pow2(n), Pow2(n - m), Pow2(m), 0);
  }

  /** The larger of two powers of two is a power of two, and a multiple of both. */
  lemma MaxPow2(a: nat, b: nat)
    requires IsPow2(a) && IsPow2(b)
    ensures IsPow2(Max(a, b)) && a > 0 && b > 0 && Max(a, b) % a == 0 && Max(a, b) % b == 0
  {
    hide Pow2;
    var m: nat :| m <= a && a == Pow2(m);
    var n: nat :| n <= b && b == Pow2(n);
    if m <= n {
      Pow2Divides(m, n);
      Pow2Mono(m, n);
    } else {
      Pow2Divides(n, m);
      Pow2Mono(n, m);
    }
    ModUnique(a, 1, a, 0);
    ModUnique(b, 1, b, 0);
  }

  lemma DividesTrans(a: nat, b: nat, c: nat)
    requires a > 0 && b > 0 && c % b == 0 && b % a == 0
    ensures c % a == 0
  {
    var k, m := c / b, b / a;
    assert c == k * b && b == m * a;
    assert k * (m * a) == (k * m) * a;
    ModUnique(c, k * m, a, 0);
  }

  lemma DividesSum(a: nat, b: nat, c: nat)
    requires a > 0 && b % a == 0 && c % a == 0
    ensures (b + c) % a == 0
  {
    var k, m := b / a, c / a;
    assert b == k * a && c == m * a && k * a + m * a == (k + m) * a;
    ModUnique(b + c, k + m, a, 0);
  }

  lemma RoundedLeast(n: nat, a: nat, m: nat)
    requires a > 0
    ensures n <= Rounded(n, a) < n + a && Rounded(n, a) % a == 0
    ensures m >= n && m % a == 0 ==> Rounded(n, a) <= m
  {
    var q, r := n / a, n % a;
    assert n == q * a + r && (q + 1) * a == q * a + a;
    if r == 0 {
      ModUnique(n, q, a, 0);
    } else {
      ModUnique(Rounded(n, a), q + 1, a, 0);
      var k := m / a;
      if m >= n && m % a == 0 {
        assert m == k * a;
        Above(k, q, a, r);
      }
    }
  }

  lemma Above(k: nat, q: nat, a: nat, r: nat)
    requires 0 < r < a && k * a >= q * a + r
    ensures k * a >= q * a + a
  {
    assert (k - q) * a == k * a - q * a;
    if k > q {
      AtLeast(k - q, a);
    } else {
      NotPositive(k - q, a);
    }
  }

  lemma NotPositive(d: int, p: nat)
    requires d <= 0
    ensures d * p <= 0
  {
  }

  // ---- Layouts ---------------------------------------------------------------------------

  /** Every alignment that records ask for is a power of two. */
  predicate Powers(t: Type) {
    t.Named? && t.layout.Some? ==>
      var l := t.layout.value;
      (l.align == 0 || IsPow2(l.align)) && forall f <- l.fields :: Powers(f.ty)
  }

  lemma PrimPow2(p: Prim)
    ensures PrimAlign(p).Some? ==> IsPow2(PrimAlign(p).value)
  {
    assert 1 == Pow2(0) && 2 == Pow2(1) && 4 == Pow2(2) && 8 == Pow2(3);
  }

  lemma {:induction false} AlignPow2(t: Type)
    requires Powers(t) && AlignOf(t).Some?
    ensures IsPow2(AlignOf(t).value)
    decreases t, 0
  {
    hide IsPow2;
    if t.Builtin? {
      PrimPow2(t.prim);
    } else {
      var l := t.layout.value;
      if IsTag(l) {
        AlignPow2(l.fields[0].ty);
      } else {
        FieldsPow2(l, |l.fields|);
        if l.align != 0 {
          MaxPow2(FieldsAlign(l, |l.fields|).value, l.align);
        }
      }
    }
  }

  lemma {:induction false} FieldsPow2(l: Layout, n: nat)
    requires n <= |l.fields| && FieldsAlign(l, n).Some? && forall f <- l.fields :: Powers(f.ty)
    ensures IsPow2(FieldsAlign(l, n).value)
    decreases l, n
  {
    hide IsPow2;
    if n == 0 {
      PrimPow2(U8);
    } else {
      FieldsPow2(l, n - 1);
      AlignPow2(l.fields[n - 1].ty);
      MaxPow2(FieldsAlign(l, n - 1).value, AlignOf(l.fields[n - 1].ty).value);
    }
  }

  /** A record's alignment is a multiple of each field's. */
  lemma {:induction false} FieldDivides(l: Layout, n: nat, i: nat)
    requires i < n <= |l.fields| && FieldsAlign(l, n).Some? && forall f <- l.fields :: Powers(f.ty)
    ensures AlignOf(l.fields[i].ty).Some? && FieldsAlign(l, n).value % AlignOf(l.fields[i].ty).value == 0
    decreases n
  {
    hide IsPow2;
    FieldsPow2(l, n - 1);
    AlignPow2(l.fields[n - 1].ty);
    MaxPow2(FieldsAlign(l, n - 1).value, AlignOf(l.fields[n - 1].ty).value);
    if i < n - 1 {
      FieldDivides(l, n - 1, i);
      DividesTrans(AlignOf(l.fields[i].ty).value, FieldsAlign(l, n - 1).value, FieldsAlign(l, n).value);
    }
  }

  /** A layout(c) record with a size. */
  predicate Sized(t: Type) { t.Named? && t.layout.Some? && t.layout.value.isC && SizeOf(t).Some? }

  lemma {:induction false} EndsDefined(l: Layout, i: nat, n: nat)
    requires i <= n <= |l.fields| && EndOf(l, n).Some?
    ensures EndOf(l, i).Some? && EndOf(l, i).value <= EndOf(l, n).value
    ensures i < n ==> StartOf(l, i).Some? && SizeOf(l.fields[i].ty).Some?
    ensures i < n ==> EndOf(l, i).value <= StartOf(l, i).value && EndOf(l, i + 1).value <= EndOf(l, n).value
    decreases n - i
  {
    if i < n {
      EndsDefined(l, i + 1, n);
    }
  }

  predicate FieldPlaced(t: Type, i: nat)
    requires Sized(t) && i < |t.layout.value.fields|
  {
    var l := t.layout.value;
    var start, size, a := StartOf(l, i), SizeOf(l.fields[i].ty), AlignOf(l.fields[i].ty);
    && start.Some? && size.Some? && a.Some? && AlignOf(t).Some?
    && start.value % a.value == 0 && AlignOf(t).value % a.value == 0
    && start.value + size.value <= SizeOf(t).value
  }

  /** A field lies aligned inside its record, whose alignment is a multiple of the field's. */
  lemma FieldIsPlaced(t: Type, i: nat)
    requires Sized(t) && Powers(t) && i < |t.layout.value.fields|
    ensures FieldPlaced(t, i)
  {
    hide IsPow2;
    var l := t.layout.value;
    if IsTag(l) {
      TagPlaced(t);
    } else {
      EndsDefined(l, i, |l.fields|);
      FieldDivides(l, |l.fields|, i);
      RoundedLeast(EndOf(l, i).value, AlignOf(l.fields[i].ty).value, 0);
      RoundedLeast(EndOf(l, |l.fields|).value, AlignOf(t).value, 0);
      FieldsPow2(l, |l.fields|);
      if l.align != 0 {
        MaxPow2(FieldsAlign(l, |l.fields|).value, l.align);
        DividesTrans(AlignOf(l.fields[i].ty).value, FieldsAlign(l, |l.fields|).value, AlignOf(t).value);
      }
    }
  }

  lemma {:induction false} SizeNeedsAlign(t: Type)
    requires SizeOf(t).Some?
    ensures AlignOf(t).Some?
  {
    if t.Named? && t.layout.Some? && IsTag(t.layout.value) {
      SizeNeedsAlign(t.layout.value.fields[0].ty);
    }
  }

  lemma TagPlaced(t: Type)
    requires Sized(t) && IsTag(t.layout.value)
    ensures FieldPlaced(t, 0)
  {
    var l := t.layout.value;
    SizeNeedsAlign(l.fields[0].ty);
    var a := AlignOf(t).value;
    ModUnique(a, 1, a, 0);
    ModUnique(0, 0, a, 0);
    assert EndOf(l, 0) == Some(0);
  }

  /** The size of a record is a multiple of its alignment, and its fields lie one after the other, each at the
      least aligned place. */
  lemma RecordLayout(t: Type, i: nat, j: nat, m: nat)
    requires Sized(t) && Powers(t) && i < j < |t.layout.value.fields|
    ensures AlignOf(t).Some? && SizeOf(t).value % AlignOf(t).value == 0
    ensures FieldPlaced(t, i) && FieldPlaced(t, j)
    ensures var l := t.layout.value;
      && StartOf(l, i).value + SizeOf(l.fields[i].ty).value <= StartOf(l, j).value
      && EndOf(l, j).Some?
      && (m >= EndOf(l, j).value && m % AlignOf(l.fields[j].ty).value == 0 ==> StartOf(l, j).value <= m)
  {
    hide IsPow2;
    var l := t.layout.value;
    FieldIsPlaced(t, i);
    FieldIsPlaced(t, j);
    EndsDefined(l, j, |l.fields|);
    EndsDefined(l, i, j);
    RoundedLeast(EndOf(l, |l.fields|).value, AlignOf(t).value, 0);
    RoundedLeast(EndOf(l, j).value, AlignOf(l.fields[j].ty).value, m);
  }

  /** Size and alignment are no larger than they need be. */
  lemma SizeLeast(t: Type, m: nat)
    requires Sized(t) && !IsTag(t.layout.value)
    ensures var l := t.layout.value;
      && AlignOf(t).Some? && EndOf(l, |l.fields|).Some?
      && (m >= EndOf(l, |l.fields|).value && m % AlignOf(t).value == 0 ==> SizeOf(t).value <= m)
  {
    var l := t.layout.value;
    RoundedLeast(EndOf(l, |l.fields|).value, AlignOf(t).value, m);
  }

  lemma AlignLeast(t: Type, m: nat)
    requires Sized(t) && !IsTag(t.layout.value) && AlignOf(t).Some? && m >= 1 && m >= t.layout.value.align
    requires forall f <- t.layout.value.fields :: AlignOf(f.ty).Some? ==> m >= AlignOf(f.ty).value
    ensures AlignOf(t).value <= m
  {
    FieldsAlignLeast(t.layout.value, |t.layout.value.fields|, m);
  }

  lemma {:induction false} FieldsAlignLeast(l: Layout, n: nat, m: nat)
    requires n <= |l.fields| && FieldsAlign(l, n).Some? && m >= 1
    requires forall f <- l.fields :: AlignOf(f.ty).Some? ==> m >= AlignOf(f.ty).value
    ensures FieldsAlign(l, n).value <= m
    decreases n
  {
    if n > 0 {
      FieldsAlignLeast(l, n - 1, m);
      assert l.fields[n - 1] in l.fields;
    }
  }

  // ---- Fields of fields ------------------------------------------------------------------

  /** The offset and the type at the end of a path of field numbers. */
  function At(t: Type, path: seq<nat>): Option<(nat, Type)> {
    if path == [] then Some((0, t)) else
    if !Sized(t) || path[0] >= |t.layout.value.fields| then None else
    var l := t.layout.value;
    var start, rest := StartOf(l, path[0]), At(l.fields[path[0]].ty, path[1..]);
    if start.None? || rest.None? then None else Some((start.value + rest.value.0, rest.value.1))
  }

  /** At any depth a field stays aligned, and inside the outermost record. */
  lemma {:induction false} NestedPlaced(t: Type, path: seq<nat>)
    requires SizeOf(t).Some? && Powers(t) && At(t, path).Some?
    ensures var (offset, u) := At(t, path).value;
      && SizeOf(u).Some? && AlignOf(u).Some? && AlignOf(t).Some?
      && offset % AlignOf(u).value == 0 && AlignOf(t).value % AlignOf(u).value == 0
      && offset + SizeOf(u).value <= SizeOf(t).value
    decreases |path|
  {
    hide IsPow2, SizeOf, AlignOf, StartOf;
    SizeNeedsAlign(t);
    if path == [] {
      ModUnique(AlignOf(t).value, 1, AlignOf(t).value, 0);
      ModUnique(0, 0, AlignOf(t).value, 0);
    } else {
      var f := t.layout.value.fields[path[0]];
      FieldIsPlaced(t, path[0]);
      NestedPlaced(f.ty, path[1..]);
      var (offset, u) := At(f.ty, path[1..]).value;
      var a := AlignOf(u).value;
      DividesTrans(a, AlignOf(f.ty).value, AlignOf(t).value);
      DividesTrans(a, AlignOf(f.ty).value, StartOf(t.layout.value, path[0]).value);
      DividesSum(a, StartOf(t.layout.value, path[0]).value, offset);
    }
  }

  /** A record at an aligned address has every field, at any depth, at an aligned address. */
  lemma NestedAligned(t: Type, path: seq<nat>, base: nat)
    requires SizeOf(t).Some? && Powers(t) && At(t, path).Some?
    requires AlignOf(t).Some? && base % AlignOf(t).value == 0
    ensures AlignOf(At(t, path).value.1).Some?
    ensures (base + At(t, path).value.0) % AlignOf(At(t, path).value.1).value == 0
  {
    hide IsPow2, SizeOf, AlignOf, At;
    NestedPlaced(t, path);
    var (offset, u) := At(t, path).value;
    DividesTrans(AlignOf(u).value, AlignOf(t).value, base);
    DividesSum(AlignOf(u).value, base, offset);
  }

  /** Two paths that part lead to fields that do not overlap. */
  lemma {:induction false} PathsApart(t: Type, common: seq<nat>, p: seq<nat>, q: seq<nat>)
    requires SizeOf(t).Some? && Powers(t) && p != [] && q != [] && p[0] < q[0]
    requires At(t, common + p).Some? && At(t, common + q).Some?
    ensures SizeOf(At(t, common + p).value.1).Some?
    ensures At(t, common + p).value.0 + SizeOf(At(t, common + p).value.1).value <= At(t, common + q).value.0
    decreases |common|
  {
    hide IsPow2, SizeOf, AlignOf, StartOf, EndOf;
    var l := t.layout.value;
    if common == [] {
      assert common + p == p && common + q == q;
      RecordLayout(t, p[0], q[0], 0);
      NestedPlaced(l.fields[p[0]].ty, p[1..]);
    } else {
      assert (common + p)[1..] == common[1..] + p && (common + q)[1..] == common[1..] + q;
      FieldIsPlaced(t, common[0]);
      PathsApart(l.fields[common[0]].ty, common[1..], p, q);
    }
  }

  // ---- What has a layout, and where a named field is -------------------------------------

  /** The widths of the builtin types that have a layout. */
  const WIDTHS: map<Prim, nat> := map[
    Bool := 8, I8 := 8, U8 := 8, I16 := 16, U16 := 16, Char := 32, I32 := 32, U32 := 32, F32 := 32,
    I64 := 64, U64 := 64, ISize := 64, USize := 64, F64 := 64]

  /** They take as many bytes, at multiples of their size; the unit type takes none, at any place. */
  lemma Builtins(p: Prim)
    ensures p in WIDTHS ==> SizeOf(Builtin(p)).Some? && 8 * SizeOf(Builtin(p)).value == WIDTHS[p]
    ensures p in WIDTHS ==> AlignOf(Builtin(p)) == SizeOf(Builtin(p))
    ensures p == Unit ==> SizeOf(Builtin(p)) == Some(0) && AlignOf(Builtin(p)) == Some(1)
    ensures p !in WIDTHS && p != Unit ==> SizeOf(Builtin(p)) == None && AlignOf(Builtin(p)) == None
  {
    match p
    case _ =>
  }

  /** A record has a layout just when it is layout(c) and all its fields have one; a record of a single field
      `__tag` has that of its field. Other types have none. */
  lemma HasLayout(t: Type)
    requires !t.Builtin?
    ensures SizeOf(t).Some? <==>
      && t.Named? && t.layout.Some?
      && var l := t.layout.value;
         if |l.fields| == 1 && l.fields[0].name == "__tag" then SizeOf(l.fields[0].ty).Some?
         else l.isC && forall f <- l.fields :: SizeOf(f.ty).Some?
    ensures SizeOf(t).Some? && |t.layout.value.fields| == 1 && t.layout.value.fields[0].name == "__tag" ==>
      SizeOf(t) == SizeOf(t.layout.value.fields[0].ty) && AlignOf(t) == AlignOf(t.layout.value.fields[0].ty)
  {
    if t.Named? && t.layout.Some? && t.layout.value.isC && !IsTag(t.layout.value) {
      var l := t.layout.value;
      AllHaveLayout(l, |l.fields|);
    }
  }

  lemma {:induction false} AllHaveLayout(l: Layout, n: nat)
    requires n <= |l.fields|
    ensures FieldsAlign(l, n).Some? && EndOf(l, n).Some? <==> forall f <- l.fields[..n] :: SizeOf(f.ty).Some?
    decreases n
  {
    if n > 0 {
      AllHaveLayout(l, n - 1);
      assert l.fields[..n] == l.fields[..n - 1] + [l.fields[n - 1]];
      if SizeOf(l.fields[n - 1].ty).Some? {
        SizeNeedsAlign(l.fields[n - 1].ty);
      }
    }
  }

  /** The number of the first field of a name. */
  predicate FirstNamed(l: Layout, name: string, i: nat) {
    i < |l.fields| && l.fields[i].name == name && forall j :: 0 <= j < i ==> l.fields[j].name != name
  }

  /** A query by name finds a field just when the record has one of that name, and gives the offset at which
      the first of them is reached. */
  lemma OffsetByName(t: Type, name: string)
    requires Sized(t)
    ensures OffsetOf(t, name).Some? <==> exists f <- t.layout.value.fields :: f.name == name
    ensures forall i: nat :: FirstNamed(t.layout.value, name, i) ==>
      && OffsetOf(t, name).Some? && At(t, [i]) == Some((OffsetOf(t, name).value, t.layout.value.fields[i].ty))
      && AlignOf(t.layout.value.fields[i].ty).Some?
      && OffsetOf(t, name).value % AlignOf(t.layout.value.fields[i].ty).value == 0
  {
    hide SizeOf, AlignOf, StartOf, Index;
    var l := t.layout.value;
    IndexFinds(l, name, 0);
    var k := Index(l, name);
    if k < |l.fields| {
      FieldSized(t, k);
      assert l.fields[k] in l.fields;
      assert At(l.fields[k].ty, [k][1..]) == Some((0, l.fields[k].ty));
      forall i: nat | FirstNamed(l, name, i) ensures i == k {
        assert !(i < k) && !(k < i);
      }
    }
  }

  lemma FieldSized(t: Type, i: nat)
    requires Sized(t) && i < |t.layout.value.fields|
    ensures var l := t.layout.value;
      && SizeOf(l.fields[i].ty).Some? && AlignOf(l.fields[i].ty).Some? && StartOf(l, i).Some?
      && StartOf(l, i).value % AlignOf(l.fields[i].ty).value == 0
  {
    var l := t.layout.value;
    if IsTag(l) {
      TagPlaced(t);
    } else {
      EndsDefined(l, i, |l.fields|);
      RoundedLeast(EndOf(l, i).value, AlignOf(l.fields[i].ty).value, 0);
    }
  }

  lemma {:induction false} IndexFinds(l: Layout, name: string, i: nat)
    requires i <= |l.fields| && forall j :: 0 <= j < i ==> l.fields[j].name != name
    ensures var k := Index(l, name, i);
      if k < |l.fields| then FirstNamed(l, name, k) else forall f <- l.fields :: f.name != name
    decreases |l.fields| - i
  {
    if i < |l.fields| && l.fields[i].name != name {
      IndexFinds(l, name, i + 1);
    }
  }
}
