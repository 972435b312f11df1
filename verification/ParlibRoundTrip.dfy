/** What a written parlib file gives back when it is opened and read. */
module ParlibRoundTrip {
  import opened Wrappers
  import opened Bits
  import opened ParlibFormat
  import opened ParlibFile
  import opened ParlibReader

  // ---- Chunks in the stream --------------------------------------------------------------

  /** A record describes a payload that lies, aligned, in a file. */
  predicate Holds(file: seq<Byte>, r: Record, p: Payload) {
    && |p.bytes| <= MAX_POS && r == RecordFor(r.offset, p)
    && HEADER_SIZE <= r.offset && r.offset + r.size <= |file|
    && file[r.offset..r.offset + r.size] == p.bytes
    && (p.align > 1 ==> r.offset % p.align == 0)
  }

  function End(r: Record): nat { r.offset + r.size }

  /** Every chunk is in the stream, in bounds, and after the chunks before it. */
  lemma {:induction false} ChunkInBody(items: seq<Item>, i: nat)
    requires |Body(items)| <= MAX_POS && i < |Kept(items)|
    ensures Holds(Body(items), Records(items)[i], Kept(items)[i])
    ensures i > 0 ==> End(Records(items)[i - 1]) <= Records(items)[i].offset
    decreases |items|
  {
    hide Fnv, XorU64;
    var before, last := items[..|items| - 1], items[|items| - 1];
    if i < |Kept(before)| {
      ChunkInBody(before, i);
    } else if i > 0 {
      ChunkInBody(before, i - 1);
    }
  }

  // ---- Opening ---------------------------------------------------------------------------

  lemma {:induction false} TocEntryAt(records: seq<Record>, i: nat)
    requires i < |records|
    ensures Toc(records)[i * TOC_ENTRY_SIZE..i * TOC_ENTRY_SIZE + TOC_ENTRY_SIZE] == EntryBytes(records[i])
    decreases |records|
  {
    hide EntryBytes;
    if i < |records| - 1 {
      TocEntryAt(records[..|records| - 1], i);
    }
  }

  predicate InBounds(records: seq<Record>, size: nat) {
    forall i :: 0 <= i < |records| ==> End(records[i]) <= size
  }

  lemma {:induction false} EntriesOfToc(records: seq<Record>, size: U64, i: nat)
    requires i <= |records| && size <= MAX_POS && InBounds(records, size)
    ensures Entries(Toc(records), |records|, size, i) == Ok(records[i..])
    decreases |records| - i
  {
    hide EntryBytes, ParseEntry;
    if i < |records| {
      TocEntryAt(records, i);
      EntryRoundTrip(records[i], Toc(records), i * TOC_ENTRY_SIZE);
      EntriesOfToc(records, size, i + 1);
      assert [records[i]] + records[i + 1..] == records[i..];
    } else {
      assert records[i..] == [];
    }
  }

  /** The parts of a finished file. */
  lemma ImageParts(opt: Options, items: seq<Item>)
    requires FileSize(items) <= MAX_POS
    ensures var f, toc := Image(opt, items), TocStart(items);
      && f[..HEADER_SIZE] == HeaderBytes(ItemsHeader(opt, items))
      && f[HEADER_SIZE..toc] == Padded(Body(items), 8)[HEADER_SIZE..]
      && f[toc..toc + TOC_ENTRY_SIZE * |Kept(items)|] == Toc(Records(items))
      && f[|f| - FOOTER_SIZE..] == FooterBytes(toc, TOC_ENTRY_SIZE * |Kept(items)|)
  {
    hide HeaderBytes, FooterBytes, Toc, Body, Kept, Records, Padded;
  }

  /** What a reader of the finished file knows. */
  function ImageReader(opt: Options, items: seq<Item>): Reader
    requires FileSize(items) <= MAX_POS
  {
    var h := ItemsHeader(opt, items);
    Reader(Image(opt, items),
           h.(triple := FieldText(opt.triple), bundle := FieldText(opt.bundle), summary := FieldText(opt.summary)),
           h.tocOffset + h.tocSize, Records(items))
  }

  /** Opening what was written gives the same header numbers and the same records, unless there are so
      many records that their number does not fit the header. */
  lemma OpenedImage(opt: Options, items: seq<Item>)
    requires FileSize(items) <= MAX_POS
    ensures Opened(Image(opt, items))
         == if |Kept(items)| < WORD32 then Ok(ImageReader(opt, items)) else Err(TocCountMismatch)
  {
    hide HeaderBytes, FooterBytes, ParseHeader, ParseFooter, Toc, Entries, Body, Kept, Records, Image, FieldText;
    var h, footer := ItemsHeader(opt, items), (TocStart(items), TOC_ENTRY_SIZE * |Kept(items)|);
    ImageParts(opt, items);
    HeaderRoundTrip(h);
    FooterRoundTrip(footer.0, footer.1);
    RecordsInBounds(items);
    EntriesOfToc(Records(items), FileSize(items), 0);
    assert Records(items)[0..] == Records(items);
  }

  lemma RecordsInBounds(items: seq<Item>)
    requires |Body(items)| <= MAX_POS
    ensures InBounds(Records(items), |Body(items)|)
  {
    forall i | 0 <= i < |Records(items)| ensures End(Records(items)[i]) <= |Body(items)| {
      ChunkInBody(items, i);
    }
  }

  /** A file opens, and every chunk put into it is found and read back in full, just when the number of
      chunks fits the header. */
  lemma WrittenThenRead(opt: Options, items: seq<Item>)
    requires FileSize(items) <= MAX_POS
    ensures Opened(Image(opt, items)).Ok? <==> |Kept(items)| < WORD32
    ensures |Kept(items)| < WORD32 ==> Opened(Image(opt, items)).value == ImageReader(opt, items)
    ensures forall i :: 0 <= i < |Kept(items)| ==> SlicedBack(opt, items, i)
  {
    hide Image, Slice, Body, Records, Kept, ImageReader, Opened;
    OpenedImage(opt, items);
    forall i | 0 <= i < |Kept(items)| ensures SlicedBack(opt, items, i) {
      ChunkInImage(opt, items, i);
      SliceInside(Image(opt, items), Records(items)[i], 0, Records(items)[i].size);
    }
  }

  predicate SlicedBack(opt: Options, items: seq<Item>, i: nat)
    requires FileSize(items) <= MAX_POS && i < |Kept(items)|
  {
    Slice(Image(opt, items), Records(items)[i], 0, Records(items)[i].size) == Kept(items)[i].bytes
  }

  /** Two files have the same bytes in a range. */
  predicate Agree(f: seq<Byte>, g: seq<Byte>, from: nat, to: nat) {
    from <= to <= |f| && to <= |g| && f[from..to] == g[from..to]
  }

  lemma AgreeInside(f: seq<Byte>, g: seq<Byte>, from: nat, to: nat, a: nat, b: nat)
    requires Agree(f, g, from, to) && from <= a <= b <= to
    ensures f[a..b] == g[a..b]
  {
    forall k | a <= k < b ensures f[k] == g[k] {
      assert f[k] == f[from..to][k - from] && g[k] == g[from..to][k - from];
    }
  }

  predicate Blank(file: seq<Byte>, from: nat, to: nat) {
    from <= to <= |file| && file[from..to] == Zeros(to - from)
  }

  /** The finished file has the chunk stream's bytes, and zeros up to the TOC. */
  lemma ImageHasBody(opt: Options, items: seq<Item>)
    requires FileSize(items) <= MAX_POS
    ensures Agree(Image(opt, items), Body(items), HEADER_SIZE, |Body(items)|)
    ensures |Body(items)| <= TocStart(items) && Blank(Image(opt, items), |Body(items)|, TocStart(items))
  {
    hide Image, Body, Records, Kept, Padded;
    ImageParts(opt, items);
    PaddedTail(Image(opt, items), Body(items), TocStart(items));
  }

  lemma PaddedTail(f: seq<Byte>, body: seq<Byte>, toc: nat)
    requires HEADER_SIZE <= |body| && toc == AlignUp(|body|, 8) <= |f|
    requires f[HEADER_SIZE..toc] == Padded(body, 8)[HEADER_SIZE..]
    ensures Agree(f, body, HEADER_SIZE, |body|) && Blank(f, |body|, toc)
  {
    var p := Padded(body, 8);
    assert f[HEADER_SIZE..|body|] == f[HEADER_SIZE..toc][..|body| - HEADER_SIZE];
    assert p[HEADER_SIZE..][..|body| - HEADER_SIZE] == body[HEADER_SIZE..|body|];
    assert f[|body|..toc] == f[HEADER_SIZE..toc][|body| - HEADER_SIZE..];
    assert p[HEADER_SIZE..][|body| - HEADER_SIZE..] == Zeros(toc - |body|);
  }

  lemma ChunkInImage(opt: Options, items: seq<Item>, i: nat)
    requires FileSize(items) <= MAX_POS && i < |Kept(items)|
    ensures Holds(Image(opt, items), Records(items)[i], Kept(items)[i])
    ensures End(Records(items)[i]) <= TocStart(items)
  {
    hide Image, Body, Records, Kept, Fnv, XorU64, RecordFor;
    ChunkInBody(items, i);
    ImageHasBody(opt, items);
    var r := Records(items)[i];
    AgreeInside(Image(opt, items), Body(items), HEADER_SIZE, |Body(items)|, r.offset, End(r));
  }

  /** A slice of a chunk that lies in the file is that part of its bytes, cut at the chunk's end. */
  lemma SliceInside(file: seq<Byte>, r: Record, offset: U64, size: U64)
    requires End(r) <= |file| <= MAX_POS && offset <= r.size
    ensures Slice(file, r, offset, size) == file[r.offset..End(r)][offset..][..Min(size, r.size - offset)]
  {
    var at, n := r.offset + offset, Min(size, r.size - offset);
    assert Sum64(r.offset, offset) == at;
    assert file[r.offset..End(r)][offset..][..n] == file[at..at + n];
  }

  /** A written file opened again, and one of its chunks read from it as a stream, in reads of any sizes:
      what comes is the chunk's bytes, as many as were asked for. */
  method ReadBack(file: seq<Byte>, i: nat, sizes: seq<nat>, ghost opt: Options, ghost items: seq<Item>) returns (out: seq<Byte>)
    requires FileSize(items) <= MAX_POS && file == Image(opt, items) && |Kept(items)| < WORD32 && i < |Kept(items)|
    ensures var bytes := Kept(items)[i].bytes; out == bytes[..Min(|bytes|, Total(sizes))]
  {
    hide Image, Body, Records, Kept, Opened;
    OpenedImage(opt, items);
    ChunkInImage(opt, items, i);
    var reader := Open(file);
    var record := reader.value.records[i];
    var stream := new ChunkStream(reader.value, record);
    out := stream.ReadSeries(sizes);
    ghost var n := Min(record.size, Total(sizes));
    assert file[record.offset..End(record)][..n] == file[record.offset..record.offset + n];
  }

  // ---- Layout ----------------------------------------------------------------------------

  /** Where the bytes of append `j` start: the least aligned place after all that was written before. */
  function StartOf(items: seq<Item>, j: nat): nat
    requires j < |items|
  {
    AlignUp(|Body(items[..j])|, items[j].payload.align)
  }

  /** From the end of what was written before: zeros up to the start of append `j`, then its bytes. */
  predicate Placed(file: seq<Byte>, items: seq<Item>, j: nat)
    requires j < |items|
  {
    var at, bytes := StartOf(items, j), items[j].payload.bytes;
    && |Body(items[..j + 1])| == at + |bytes| <= |file|
    && Blank(file, |Body(items[..j])|, at) && file[at..at + |bytes|] == bytes
  }

  /** What was appended first stays where it is. */
  lemma {:induction false} BodyPrefix(items: seq<Item>, j: nat)
    requires j <= |items|
    ensures Body(items[..j]) <= Body(items)
    decreases |items|
  {
    if j == |items| {
      assert items[..j] == items;
    } else {
      var before := items[..|items| - 1];
      BodyPrefix(before, j);
      assert before[..j] == items[..j];
    }
  }

  /** A chunk is padding, then its bytes. */
  lemma ChunkParts(s: seq<Byte>, p: Payload, at: nat)
    requires at == AlignUp(|s|, p.align)
    ensures var w := WithChunk(s, p);
            |s| <= at && |w| == at + |p.bytes| && w[|s|..at] == Zeros(at - |s|) && w[at..] == p.bytes
  {
    hide AlignUp;
    var pad := Padded(s, p.align);
    assert WithChunk(s, p)[..at] == pad;
    assert pad[|s|..] == Zeros(at - |s|);
    assert WithChunk(s, p)[|s|..at] == pad[|s|..at];
  }

  /** So it is in whatever starts with it. */
  lemma ChunkBetween(s: seq<Byte>, p: Payload, t: seq<Byte>, at: nat)
    requires at == AlignUp(|s|, p.align) && WithChunk(s, p) <= t
    ensures Blank(t, |s|, at) && at + |p.bytes| <= |t| && t[at..at + |p.bytes|] == p.bytes
  {
    hide AlignUp, WithChunk, Zeros;
    ChunkParts(s, p, at);
    PrefixParts(WithChunk(s, p), t, |s|, at);
  }

  lemma BodyUpTo(items: seq<Item>, j: nat)
    requires j < |items|
    ensures Body(items[..j + 1]) == WithChunk(Body(items[..j]), items[j].payload) && Body(items[..j + 1]) <= Body(items)
  {
    hide WithChunk;
    var upTo := items[..j + 1];
    assert upTo[..|upTo| - 1] == items[..j] && upTo[|upTo| - 1] == items[j];
    assert Body(upTo) == WithChunk(Body(items[..j]), items[j].payload);
    BodyPrefix(items, j + 1);
  }

  lemma PlacedInBody(items: seq<Item>, j: nat)
    requires j < |items|
    ensures Placed(Body(items), items, j)
  {
    hide Body, WithChunk, AlignUp, Zeros;
    BodyUpTo(items, j);
    ChunkBetween(Body(items[..j]), items[j].payload, Body(items), StartOf(items, j));
  }

  lemma PlacedInImage(opt: Options, items: seq<Item>, j: nat)
    requires FileSize(items) <= MAX_POS && j < |items|
    ensures Placed(Image(opt, items), items, j) && |Body(items[..j + 1])| <= |Body(items)| <= TocStart(items)
  {
    hide Image, Body, Records, Kept, AlignUp, Zeros;
    ImageHasBody(opt, items);
    PlacedInBody(items, j);
    BodyPrefix(items, j + 1);
    HeaderFirst(items[..j]);
    var f, body, at := Image(opt, items), Body(items), StartOf(items, j);
    AgreeInside(f, body, HEADER_SIZE, |body|, |Body(items[..j])|, at);
    AgreeInside(f, body, HEADER_SIZE, |body|, at, at + |items[j].payload.bytes|);
  }

  lemma PrefixParts(s: seq<Byte>, t: seq<Byte>, a: nat, b: nat)
    requires s <= t && a <= b <= |s|
    ensures t[a..b] == s[a..b] && t[b..|s|] == s[b..]
  {
    assert t[..|s|] == s;
    assert t[a..b] == t[..|s|][a..b];
    assert t[b..|s|] == t[..|s|][b..];
  }

  /** A kept append has the record that says where it is. */
  lemma {:induction false} RecordOf(items: seq<Item>, j: nat)
    requires |Body(items)| <= MAX_POS && j < |items| && items[j].kept
    ensures var i := |Kept(items[..j])|;
            i < |Kept(items)| && Kept(items)[i] == items[j].payload && Records(items)[i].offset == StartOf(items, j)
    decreases |items|
  {
    hide Fnv, XorU64;
    if j < |items| - 1 {
      var before := items[..|items| - 1];
      RecordOf(before, j);
      assert before[..j] == items[..j];
    }
  }

  /** Whatever the run of appends, also where an input stream failed and left bytes without a record: the
      bytes of each lie, in order, between the header and the TOC, at the least aligned place after those
      before; the room between them, and up to the 8-aligned TOC, is zero; and a record says where. */
  lemma Layout(opt: Options, items: seq<Item>)
    requires FileSize(items) <= MAX_POS
    ensures |Body(items[..0])| == HEADER_SIZE
    ensures TocStart(items) % 8 == 0 && Blank(Image(opt, items), |Body(items)|, TocStart(items))
    ensures forall j :: 0 <= j < |items| ==>
              Placed(Image(opt, items), items, j) && |Body(items[..j + 1])| <= |Body(items)| <= TocStart(items)
    ensures forall j :: 0 <= j < |items| && items[j].kept ==>
              var i := |Kept(items[..j])|;
              i < |Kept(items)| && Kept(items)[i] == items[j].payload && Records(items)[i].offset == StartOf(items, j)
  {
    assert |Body(items[..0])| == HEADER_SIZE;
    hide Image, Body, Records, Kept, Placed;
    ImageHasBody(opt, items);
    forall j | 0 <= j < |items|
      ensures Placed(Image(opt, items), items, j) && |Body(items[..j + 1])| <= |Body(items)| <= TocStart(items)
    {
      PlacedInImage(opt, items, j);
    }
    forall j | 0 <= j < |items| && items[j].kept
      ensures var i := |Kept(items[..j])|;
              i < |Kept(items)| && Kept(items)[i] == items[j].payload && Records(items)[i].offset == StartOf(items, j)
    {
      RecordOf(items, j);
    }
  }

  lemma HeaderFirst(items: seq<Item>)
    ensures |Body(items)| >= HEADER_SIZE
  {
  }
}
