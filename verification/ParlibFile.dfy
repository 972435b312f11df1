/** Writing a whole parlib file: a header, the chunk stream, the TOC and a footer. */
module ParlibFile {
  import opened Wrappers
  import opened Bits
  import opened ParlibFormat

  datatype Options = Options(
    flags: U32, features: U64, compiler: U64, bundle: seq<Byte>, triple: seq<Byte>, summary: seq<Byte>)

  datatype Payload = Payload(kind: U16, lane: U16, target: U32, align: U32, compression: U16, bytes: seq<Byte>)

  /** An append that got past the checks. It leaves no record when its input stream failed on the way,
      but the bytes read until then stay in the file. */
  datatype Item = Item(payload: Payload, kept: bool)

  datatype Complaint =
    | AppendInInvalidState | BadAlignment | UnsupportedCompression | InputFailed
    | OutputNotOpened | FinalizeBeforeBegin | FinalizeTwice

  /** The largest position of a stream. */
  const MAX_POS: nat := 0x7FFF_FFFF_FFFF_FFFF

  predicate Acceptable(p: Payload) { p.align > 0 && IsPow2(p.align) && p.compression == 0 }

  // ---- The file a run of appends leaves --------------------------------------------------

  function Padded(s: seq<Byte>, align: nat): (r: seq<Byte>)
    ensures s <= r && |r| == AlignUp(|s|, align)
  {
    s + Zeros(AlignUp(|s|, align) - |s|)
  }

  function WithChunk(s: seq<Byte>, p: Payload): (r: seq<Byte>)
    ensures s <= r && |r| == AlignUp(|s|, p.align) + |p.bytes|
  {
    Padded(s, p.align) + p.bytes
  }

  function Body(items: seq<Item>): (r: seq<Byte>)
    ensures |r| >= HEADER_SIZE
  {
    if items == [] then Zeros(HEADER_SIZE) else WithChunk(Body(items[..|items| - 1]), items[|items| - 1].payload)
  }

  function RecordFor(at: U64, p: Payload): Record
    requires |p.bytes| <= MAX_POS
  {
    Record(p.kind, p.lane, p.target, p.align, p.compression, at, |p.bytes|,
           XorU64(Fnv(SEED_CHECKSUM, p.bytes), |p.bytes|), Fnv(SEED_CONTENT, p.bytes))
  }

  function Kept(items: seq<Item>): seq<Payload> {
    if items == [] then [] else
    Kept(items[..|items| - 1]) + if items[|items| - 1].kept then [items[|items| - 1].payload] else []
  }

  function Records(items: seq<Item>): (r: seq<Record>)
    requires |Body(items)| <= MAX_POS
    ensures |r| == |Kept(items)|
  {
    if items == [] then [] else
    var before, last := items[..|items| - 1], items[|items| - 1];
    Records(before) + if last.kept then [RecordFor(AlignUp(|Body(before)|, last.payload.align), last.payload)] else []
  }

  function Toc(records: seq<Record>): (r: seq<Byte>)
    ensures |r| == TOC_ENTRY_SIZE * |records|
  {
    if records == [] then [] else Toc(records[..|records| - 1]) + EntryBytes(records[|records| - 1])
  }

  /** Where the TOC starts, and the size of the finished file. */
  function TocStart(items: seq<Item>): nat { AlignUp(|Body(items)|, 8) }

  function FileSize(items: seq<Item>): nat { TocStart(items) + TOC_ENTRY_SIZE * |Kept(items)| + FOOTER_SIZE }

  /** The header of the finished file. The number of records is cut to 32 bits. */
  function FinalHeader(opt: Options, toc: U64, count: nat, size: U64): Header
    requires toc >= HEADER_SIZE && TOC_ENTRY_SIZE * count <= MAX_POS
  {
    Header(1, 1, opt.flags, HEADER_SIZE, HEADER_SIZE, toc - HEADER_SIZE, toc, TOC_ENTRY_SIZE * count, size,
           opt.features, opt.compiler, count % WORD32, TOC_ENTRY_SIZE, opt.triple, opt.bundle, opt.summary)
  }

  function ItemsHeader(opt: Options, items: seq<Item>): Header
    requires FileSize(items) <= MAX_POS
  {
    FinalHeader(opt, TocStart(items), |Kept(items)|, FileSize(items))
  }

  function Image(opt: Options, items: seq<Item>): (r: seq<Byte>)
    requires FileSize(items) <= MAX_POS
    ensures |r| == FileSize(items)
  {
    HeaderBytes(ItemsHeader(opt, items)) + Padded(Body(items), 8)[HEADER_SIZE..] + Toc(Records(items))
    + FooterBytes(TocStart(items), TOC_ENTRY_SIZE * |Kept(items)|)
  }

  lemma Appended(items: seq<Item>, it: Item)
    ensures Body(items + [it]) == WithChunk(Body(items), it.payload)
    ensures Kept(items + [it]) == Kept(items) + if it.kept then [it.payload] else []
    ensures |Body(items + [it])| <= MAX_POS ==>
      Records(items + [it])
      == Records(items) + if it.kept then [RecordFor(AlignUp(|Body(items)|, it.payload.align), it.payload)] else []
  {
    var all := items + [it];
    assert all[..|all| - 1] == items && all[|all| - 1] == it;
  }

  lemma TocGrows(records: seq<Record>, i: nat)
    requires i < |records|
    ensures Toc(records[..i + 1]) == Toc(records[..i]) + EntryBytes(records[i])
  {
    assert records[..i + 1][..i] == records[..i];
  }

  lemma Patched(opt: Options, items: seq<Item>, file: seq<Byte>)
    requires FileSize(items) <= MAX_POS
    requires file == Padded(Body(items), 8) + Toc(Records(items))
                     + FooterBytes(TocStart(items), TOC_ENTRY_SIZE * |Kept(items)|)
    ensures |file| == FileSize(items)
    ensures HeaderBytes(ItemsHeader(opt, items)) + file[HEADER_SIZE..] == Image(opt, items)
  {
    hide HeaderBytes, EntryBytes, FooterBytes, Body, Records, Kept;
    assert file[HEADER_SIZE..] == Padded(Body(items), 8)[HEADER_SIZE..] + Toc(Records(items))
                                  + FooterBytes(TocStart(items), TOC_ENTRY_SIZE * |Kept(items)|);
  }

  // ---- The writer ------------------------------------------------------------------------

  /** An output file: its bytes and the position of the next write. */
  class OutFile {
    var bytes: seq<Byte>
    var pos: nat

    constructor ()
      ensures bytes == [] && pos == 0
    {
      bytes, pos := [], 0;
    }

    method Truncate()
      modifies this
      ensures bytes == [] && pos == 0
    {
      bytes, pos := [], 0;
    }

    method Seek(p: nat)
      requires p <= |bytes|
      modifies this`pos
      ensures pos == p
    {
      pos := p;
    }

    method Write(s: seq<Byte>)
      requires pos <= |bytes|
      modifies this
      ensures pos == old(pos) + |s|
      ensures pos <= |old(bytes)| ==> bytes == old(bytes[..pos]) + s + old(bytes)[pos..]
      ensures pos > |old(bytes)| ==> bytes == old(bytes[..pos]) + s
    {
      var rest := if pos + |s| <= |bytes| then bytes[pos + |s|..] else [];
      bytes := bytes[..pos] + s + rest;
      pos := pos + |s|;
    }

    /** Pads with zeros from the end of the file to a multiple of `align`. */
    method Align(align: U32)
      requires align <= 1 || IsPow2(align)
      requires pos == |bytes| <= MAX_POS
      modifies this
      ensures bytes == Padded(old(bytes), align) && pos == |bytes|
    {
      if align <= 1 {
        return;
      }
      var aligned := AlignUpMask(pos, align);
      if aligned == pos {
        return;
      }
      Write(Zeros(aligned - pos));
    }
  }

  /** An input stream: what is left of it, and whether reading fails, rather than ends, after that. */
  class InStream {
    var rest: seq<Byte>
    const failing: bool
    var good: bool
    var eof: bool

    constructor (bytes: seq<Byte>, failing: bool)
      ensures rest == bytes && this.failing == failing && good && !eof
    {
      rest, good, eof := bytes, true, false;
      this.failing := failing;
    }

    method Read(n: nat) returns (s: seq<Byte>)
      requires good && !eof
      modifies this
      ensures old(rest) == s + rest && |s| <= n
      ensures good ==> |s| == n && !eof
      ensures !good ==> rest == [] && eof == !failing
    {
      if n <= |rest| {
        s, rest := rest[..n], rest[n..];
      } else {
        s, rest, good, eof := rest, [], false, !failing;
      }
    }
  }

  datatype BuildResult = BuildResult(ok: bool, header: Option<Header>, records: seq<Record>)

  class Writer {
    const file: OutFile
    var opt: Options
    var begun: bool
    var finalized: bool
    var records: seq<Record>
    var errors: seq<Complaint>
    /** The appends since the output was opened that got past the checks. */
    ghost var items: seq<Item>

    ghost predicate Valid()
      reads this, file
    {
      && (begun && !finalized ==>
           file.bytes == Body(items) && file.pos == |file.bytes| <= MAX_POS && records == Records(items))
      && (begun && finalized ==> FileSize(items) <= MAX_POS && file.bytes == Image(opt, items))
    }

    constructor (opt: Options)
      ensures Valid() && !begun && !finalized && fresh(file) && errors == []
    {
      file := new OutFile();
      this.opt, begun, finalized, records, errors, items := opt, false, false, [], [], [];
    }

    /** Opens the output, `opens` telling whether that works, and leaves room for the header. */
    method Begin(opt: Options, opens: bool) returns (ok: bool)
      modifies this, file
      ensures Valid() && ok == begun == opens && !finalized && this.opt == opt && items == []
      ensures errors == if ok then [] else [OutputNotOpened]
    {
      records, errors, items := [], [], [];
      begun, finalized, this.opt := false, false, opt;
      if !opens {
        errors := [OutputNotOpened];
        return false;
      }
      file.Truncate();
      file.Write(Zeros(HEADER_SIZE));
      begun := true;
      ok := true;
    }

    predicate Open()
      reads this
    {
      begun && !finalized
    }

    /** The checks before a chunk's bytes, and the padding up to where it starts. */
    method Prepare(p: Payload) returns (ok: bool)
      requires Valid() && (Open() && Acceptable(p) ==> AlignUp(|file.bytes|, p.align) <= MAX_POS)
      modifies file, this`errors
      ensures ok <==> Open() && Acceptable(p)
      ensures ok ==> errors == old(errors) && file.bytes == Padded(old(file.bytes), p.align) && file.pos == |file.bytes|
      ensures !ok ==> Valid() && |errors| == |old(errors)| + 1 && old(errors) <= errors
      ensures !ok ==> file.bytes == old(file.bytes) && file.pos == old(file.pos)
    {
      if !begun || finalized {
        errors := errors + [AppendInInvalidState];
        return false;
      }
      var power := IsPowerOfTwo(p.align);
      if !power {
        errors := errors + [BadAlignment];
        return false;
      }
      if p.compression != 0 {
        errors := errors + [UnsupportedCompression];
        return false;
      }
      file.Align(p.align);
      ok := true;
    }

    /** Records a chunk of these bytes, now in the file. */
    method Push(meta: Payload, at: U64, size: U64, checksum: U64, hash: U64, ghost bytes: seq<Byte>)
      requires Open() && |Body(items)| <= MAX_POS && records == Records(items)
      requires file.bytes == WithChunk(Body(items), meta.(bytes := bytes)) && file.pos == |file.bytes| <= MAX_POS
      requires at == AlignUp(|Body(items)|, meta.align) && size == |bytes|
      requires checksum == Fnv(SEED_CHECKSUM, bytes) && hash == Fnv(SEED_CONTENT, bytes)
      modifies this`records, this`items
      ensures Valid() && items == old(items) + [Item(meta.(bytes := bytes), true)]
    {
      Appended(items, Item(meta.(bytes := bytes), true));
      records := records + [Record(meta.kind, meta.lane, meta.target, meta.align, meta.compression, at, size,
                                   XorU64(checksum, size), hash)];
      items := items + [Item(meta.(bytes := bytes), true)];
    }

    /** Appends a chunk whose bytes are at hand. */
    method AppendChunk(p: Payload) returns (ok: bool)
      requires Valid() && (Open() && Acceptable(p) ==> |WithChunk(file.bytes, p)| <= MAX_POS)
      modifies file, this`errors, this`records, this`items
      ensures Valid() && (ok <==> Open() && Acceptable(p))
      ensures items == if ok then old(items) + [Item(p, true)] else old(items)
      ensures if ok then errors == old(errors) else |errors| == |old(errors)| + 1 && old(errors) <= errors
    {
      hide Body, Records, Padded, IsPow2;
      ok := Prepare(p);
      if !ok {
        return;
      }
      var at := file.pos;
      var size := 0;
      var hash, checksum: U64 := SEED_CONTENT, SEED_CHECKSUM;
      assert file.bytes + [] == file.bytes;
      if p.bytes != [] {
        file.Write(p.bytes);
        hash := FnvUpdate(hash, p.bytes);
        checksum := FnvUpdate(checksum, p.bytes);
        size := |p.bytes|;
      }
      Push(p, at, size, checksum, hash, p.bytes);
    }

    /** Appends a chunk read from a stream, in pieces of 64 KiB. */
    method AppendChunkStream(meta: Payload, input: InStream) returns (ok: bool)
      requires Valid() && input.good && !input.eof
      requires Open() && Acceptable(meta) ==> |WithChunk(file.bytes, meta.(bytes := input.rest))| <= MAX_POS
      modifies file, input, this`errors, this`records, this`items
      ensures Valid() && (ok <==> Open() && Acceptable(meta) && !input.failing)
      ensures var read := meta.(bytes := old(input.rest));
        items == if Open() && Acceptable(meta) then old(items) + [Item(read, ok)] else old(items)
      ensures if ok then errors == old(errors) else |errors| == |old(errors)| + 1 && old(errors) <= errors
    {
      ok := Prepare(meta);
      if !ok {
        return;
      }
      var at := file.pos;
      ghost var all := input.rest;
      var size, hash, checksum := Copy(input);
      if !input.eof {
        errors := errors + [InputFailed];
        Appended(items, Item(meta.(bytes := all), false));
        items := items + [Item(meta.(bytes := all), false)];
        return false;
      }
      Push(meta, at, size, checksum, hash, all);
    }

    /** Copies the rest of a stream to the end of the file, hashing on the way. */
    method Copy(input: InStream) returns (size: nat, hash: U64, checksum: U64)
      requires input.good && !input.eof && file.pos == |file.bytes|
      modifies file, input
      ensures file.bytes == old(file.bytes) + old(input.rest) && file.pos == |file.bytes|
      ensures size == |old(input.rest)| && hash == Fnv(SEED_CONTENT, old(input.rest))
      ensures checksum == Fnv(SEED_CHECKSUM, old(input.rest)) && input.eof == !input.failing
    {
      size, hash, checksum := 0, SEED_CONTENT, SEED_CHECKSUM;
      ghost var read: seq<Byte> := [];
      while input.good
        invariant old(input.rest) == read + input.rest && size == |read|
        invariant file.bytes == old(file.bytes) + read && file.pos == |file.bytes|
        invariant hash == Fnv(SEED_CONTENT, read) && checksum == Fnv(SEED_CHECKSUM, read)
        invariant if input.good then !input.eof else input.rest == [] && input.eof == !input.failing
        decreases input.good, |input.rest|
      {
        var buf := input.Read(0x1_0000);
        if buf != [] {
          file.Write(buf);
          FnvConcat(SEED_CONTENT, read, buf);
          FnvConcat(SEED_CHECKSUM, read, buf);
          hash := FnvUpdate(hash, buf);
          checksum := FnvUpdate(checksum, buf);
          size := size + |buf|;
          read := read + buf;
        }
      }
      assert read == old(input.rest);
    }

    /** Writes the TOC and the footer, and then the header over the room left for it. */
    method Finalize() returns (r: BuildResult)
      requires Valid() && (Open() ==> FileSize(items) <= MAX_POS)
      modifies file, this`errors, this`finalized
      ensures Valid() && items == old(items) && begun == old(begun)
      ensures !old(Open()) ==> !r.ok && |errors| == |old(errors)| + 1 && file.bytes == old(file.bytes)
      ensures old(Open()) ==> finalized && errors == old(errors) && (r.ok <==> errors == [])
      ensures old(Open()) ==>
        FileSize(items) <= MAX_POS && r.header == Some(ItemsHeader(opt, items)) && r.records == Records(items)
    {
      if !begun {
        errors := errors + [FinalizeBeforeBegin];
        return BuildResult(false, None, []);
      }
      if finalized {
        errors := errors + [FinalizeTwice];
        return BuildResult(false, None, []);
      }
      r := Complete();
    }

    method Complete() returns (r: BuildResult)
      requires Valid() && Open() && FileSize(items) <= MAX_POS
      modifies file, this`finalized
      ensures Valid() && finalized && r == BuildResult(errors == [], Some(ItemsHeader(opt, items)), Records(items))
    {
      hide HeaderBytes, FooterBytes, IsPow2, Body, Kept, Records, Toc, Padded, Image;
      PowerEight();
      file.Align(8);
      var tocOffset := file.pos;
      WriteToc();
      var tocSize := |records| * TOC_ENTRY_SIZE;
      var footer := SerializeFooter(tocOffset, tocSize);
      file.Write(footer);
      var h := FinalHeader(opt, tocOffset, |records|, file.pos);
      var header := SerializeHeader(h);
      Patched(opt, items, file.bytes);
      Patch(header);
      finalized := true;
      r := BuildResult(errors == [], Some(h), records);
    }

    method WriteToc()
      requires file.pos == |file.bytes|
      modifies file
      ensures file.bytes == old(file.bytes) + Toc(records) && file.pos == |file.bytes|
    {
      hide EntryBytes;
      ghost var start, done: seq<Byte> := file.bytes, [];
      for i := 0 to |records|
        invariant file.bytes == start + done && file.pos == |file.bytes|
        invariant done == Toc(records[..i])
      {
        var entry := SerializeEntry(records[i]);
        file.Write(entry);
        TocGrows(records, i);
        done := done + entry;
      }
      assert records[..|records|] == records;
    }

    /** Overwrites the beginning of the file. */
    method Patch(start: seq<Byte>)
      requires |start| <= |file.bytes|
      modifies file
      ensures file.bytes == start + old(file.bytes)[|start|..]
    {
      file.Seek(0);
      file.Write(start);
    }
  }

  lemma PowerEight()
    ensures IsPow2(8)
  {
    assert 8 == Pow2(3);
  }
}
