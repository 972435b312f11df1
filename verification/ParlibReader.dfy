/** Opening a parlib file with all its checks, and reading chunks from it. */
module ParlibReader {
  import opened Wrappers
  import opened Bits
  import opened ParlibFormat
  import opened ParlibFile

  datatype OpenError =
    | TooSmall | BadHeader | LegacyFormat | UnsupportedVersion | UnsupportedHeaderSize | FileSizeMismatch
    | BadFooter | TocPointerMismatch | UnsupportedEntrySize | BadLayout | TocCountMismatch | TocUnreadable
    | ChunkOutOfBounds(entry: nat)

  datatype Result<+T, +E> = Ok(value: T) | Err(error: E)

  datatype Reader = Reader(file: seq<Byte>, header: Header, footerOffset: U64, records: seq<Record>)

  function Sum64(a: nat, b: nat): U64 { (a + b) % WORD64 }

  /** What a file gives when read at a position: at most what it has left. */
  function ReadAt(file: seq<Byte>, at: nat, n: nat): (r: seq<Byte>)
    ensures |r| <= n
  {
    if at >= |file| then [] else file[at..Min(at + n, |file|)]
  }

  /** The TOC's entries from the i-th on, unless one of them points outside the file. */
  function Entries(toc: seq<Byte>, count: nat, size: U64, i: nat): Result<seq<Record>, OpenError>
    requires |toc| == TOC_ENTRY_SIZE * count && i <= count
    decreases count - i
  {
    if i == count then Ok([]) else
    var record := ParseEntry(toc, i * TOC_ENTRY_SIZE);
    if Sum64(record.offset, record.size) > size then Err(ChunkOutOfBounds(i)) else
    Preceded([record], Entries(toc, count, size, i + 1))
  }

  function Preceded(first: seq<Record>, r: Result<seq<Record>, OpenError>): Result<seq<Record>, OpenError> {
    match r
    case Ok(rest) => Ok(first + rest)
    case Err(e) => Err(e)
  }

  /** The checks on the header, in the order they are made. */
  function HeaderError(h: Header, size: nat): Option<OpenError> {
    if h.major != 1 || h.minor != 1 then
      Some(if h.major == 1 && h.minor == 0 then LegacyFormat else UnsupportedVersion)
    else if h.headerSize != HEADER_SIZE then Some(UnsupportedHeaderSize)
    else if h.fileSize != size then Some(FileSizeMismatch)
    else None
  }

  /** The checks on the place of the TOC, in the order they are made. Sums wrap at 64 bits. */
  function TocError(h: Header, footer: (U64, U64), size: nat): Option<OpenError> {
    if footer.0 != h.tocOffset || footer.1 != h.tocSize then Some(TocPointerMismatch)
    else if h.tocEntrySize != TOC_ENTRY_SIZE then Some(UnsupportedEntrySize)
    else if Sum64(Sum64(h.tocOffset, h.tocSize), FOOTER_SIZE) != size then Some(BadLayout)
    else if h.tocSize != h.tocEntrySize * h.tocCount then Some(TocCountMismatch)
    else None
  }

  /** What opening a file gives. */
  function Opened(file: seq<Byte>): Result<Reader, OpenError>
    requires |file| <= MAX_POS
  {
    if |file| < HEADER_SIZE + FOOTER_SIZE then Err(TooSmall) else
    var header := ParseHeader(file[..HEADER_SIZE]);
    if header.None? then Err(BadHeader) else
    var h := header.value;
    if HeaderError(h, |file|).Some? then Err(HeaderError(h, |file|).value) else
    var footer := ParseFooter(file[|file| - FOOTER_SIZE..]);
    if footer.None? then Err(BadFooter) else
    if TocError(h, footer.value, |file|).Some? then Err(TocError(h, footer.value, |file|).value) else
    OpenedToc(file, h, footer.value)
  }

  function OpenedToc(file: seq<Byte>, h: Header, footer: (U64, U64)): Result<Reader, OpenError>
    requires |file| <= MAX_POS && TocError(h, footer, |file|) == None
  {
    if h.tocOffset + h.tocSize > |file| then Err(TocUnreadable) else
    match Entries(file[h.tocOffset..h.tocOffset + h.tocSize], h.tocCount, |file|, 0)
    case Ok(records) => Ok(Reader(file, h, h.tocOffset + h.tocSize, records))
    case Err(e) => Err(e)
  }

  /** Opens a file, checking it from the header to the TOC's entries. */
  method Open(file: seq<Byte>) returns (r: Result<Reader, OpenError>)
    requires |file| <= MAX_POS
    ensures r == Opened(file)
  {
    if |file| < HEADER_SIZE + FOOTER_SIZE {
      return Err(TooSmall);
    }
    var header := DeserializeHeader(file[..HEADER_SIZE]);
    if header.None? {
      return Err(BadHeader);
    }
    var h := header.value;
    if h.major != 1 || h.minor != 1 {
      return Err(if h.major == 1 && h.minor == 0 then LegacyFormat else UnsupportedVersion);
    }
    if h.headerSize != HEADER_SIZE {
      return Err(UnsupportedHeaderSize);
    }
    if h.fileSize != |file| {
      return Err(FileSizeMismatch);
    }
    var footer := DeserializeFooter(file[|file| - FOOTER_SIZE..]);
    if footer.None? {
      return Err(BadFooter);
    }
    var error := CheckToc(h, footer.value, |file|);
    if error.Some? {
      return Err(error.value);
    }
    r := OpenToc(file, h, footer.value);
  }

  method CheckToc(h: Header, footer: (U64, U64), size: nat) returns (error: Option<OpenError>)
    ensures error == TocError(h, footer, size)
  {
    if footer.0 != h.tocOffset || footer.1 != h.tocSize {
      return Some(TocPointerMismatch);
    }
    if h.tocEntrySize != TOC_ENTRY_SIZE {
      return Some(UnsupportedEntrySize);
    }
    if Sum64(Sum64(h.tocOffset, h.tocSize), FOOTER_SIZE) != size {
      return Some(BadLayout);
    }
    if h.tocSize != h.tocEntrySize * h.tocCount {
      return Some(TocCountMismatch);
    }
    error := None;
  }

  method OpenToc(file: seq<Byte>, h: Header, footer: (U64, U64)) returns (r: Result<Reader, OpenError>)
    requires FOOTER_SIZE <= |file| <= MAX_POS
    requires TocError(h, footer, |file|) == None
    ensures r == OpenedToc(file, h, footer)
  {
    hide Entries;
    NoWrap(h.tocOffset, |file|);
    TocReadable(file, h.tocOffset, h.tocSize);
    var toc := ReadAt(file, h.tocOffset, h.tocSize);
    if |toc| != h.tocSize {
      return Err(TocUnreadable);
    }
    var records := ReadEntries(toc, h.tocCount, |file|);
    match records {
      case Ok(rs) => r := Ok(Reader(file, h, Sum64(h.tocOffset, h.tocSize), rs));
      case Err(e) => r := Err(e);
    }
  }

  lemma NoWrap(offset: U64, size: nat)
    requires FOOTER_SIZE <= size
    ensures Sum64(Sum64(offset, 0), FOOTER_SIZE) == size ==> offset < size
  {
  }

  /** A read is complete just when it stays inside the file, an empty one just before its end. */
  lemma TocReadable(file: seq<Byte>, at: nat, n: nat)
    requires n == 0 ==> at < |file|
    ensures |ReadAt(file, at, n)| == n <==> at + n <= |file|
    ensures at + n <= |file| ==> ReadAt(file, at, n) == file[at..at + n]
  {
  }

  method ReadEntries(toc: seq<Byte>, count: U32, size: U64) returns (r: Result<seq<Record>, OpenError>)
    requires |toc| == TOC_ENTRY_SIZE * count
    ensures r == Entries(toc, count, size, 0)
  {
    hide ParseEntry;
    var records := [];
    Regroup(records, Entries(toc, count, size, 0));
    for i := 0 to count
      invariant Entries(toc, count, size, 0) == Preceded(records, Entries(toc, count, size, i))
    {
      var entry := DeserializeEntry(toc, i * TOC_ENTRY_SIZE);
      var record := entry.value;
      if Sum64(record.offset, record.size) > size {
        return Err(ChunkOutOfBounds(i));
      }
      Regroup(records, Entries(toc, count, size, i + 1), [record]);
      records := records + [record];
    }
    assert records + [] == records;
    r := Ok(records);
  }

  lemma Regroup(a: seq<Record>, r: Result<seq<Record>, OpenError>, b: seq<Record> := [])
    ensures Preceded(a, Preceded(b, r)) == Preceded(a + b, r) && Preceded([], r) == r
  {
    if r.Ok? {
      assert a + (b + r.value) == a + b + r.value && [] + r.value == r.value;
    }
  }

  // ---- Chunks of an opened file ----------------------------------------------------------

  predicate Matches(record: Record, kind: U16, lane: U16, target: U32) {
    record.kind == kind && record.lane == lane && record.target == target
  }

  /** The first record of a kind, lane and target. */
  function Lookup(records: seq<Record>, kind: U16, lane: U16, target: U32): Option<Record> {
    if records == [] then None else
    if Matches(records[0], kind, lane, target) then Some(records[0]) else Lookup(records[1..], kind, lane, target)
  }

  method FindChunk(reader: Reader, kind: U16, lane: U16, target: U32) returns (r: Option<Record>)
    ensures r == Lookup(reader.records, kind, lane, target)
  {
    var records := reader.records;
    assert records[0..] == records;
    for i := 0 to |records|
      invariant Lookup(records, kind, lane, target) == Lookup(records[i..], kind, lane, target)
    {
      if Matches(records[i], kind, lane, target) {
        return Some(records[i]);
      }
      assert records[i..][1..] == records[i + 1..];
    }
    r := None;
  }

  /** With no two records alike, each is found, and nothing else is. */
  lemma {:induction false} LookupExact(records: seq<Record>, kind: U16, lane: U16, target: U32)
    ensures Lookup(records, kind, lane, target) == None <==> forall r <- records :: !Matches(r, kind, lane, target)
    ensures Distinct(records) ==> forall r <- records :: Matches(r, kind, lane, target) ==>
      Lookup(records, kind, lane, target) == Some(r)
    decreases |records|
  {
    if records != [] {
      LookupExact(records[1..], kind, lane, target);
      assert records == [records[0]] + records[1..];
    }
  }

  predicate Distinct(records: seq<Record>) {
    forall i, j :: 0 <= i < j < |records| ==> !Matches(records[j], records[i].kind, records[i].lane, records[i].target)
  }

  /** Part of a chunk: as much of the range asked for as the chunk, and the file, have. */
  function Slice(file: seq<Byte>, record: Record, offset: U64, size: U64): seq<Byte> {
    if size == 0 || offset > record.size then [] else
    ReadAt(file, Sum64(record.offset, offset), Min(size, record.size - offset))
  }

  /** Reads a chunk piece by piece. */
  class ChunkStream {
    const file: seq<Byte>
    var pos: nat
    var remaining: nat
    var ok: bool

    constructor (reader: Reader, record: Record)
      ensures file == reader.file && remaining == (if ok then record.size else 0) && pos == record.offset
      ensures ok <==> record.offset <= MAX_POS
    {
      file, pos := reader.file, record.offset;
      ok := record.offset <= MAX_POS;
      remaining := if record.offset <= MAX_POS then record.size else 0;
    }

    /** Reads at most `max` bytes; false when there are none. A short read ends the stream. */
    method ReadSome(max: nat) returns (out: seq<Byte>, more: bool)
      modifies this
      ensures var n := if old(ok) then Min(old(remaining), max) else 0;
        && out == ReadAt(file, old(pos), n) && more == (out != [])
        && ok == (old(ok) && |out| == n)
      ensures pos == old(pos) + |out| && remaining == old(remaining) - |out|
    {
      if !ok || remaining == 0 || max == 0 {
        return [], false;
      }
      var n := Min(remaining, max);
      out := ReadAt(file, pos, n);
      if out == [] {
        ok := false;
        return [], false;
      }
      if |out| < n {
        ok := false;
      }
      pos := pos + |out|;
      remaining := remaining - |out|;
      more := true;
    }

    /** What a series of reads of these sizes brings in. */
    method ReadSeries(sizes: seq<nat>) returns (all: seq<Byte>)
      requires ok && pos + remaining <= |file|
      modifies this
      ensures all == file[old(pos)..old(pos) + Min(old(remaining), Total(sizes))]
    {
      all := [];
      for i := 0 to |sizes|
        invariant ok && pos == old(pos) + |all| && remaining == old(remaining) - |all|
        invariant all == file[old(pos)..pos] && |all| == Min(old(remaining), Total(sizes[..i]))
      {
        assert sizes[..i + 1][..i] == sizes[..i];
        var out, more := ReadSome(sizes[i]);
        all := all + out;
      }
      assert sizes[..|sizes|] == sizes;
    }
  }

  function Total(sizes: seq<nat>): nat {
    if sizes == [] then 0 else Total(sizes[..|sizes| - 1]) + sizes[|sizes| - 1]
  }
}
