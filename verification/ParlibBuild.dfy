/** Building a parlib file from its default and extra chunks, and inspecting it. */
module ParlibBuild {
  import opened Wrappers
  import opened Bits
  import opened ParlibFormat
  import opened ParlibFile
  import opened ParlibReader
  import opened ParlibRoundTrip
  import opened ParlibText

  const GLOBAL: U16 := 0
  const MANIFEST: U16 := 1
  const STRING_TABLE: U16 := 2
  const EXPORT_C_INDEX: U16 := 3
  const NATIVE_DEPS: U16 := 4
  const DEBUG_INFO: U16 := 9

  datatype Key = Key(lane: U16, target: U32, kind: U16)

  datatype BuildOptions = BuildOptions(
    opt: Options, pcore: bool, prt: bool, pstd: bool, debug: bool,
    exports: seq<Export>, deps: seq<Dep>, extras: seq<Payload>)

  function KeyOf(p: Payload): Key { Key(p.lane, p.target, p.kind) }

  // ---- The chunks of a build -------------------------------------------------------------

  function Lanes(o: BuildOptions): seq<U16> {
    (if o.pcore then [1] else []) + (if o.prt then [2] else []) + if o.pstd then [3] else []
  }

  function LaneText(lane: U16): Text { Ascii(LaneName(lane)) }

  function LaneList(lanes: seq<U16>): Text {
    if lanes == [] then [] else
    LaneText(lanes[0]) + (if |lanes| > 1 then Ascii(",") else []) + LaneList(lanes[1..])
  }

  function ManifestText(opt: Options, lanes: seq<U16>): Text {
    Joined([Ascii("format=1.1"), Ascii("magic=PRLB"), Ascii("bundle_id=") + opt.bundle,
            Ascii("target_triple=") + opt.triple, Ascii("target_summary=") + opt.summary,
            Ascii("feature_bits=") + Digits(opt.features), Ascii("compiler_hash=") + Digits(opt.compiler),
            Ascii("lanes=") + LaneList(lanes)])
  }

  function Terminated(names: seq<Text>): Text { if names == [] then [] else names[0] + [0] + Terminated(names[1..]) }

  function NonEmpty(s: Text): seq<Text> { if s == [] then [] else [s] }

  function StringTable(opt: Options, lanes: seq<U16>): Text {
    Terminated([[], Ascii("global"), Ascii("pcore"), Ascii("prt"), Ascii("pstd"), Ascii("Manifest"),
                Ascii("StringTable"), Ascii("ExportCIndex"), Ascii("NativeDeps"), Ascii("SymbolIndex"),
                Ascii("TypeMeta"), Ascii("OIRArchive"), Ascii("ObjectArchive"), Ascii("Debug"), Ascii("SourceMap"),
                Ascii("NativeArchivePayload")]
               + NonEmpty(opt.bundle) + NonEmpty(opt.triple) + NonEmpty(opt.summary)
               + Mapped(LaneText, lanes))
  }

  function Plainly(kind: U16, lane: U16, bytes: Text): Payload { Payload(kind, lane, 0, 8, 0, bytes) }

  function LaneChunk(kind: U16, lane: U16): Payload {
    Plainly(kind, lane, Ascii("lane=") + LaneText(lane) + Ascii("\nkind=") + Ascii(KindName(kind)) + Ascii("\n"))
  }

  function LaneChunks(lanes: seq<U16>): seq<Payload> {
    if lanes == [] then [] else
    [LaneChunk(5, lanes[0]), LaneChunk(6, lanes[0]), LaneChunk(7, lanes[0]), LaneChunk(8, lanes[0])]
    + LaneChunks(lanes[1..])
  }

  function GlobalChunks(o: BuildOptions): seq<Payload> {
    [Plainly(MANIFEST, GLOBAL, ManifestText(o.opt, Lanes(o))), Plainly(STRING_TABLE, GLOBAL, StringTable(o.opt, Lanes(o))),
     Plainly(EXPORT_C_INDEX, GLOBAL, EncodedExports(o.exports)), Plainly(NATIVE_DEPS, GLOBAL, EncodedDeps(o.deps))]
  }

  function DebugChunk(o: BuildOptions): seq<Payload> {
    if o.debug then [Plainly(DEBUG_INFO, GLOBAL, Ascii("debug=enabled\n"))] else []
  }

  /** Default chunks first, then the extra ones. */
  function AllChunks(o: BuildOptions): seq<Payload> {
    GlobalChunks(o) + LaneChunks(Lanes(o)) + DebugChunk(o) + o.extras
  }

  function Put(m: map<Key, Payload>, ps: seq<Payload>): map<Key, Payload>
    decreases |ps|
  {
    if ps == [] then m else Put(m[KeyOf(ps[0]) := ps[0]], ps[1..])
  }

  function ChunkMap(o: BuildOptions): map<Key, Payload> { Put(map[], AllChunks(o)) }

  predicate Keyed(m: map<Key, Payload>) { forall k <- m :: KeyOf(m[k]) == k }

  /** The last chunk put under a key is the one that stays. */
  ghost predicate LastUnder(ps: seq<Payload>, k: Key, p: Payload) {
    exists i :: 0 <= i < |ps| && ps[i] == p && KeyOf(p) == k && forall j :: i < j < |ps| ==> KeyOf(ps[j]) != k
  }

  lemma {:induction false} LastWins(m: map<Key, Payload>, ps: seq<Payload>, k: Key)
    requires Keyed(m)
    ensures Keyed(Put(m, ps))
    ensures k in Put(m, ps) <==> k in m || exists p <- ps :: KeyOf(p) == k
    ensures k in Put(m, ps) ==>
      LastUnder(ps, k, Put(m, ps)[k]) || (k in m && Put(m, ps)[k] == m[k] && forall p <- ps :: KeyOf(p) != k)
    decreases |ps|
  {
    if ps != [] {
      LastWins(m[KeyOf(ps[0]) := ps[0]], ps[1..], k);
      assert ps == [ps[0]] + ps[1..];
      if k in Put(m, ps) && LastUnder(ps[1..], k, Put(m, ps)[k]) {
        var i :| 0 <= i < |ps[1..]| && ps[1..][i] == Put(m, ps)[k] && KeyOf(ps[1..][i]) == k
                 && forall j :: i < j < |ps[1..]| ==> KeyOf(ps[1..][j]) != k;
        assert ps[i + 1] == Put(m, ps)[k];
        forall j | i + 1 < j < |ps| ensures KeyOf(ps[j]) != k {
          assert ps[j] == ps[1..][j - 1];
        }
      } else if k == KeyOf(ps[0]) && k in Put(m, ps) {
        assert ps[0] == Put(m, ps)[k];
      }
    }
  }

  // ---- Sorting ---------------------------------------------------------------------------

  predicate Less(a: Key, b: Key) {
    if a.lane != b.lane then a.lane < b.lane else if a.target != b.target then a.target < b.target else a.kind < b.kind
  }

  predicate Sorted(ps: seq<Payload>) {
    forall i, j :: 0 <= i < j < |ps| ==> Less(KeyOf(ps[i]), KeyOf(ps[j]))
  }

  /** The chunks of a map, each once, in the order of lane, target and kind. */
  predicate SortedFrom(ps: seq<Payload>, m: map<Key, Payload>) {
    Sorted(ps) && (forall k <- m :: m[k] in ps) && forall p <- ps :: KeyOf(p) in m && m[KeyOf(p)] == p
  }

  function Inserted(ps: seq<Payload>, p: Payload): seq<Payload> {
    if ps == [] || Less(KeyOf(p), KeyOf(ps[0])) then [p] + ps else [ps[0]] + Inserted(ps[1..], p)
  }

  lemma {:induction false} InsertedSorts(ps: seq<Payload>, p: Payload)
    requires Sorted(ps) && forall q <- ps :: KeyOf(q) != KeyOf(p)
    ensures Sorted(Inserted(ps, p)) && forall q :: q in Inserted(ps, p) <==> q == p || q in ps
    decreases |ps|
  {
    if ps != [] && !Less(KeyOf(p), KeyOf(ps[0])) {
      InsertedSorts(ps[1..], p);
      assert ps == [ps[0]] + ps[1..];
      var r := Inserted(ps[1..], p);
      forall i | 0 <= i < |r| ensures Less(KeyOf(ps[0]), KeyOf(r[i])) {
        assert r[i] in r;
      }
    } else {
      forall i | 0 <= i < |ps| ensures Less(KeyOf(p), KeyOf(ps[i])) {
        if i > 0 {
          assert Less(KeyOf(ps[0]), KeyOf(ps[i]));
        }
      }
    }
  }

  lemma TailMembers(a: seq<Payload>, p: Payload)
    requires Sorted(a) && a != []
    ensures p in a[1..] <==> p in a && p != a[0]
  {
    assert a == [a[0]] + a[1..];
    forall i | 0 < i < |a| ensures a[i] != a[0] {
      assert Less(KeyOf(a[0]), KeyOf(a[i]));
    }
  }

  /** There is one way only to sort a map's chunks, whatever order they are taken from the map in. */
  lemma {:induction false} SortedOnce(a: seq<Payload>, b: seq<Payload>)
    requires Sorted(a) && Sorted(b) && forall p :: p in a <==> p in b
    ensures a == b
    decreases |a|
  {
    assert b != [] ==> b[0] in a;
    if a != [] {
      assert a[0] in b && b[0] in a;
      var i :| 0 <= i < |b| && b[i] == a[0];
      var j :| 0 <= j < |a| && a[j] == b[0];
      assert a[0] == b[0];
      forall p ensures p in a[1..] <==> p in b[1..] {
        TailMembers(a, p);
        TailMembers(b, p);
      }
      SortedOnce(a[1..], b[1..]);
    }
  }

  /** The chunks of a map in order, taken from it in some order. */
  ghost function SortedChunks(m: map<Key, Payload>): seq<Payload> {
    if m == map[] then [] else
    var k :| k in m;
    Inserted(SortedChunks(m - {k}), m[k])
  }

  lemma {:induction false} SortedChunksSort(m: map<Key, Payload>)
    requires Keyed(m)
    ensures SortedFrom(SortedChunks(m), m)
    decreases |m|
  {
    if m != map[] {
      var k :| k in m && SortedChunks(m) == Inserted(SortedChunks(m - {k}), m[k]);
      var rest := SortedChunks(m - {k});
      SortedChunksSort(m - {k});
      InsertedSorts(rest, m[k]);
      forall j | j in m ensures m[j] in SortedChunks(m) {
        assert j == k || m[j] == (m - {k})[j];
      }
    }
  }

  function SortOf(ps: seq<Payload>): seq<Payload> {
    if ps == [] then [] else Inserted(SortOf(ps[1..]), ps[0])
  }

  lemma {:induction false} SortOfSorts(ps: seq<Payload>)
    requires forall i, j :: 0 <= i < j < |ps| ==> KeyOf(ps[i]) != KeyOf(ps[j])
    ensures Sorted(SortOf(ps)) && forall p :: p in SortOf(ps) <==> p in ps
    decreases |ps|
  {
    if ps != [] {
      SortOfSorts(ps[1..]);
      InsertedSorts(SortOf(ps[1..]), ps[0]);
      assert ps == [ps[0]] + ps[1..];
    }
  }

  /** Takes the chunks from the map, in whatever order, and sorts them. */
  method ToSortedChunks(m: map<Key, Payload>) returns (out: seq<Payload>)
    requires Keyed(m)
    ensures out == SortedChunks(m)
  {
    var taken: seq<Payload> := [];
    var keys := m.Keys;
    while keys != {}
      invariant keys <= m.Keys
      invariant forall p <- taken :: KeyOf(p) in m.Keys - keys && m[KeyOf(p)] == p
      invariant forall k <- m.Keys - keys :: m[k] in taken
      invariant forall i, j :: 0 <= i < j < |taken| ==> KeyOf(taken[i]) != KeyOf(taken[j])
      decreases |keys|
    {
      var k :| k in keys;
      keys := keys - {k};
      taken := taken + [m[k]];
    }
    out := SortOf(taken);
    SortOfSorts(taken);
    SortedChunksSort(m);
    SortedOnce(out, SortedChunks(m));
  }

  // ---- Building --------------------------------------------------------------------------

  /** The appends of a series of chunks: those that are not rejected. */
  function Accepted(ps: seq<Payload>): seq<Item> {
    if ps == [] then [] else
    var last := ps[|ps| - 1];
    Accepted(ps[..|ps| - 1]) + if Acceptable(last) then [Item(last, true)] else []
  }

  lemma {:induction false} AcceptedAll(ps: seq<Payload>)
    ensures |Kept(Accepted(ps))| <= |ps|
    ensures (forall p <- ps :: Acceptable(p)) ==> Kept(Accepted(ps)) == ps
    decreases |ps|
  {
    hide Body, Records, Kept, Acceptable;
    KeptNone();
    if ps != [] {
      var before, last := ps[..|ps| - 1], ps[|ps| - 1];
      AcceptedAll(before);
      Appended(Accepted(before), Item(last, true));
      assert ps == before + [last] && Accepted(before) + [] == Accepted(before);
      assert forall p <- before :: p in ps;
    }
  }

  lemma KeptNone()
    ensures Kept([]) == []
  {
  }

  /** A longer run of appends leaves a longer file. */
  lemma {:induction false} AcceptedGrows(ps: seq<Payload>, i: nat)
    requires i <= |ps|
    ensures |Body(Accepted(ps[..i]))| <= |Body(Accepted(ps))|
    decreases |ps|
  {
    hide Body, Records, Kept, Acceptable;
    if i == |ps| {
      assert ps[..i] == ps;
    } else {
      var before, last := ps[..|ps| - 1], ps[|ps| - 1];
      AcceptedGrows(before, i);
      assert before[..i] == ps[..i] && Accepted(before) + [] == Accepted(before);
      Appended(Accepted(before), Item(last, true));
    }
  }

  datatype BuildError = NoPath | NoLanes | Failed

  ghost function BuiltItems(o: BuildOptions): seq<Item> { Accepted(SortedChunks(ChunkMap(o))) }

  /** Builds a file: `named` tells that there is an output path, `opens` that it can be opened. */
  method Build(o: BuildOptions, named: bool, opens: bool, writer: Writer) returns (ok: bool)
    requires FileSize(BuiltItems(o)) <= MAX_POS
    modifies writer, writer.file
    ensures ok <==> named && opens && Lanes(o) != [] && forall k <- ChunkMap(o) :: Acceptable(ChunkMap(o)[k])
    ensures named && opens && Lanes(o) != [] ==> writer.file.bytes == Image(o.opt, BuiltItems(o))
  {
    hide Body, Records, Kept, Acceptable, Image, AllChunks;
    var lanes := Lanes(o);
    if !named || lanes == [] {
      return false;
    }
    var chunks := FilledMap(o);
    ChunkMapKeyed(o);
    var sorted := ToSortedChunks(chunks);
    var begun := writer.Begin(o.opt, opens);
    if !begun {
      return false;
    }
    var appended := AppendAll(sorted, writer);
    assert FileSize(writer.items) <= MAX_POS;
    var built := writer.Finalize();
    SortedChunksSort(chunks);
    ok := built.ok && appended;
  }

  /** Fills the chunk map, later chunks replacing earlier ones under the same key. */
  method FilledMap(o: BuildOptions) returns (m: map<Key, Payload>)
    ensures m == ChunkMap(o)
  {
    var all := AllChunks(o);
    m := map[];
    for i := 0 to |all|
      invariant ChunkMap(o) == Put(m, all[i..])
    {
      assert all[i..][1..] == all[i + 1..];
      m := m[KeyOf(all[i]) := all[i]];
    }
  }

  lemma ChunkMapKeyed(o: BuildOptions)
    ensures Keyed(ChunkMap(o))
  {
    LastWins(map[], AllChunks(o), Key(0, 0, 0));
  }

  /** Appends chunks one after the other, going on after a rejected one. */
  method AppendAll(ps: seq<Payload>, writer: Writer) returns (ok: bool)
    requires writer.Valid() && writer.Open() && writer.items == [] && writer.errors == []
    requires |Body(Accepted(ps))| <= MAX_POS
    modifies writer.file, writer`errors, writer`records, writer`items
    ensures writer.Valid() && writer.Open() && writer.items == Accepted(ps)
    ensures ok <==> forall p <- ps :: Acceptable(p)
    ensures ok <==> writer.errors == []
  {
    hide Body, Records, Kept, Acceptable, IsPow2;
    ok := true;
    for i := 0 to |ps|
      invariant writer.Valid() && writer.Open() && writer.items == Accepted(ps[..i])
      invariant ok <==> forall p <- ps[..i] :: Acceptable(p)
      invariant ok <==> writer.errors == []
    {
      AcceptedGrows(ps, i + 1);
      AcceptedStep(ps, i);
      var appended := writer.AppendChunk(ps[i]);
      if !appended {
        ok := false;
      }
    }
    assert ps[..|ps|] == ps;
  }

  lemma AcceptedStep(ps: seq<Payload>, i: nat)
    requires i < |ps|
    ensures ps[..i + 1] == ps[..i] + [ps[i]]
    ensures Accepted(ps[..i + 1]) == Accepted(ps[..i]) + if Acceptable(ps[i]) then [Item(ps[i], true)] else []
    ensures Acceptable(ps[i]) ==> Body(Accepted(ps[..i + 1])) == WithChunk(Body(Accepted(ps[..i])), ps[i])
  {
    assert ps[..i + 1][..i] == ps[..i];
    Appended(Accepted(ps[..i]), Item(ps[i], true));
  }

  // ---- Inspecting ------------------------------------------------------------------------

  datatype Inspection = Inspection(ok: bool, header: Header, records: seq<Record>, exports: seq<Export>, deps: seq<Dep>)

  /** A chunk is there in full and has the hash and the checksum of its record. */
  predicate Intact(file: seq<Byte>, r: Record) {
    var payload := Slice(file, r, 0, r.size);
    |payload| == r.size && Fnv(SEED_CONTENT, payload) == r.hash
    && XorU64(Fnv(SEED_CHECKSUM, payload), |payload|) == r.checksum
  }

  /** The bytes of the chunk of a kind that is in the global lane, if there is one. */
  function GlobalBytes(reader: Reader, kind: U16): Option<Text> {
    var found := Lookup(reader.records, kind, GLOBAL, 0);
    if found.None? then None else Some(Slice(reader.file, found.value, 0, found.value.size))
  }

  function ReadExports(reader: Reader): seq<Export> {
    if GlobalBytes(reader, EXPORT_C_INDEX).None? then [] else ParsedExports(GlobalBytes(reader, EXPORT_C_INDEX).value)
  }

  function ReadDeps(reader: Reader): seq<Dep> {
    if GlobalBytes(reader, NATIVE_DEPS).None? then [] else ParsedDeps(GlobalBytes(reader, NATIVE_DEPS).value)
  }

  method ReadExportCIndex(reader: Reader) returns (r: seq<Export>)
    ensures r == ReadExports(reader)
  {
    var found := FindChunk(reader, EXPORT_C_INDEX, GLOBAL, 0);
    if found.None? {
      return [];
    }
    r := ParseExportCIndex(Slice(reader.file, found.value, 0, found.value.size));
  }

  method ReadNativeDeps(reader: Reader) returns (r: seq<Dep>)
    ensures r == ReadDeps(reader)
  {
    var found := FindChunk(reader, NATIVE_DEPS, GLOBAL, 0);
    if found.None? {
      return [];
    }
    r := ParseNativeDeps(Slice(reader.file, found.value, 0, found.value.size));
  }

  method CheckChunk(file: seq<Byte>, c: Record) returns (intact: bool)
    ensures intact == Intact(file, c)
  {
    var payload := Slice(file, c, 0, c.size);
    if |payload| != c.size {
      return false;
    }
    var hash := FnvUpdate(SEED_CONTENT, payload);
    var checksum := FnvUpdate(SEED_CHECKSUM, payload);
    intact := hash == c.hash && XorU64(checksum, |payload|) == c.checksum;
  }

  /** Opens a file and hashes every chunk again. */
  method Inspect(file: seq<Byte>) returns (r: Option<Inspection>)
    requires |file| <= MAX_POS
    ensures r.Some? <==> Opened(file).Ok?
    ensures r.Some? ==> var reader := Opened(file).value;
      && r.value.header == reader.header && r.value.records == reader.records
      && r.value.exports == ReadExports(reader) && r.value.deps == ReadDeps(reader)
      && (r.value.ok <==> forall c <- reader.records :: Intact(file, c))
  {
    hide Opened, ReadExports, ReadDeps, Intact;
    var result := ParlibReader.Open(file);
    if result.Err? {
      return None;
    }
    var reader := result.value;
    OpenedFile(file);
    var exports := ReadExportCIndex(reader);
    var deps := ReadNativeDeps(reader);
    var ok := true;
    for i := 0 to |reader.records|
      invariant ok <==> forall c <- reader.records[..i] :: Intact(file, c)
    {
      var c := reader.records[i];
      assert reader.records[..i + 1] == reader.records[..i] + [c];
      var intact := CheckChunk(reader.file, c);
      if !intact {
        ok := false;
      }
    }
    assert reader.records[..|reader.records|] == reader.records;
    r := Some(Inspection(ok, reader.header, reader.records, exports, deps));
  }

  lemma OpenedFile(file: seq<Byte>)
    requires |file| <= MAX_POS && Opened(file).Ok?
    ensures Opened(file).value.file == file
  {
    hide ParseHeader, ParseFooter, Entries, HeaderError, TocError;
  }

  // ---- Build, then inspect ---------------------------------------------------------------

  /** A build that goes well: every chunk is acceptable and the file fits its positions. */
  ghost predicate GoodBuild(o: BuildOptions) {
    (forall k <- ChunkMap(o) :: Acceptable(ChunkMap(o)[k])) && FileSize(BuiltItems(o)) <= MAX_POS
  }

  ghost function BuiltFile(o: BuildOptions): seq<Byte>
    requires GoodBuild(o)
  {
    Image(o.opt, BuiltItems(o))
  }

  lemma {:induction false} SortedChunksCount(m: map<Key, Payload>)
    ensures |SortedChunks(m)| == |m|
    decreases |m|
  {
    if m != map[] {
      var k :| k in m && SortedChunks(m) == Inserted(SortedChunks(m - {k}), m[k]);
      SortedChunksCount(m - {k});
      InsertedCount(SortedChunks(m - {k}), m[k]);
      assert (m - {k}).Keys == m.Keys - {k};
    }
  }

  lemma {:induction false} InsertedCount(ps: seq<Payload>, p: Payload)
    ensures |Inserted(ps, p)| == |ps| + 1
    decreases |ps|
  {
    if ps != [] && !Less(KeyOf(p), KeyOf(ps[0])) {
      InsertedCount(ps[1..], p);
    }
  }

  lemma BuiltChunks(o: BuildOptions)
    requires GoodBuild(o)
    ensures Kept(BuiltItems(o)) == SortedChunks(ChunkMap(o)) && |Kept(BuiltItems(o))| == |ChunkMap(o)|
    ensures SortedFrom(SortedChunks(ChunkMap(o)), ChunkMap(o)) && Keyed(ChunkMap(o))
  {
    hide ChunkMap, Kept;
    ChunkMapKeyed(o);
    SortedChunksSort(ChunkMap(o));
    SortedChunksCount(ChunkMap(o));
    AcceptedAll(SortedChunks(ChunkMap(o)));
  }

  lemma HeldIsIntact(file: seq<Byte>, r: Record, p: Payload)
    requires Holds(file, r, p) && |file| <= MAX_POS
    ensures Intact(file, r) && Slice(file, r, 0, r.size) == p.bytes
  {
    hide Fnv, XorU64, Slice;
    SliceInside(file, r, 0, r.size);
    assert file[r.offset..End(r)][0..][..r.size] == p.bytes;
  }

  function RecordKey(r: Record): Key { Key(r.lane, r.target, r.kind) }

  /** The i-th record of a built file describes the i-th chunk in order. */
  ghost predicate Describes(o: BuildOptions, i: nat)
    requires GoodBuild(o) && i < |ChunkMap(o)| == |SortedChunks(ChunkMap(o))| == |Kept(BuiltItems(o))|
  {
    var r, p := Records(BuiltItems(o))[i], SortedChunks(ChunkMap(o))[i];
    RecordKey(r) == KeyOf(p) && Intact(BuiltFile(o), r) && Slice(BuiltFile(o), r, 0, r.size) == p.bytes
  }

  lemma RecordDescribes(o: BuildOptions, i: nat)
    requires GoodBuild(o) && i < |ChunkMap(o)|
    ensures |SortedChunks(ChunkMap(o))| == |Kept(BuiltItems(o))| == |ChunkMap(o)| && Describes(o, i)
  {
    hide ChunkMap, Records, Kept, SortedChunks, Intact, Slice, Image;
    BuiltChunks(o);
    ChunkInImage(o.opt, BuiltItems(o), i);
    HeldIsIntact(BuiltFile(o), Records(BuiltItems(o))[i], SortedChunks(ChunkMap(o))[i]);
  }

  /** What inspecting a built file needs of its records. */
  ghost predicate GoodRecords(o: BuildOptions, file: seq<Byte>, records: seq<Record>) {
    && (forall i, j :: 0 <= i < j < |records| ==> Less(RecordKey(records[i]), RecordKey(records[j])))
    && (forall c <- records :: Intact(file, c))
    && (forall c <- records :: RecordKey(c) in ChunkMap(o) && Slice(file, c, 0, c.size) == ChunkMap(o)[RecordKey(c)].bytes)
    && (forall k <- ChunkMap(o) :: exists c <- records :: RecordKey(c) == k)
  }

  lemma BuiltRecords(o: BuildOptions)
    requires GoodBuild(o)
    ensures GoodRecords(o, BuiltFile(o), Records(BuiltItems(o)))
  {
    hide ChunkMap, Records, Kept, SortedChunks, Intact, Slice, Image;
    BuiltChunks(o);
    var m, ps, rs := ChunkMap(o), SortedChunks(ChunkMap(o)), Records(BuiltItems(o));
    forall i | 0 <= i < |rs| ensures Describes(o, i) && KeyOf(ps[i]) in m && m[KeyOf(ps[i])] == ps[i] {
      RecordDescribes(o, i);
      assert ps[i] in ps;
    }
    forall k | k in m ensures exists c <- rs :: RecordKey(c) == k {
      var i :| 0 <= i < |ps| && ps[i] == m[k];
      assert Describes(o, i) && rs[i] in rs;
    }
    forall c | c in rs
      ensures Intact(BuiltFile(o), c) && RecordKey(c) in m && Slice(BuiltFile(o), c, 0, c.size) == m[RecordKey(c)].bytes
    {
      var i :| 0 <= i < |rs| && rs[i] == c;
      assert Describes(o, i);
    }
    forall i, j | 0 <= i < j < |rs| ensures Less(RecordKey(rs[i]), RecordKey(rs[j])) {
      assert Describes(o, i) && Describes(o, j);
    }
  }

  /** A built file inspects as valid unless it has too many chunks to count: its TOC is strictly sorted, and
      a lookup finds exactly the chunks that were chosen, with their bytes. */
  lemma BuiltThenInspected(o: BuildOptions)
    requires GoodBuild(o)
    ensures Opened(BuiltFile(o)).Ok? <==> |ChunkMap(o)| < WORD32
    ensures Opened(BuiltFile(o)).Ok? ==>
      var reader := Opened(BuiltFile(o)).value;
      reader.file == BuiltFile(o) && GoodRecords(o, BuiltFile(o), reader.records)
  {
    hide ChunkMap, Records, Kept, SortedChunks, GoodRecords, Opened, Image;
    BuiltChunks(o);
    BuiltRecords(o);
    WrittenThenRead(o.opt, BuiltItems(o));
  }

  /** What a lookup gives in a built file. */
  lemma BuiltLookup(o: BuildOptions, file: seq<Byte>, records: seq<Record>, kind: U16, lane: U16, target: U32)
    requires GoodRecords(o, file, records)
    ensures var found, k := Lookup(records, kind, lane, target), Key(lane, target, kind);
      && (found.Some? <==> k in ChunkMap(o))
      && (found.Some? ==> Slice(file, found.value, 0, found.value.size) == ChunkMap(o)[k].bytes)
  {
    hide Intact, Slice, ChunkMap;
    LookupExact(records, kind, lane, target);
    var k := Key(lane, target, kind);
    forall i, j | 0 <= i < j < |records|
      ensures !Matches(records[j], records[i].kind, records[i].lane, records[i].target)
    {
      assert Less(RecordKey(records[i]), RecordKey(records[j]));
    }
    assert Distinct(records);
    if k in ChunkMap(o) {
      var c :| c in records && RecordKey(c) == k;
      assert Matches(c, kind, lane, target);
    }
  }

  /** A list given to a build comes back from it, sanitized and without its unnamed entries, unless an
      extra chunk takes the place of the list's own. */
  lemma ListsComeBack(o: BuildOptions)
    requires GoodBuild(o) && |ChunkMap(o)| < WORD32
    ensures Opened(BuiltFile(o)).Ok?
    ensures (forall p <- o.extras :: KeyOf(p) != Key(GLOBAL, 0, EXPORT_C_INDEX)) ==>
      ReadExports(Opened(BuiltFile(o)).value) == Present(Mapped(ExportBack, o.exports))
    ensures (forall p <- o.extras :: KeyOf(p) != Key(GLOBAL, 0, NATIVE_DEPS)) ==>
      ReadDeps(Opened(BuiltFile(o)).value) == Present(Mapped(DepBack, o.deps))
  {
    hide Opened, ChunkMap, GoodRecords, ParsedExports, ParsedDeps, Present, Mapped, Image;
    BuiltThenInspected(o);
    var reader := Opened(BuiltFile(o)).value;
    BuiltLookup(o, BuiltFile(o), reader.records, EXPORT_C_INDEX, GLOBAL, 0);
    BuiltLookup(o, BuiltFile(o), reader.records, NATIVE_DEPS, GLOBAL, 0);
    ListChunks(o);
    ExportsRoundTrip(o.exports);
    DepsRoundTrip(o.deps);
  }

  lemma ListChunks(o: BuildOptions)
    ensures Key(GLOBAL, 0, EXPORT_C_INDEX) in ChunkMap(o) && Key(GLOBAL, 0, NATIVE_DEPS) in ChunkMap(o)
    ensures (forall p <- o.extras :: KeyOf(p) != Key(GLOBAL, 0, EXPORT_C_INDEX)) ==>
      ChunkMap(o)[Key(GLOBAL, 0, EXPORT_C_INDEX)].bytes == EncodedExports(o.exports)
    ensures (forall p <- o.extras :: KeyOf(p) != Key(GLOBAL, 0, NATIVE_DEPS)) ==>
      ChunkMap(o)[Key(GLOBAL, 0, NATIVE_DEPS)].bytes == EncodedDeps(o.deps)
  {
    hide EncodedExports, EncodedDeps, ManifestText, StringTable, LaneChunks;
    ListChunk(o, 2);
    ListChunk(o, 3);
  }

  /** Of the default chunks under a global key, the i-th global one is the only one. */
  lemma ListChunk(o: BuildOptions, i: nat)
    requires 2 <= i < 4
    ensures var p := GlobalChunks(o)[i];
      && KeyOf(p) in ChunkMap(o)
      && ((forall q <- o.extras :: KeyOf(q) != KeyOf(p)) ==> ChunkMap(o)[KeyOf(p)] == p)
  {
    hide EncodedExports, EncodedDeps, ManifestText, StringTable, LaneChunks;
    var all, p := AllChunks(o), GlobalChunks(o)[i];
    assert all[i] == p;
    LastWins(map[], all, KeyOf(p));
    if forall q <- o.extras :: KeyOf(q) != KeyOf(p) {
      forall q | q in all && KeyOf(q) == KeyOf(p) ensures q == p {
        if q in LaneChunks(Lanes(o)) {
          LaneKeys(Lanes(o), q);
        }
      }
    }
  }

  lemma {:induction false} LaneKeys(lanes: seq<U16>, q: Payload)
    requires q in LaneChunks(lanes)
    ensures 5 <= q.kind <= 8
  {
    if q in LaneChunks(lanes[1..]) {
      LaneKeys(lanes[1..], q);
    }
  }
}
