/** What a built parlib file contains: which chunks a lookup finds, in which order they are listed, and
    the texts of those that come by default. */
module ParlibContents {
  import opened Wrappers
  import opened Bits
  import opened ParlibFormat
  import opened ParlibFile
  import opened ParlibReader
  import opened ParlibRoundTrip
  import opened ParlibText
  import opened ParlibBuild

  /** Chunks that come by default: manifest, string table, exports and dependencies; debug information if
      asked for; and in each lane asked for the symbol index, type metadata and the two archives. */
  predicate ByDefault(o: BuildOptions, lane: U16, target: U32, kind: U16) {
    && target == 0
    && match lane
       case 0 => 1 <= kind <= 4 || (kind == 9 && o.debug)
       case 1 => o.pcore && 5 <= kind <= 8
       case 2 => o.prt && 5 <= kind <= 8
       case 3 => o.pstd && 5 <= kind <= 8
       case _ => false
  }

  predicate Extra(o: BuildOptions, lane: U16, target: U32, kind: U16) {
    exists p <- o.extras :: p.lane == lane && p.target == target && p.kind == kind
  }

  lemma {:induction false} InLaneChunks(lanes: seq<U16>, p: Payload)
    ensures p in LaneChunks(lanes) <==> p.lane in lanes && 5 <= p.kind <= 8 && p == LaneChunk(p.kind, p.lane)
    decreases |lanes|
  {
    hide Ascii, LaneName, KindName;
    if lanes != [] {
      InLaneChunks(lanes[1..], p);
      assert lanes == [lanes[0]] + lanes[1..];
    }
  }

  /** The chunks chosen: the default ones and the extra ones. */
  lemma ChosenChunks(o: BuildOptions, lane: U16, target: U32, kind: U16)
    ensures Key(lane, target, kind) in ChunkMap(o) <==> ByDefault(o, lane, target, kind) || Extra(o, lane, target, kind)
  {
    hide ByDefault, DefaultChunk, AllChunks;
    var k := Key(lane, target, kind);
    LastWins(map[], AllChunks(o), k);
    if ByDefault(o, lane, target, kind) {
      DefaultIn(o, lane, target, kind);
    }
    if Extra(o, lane, target, kind) {
      var p :| p in o.extras && p.lane == lane && p.target == target && p.kind == kind;
      ExtraIn(o, p);
    }
    if k in ChunkMap(o) {
      var p :| p in AllChunks(o) && KeyOf(p) == k;
      if p !in o.extras {
        OnlyThese(o, p);
      }
    }
  }

  lemma ExtraIn(o: BuildOptions, p: Payload)
    requires p in o.extras
    ensures p in AllChunks(o)
  {
  }

  lemma OnlyThese(o: BuildOptions, p: Payload)
    requires p in AllChunks(o) && p !in o.extras
    ensures ByDefault(o, p.lane, p.target, p.kind)
  {
    hide ManifestText, StringTable, EncodedExports, EncodedDeps, Ascii, LaneName, KindName;
    InLaneChunks(Lanes(o), p);
  }

  /** The default chunk of a key. */
  function DefaultChunk(o: BuildOptions, lane: U16, kind: U16): Payload {
    if 5 <= kind <= 8 then LaneChunk(kind, lane)
    else if kind == 1 then Plainly(1, 0, ManifestText(o.opt, Lanes(o)))
    else if kind == 2 then Plainly(2, 0, StringTable(o.opt, Lanes(o)))
    else if kind == 3 then Plainly(3, 0, EncodedExports(o.exports))
    else if kind == 4 then Plainly(4, 0, EncodedDeps(o.deps))
    else Plainly(9, 0, Ascii("debug=enabled\n"))
  }

  lemma DefaultIn(o: BuildOptions, lane: U16, target: U32, kind: U16)
    requires ByDefault(o, lane, target, kind)
    ensures var p := DefaultChunk(o, lane, kind);
            && p in GlobalChunks(o) + LaneChunks(Lanes(o)) + DebugChunk(o) && p in AllChunks(o)
            && p.lane == lane && p.target == target && p.kind == kind
  {
    hide ManifestText, StringTable, EncodedExports, EncodedDeps, Ascii, LaneName, KindName;
    InLaneChunks(Lanes(o), DefaultChunk(o, lane, kind));
    if kind < 5 {
      assert GlobalChunks(o)[kind - 1] == DefaultChunk(o, lane, kind);
    }
  }

  /** Of the default chunks only one has a key. */
  lemma DefaultOnce(o: BuildOptions, q: Payload)
    requires q in GlobalChunks(o) + LaneChunks(Lanes(o)) + DebugChunk(o)
    ensures q == DefaultChunk(o, q.lane, q.kind)
  {
    hide ManifestText, StringTable, EncodedExports, EncodedDeps, Ascii, LaneName, KindName;
    InLaneChunks(Lanes(o), q);
  }

  /** A default chunk stays as it is unless an extra one has its key. */
  lemma DefaultStays(o: BuildOptions, lane: U16, target: U32, kind: U16)
    requires ByDefault(o, lane, target, kind) && !Extra(o, lane, target, kind)
    ensures var k := Key(lane, target, kind); k in ChunkMap(o) && ChunkMap(o)[k] == DefaultChunk(o, lane, kind)
  {
    hide ManifestText, StringTable, EncodedExports, EncodedDeps, Ascii, LaneName, KindName, DefaultChunk, LaneChunks;
    var k := Key(lane, target, kind);
    var all := AllChunks(o);
    ChosenChunks(o, lane, target, kind);
    LastWins(map[], all, k);
    var q := ChunkMap(o)[k];
    assert q in all && KeyOf(q) == k;
    assert q !in o.extras;
    DefaultOnce(o, q);
  }

  /** An extra chunk is what is found under its key, if no later one has it. */
  lemma LastExtra(o: BuildOptions, i: nat)
    requires i < |o.extras| && forall j :: i < j < |o.extras| ==> KeyOf(o.extras[j]) != KeyOf(o.extras[i])
    ensures KeyOf(o.extras[i]) in ChunkMap(o) && ChunkMap(o)[KeyOf(o.extras[i])] == o.extras[i]
  {
    hide AllChunks, Put;
    var p := o.extras[i];
    var all := AllChunks(o);
    var n := |all| - |o.extras|;
    ExtrasLast(o);
    ExtraIn(o, p);
    LastWins(map[], all, KeyOf(p));
    assert all[n + i] == p;
  }

  lemma ExtrasLast(o: BuildOptions)
    ensures var all, n := AllChunks(o), |AllChunks(o)| - |o.extras|;
            n >= 0 && forall j :: n <= j < |all| ==> all[j] == o.extras[j - n]
  {
  }

  // ---- Lookups in the built file ----------------------------------------------------------

  /** What a lookup in a built and opened file finds, and what it reads there. */
  lemma LookupFinds(o: BuildOptions, lane: U16, target: U32, kind: U16)
    requires GoodBuild(o) && |ChunkMap(o)| < WORD32
    ensures Opened(BuiltFile(o)).Ok?
    ensures var found := Lookup(Opened(BuiltFile(o)).value.records, kind, lane, target);
            && (found.Some? <==> ByDefault(o, lane, target, kind) || Extra(o, lane, target, kind))
            && (ByDefault(o, lane, target, kind) && !Extra(o, lane, target, kind) ==>
                  Slice(BuiltFile(o), found.value, 0, found.value.size) == DefaultChunk(o, lane, kind).bytes)
  {
    hide Opened, ChunkMap, GoodRecords, Image, ByDefault, Extra, DefaultChunk, Lookup, Slice;
    BuiltThenInspected(o);
    BuiltLookup(o, BuiltFile(o), Opened(BuiltFile(o)).value.records, kind, lane, target);
    ChosenChunks(o, lane, target, kind);
    if ByDefault(o, lane, target, kind) && !Extra(o, lane, target, kind) {
      DefaultStays(o, lane, target, kind);
    }
  }

  /** The records of a built file are listed by lane, then target, then kind. */
  lemma ListedInOrder(o: BuildOptions, i: nat, j: nat)
    requires GoodBuild(o) && |ChunkMap(o)| < WORD32 && Opened(BuiltFile(o)).Ok?
    requires i < j < |Opened(BuiltFile(o)).value.records|
    ensures var r, s := Opened(BuiltFile(o)).value.records[i], Opened(BuiltFile(o)).value.records[j];
            r.lane < s.lane || (r.lane == s.lane && (r.target < s.target || (r.target == s.target && r.kind < s.kind)))
  {
    hide Opened, ChunkMap, Image;
    BuiltThenInspected(o);
  }

  const POWERS: seq<nat> := [
    1, 2, 4, 8, 16, 32, 64, 128, 256, 512, 1024, 2048, 4096, 8192, 16384, 32768, 65536, 131072, 262144, 524288,
    1048576, 2097152, 4194304, 8388608, 16777216, 33554432, 67108864, 134217728, 268435456, 536870912, 1073741824,
    2147483648]

  lemma {:induction false} PowersAt(k: nat)
    requires k < 32
    ensures POWERS[k] == Pow2(k)
  {
    if k > 0 {
      PowersAt(k - 1);
      assert POWERS[k] == 2 * POWERS[k - 1];
    }
  }

  /** The chunks a writer takes: uncompressed, and aligned to one of the 32 powers of two. */
  lemma AcceptableWhen(p: Payload)
    ensures Acceptable(p) <==> p.compression == 0 && p.align in POWERS
  {
    hide Pow2;
    if IsPow2(p.align) {
      var k: nat :| k <= p.align && p.align == Pow2(k);
      SmallPower(k);
      PowersAt(k);
    }
    if p.align in POWERS {
      var k :| 0 <= k < |POWERS| && POWERS[k] == p.align;
      PowersAt(k);
      Pow2Above(k);
    }
  }

  // ---- Default texts ----------------------------------------------------------------------

  /** The chunk a lane has of a kind by default. */
  lemma LaneChunkText(lane: U16, kind: U16)
    requires 1 <= lane <= 3 && 5 <= kind <= 8
    ensures LaneChunk(kind, lane) == Payload(kind, lane, 0, 8, 0,
              Ascii("lane=") + Ascii(["pcore", "prt", "pstd"][lane - 1])
              + Ascii("\nkind=") + Ascii(["SymbolIndex", "TypeMeta", "OIRArchive", "ObjectArchive"][kind - 5]) + Ascii("\n"))
  {
    hide Ascii;
  }

  /** The lanes asked for, in the order of the manifest's last line. */
  lemma LanesListed(o: BuildOptions)
    ensures var s := LaneList(Lanes(o));
            && (!o.pcore && !o.prt && !o.pstd ==> Lanes(o) == [] && s == [])
            && (o.pcore && !o.prt && !o.pstd ==> s == Ascii("pcore"))
            && (!o.pcore && o.prt && !o.pstd ==> s == Ascii("prt"))
            && (!o.pcore && !o.prt && o.pstd ==> s == Ascii("pstd"))
            && (o.pcore && o.prt && !o.pstd ==> s == Ascii("pcore") + Ascii(",") + Ascii("prt"))
            && (o.pcore && !o.prt && o.pstd ==> s == Ascii("pcore") + Ascii(",") + Ascii("pstd"))
            && (!o.pcore && o.prt && o.pstd ==> s == Ascii("prt") + Ascii(",") + Ascii("pstd"))
            && (o.pcore && o.prt && o.pstd ==>
                  s == Ascii("pcore") + Ascii(",") + (Ascii("prt") + Ascii(",") + Ascii("pstd")))
  {
    hide Ascii;
    ListedFrom(1);
    ListedFrom(2);
    ListedFrom(3);
    ListedTwo(1, 2);
    ListedTwo(1, 3);
    ListedTwo(2, 3);
    assert [1, 2, 3][1..] == [2, 3];
    assert LaneList([1, 2, 3]) == Ascii("pcore") + Ascii(",") + LaneList([2, 3]);
  }

  lemma ListedFrom(lane: U16)
    ensures LaneList([lane]) == Ascii(LaneName(lane))
  {
    hide Ascii;
    assert [lane][1..] == [];
    assert Ascii(LaneName(lane)) + [] + [] == Ascii(LaneName(lane));
  }

  lemma ListedTwo(a: U16, b: U16)
    ensures LaneList([a, b]) == Ascii(LaneName(a)) + Ascii(",") + Ascii(LaneName(b))
  {
    ListedFrom(b);
    hide Ascii, LaneName;
    assert [a, b][1..] == [b];
  }

  /** The names in the string table, in order. */
  function TableNames(o: BuildOptions): seq<Text> {
    [[], Ascii("global"), Ascii("pcore"), Ascii("prt"), Ascii("pstd"), Ascii("Manifest"), Ascii("StringTable"),
     Ascii("ExportCIndex"), Ascii("NativeDeps"), Ascii("SymbolIndex"), Ascii("TypeMeta"), Ascii("OIRArchive"),
     Ascii("ObjectArchive"), Ascii("Debug"), Ascii("SourceMap"), Ascii("NativeArchivePayload")]
    + (if |o.opt.bundle| > 0 then [o.opt.bundle] else []) + (if |o.opt.triple| > 0 then [o.opt.triple] else [])
    + (if |o.opt.summary| > 0 then [o.opt.summary] else [])
    + ((if o.pcore then [Ascii("pcore")] else []) + (if o.prt then [Ascii("prt")] else [])
       + (if o.pstd then [Ascii("pstd")] else []))
  }

  /** The manifest, line by line. */
  lemma ManifestLines(o: BuildOptions)
    requires 10 !in o.opt.bundle && 10 !in o.opt.triple && 10 !in o.opt.summary
    ensures Lines(ManifestText(o.opt, Lanes(o)))
         == [Ascii("format=1.1"), Ascii("magic=PRLB"), Ascii("bundle_id=") + o.opt.bundle,
             Ascii("target_triple=") + o.opt.triple, Ascii("target_summary=") + o.opt.summary,
             Ascii("feature_bits=") + Digits(o.opt.features), Ascii("compiler_hash=") + Digits(o.opt.compiler),
             Ascii("lanes=") + LaneList(Lanes(o))]
  {
    var rows := [Ascii("format=1.1"), Ascii("magic=PRLB"), Ascii("bundle_id=") + o.opt.bundle,
                 Ascii("target_triple=") + o.opt.triple, Ascii("target_summary=") + o.opt.summary,
                 Ascii("feature_bits=") + Digits(o.opt.features), Ascii("compiler_hash=") + Digits(o.opt.compiler),
                 Ascii("lanes=") + LaneList(Lanes(o))];
    NoNewlines();
    DigitsStep(o.opt.features);
    DigitsStep(o.opt.compiler);
    LanesOneLine(o);
    hide Digits, Ascii, LaneList, Lines, Joined;
    assert forall i :: 0 <= i < 8 ==> 10 !in rows[i];
    LinesOfJoined(rows);
  }

  /** Printable texts have neither zeros nor line ends. */
  lemma Printable(s: string)
    requires Plain(s)
    ensures 0 !in Ascii(s) && 10 !in Ascii(s)
  {
    forall i | 0 <= i < |s|
      ensures Ascii(s)[i] != 0 && Ascii(s)[i] != 10
    {
      assert s[i] in s;
    }
  }

  lemma NoNewlines()
    ensures 10 !in Ascii("format=1.1") && 10 !in Ascii("magic=PRLB") && 10 !in Ascii("bundle_id=")
    ensures 10 !in Ascii("target_triple=") && 10 !in Ascii("target_summary=") && 10 !in Ascii("feature_bits=")
    ensures 10 !in Ascii("compiler_hash=") && 10 !in Ascii("lanes=") && 10 !in Ascii(",")
    ensures 10 !in Ascii("pcore") && 10 !in Ascii("prt") && 10 !in Ascii("pstd")
  {
    hide Ascii;
    Printable("format=1.1");
    Printable("magic=PRLB");
    Printable("bundle_id=");
    Printable("target_triple=");
    Printable("target_summary=");
    Printable("feature_bits=");
    Printable("compiler_hash=");
    Printable("lanes=");
    Printable(",");
    Printable("pcore");
    Printable("prt");
    Printable("pstd");
  }

  lemma LanesOneLine(o: BuildOptions)
    ensures 10 !in LaneList(Lanes(o))
  {
    NoNewlines();
    LanesListed(o);
    hide Ascii, LaneList;
  }

  /** The string table, cut at its zeros, is the list of names, and nothing after the last zero. */
  lemma TableSplit(o: BuildOptions)
    requires 0 !in o.opt.bundle && 0 !in o.opt.triple && 0 !in o.opt.summary
    ensures Split(StringTable(o.opt, Lanes(o)), 0) == TableNames(o) + [[]]
  {
    hide Ascii;
    var names := TableNames(o);
    NamesOf(o);
    TerminatedJoins(names);
    NamesFree(o);
    SplitOfJoin(names + [[]], 0);
  }

  lemma NamesOf(o: BuildOptions)
    ensures StringTable(o.opt, Lanes(o)) == Terminated(TableNames(o))
  {
    hide Ascii, Terminated;
    assert Mapped(LaneText, Lanes(o)) == (if o.pcore then [Ascii("pcore")] else []) + (if o.prt then [Ascii("prt")] else [])
                                         + (if o.pstd then [Ascii("pstd")] else []);
  }

  lemma {:induction false} TerminatedJoins(names: seq<Text>)
    ensures Terminated(names) == Join(names + [[]], 0)
    decreases |names|
  {
    if names != [] {
      TerminatedJoins(names[1..]);
      assert (names + [[]])[1..] == names[1..] + [[]];
    }
  }

  lemma NoZeros()
    ensures 0 !in Ascii("global") && 0 !in Ascii("pcore") && 0 !in Ascii("prt") && 0 !in Ascii("pstd")
    ensures 0 !in Ascii("Manifest") && 0 !in Ascii("StringTable") && 0 !in Ascii("ExportCIndex")
  {
    hide Ascii;
    Printable("global");
    Printable("pcore");
    Printable("prt");
    Printable("pstd");
    Printable("Manifest");
    Printable("StringTable");
    Printable("ExportCIndex");
  }

  lemma NoZerosEither()
    ensures 0 !in Ascii("NativeDeps") && 0 !in Ascii("SymbolIndex") && 0 !in Ascii("TypeMeta") && 0 !in Ascii("OIRArchive")
    ensures 0 !in Ascii("ObjectArchive") && 0 !in Ascii("Debug") && 0 !in Ascii("SourceMap") && 0 !in Ascii("NativeArchivePayload")
  {
    hide Ascii;
    Printable("NativeDeps");
    Printable("SymbolIndex");
    Printable("TypeMeta");
    Printable("OIRArchive");
    Printable("ObjectArchive");
    Printable("Debug");
    Printable("SourceMap");
    Printable("NativeArchivePayload");
  }

  lemma NamesFree(o: BuildOptions)
    requires 0 !in o.opt.bundle && 0 !in o.opt.triple && 0 !in o.opt.summary
    ensures Free(TableNames(o) + [[]], 0)
  {
    NoZeros();
    NoZerosEither();
    hide Ascii;
  }
}
