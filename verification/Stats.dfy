/** Cached snapshot statistics in PostgreSQL (internal/store/postgres.go): the full
    aggregate, and its maintenance by the difference from a complete base. */
module Stats {
  import opened Sums
  import opened Pseudo
  import opened State

  /** A stored blob: its path and the byte length of its content. */
  datatype BlobRow = BlobRow(path: string, size: int)

  datatype ChunkRow = ChunkRow(blobName: string, contentHash: string)

  datatype Aggregate = Aggregate(files: int, bytes: int, chunks: int, embedded: int)

  /** A snapshot_stats row. */
  datatype StatRow = StatRow(agg: Aggregate, complete: bool, base: string)

  /** The tables the statistics read and write. Snapshots are sets of names, as the
      primary key of snapshot_blobs makes them. */
  datatype Db = Db(
    blobs: map<string, BlobRow>,
    chunks: map<string, ChunkRow>,           // by chunk id
    chunkVectors: set<(string, string)>,     // (chunk id, model)
    hashVectors: set<(string, string)>,      // (content hash, model)
    snapshots: map<string, set<string>>,
    projects: map<RowKey, string>,           // project row -> snapshot id
    stats: map<(string, string), StatRow>)   // (snapshot id, model)

  // ---------------------------------------------------------------- aggregates

  /** split_part(path, '#', 1). */
  function SplitPart(path: string): string {
    if path == "" || path[0] == '#' then "" else [path[0]] + SplitPart(path[1..])
  }

  function NamesIn(db: Db, id: string): set<string> {
    if id in db.snapshots then db.snapshots[id] else {}
  }

  /** The names that join with the blobs table. */
  function Stored(db: Db, names: set<string>): set<string> {
    set n | n in names && n in db.blobs
  }

  /** The distinct logical paths of the stored names. */
  function LogicalPaths(db: Db, names: set<string>): set<string> {
    set n | n in names && n in db.blobs :: SplitPart(db.blobs[n].path)
  }

  function SizeOf(db: Db): string -> int {
    n => if n in db.blobs then db.blobs[n].size else 0
  }

  ghost function Bytes(db: Db, names: set<string>): int {
    Sum(Stored(db, names), SizeOf(db))
  }

  function ChunksIn(db: Db, names: set<string>): set<string> {
    set c | c in db.chunks && db.chunks[c].blobName in names
  }

  /** A chunk has a vector under its id, or under its content hash. */
  predicate HasVector(db: Db, model: string, c: string)
    requires c in db.chunks
  {
    (c, model) in db.chunkVectors ||
    (db.chunks[c].contentHash != "" && (db.chunks[c].contentHash, model) in db.hashVectors)
  }

  function EmbeddedIn(db: Db, model: string, names: set<string>): set<string> {
    set c | c in db.chunks && db.chunks[c].blobName in names && HasVector(db, model, c)
  }

  /** The full aggregate over a set of names. */
  ghost function Full(db: Db, model: string, names: set<string>): Aggregate {
    Aggregate(|LogicalPaths(db, names)|, Bytes(db, names), |ChunksIn(db, names)|, |EmbeddedIn(db, model, names)|)
  }

  /** The base's numbers moved by the added and removed names, given that every
      removed chunk was embedded. */
  ghost function Delta(db: Db, model: string, base: Aggregate, baseNames: set<string>, names: set<string>): Aggregate {
    var added, removed := names - baseNames, baseNames - names;
    var ab, rb := LogicalPaths(db, added), LogicalPaths(db, removed);
    var rmChunks := |ChunksIn(db, removed)|;
    Aggregate(base.files + (|ab - rb| - |rb - ab|),
              base.bytes + (Bytes(db, added) - Bytes(db, removed)),
              base.chunks - rmChunks + |ChunksIn(db, added)|,
              base.embedded - rmChunks + |EmbeddedIn(db, model, added)|)
  }

  // ------------------------------------------------ incremental view maintenance

  lemma ChunksSplit(db: Db, a: set<string>, b: set<string>)
    ensures |ChunksIn(db, a)| == |ChunksIn(db, a * b)| + |ChunksIn(db, a - b)|
  {
    assert ChunksIn(db, a) == ChunksIn(db, a * b) + ChunksIn(db, a - b);
  }

  lemma EmbeddedSplit(db: Db, model: string, a: set<string>, b: set<string>)
    ensures |EmbeddedIn(db, model, a)| == |EmbeddedIn(db, model, a * b)| + |EmbeddedIn(db, model, a - b)|
  {
    assert EmbeddedIn(db, model, a) == EmbeddedIn(db, model, a * b) + EmbeddedIn(db, model, a - b);
  }

  lemma BytesSplit(db: Db, a: set<string>, b: set<string>)
    ensures Bytes(db, a) == Bytes(db, a * b) + Bytes(db, a - b)
  {
    assert Stored(db, a) == Stored(db, a * b) + Stored(db, a - b);
    SumUnion(Stored(db, a * b), Stored(db, a - b), SizeOf(db));
  }

  /** If all chunks of a set of names are embedded, so are those of a subset. */
  lemma AllEmbedded(db: Db, model: string, names: set<string>, some: set<string>)
    requires |EmbeddedIn(db, model, names)| == |ChunksIn(db, names)| && some <= names
    ensures EmbeddedIn(db, model, some) == ChunksIn(db, some)
  {
    assert EmbeddedIn(db, model, names) <= ChunksIn(db, names);
    SubsetFull(EmbeddedIn(db, model, names), ChunksIn(db, names));
    forall c | c in ChunksIn(db, some) ensures c in EmbeddedIn(db, model, some) {
      assert c in ChunksIn(db, names);
    }
  }

  lemma SubsetFull<T>(a: set<T>, b: set<T>)
    requires a <= b && |a| == |b|
    ensures a == b
  {
    assert b == a + (b - a);
  }

  /** The sizes of two overlapping sets seen through a third. */
  lemma DistinctCount<T>(a: set<T>, r: set<T>, k: set<T>)
    ensures |a + k| - |r + k| == |a - r| - |r - a| + |r * k| - |a * k|
  {
    assert a + k == (a - k) + k && r + k == (r - k) + k;
    assert a == (a - k) + (a * k) && r == (r - k) + (r * k);
    assert a == (a - r) + (a * r) && r == (r - a) + (a * r);
  }

  lemma PathsSplit(db: Db, a: set<string>, b: set<string>)
    ensures LogicalPaths(db, a) == LogicalPaths(db, a - b) + LogicalPaths(db, a * b)
  {
    assert a == (a - b) + a * b;
  }

  /** Bytes, chunks and embedded chunks come out exact. */
  lemma DeltaCounts(db: Db, model: string, baseNames: set<string>, names: set<string>)
    requires |EmbeddedIn(db, model, baseNames)| == |ChunksIn(db, baseNames)|
    ensures Delta(db, model, Full(db, model, baseNames), baseNames, names).(files := 0) ==
            Full(db, model, names).(files := 0)
  {
    assert baseNames * names == names * baseNames;
    ChunksSplit(db, names, baseNames);
    ChunksSplit(db, baseNames, names);
    EmbeddedSplit(db, model, names, baseNames);
    EmbeddedSplit(db, model, baseNames, names);
    BytesSplit(db, names, baseNames);
    BytesSplit(db, baseNames, names);
    AllEmbedded(db, model, baseNames, baseNames - names);
  }

  /** The file count moves by the two differences of logical paths, up to the
      paths that are also among the kept. */
  lemma DeltaFiles(db: Db, baseNames: set<string>, names: set<string>)
    ensures var added, removed := LogicalPaths(db, names - baseNames), LogicalPaths(db, baseNames - names);
            var kept := LogicalPaths(db, names * baseNames);
            |LogicalPaths(db, names)| - |LogicalPaths(db, baseNames)| ==
            |added - removed| - |removed - added| + |removed * kept| - |added * kept|
  {
    assert baseNames * names == names * baseNames;
    PathsSplit(db, names, baseNames);
    PathsSplit(db, baseNames, names);
    DistinctCount(LogicalPaths(db, names - baseNames), LogicalPaths(db, baseNames - names),
                  LogicalPaths(db, names * baseNames));
  }

  /** The difference refresh is exact, and for the file count exactly when as many
      logical paths have both an added and a kept blob as have both a removed and
      a kept one. */
  lemma DeltaIsExact(db: Db, model: string, baseNames: set<string>, names: set<string>)
    requires |EmbeddedIn(db, model, baseNames)| == |ChunksIn(db, baseNames)|
    ensures var full, delta := Full(db, model, names), Delta(db, model, Full(db, model, baseNames), baseNames, names);
            var added, removed := LogicalPaths(db, names - baseNames), LogicalPaths(db, baseNames - names);
            var kept := LogicalPaths(db, names * baseNames);
            && delta.(files := full.files) == full
            && (delta == full <==> |added * kept| == |removed * kept|)
  {
    DeltaCounts(db, model, baseNames, names);
    DeltaFiles(db, baseNames, names);
  }

  // ------------------------------------------------------- whole and split files

  /** Where a blob sits in its logical file: the whole of it, or part n of m. */
  datatype Slot = WholeFile | PartOf(n: int, m: int)

  function SlotOf(path: string): Slot {
    var p := ParsePseudoPath(path);
    if p.None? then WholeFile else PartOf(p.value.n, p.value.m)
  }

  predicate SameFile(db: Db, a: string, b: string) {
    a in db.blobs && b in db.blobs && SplitPart(db.blobs[a].path) == SplitPart(db.blobs[b].path)
  }

  /** Every logical path of the names has one plain blob, or one complete set of
      parts: two blobs of one path are parts of the same count in different slots,
      and with one part come all. */
  ghost predicate WholeFiles(db: Db, names: set<string>) {
    && (forall a, b :: a in names && b in names && SameFile(db, a, b) && a != b ==>
          var s, t := SlotOf(db.blobs[a].path), SlotOf(db.blobs[b].path);
          s.PartOf? && t.PartOf? && s.m == t.m && s.n != t.n)
    && (forall a, j :: a in names && a in db.blobs && SlotOf(db.blobs[a].path).PartOf? &&
                       1 <= j <= SlotOf(db.blobs[a].path).m ==>
          HasPart(db, names, a, j))
  }

  ghost predicate HasPart(db: Db, names: set<string>, a: string, j: int)
    requires a in db.blobs && SlotOf(db.blobs[a].path).PartOf?
  {
    exists b :: b in names && SameFile(db, b, a) && SlotOf(db.blobs[b].path) == PartOf(j, SlotOf(db.blobs[a].path).m)
  }

  /** With whole files on both sides a path that has an added and a kept blob also
      lost a blob: the part the added one replaces. */
  lemma AddedPartReplacesOne(db: Db, names: set<string>, baseNames: set<string>, p: string)
    requires WholeFiles(db, names) && WholeFiles(db, baseNames)
    requires p in LogicalPaths(db, names - baseNames) && p in LogicalPaths(db, names * baseNames)
    ensures p in LogicalPaths(db, baseNames - names)
  {
    var a :| a in names - baseNames && a in db.blobs && SplitPart(db.blobs[a].path) == p;
    var k :| k in names * baseNames && k in db.blobs && SplitPart(db.blobs[k].path) == p;
    assert SameFile(db, a, k);
    var s := SlotOf(db.blobs[a].path);
    assert 1 <= s.n <= s.m;
    assert HasPart(db, baseNames, k, s.n);
    var r :| r in baseNames && SameFile(db, r, k) && SlotOf(db.blobs[r].path) == PartOf(s.n, s.m);
    if r in names { assert SameFile(db, r, a); }
    assert r in baseNames - names;
  }

  /** Whole files make the file count exact too: the refresh equals the full
      aggregate in every column. */
  lemma WholeFilesMakeExact(db: Db, model: string, baseNames: set<string>, names: set<string>)
    requires |EmbeddedIn(db, model, baseNames)| == |ChunksIn(db, baseNames)|
    requires WholeFiles(db, names) && WholeFiles(db, baseNames)
    ensures Delta(db, model, Full(db, model, baseNames), baseNames, names) == Full(db, model, names)
  {
    var added, removed := LogicalPaths(db, names - baseNames), LogicalPaths(db, baseNames - names);
    var kept := LogicalPaths(db, names * baseNames);
    DeltaIsExact(db, model, baseNames, names);
    assert baseNames * names == names * baseNames;
    forall p ensures p in added * kept <==> p in removed * kept {
      if p in added * kept { AddedPartReplacesOne(db, names, baseNames, p); }
      if p in removed * kept { AddedPartReplacesOne(db, baseNames, names, p); }
    }
    assert added * kept == removed * kept;
  }

  /** A file with '#' in its own name defeats the file count: adding a second file
      of a directory "C#" counts one file too many. */
  lemma HashInPathMiscounts()
    ensures var db := Db(map["x" := BlobRow("C#/a", 1), "y" := BlobRow("C#/b", 1)], map[], {}, {}, map[], map[], map[]);
            && Delta(db, "m", Full(db, "m", {"x"}), {"x"}, {"x", "y"}).files == 2
            && Full(db, "m", {"x", "y"}).files == 1
  {
    var db := Db(map["x" := BlobRow("C#/a", 1), "y" := BlobRow("C#/b", 1)], map[], {}, {}, map[], map[], map[]);
    HashSplits();
    assert LogicalPaths(db, {"x"}) == {"C"} && LogicalPaths(db, {"y"}) == {"C"};
    assert LogicalPaths(db, {"x", "y"}) == {"C"};
    assert {"x", "y"} - {"x"} == {"y"} && {"x"} - {"x", "y"} == {};
    assert LogicalPaths(db, {}) == {};
    assert {"C"} - {} == {"C"};
  }

  lemma HashSplits()
    ensures SplitPart("C#/a") == "C" && SplitPart("C#/b") == "C"
  {
    assert "C#/a"[1..] == "#/a" && "C#/b"[1..] == "#/b";
    assert SplitPart("#/a") == "" && SplitPart("#/b") == "";
    assert SplitPart("C#/a") == ['C'] + SplitPart("C#/a"[1..]);
    assert SplitPart("C#/b") == ['C'] + SplitPart("C#/b"[1..]);
    assert ['C'] + "" == "C";
  }
}
