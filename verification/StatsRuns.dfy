/** The life of the cached snapshot statistics (internal/store/postgres.go): every
    write that touches the tables they are computed from, and what a cached row is
    worth after any run of them. */
module StatsRuns {
  import opened State
  import opened Stats
  import opened Sums

  // -------------------------------------------------------------------- steps

  datatype Step =
    | Upload(name: string, blob: BlobRow, cs: map<string, ChunkRow>)
    | Embed(byChunk: set<(string, string)>, byHash: set<(string, string)>)
    | Checkpoint(id: string, names: set<string>)
    | Save(key: RowKey, id: string)
    | Refresh(id: string, model: string)
    | Purge(key: RowKey, doomed: set<string>, dead: set<string>)

  /** PutBlob and PutChunks: a stored name keeps its row, a blob that has chunks
      keeps them, and so does a stored chunk id. */
  function Uploaded(db: Db, name: string, blob: BlobRow, cs: map<string, ChunkRow>): Db {
    db.(blobs := if name in db.blobs then db.blobs else db.blobs[name := blob],
        chunks := if ChunksIn(db, {name}) != {} then db.chunks else cs + db.chunks)
  }

  function Checkpointed(db: Db, id: string, names: set<string>): Db {
    db.(snapshots := db.snapshots[id := NamesIn(db, id) + names])
  }

  /** The provisional rows of a moved pointer: the old snapshot's numbers, marked
      incomplete, with the nearest complete ancestor as base. */
  function Seeds(db: Db, from: string, to: string): map<(string, string), StatRow> {
    map k | k in db.stats && k.0 == from && (to, k.1) !in db.stats ::
      (to, k.1) := StatRow(db.stats[k].agg, false, if db.stats[k].complete then from else db.stats[k].base)
  }

  function PointerOf(db: Db, key: RowKey): string {
    if key in db.projects then db.projects[key] else ""
  }

  function SeedsOf(db: Db, key: RowKey, id: string): map<(string, string), StatRow> {
    var before := PointerOf(db, key);
    if before != "" && id != "" && before != id then Seeds(db, before, id) else map[]
  }

  /** SaveACEProject. */
  function Saved(db: Db, key: RowKey, id: string): Db {
    db.(projects := db.projects[key := id], stats := db.stats + SeedsOf(db, key, id))
  }

  /** The row's base can carry a difference: it is recorded and its row complete. */
  predicate Usable(db: Db, id: string, model: string) {
    && (id, model) in db.stats && db.stats[(id, model)].base != ""
    && (db.stats[(id, model)].base, model) in db.stats
    && db.stats[(db.stats[(id, model)].base, model)].complete
  }

  function BaseOf(db: Db, id: string, model: string): string {
    if (id, model) in db.stats then db.stats[(id, model)].base else ""
  }

  ghost function Measured(db: Db, id: string, model: string): Aggregate {
    var base := BaseOf(db, id, model);
    if Usable(db, id, model) then Delta(db, model, db.stats[(base, model)].agg, NamesIn(db, base), NamesIn(db, id))
    else Full(db, model, NamesIn(db, id))
  }

  function WithRow(db: Db, id: string, model: string, agg: Aggregate): Db {
    db.(stats := db.stats[(id, model) := StatRow(agg, agg.embedded >= agg.chunks, BaseOf(db, id, model))])
  }

  /** refreshSnapshotStats. */
  ghost function Refreshed(db: Db, id: string, model: string): Db {
    if Usable(db, id, model) || id in db.snapshots then WithRow(db, id, model, Measured(db, id, model)) else db
  }

  /** PurgeACEProject, as the cascading deletes leave these tables: statistics go
      with their snapshot, chunks and their vectors with their blob; vectors by
      content hash stay. */
  function Collected(db: Db, key: RowKey, doomed: set<string>, dead: set<string>): Db {
    var gone := ChunksIn(db, dead);
    db.(blobs := db.blobs - dead, chunks := db.chunks - gone,
        chunkVectors := (set v | v in db.chunkVectors && v.0 !in gone),
        snapshots := db.snapshots - doomed, projects := db.projects - {key},
        stats := map k | k in db.stats && k.0 !in doomed :: db.stats[k])
  }

  /** What the writers of these tables keep to. A blob comes with its chunks, a
      checkpoint lists stored blobs and its id fixes its names, a purge takes only
      blobs no surviving snapshot lists; and in a run over whole files the names of a
      checkpoint make up whole files. */
  ghost predicate Enabled(db: Db, step: Step, whole: bool) {
    match step
    case Upload(name, _, cs) =>
      && (forall c :: c in cs ==> cs[c].blobName == name)
      && (name in db.blobs && cs != map[] ==> ChunksIn(db, {name}) != {})
    case Embed(byChunk, _) => forall v :: v in byChunk ==> v.0 in db.chunks
    case Checkpoint(id, names) =>
      id != "" && names <= db.blobs.Keys && (whole ==> WholeFiles(db, names)) && (id in db.snapshots ==> db.snapshots[id] == names)
    case Save(_, id) => id == "" || id in db.snapshots
    case Refresh(_, _) => true
    case Purge(_, doomed, dead) => forall id :: id in db.snapshots && id !in doomed ==> db.snapshots[id] !! dead
  }

  ghost function Next(db: Db, step: Step): Db {
    match step
    case Upload(name, blob, cs) => Uploaded(db, name, blob, cs)
    case Embed(byChunk, byHash) => db.(chunkVectors := db.chunkVectors + byChunk, hashVectors := db.hashVectors + byHash)
    case Checkpoint(id, names) => Checkpointed(db, id, names)
    case Save(key, id) => Saved(db, key, id)
    case Refresh(id, model) => Refreshed(db, id, model)
    case Purge(key, doomed, dead) => Collected(db, key, doomed, dead)
  }

  // ---------------------------------------------------------------- invariant

  /** The columns that are claimed of a row: all of them over whole files, and all but
      the file count in any case. */
  function Claimed(agg: Aggregate, whole: bool): Aggregate {
    if whole then agg else agg.(files := 0)
  }

  /** The same row in the claimed columns. */
  predicate SameRow(a: StatRow, b: StatRow, whole: bool) {
    Claimed(a.agg, whole) == Claimed(b.agg, whole) && a.complete == b.complete && a.base == b.base
  }

  /** The row holds the full aggregate of its snapshot. */
  ghost predicate Exact(db: Db, id: string, model: string, whole: bool) {
    && (id, model) in db.stats
    && Claimed(db.stats[(id, model)].agg, whole) == Claimed(Full(db, model, NamesIn(db, id)), whole)
    && (db.stats[(id, model)].complete <==> EmbeddedIn(db, model, NamesIn(db, id)) == ChunksIn(db, NamesIn(db, id)))
  }

  ghost predicate CompleteRowsExact(db: Db, whole: bool) {
    forall k :: k in db.stats && db.stats[k].complete ==> Exact(db, k.0, k.1, whole)
  }

  ghost predicate SnapshotsWhole(db: Db, whole: bool) {
    forall id :: id in db.snapshots ==> db.snapshots[id] <= db.blobs.Keys && (whole ==> WholeFiles(db, db.snapshots[id]))
  }

  /** The foreign keys, whole snapshots, and exact complete rows. */
  ghost predicate Sound(db: Db, whole: bool) {
    && (forall c :: c in db.chunks ==> db.chunks[c].blobName in db.blobs)
    && (forall k :: k in db.stats ==> k.0 in db.snapshots)
    && SnapshotsWhole(db, whole)
    && CompleteRowsExact(db, whole)
  }

  // ------------------------------------------------------- what a step leaves

  /** The two databases hold the same blobs and chunks under the names. */
  ghost predicate SameUnder(db: Db, db': Db, names: set<string>) {
    && (forall n :: n in names ==> (n in db.blobs <==> n in db'.blobs))
    && (forall n :: n in names && n in db.blobs && n in db'.blobs ==> db.blobs[n] == db'.blobs[n])
    && ChunksIn(db, names) == ChunksIn(db', names)
    && (forall c :: c in ChunksIn(db, names) && c in ChunksIn(db', names) ==> db.chunks[c] == db'.chunks[c])
  }

  ghost predicate KeepsVectors(db: Db, db': Db, names: set<string>) {
    forall model, c :: c in EmbeddedIn(db, model, names) ==> c in EmbeddedIn(db', model, names)
  }

  /** Files, bytes and chunks are those of the names alone. */
  lemma SameCounts(db: Db, db': Db, model: string, names: set<string>)
    requires SameUnder(db, db', names)
    ensures Full(db', model, names).(embedded := 0) == Full(db, model, names).(embedded := 0)
    ensures LogicalPaths(db', names) == LogicalPaths(db, names)
  {
    assert Stored(db, names) == Stored(db', names);
    SumEqual(Stored(db, names), SizeOf(db), SizeOf(db'));
    assert LogicalPaths(db, names) == LogicalPaths(db', names);
  }

  /** An embedded chunk stays embedded, so a complete row stays exact. */
  lemma CompleteStaysExact(db: Db, db': Db, id: string, model: string, whole: bool)
    requires Exact(db, id, model, whole) && db.stats[(id, model)].complete
    requires (id, model) in db'.stats && db'.stats[(id, model)] == db.stats[(id, model)]
    requires NamesIn(db', id) == NamesIn(db, id)
    requires SameUnder(db, db', NamesIn(db, id)) && KeepsVectors(db, db', NamesIn(db, id))
    ensures Exact(db', id, model, whole)
  {
    var names := NamesIn(db, id);
    SameCounts(db, db', model, names);
    forall c | c in ChunksIn(db', names) ensures c in EmbeddedIn(db', model, names) {
      assert c in EmbeddedIn(db, model, names);
    }
    assert EmbeddedIn(db', model, names) == ChunksIn(db', names);
  }

  lemma SameSlots(db: Db, db': Db, names: set<string>)
    requires names <= db.blobs.Keys && WholeFiles(db, names)
    requires forall n :: n in names ==> n in db'.blobs && db'.blobs[n] == db.blobs[n]
    ensures WholeFiles(db', names)
  {
    forall a, j | a in names && a in db'.blobs && SlotOf(db'.blobs[a].path).PartOf? &&
                  1 <= j <= SlotOf(db'.blobs[a].path).m
      ensures HasPart(db', names, a, j)
    {
      assert HasPart(db, names, a, j);
      var b :| b in names && SameFile(db, b, a) && SlotOf(db.blobs[b].path) == PartOf(j, SlotOf(db.blobs[a].path).m);
      assert SameFile(db', b, a);
    }
    forall a, b | a in names && b in names && SameFile(db', a, b) && a != b
      ensures var s, t := SlotOf(db'.blobs[a].path), SlotOf(db'.blobs[b].path);
              s.PartOf? && t.PartOf? && s.m == t.m && s.n != t.n
    {
      assert SameFile(db, a, b);
    }
  }

  // ------------------------------------------------------------------ refresh

  lemma FewerEmbedded(db: Db, model: string, names: set<string>)
    ensures |EmbeddedIn(db, model, names)| <= |ChunksIn(db, names)|
    ensures |EmbeddedIn(db, model, names)| == |ChunksIn(db, names)| <==> EmbeddedIn(db, model, names) == ChunksIn(db, names)
  {
    assert EmbeddedIn(db, model, names) <= ChunksIn(db, names);
    Cardinality(EmbeddedIn(db, model, names), ChunksIn(db, names));
    if |EmbeddedIn(db, model, names)| == |ChunksIn(db, names)| {
      SubsetFull(EmbeddedIn(db, model, names), ChunksIn(db, names));
    }
  }

  lemma Cardinality<T>(a: set<T>, b: set<T>)
    requires a <= b
    ensures |a| <= |b|
  {
    assert b == a + (b - a);
  }

  /** All columns but the file count move without regard to it. */
  lemma DeltaColumns(db: Db, model: string, a: Aggregate, b: Aggregate, baseNames: set<string>, names: set<string>)
    requires a.(files := 0) == b.(files := 0)
    ensures Delta(db, model, a, baseNames, names).(files := 0) == Delta(db, model, b, baseNames, names).(files := 0)
  {
  }

  /** By difference or in full, what refresh measures is the full aggregate. */
  lemma MeasuredIsFull(db: Db, id: string, model: string, whole: bool)
    requires Sound(db, whole)
    ensures Claimed(Measured(db, id, model), whole) == Claimed(Full(db, model, NamesIn(db, id)), whole)
  {
    if Usable(db, id, model) {
      var base := BaseOf(db, id, model);
      var agg := db.stats[(base, model)].agg;
      assert Exact(db, base, model, whole);
      if whole {
        WholeFilesMakeExact(db, model, NamesIn(db, base), NamesIn(db, id));
      } else {
        DeltaColumns(db, model, agg, Full(db, model, NamesIn(db, base)), NamesIn(db, base), NamesIn(db, id));
        DeltaCounts(db, model, NamesIn(db, base), NamesIn(db, id));
      }
    }
  }

  lemma WithRowCounts(db: Db, id: string, model: string, agg: Aggregate, m: string, names: set<string>)
    ensures Full(WithRow(db, id, model, agg), m, names) == Full(db, m, names)
    ensures EmbeddedIn(WithRow(db, id, model, agg), m, names) == EmbeddedIn(db, m, names)
  {
    SameCounts(db, WithRow(db, id, model, agg), m, names);
    assert EmbeddedIn(WithRow(db, id, model, agg), m, names) == EmbeddedIn(db, m, names);
  }

  /** A refresh leaves the snapshot's row exact, whichever way it measured. */
  lemma RefreshIsExact(db: Db, id: string, model: string, whole: bool)
    requires Sound(db, whole) && id in db.snapshots
    ensures Exact(Refreshed(db, id, model), id, model, whole)
  {
    var names := NamesIn(db, id);
    MeasuredIsFull(db, id, model, whole);
    WithRowCounts(db, id, model, Measured(db, id, model), model, names);
    FewerEmbedded(db, model, names);
    assert ChunksIn(Refreshed(db, id, model), names) == ChunksIn(db, names);
  }

  /** A chunk of the names has a vector for the model: under its id, or under its content
      hash, if it has one. */
  ghost predicate VectorFor(db: Db, model: string, c: string)
    requires c in db.chunks
  {
    || (c, model) in db.chunkVectors
    || (db.chunks[c].contentHash != "" && (db.chunks[c].contentHash, model) in db.hashVectors)
  }

  /** What a refresh leaves in the row, column by column: the bytes of the snapshot's
      stored blobs, the number of their chunks, of these the number with a vector, and the
      row complete exactly when all have one; over whole files also the number of distinct
      paths up to the first '#'. */
  lemma RefreshedRow(db: Db, id: string, model: string, whole: bool)
    requires Sound(db, whole) && id in db.snapshots
    ensures var db', names := Refreshed(db, id, model), db.snapshots[id];
            var cs := set c | c in db.chunks && db.chunks[c].blobName in names;
            && (id, model) in db'.stats
            && var row := db'.stats[(id, model)];
               && row.agg.bytes == Sum(names, SizeOf(db))
               && row.agg.chunks == |cs| && row.agg.embedded == |set c | c in cs && VectorFor(db, model, c)|
               && (row.complete <==> forall c :: c in cs ==> VectorFor(db, model, c))
               && (whole ==> row.agg.files == |set n | n in names :: SplitPart(db.blobs[n].path)|)
  {
    var names := db.snapshots[id];
    var cs := set c | c in db.chunks && db.chunks[c].blobName in names;
    RefreshIsExact(db, id, model, whole);
    MeasuredIsFull(db, id, model, whole);
    assert names <= db.blobs.Keys;
    assert ChunksIn(db, names) == cs;
    assert EmbeddedIn(db, model, names) == set c | c in cs && VectorFor(db, model, c);
    assert Stored(db, names) == names;
    FewerEmbedded(db, model, names);
    var row := Refreshed(db, id, model).stats[(id, model)];
    if whole {
      assert row.agg == Full(db, model, names);
      PathsOf(db, names);
    }
  }

  lemma PathsOf(db: Db, names: set<string>)
    requires names <= db.blobs.Keys
    ensures LogicalPaths(db, names) == set n | n in names :: SplitPart(db.blobs[n].path)
  {
  }

  /** Embedding by content hash counts for every chunk with the hash. */
  lemma EmbeddingByHashCounts(db: Db, c: string, model: string)
    requires c in db.chunks && db.chunks[c].contentHash != ""
    ensures var db' := Next(db, Embed({}, {(db.chunks[c].contentHash, model)}));
            c in db'.chunks && VectorFor(db', model, c) && db'.chunks == db.chunks && db'.snapshots == db.snapshots
  {
  }

  /** One snapshot of one blob of one chunk, which has a vector by its hash only. */
  const HASHED: Db :=
    Db(map["b" := BlobRow("a.go", 3)], map["b:0" := ChunkRow("b", "h")], {}, {("h", "m")}, map["s" := {"b"}], map[], map[])

  /** The chunk counts, and the row is complete. */
  lemma HashedIsComplete()
    ensures var row := Refreshed(HASHED, "s", "m").stats;
            ("s", "m") in row && row[("s", "m")].complete && row[("s", "m")].agg.(files := 0) == Aggregate(0, 3, 1, 1)
  {
    assert Sound(HASHED, false);
    RefreshedRow(HASHED, "s", "m", false);
    var row, names := Refreshed(HASHED, "s", "m").stats[("s", "m")], HASHED.snapshots["s"];
    var cs := set c | c in HASHED.chunks && HASHED.chunks[c].blobName in names;
    var embedded := set c | c in cs && VectorFor(HASHED, "m", c);
    assert names == {"b"} && cs == {"b:0"} && embedded == {"b:0"};
    assert row.agg.chunks == |cs| && row.agg.embedded == |embedded| && row.agg.bytes == Sum({"b"}, SizeOf(HASHED));
    SumPick({"b"}, SizeOf(HASHED), "b");
    assert {"b"} - {"b"} == {};
  }

  /** The path up to its first '#'. */
  lemma {:induction false} SplitPartIs(path: string)
    ensures SplitPart(path) <= path && '#' !in SplitPart(path)
    ensures |SplitPart(path)| < |path| ==> path[|SplitPart(path)|] == '#'
  {
    if path != "" && path[0] != '#' {
      SplitPartIs(path[1..]);
      assert path == [path[0]] + path[1..];
    }
  }

  /** A refresh leaves exact rows exact. */
  lemma RefreshKeepsExact(db: Db, id: string, model: string, k: (string, string), whole: bool)
    requires Sound(db, whole) && Exact(db, k.0, k.1, whole)
    ensures Exact(Refreshed(db, id, model), k.0, k.1, whole)
    ensures db.stats[k].complete ==> SameRow(Refreshed(db, id, model).stats[k], db.stats[k], whole)
  {
    var names := NamesIn(db, k.0);
    MeasuredIsFull(db, id, model, whole);
    WithRowCounts(db, id, model, Measured(db, id, model), k.1, names);
    FewerEmbedded(db, k.1, names);
    assert ChunksIn(Refreshed(db, id, model), names) == ChunksIn(db, names);
  }

  lemma RefreshKeepsSound(db: Db, id: string, model: string, whole: bool)
    requires Sound(db, whole)
    ensures Sound(Refreshed(db, id, model), whole)
  {
    var db' := Refreshed(db, id, model);
    forall s | s in db'.snapshots && whole ensures WholeFiles(db', db'.snapshots[s]) { SameSlots(db, db', db.snapshots[s]); }
    forall k | k in db'.stats && db'.stats[k].complete ensures Exact(db', k.0, k.1, whole) {
      if k == (id, model) && id in db.snapshots {
        RefreshIsExact(db, id, model, whole);
      } else {
        assert Exact(db, k.0, k.1, whole);
        RefreshKeepsExact(db, id, model, k, whole);
      }
    }
  }

  // --------------------------------------------------------------- every step

  /** A step other than a refresh leaves what surviving snapshots list, and the
      vectors of their chunks. */
  lemma StepKeepsLists(db: Db, step: Step, id: string, whole: bool)
    requires Sound(db, whole) && Enabled(db, step, whole) && !step.Refresh?
    requires id in db.snapshots && id in Next(db, step).snapshots
    ensures NamesIn(Next(db, step), id) == NamesIn(db, id)
    ensures SameUnder(db, Next(db, step), NamesIn(db, id))
    ensures KeepsVectors(db, Next(db, step), NamesIn(db, id))
  {
    var db', names := Next(db, step), NamesIn(db, id);
    assert names <= db.blobs.Keys;
    if step.Checkpoint? { assert NamesIn(db', id) == names; }
    UploadIsForeign(db, step, names, whole);
    if step.Purge? { assert names !! step.dead; }
    assert ChunksIn(db, names) == ChunksIn(db', names);
  }

  /** An upload that adds chunks adds them under a name not stored before. */
  lemma UploadIsForeign(db: Db, step: Step, names: set<string>, whole: bool)
    requires Sound(db, whole) && Enabled(db, step, whole) && names <= db.blobs.Keys
    ensures step.Upload? ==> ChunksIn(Next(db, step), names) == ChunksIn(db, names)
  {
    if step.Upload? && ChunksIn(db, {step.name}) == {} && step.cs != map[] {
      var db' := Next(db, step);
      assert step.name !in names;
      forall c | c in ChunksIn(db', names) ensures c in ChunksIn(db, names) {
        assert db'.chunks[c].blobName != step.name;
      }
    }
  }

  lemma StepKeepsWhole(db: Db, step: Step, whole: bool)
    requires Sound(db, whole) && Enabled(db, step, whole)
    ensures SnapshotsWhole(Next(db, step), whole)
  {
    var db' := Next(db, step);
    if step.Refresh? {
      RefreshKeepsSound(db, step.id, step.model, whole);
    } else {
      forall id | id in db'.snapshots
        ensures db'.snapshots[id] <= db'.blobs.Keys && (whole ==> WholeFiles(db', db'.snapshots[id]))
      {
        if id in db.snapshots {
          StepKeepsLists(db, step, id, whole);
          if whole { SameSlots(db, db', db.snapshots[id]); }
        } else {
          if whole { SameSlots(db, db', step.names); }
          assert db'.snapshots[id] == step.names;
        }
      }
    }
  }

  /** A complete row is never written again: it stands as long as its snapshot. */
  lemma StepKeepsComplete(db: Db, step: Step, k: (string, string), whole: bool)
    requires Sound(db, whole) && Enabled(db, step, whole)
    requires k in db.stats && db.stats[k].complete && k.0 in Next(db, step).snapshots
    ensures k in Next(db, step).stats && SameRow(Next(db, step).stats[k], db.stats[k], whole)
    ensures Exact(Next(db, step), k.0, k.1, whole)
  {
    assert Exact(db, k.0, k.1, whole);
    if step.Refresh? {
      RefreshKeepsExact(db, step.id, step.model, k, whole);
    } else {
      StepKeepsLists(db, step, k.0, whole);
      CompleteStaysExact(db, Next(db, step), k.0, k.1, whole);
    }
  }

  /** No step but a refresh marks a row complete. */
  lemma OnlyRefreshCompletes(db: Db, step: Step, k: (string, string))
    requires !step.Refresh? && k in Next(db, step).stats && Next(db, step).stats[k].complete
    ensures k in db.stats && db.stats[k].complete
  {
  }

  lemma StepKeepsSound(db: Db, step: Step, whole: bool)
    requires Sound(db, whole) && Enabled(db, step, whole)
    ensures Sound(Next(db, step), whole)
  {
    var db' := Next(db, step);
    StepKeepsWhole(db, step, whole);
    if step.Refresh? {
      RefreshKeepsSound(db, step.id, step.model, whole);
    } else {
      forall k | k in db'.stats && db'.stats[k].complete ensures Exact(db', k.0, k.1, whole) {
        OnlyRefreshCompletes(db, step, k);
        StepKeepsComplete(db, step, k, whole);
      }
    }
  }

  // --------------------------------------------------------------- every run

  ghost predicate EnabledRun(db: Db, steps: seq<Step>, whole: bool)
    decreases |steps|
  {
    steps == [] || (Enabled(db, steps[0], whole) && EnabledRun(Next(db, steps[0]), steps[1..], whole))
  }

  ghost function Run(db: Db, steps: seq<Step>): Db
    decreases |steps|
  {
    if steps == [] then db else Run(Next(db, steps[0]), steps[1..])
  }

  /** The snapshot is there after every prefix of the run. */
  ghost predicate Lives(db: Db, steps: seq<Step>, id: string)
    decreases |steps|
  {
    id in db.snapshots && (steps == [] || Lives(Next(db, steps[0]), steps[1..], id))
  }

  lemma {:induction false} RunKeepsSound(db: Db, steps: seq<Step>, whole: bool)
    requires Sound(db, whole) && EnabledRun(db, steps, whole)
    ensures Sound(Run(db, steps), whole)
    decreases |steps|
  {
    if steps != [] {
      StepKeepsSound(db, steps[0], whole);
      RunKeepsSound(Next(db, steps[0]), steps[1..], whole);
    }
  }

  /** Over any run a complete row keeps its numbers while its snapshot lives, and
      they stay those of the full aggregate. */
  lemma {:induction false} CompleteRowStands(db: Db, steps: seq<Step>, k: (string, string), whole: bool)
    requires Sound(db, whole) && EnabledRun(db, steps, whole) && Lives(db, steps, k.0)
    requires k in db.stats && db.stats[k].complete
    ensures Exact(Run(db, steps), k.0, k.1, whole)
    ensures SameRow(Run(db, steps).stats[k], db.stats[k], whole) && (whole ==> Run(db, steps).stats[k] == db.stats[k])
    decreases |steps|
  {
    if steps == [] {
      assert Exact(db, k.0, k.1, whole);
    } else {
      StepKeepsSound(db, steps[0], whole);
      StepKeepsComplete(db, steps[0], k, whole);
      CompleteRowStands(Next(db, steps[0]), steps[1..], k, whole);
    }
  }

  const EMPTY_DB: Db := Db(map[], map[], {}, {}, map[], map[], map[])

  /** From an empty database, after any run, refreshing any snapshot by whichever
      base its row remembers gives the full aggregate. */
  lemma EveryRefreshIsExact(steps: seq<Step>, id: string, model: string, whole: bool)
    requires EnabledRun(EMPTY_DB, steps, whole) && id in Run(EMPTY_DB, steps).snapshots
    ensures Exact(Refreshed(Run(EMPTY_DB, steps), id, model), id, model, whole)
  {
    assert Sound(EMPTY_DB, whole);
    RunKeepsSound(EMPTY_DB, steps, whole);
    RefreshIsExact(Run(EMPTY_DB, steps), id, model, whole);
  }

  /** Moving a pointer shows the old snapshot's numbers under the new one until it is
      measured: every model measured for the old and not for the new gets a row with the old
      numbers, not complete, based on the old snapshot when that was complete and on its own
      base otherwise. Every row there was stays, and no other comes. */
  lemma MoveShowsOldNumbers(db: Db, key: RowKey, id: string, model: string)
    requires key in db.projects && db.projects[key] != "" && id != "" && db.projects[key] != id
    ensures var before, stats := db.projects[key], Saved(db, key, id).stats;
            && Saved(db, key, id).projects == db.projects[key := id]
            && (forall k :: k in db.stats ==> k in stats && stats[k] == db.stats[k])
            && ((before, model) in db.stats && (id, model) !in db.stats ==>
                  && var shown := db.stats[(before, model)];
                     (id, model) in stats && stats[(id, model)] == StatRow(shown.agg, false, if shown.complete then before else shown.base))
            && (forall k :: k in stats && k !in db.stats ==> k.0 == id && (before, k.1) in db.stats)
  {
    var before := db.projects[key];
    if (before, model) in db.stats && (id, model) !in db.stats {
      var k := (before, model);
      assert k in db.stats && k.0 == before && (id, k.1) !in db.stats;
      assert (id, model) in Seeds(db, before, id);
    }
  }

  /** Moving a pointer off a completely measured snapshot lets the refresh of the
      new one run on the difference. */
  lemma MoveSeedsUsableBase(db: Db, key: RowKey, id: string, model: string)
    requires var before := PointerOf(db, key);
             && before != "" && id != "" && before != id
             && (before, model) in db.stats && db.stats[(before, model)].complete && (id, model) !in db.stats
    ensures Usable(Saved(db, key, id), id, model)
    ensures BaseOf(Saved(db, key, id), id, model) == PointerOf(db, key)
  {
    var before := PointerOf(db, key);
    var k := (before, model);
    assert k in db.stats && k.0 == before && (id, k.1) !in db.stats;
    assert (id, model) in Seeds(db, before, id);
  }
}
