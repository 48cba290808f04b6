/** What every step keeps: the catalogue invariant of the content-addressed store,
    and the purge as an exact, safe collector. */
module Safety {
  import opened Domain
  import opened Text
  import opened State
  import opened MemoryStore
  import opened Archive
  import opened Service

  /** The hashes: names are non-empty and hold no newline or colon (they are
      hexadecimal), and checkpoint digests do not collide. */
  ghost predicate SoundHashes(cfg: Config) {
    && (forall s :: cfg.sha(s) != "" && '\n' !in cfg.sha(s) && ':' !in cfg.sha(s))
    && (forall a, b :: cfg.digest(a) == cfg.digest(b) ==> a == b)
  }

  /** A checkpoint's id is the hash of the ascending list of its names. */
  ghost predicate ContentAddressed(cfg: Config, st: Store, id: string) {
    id in st.snapshots && st.snapshots[id].repositoryID == "" &&
    StrictlySorted(st.snapshots[id].blobNames) && id == CheckpointName(cfg, st.snapshots[id].blobNames)
  }

  /** References resolve, and checkpoints are content-addressed. */
  ghost predicate Sound(cfg: Config, st: Store) {
    && (forall n :: n in st.blobs ==> n != "" && '\n' !in n && ':' !in n)
    && (forall id, n :: Lists(st, id, n) ==> n in st.blobs)
    && (forall f :: f in st.files ==> st.files[f] in st.blobs)
    && (forall k :: k in st.projects ==>
          st.projects[k].snapshotID == "" || ContentAddressed(cfg, st, st.projects[k].snapshotID))
    && (forall u :: u in st.checkpoints ==> ContentAddressed(cfg, st, st.checkpoints[u]))
    && (forall id :: id in st.snapshots ==>
          if st.snapshots[id].repositoryID == "" then ContentAddressed(cfg, st, id) else "snap_" <= id)
  }

  lemma EmptyIsSound(cfg: Config)
    ensures Sound(cfg, EMPTY)
  {
  }

  /** The id of a checkpoint determines its names. */
  lemma CheckpointNameInjective(cfg: Config, a: seq<string>, b: seq<string>)
    requires SoundHashes(cfg) && Lines(a) && Lines(b) && CheckpointName(cfg, a) == CheckpointName(cfg, b)
    ensures a == b
  {
    assert ("ckpt_" + cfg.digest(Encode(a)))[5..] == cfg.digest(Encode(a));
    assert ("ckpt_" + cfg.digest(Encode(b)))[5..] == cfg.digest(Encode(b));
    EncodeInjective(a, b);
  }

  lemma NotARepositorySnapshot(cfg: Config, names: seq<string>)
    ensures !("snap_" <= CheckpointName(cfg, names)) && CheckpointName(cfg, names) != ""
  {
    assert CheckpointName(cfg, names)[0] == 'c' && "snap_"[0] == 's';
  }

  lemma NoUnnamedSnapshot(cfg: Config, st: Store)
    requires Sound(cfg, st)
    ensures "" !in st.snapshots
  {
    if "" in st.snapshots { NotARepositorySnapshot(cfg, st.snapshots[""].blobNames); }
  }

  /** A stored snapshot under a checkpoint id lists exactly the names of the id. */
  lemma ResolvesToItsNames(cfg: Config, st: Store, names: seq<string>)
    requires SoundHashes(cfg) && Sound(cfg, st) && Lines(names)
    requires CheckpointName(cfg, names) in st.snapshots
    ensures ContentAddressed(cfg, st, CheckpointName(cfg, names))
    ensures st.snapshots[CheckpointName(cfg, names)].blobNames == names
  {
    var id := CheckpointName(cfg, names);
    NotARepositorySnapshot(cfg, names);
    var stored := st.snapshots[id].blobNames;
    forall i | 0 <= i < |stored| ensures '\n' !in stored[i] { assert Lists(st, id, stored[i]); }
    CheckpointNameInjective(cfg, stored, names);
  }

  // --------------------------------------------------------------------- purge

  /** A purge removes exactly the doomed snapshots: those no repository owns and
      nobody else needs that are the purged one or overlap it by half. */
  lemma PurgeRemovesExactly(st: Store, key: RowKey, id: string)
    requires key in st.projects
    ensures var s, st' := WithoutRow(st, key), Purged(st, key);
            && (id in st'.snapshots <==> id in st.snapshots && !Doomed(s, key.user, st.projects[key].snapshotID, id))
            && (id in st'.snapshots ==> st'.snapshots[id] == st.snapshots[id])
  {
  }

  /** The half rule, on sets. A snapshot goes with a purge exactly when no repository
      owns it, no other row and no other user's pointer has it, and it is the row's own
      snapshot or shares a name with it, and at least half of the names of the smaller
      one of the two. */
  lemma PurgeByHalf(st: Store, key: RowKey, id: string)
    requires ListsOnce(st) && key in st.projects && id in st.snapshots
    ensures var own := st.projects[key].snapshotID;
            var names := set n | n in st.snapshots[id].blobNames;
            var target := if own in st.snapshots then set n | n in st.snapshots[own].blobNames else {};
            id !in Purged(st, key).snapshots <==>
            && st.snapshots[id].repositoryID == ""
            && (forall k :: k in st.projects && k != key ==> st.projects[k].snapshotID != id)
            && (forall u :: u in st.checkpoints && u != key.user ==> st.checkpoints[u] != id)
            && (id == own || (|names * target| > 0 && (2 * |names * target| >= |names| || 2 * |names * target| >= |target|)))
  {
    var s, own := WithoutRow(st, key), st.projects[key].snapshotID;
    PurgeRemovesExactly(st, key, id);
    HalfOnSets(s, key.user, own, id);
    OthersNeed(st, key, id);
  }

  lemma OthersNeed(st: Store, key: RowKey, id: string)
    ensures Needed(WithoutRow(st, key), key.user, id) <==>
            || (exists k :: k in st.projects && k != key && st.projects[k].snapshotID == id)
            || (exists u :: u in st.checkpoints && u != key.user && st.checkpoints[u] == id)
  {
    var s := WithoutRow(st, key);
    if k :| k in st.projects && k != key && st.projects[k].snapshotID == id {
      assert k in s.projects && s.projects[k].snapshotID == id;
    }
  }

  lemma HalfOnSets(st: Store, user: string, own: string, id: string)
    requires ListsOnce(st) && id in st.snapshots
    ensures var names := set n | n in st.snapshots[id].blobNames;
            var target := if own in st.snapshots then set n | n in st.snapshots[own].blobNames else {};
            Doomed(st, user, own, id) <==>
            && st.snapshots[id].repositoryID == "" && !Needed(st, user, id)
            && (id == own || (|names * target| > 0 && (2 * |names * target| >= |names| || 2 * |names * target| >= |target|)))
  {
    var listed, target := st.snapshots[id].blobNames, Elements(NamesOf(st, own));
    assert Elements(listed) == set n | n in listed;
    assert target == if own in st.snapshots then set n | n in st.snapshots[own].blobNames else {};
    if st.snapshots[id].repositoryID == "" {
      SharedIsIntersection(listed, target);
      ShareBounds(Elements(listed), target);
    }
  }

  lemma ShareBounds(a: set<string>, b: set<string>)
    ensures |a * b| <= |a| && |a * b| <= |b|
  {
    assert a == a * b + (a - b) && b == a * b + (b - a);
  }

  /** Row `key` is on a snapshot of four names, and another checkpoint lists four. */
  function FourAndFour(key: RowKey, own: seq<string>, other: seq<string>): Store {
    EMPTY.(snapshots := map["own" := Snapshot("", "", own), "other" := Snapshot("", "", other)],
           projects := map[key := Row(false, "own")])
  }

  /** With one row and no pointers the half rule alone decides about another checkpoint. */
  lemma HalfAlone(st: Store, key: RowKey, own: string, other: string)
    requires ListsOnce(st) && st.projects.Keys == {key} && st.projects[key].snapshotID == own && st.checkpoints == map[]
    requires own in st.snapshots && other in st.snapshots && own != other && st.snapshots[other].repositoryID == ""
    ensures var names, target := Elements(st.snapshots[other].blobNames), Elements(st.snapshots[own].blobNames);
            other !in Purged(st, key).snapshots <==>
            |names * target| > 0 && (2 * |names * target| >= |names| || 2 * |names * target| >= |target|)
  {
    PurgeByHalf(st, key, other);
    ElementsAre(st.snapshots[own].blobNames);
    ElementsAre(st.snapshots[other].blobNames);
  }

  lemma FourAndFourByHalf(key: RowKey, own: seq<string>, other: seq<string>)
    requires |own| == |other| == 4 && NoDuplicates(own) && NoDuplicates(other)
    ensures "other" in Purged(FourAndFour(key, own, other), key).snapshots <==> |Elements(other) * Elements(own)| < 2
  {
    assert "own"[1] != "other"[1];
    HalfAlone(FourAndFour(key, own, other), key, "own", "other");
    SharedIsIntersection(own, {});
    SharedIsIntersection(other, {});
  }

  lemma ElementsAre(names: seq<string>)
    ensures Elements(names) == set n | n in names
  {
  }

  lemma OneOfFour(n: seq<string>)
    requires |n| == 7 && NoDuplicates(n)
    ensures NoDuplicates(n[..4]) && NoDuplicates([n[0], n[4], n[5], n[6]])
    ensures |Elements([n[0], n[4], n[5], n[6]]) * Elements(n[..4])| == 1
  {
    forall x ensures x in Elements([n[0], n[4], n[5], n[6]]) * Elements(n[..4]) <==> x == n[0] {
      if x in n[..4] && x != n[0] { var i :| 0 < i < 4 && n[i] == x; }
      assert n[..4][0] == n[0];
    }
    assert Elements([n[0], n[4], n[5], n[6]]) * Elements(n[..4]) == {n[0]};
  }

  lemma TwoOfFour(n: seq<string>)
    requires |n| == 7 && NoDuplicates(n)
    ensures NoDuplicates([n[0], n[1], n[5], n[6]])
    ensures |Elements([n[0], n[1], n[5], n[6]]) * Elements(n[..4])| == 2
  {
    forall x ensures x in Elements([n[0], n[1], n[5], n[6]]) * Elements(n[..4]) <==> x in {n[0], n[1]} {
      if x in n[..4] && x !in {n[0], n[1]} { var i :| 1 < i < 4 && n[i] == x; }
      assert n[..4][0] == n[0] && n[..4][1] == n[1];
    }
    assert Elements([n[0], n[1], n[5], n[6]]) * Elements(n[..4]) == {n[0], n[1]};
  }

  /** One name of four is not half: the checkpoint stays. Two of four are, and it goes. */
  lemma QuarterStaysHalfGoes(key: RowKey, n: seq<string>)
    requires |n| == 7 && NoDuplicates(n)
    ensures "other" in Purged(FourAndFour(key, n[..4], [n[0], n[4], n[5], n[6]]), key).snapshots
    ensures "other" !in Purged(FourAndFour(key, n[..4], [n[0], n[1], n[5], n[6]]), key).snapshots
  {
    OneOfFour(n);
    TwoOfFour(n);
    FourAndFourByHalf(key, n[..4], [n[0], n[4], n[5], n[6]]);
    FourAndFourByHalf(key, n[..4], [n[0], n[1], n[5], n[6]]);
  }

  /** Every snapshot that a remaining row or another user's checkpoint points at
      survives a purge, and so does every snapshot of a repository. */
  lemma PurgeSparesNeeded(st: Store, key: RowKey, id: string)
    requires key in st.projects && id in st.snapshots
    requires || (exists k :: k in st.projects && k != key && st.projects[k].snapshotID == id)
             || (exists u :: u in st.checkpoints && u != key.user && st.checkpoints[u] == id)
             || st.snapshots[id].repositoryID != ""
    ensures id in Purged(st, key).snapshots
  {
    var s := WithoutRow(st, key);
    if k :| k in st.projects && k != key && st.projects[k].snapshotID == id {
      assert k in s.projects && s.projects[k].snapshotID == id;
    }
    if u :| u in st.checkpoints && u != key.user && st.checkpoints[u] == id {
      assert u in s.checkpoints && s.checkpoints[u] == id;
    }
    PurgeRemovesExactly(st, key, id);
  }

  /** A purge removes exactly the blobs that only doomed snapshots list. */
  lemma PurgeRemovesDeadBlobs(st: Store, key: RowKey, n: string)
    requires key in st.projects
    ensures var st' := Purged(st, key);
            n in st.blobs && n !in st'.blobs <==>
            n in st.blobs
            && (exists id :: id in st.snapshots && id !in st'.snapshots && Lists(st, id, n))
            && (forall id :: Lists(st, id, n) ==> id !in st'.snapshots)
            && (forall f :: f in st.files ==> st.files[f] != n)
  {
    var s, st' := WithoutRow(st, key), Purged(st, key);
    var doomed := DoomedSet(s, key.user, st.projects[key].snapshotID);
    DeadSetMember(s, doomed, n);
    assert forall id :: Lists(s, id, n) <==> Lists(st, id, n);
  }

  /** Nothing of a dead blob remains: no chunk list, no posting, no legacy vector,
      no chunk hash. */
  lemma PurgeLeavesNothing(st: Store, key: RowKey, n: string, id: string)
    requires key in st.projects && n in st.chunks && id in IDs(st.chunks[n])
    requires n in DeadSet(WithoutRow(st, key), DoomedSet(WithoutRow(st, key), key.user, st.projects[key].snapshotID))
    ensures var st' := Purged(st, key);
            && n !in st'.blobs && n !in st'.chunks && id !in st'.chunkHash
            && (forall t :: (t, id) !in st'.postings) && (forall m :: (m, id) !in st'.vectors)
  {
  }

  /** What a purge does to the other tables. Of the jobs exactly those of the user, with
      the label of the row and of no repository, go; of the rows this one; of the
      pointers that of the user, if its snapshot went. Repository files and vectors by
      content hash stay. */
  lemma PurgeLeavesRest(st: Store, key: RowKey)
    requires key in st.projects
    ensures var t := Purged(st, key);
            var title := if key.branch == "" then key.name else key.name + " (" + key.branch + ")";
            && t.files == st.files && t.hashVectors == st.hashVectors
            && t.projects.Keys == st.projects.Keys - {key} && (forall k :: k in t.projects ==> t.projects[k] == st.projects[k])
            && (forall j :: j in t.jobs ==> j in st.jobs && t.jobs[j] == st.jobs[j])
            && (forall j :: j in st.jobs && j !in t.jobs <==>
                  j in st.jobs && st.jobs[j].owner == key.user && st.jobs[j].repository == title && st.jobs[j].repositoryID == "")
            && (forall u :: u in t.checkpoints ==> u in st.checkpoints && t.checkpoints[u] == st.checkpoints[u])
            && (forall u :: u in st.checkpoints && u !in t.checkpoints <==>
                  u == key.user && u in st.checkpoints && st.checkpoints[u] in st.snapshots && st.checkpoints[u] !in t.snapshots)
  {
  }

  /** No other user's job or row is touched. */
  lemma PurgeSparesOthers(st: Store, key: RowKey, j: string, k: RowKey)
    requires key in st.projects
    ensures j in st.jobs && st.jobs[j].owner != key.user ==> j in Purged(st, key).jobs && Purged(st, key).jobs[j] == st.jobs[j]
    ensures k in st.projects && k.user != key.user ==> k in Purged(st, key).projects && Purged(st, key).projects[k] == st.projects[k]
  {
    PurgeLeavesRest(st, key);
  }

  /** Of the index only what belongs to a blob that went goes: a chunk list, posting,
      legacy vector or chunk hash that is gone was that of a chunk of such a blob. */
  lemma PurgeTakesOnlyTheirs(st: Store, key: RowKey, n: string, e: (string, string), c: string)
    requires key in st.projects
    ensures var t := Purged(st, key);
            && (n in st.blobs && n in st.chunks ==> (n in t.chunks <==> n in t.blobs))
            && (n in t.chunks ==> n in st.chunks && t.chunks[n] == st.chunks[n])
            && (e in t.postings ==> e in st.postings && t.postings[e] == st.postings[e])
            && (e in t.vectors ==> e in st.vectors && t.vectors[e] == st.vectors[e])
            && (c in t.chunkHash ==> c in st.chunkHash && t.chunkHash[c] == st.chunkHash[c])
            && (e in st.postings && e !in t.postings ==> Taken(st, t, e.1))
            && (e in st.vectors && e !in t.vectors ==> Taken(st, t, e.1))
            && (c in st.chunkHash && c !in t.chunkHash ==> Taken(st, t, c))
  {
    var s := WithoutRow(st, key);
    var dead := DeadSet(s, DoomedSet(s, key.user, st.projects[key].snapshotID));
    TakenOf(st, Purged(st, key), dead, e.1);
    TakenOf(st, Purged(st, key), dead, c);
  }

  /** The chunk was that of a blob whose chunks went. */
  ghost predicate Taken(st: Store, t: Store, id: string) {
    exists n, i :: n in st.chunks && n !in t.chunks && 0 <= i < |st.chunks[n]| && st.chunks[n][i].id == id
  }

  lemma TakenOf(st: Store, t: Store, dead: set<string>, id: string)
    requires t.chunks == st.chunks - dead
    ensures id in ChunkIDs(st, dead) ==> Taken(st, t, id)
  {
    if id in ChunkIDs(st, dead) {
      var n, i :| n in dead && n in st.chunks && 0 <= i < |st.chunks[n]| && st.chunks[n][i].id == id;
      assert n !in t.chunks;
    }
  }

  /** The purge keeps the store sound: every remaining row and pointer resolves,
      the caller's own pointer included, and every name a remaining snapshot or
      repository file lists is still stored. */
  lemma PurgeKeepsSound(cfg: Config, st: Store, key: RowKey)
    requires Sound(cfg, st) && key in st.projects
    ensures Sound(cfg, Purged(st, key))
  {
    var st' := Purged(st, key);
    forall id, n | Lists(st', id, n) ensures n in st'.blobs {
      PurgeRemovesExactly(st, key, id);
      assert Lists(st, id, n);
      PurgeRemovesDeadBlobs(st, key, n);
    }
    forall f | f in st'.files ensures st'.files[f] in st'.blobs {
      PurgeRemovesDeadBlobs(st, key, st.files[f]);
    }
    forall k | k in st'.projects
      ensures st'.projects[k].snapshotID == "" || ContentAddressed(cfg, st', st'.projects[k].snapshotID)
    {
      if st.projects[k].snapshotID != "" { PurgeSparesNeeded(st, key, st.projects[k].snapshotID); }
    }
    forall u | u in st'.checkpoints ensures ContentAddressed(cfg, st', st'.checkpoints[u]) {
      if u != key.user { PurgeSparesNeeded(st, key, st.checkpoints[u]); }
    }
  }

  // --------------------------------------------------------------- other steps

  /** Same snapshots and repository files, no name lost, rows and pointers that
      resolve: still sound. */
  lemma SoundFrame(cfg: Config, st: Store, s: Store)
    requires Sound(cfg, st) && s.snapshots == st.snapshots && s.files == st.files && st.blobs.Keys <= s.blobs.Keys
    requires forall n :: n in s.blobs ==> n != "" && '\n' !in n && ':' !in n
    requires forall k :: k in s.projects ==>
               s.projects[k].snapshotID == "" || ContentAddressed(cfg, st, s.projects[k].snapshotID)
    requires forall u :: u in s.checkpoints ==> ContentAddressed(cfg, st, s.checkpoints[u])
    ensures Sound(cfg, s)
  {
    assert forall id, n :: Lists(s, id, n) ==> Lists(st, id, n);
    assert forall id :: ContentAddressed(cfg, st, id) ==> ContentAddressed(cfg, s, id);
  }

  /** s has what st has, and the extra blob names. */
  ghost predicate GrowsBy(st: Store, s: Store, names: set<string>) {
    && s.blobs.Keys == st.blobs.Keys + names
    && s.snapshots == st.snapshots && s.projects == st.projects && s.checkpoints == st.checkpoints
    && s.files == st.files && s.jobs == st.jobs
    && forall n :: n in st.blobs ==> s.blobs[n] == st.blobs[n]
  }

  lemma IngestCatalogue(cfg: Config, st: Store, f: FileInput)
    ensures GrowsBy(st, Ingest(cfg, st, f), {BlobName(cfg, f)})
  {
    var n := BlobName(cfg, f);
    var s := WithBlob(st, n, Blob(f.path, f.content));
    BlobGrows(st, n, Blob(f.path, f.content));
    if !cfg.excluded(f.path) && n !in s.chunks {
      IndexGrows(st, s, n, cfg.chunks(n, f), cfg.rows(n, f));
    }
  }

  lemma BlobGrows(st: Store, n: string, b: Blob)
    ensures GrowsBy(st, WithBlob(st, n, b), {n})
  {
    if n in st.blobs {
      assert st.blobs.Keys + {n} == st.blobs.Keys;
    } else {
      assert st.blobs[n := b].Keys == st.blobs.Keys + {n};
    }
  }

  lemma IndexGrows(st: Store, s: Store, n: string, cs: seq<Chunk>, rows: map<(string, string), nat>)
    requires GrowsBy(st, s, {n})
    ensures GrowsBy(st, WithIndex(s, n, cs, rows), {n})
  {
  }

  lemma GrowsTwice(a: Store, b: Store, c: Store, n: string, names: set<string>)
    requires GrowsBy(a, b, {n}) && GrowsBy(b, c, names)
    ensures GrowsBy(a, c, {n} + names)
  {
  }

  lemma NothingGrows(st: Store)
    ensures GrowsBy(st, st, {})
  {
  }

  lemma {:induction false} IngestAllCatalogue(cfg: Config, st: Store, existing: set<string>, fs: seq<FileInput>)
    requires existing <= st.blobs.Keys
    ensures GrowsBy(st, IngestAll(cfg, st, existing, fs), Elements(FileNames(cfg, fs)))
    decreases |fs|
  {
    if fs == [] {
      NothingGrows(st);
    } else {
      var n, rest := BlobName(cfg, fs[0]), fs[1..];
      var mid := if n in existing then st else Ingest(cfg, st, fs[0]);
      if n in existing { AlreadyGrown(st, n); } else { IngestCatalogue(cfg, st, fs[0]); }
      IngestAllCatalogue(cfg, mid, existing, rest);
      FirstName(cfg, fs);
      GrowsTwice(st, mid, IngestAll(cfg, mid, existing, rest), n, Elements(FileNames(cfg, rest)));
    }
  }

  lemma AlreadyGrown(st: Store, n: string)
    requires n in st.blobs
    ensures GrowsBy(st, st, {n})
  {
    assert st.blobs.Keys + {n} == st.blobs.Keys;
  }

  lemma FirstName(cfg: Config, fs: seq<FileInput>)
    requires fs != []
    ensures Elements(FileNames(cfg, fs)) == {BlobName(cfg, fs[0])} + Elements(FileNames(cfg, fs[1..]))
  {
    assert FileNames(cfg, fs) == [BlobName(cfg, fs[0])] + FileNames(cfg, fs[1..]);
  }

  lemma UploadCatalogue(cfg: Config, st: Store, fs: seq<FileInput>)
    ensures GrowsBy(st, Uploaded(cfg, st, fs), Elements(FileNames(cfg, fs)))
  {
    IngestAllCatalogue(cfg, st, (set n | n in FileNames(cfg, fs) && n in st.blobs), fs);
  }

  /** An upload adds exactly the uploaded names and moves nothing else. */
  lemma UploadGrows(cfg: Config, st: Store, fs: seq<FileInput>)
    requires SoundHashes(cfg) && Sound(cfg, st)
    ensures Sound(cfg, Uploaded(cfg, st, fs)) && GrowsBy(st, Uploaded(cfg, st, fs), Elements(FileNames(cfg, fs)))
  {
    var s := Uploaded(cfg, st, fs);
    UploadCatalogue(cfg, st, fs);
    forall n | n in s.blobs ensures n != "" && '\n' !in n && ':' !in n {
      assert n in st.blobs || n in Elements(FileNames(cfg, fs));
    }
    SoundFrame(cfg, st, s);
  }

  lemma ArchiveKeepsSound(cfg: Config, st: Store, user: string, id: string, ws: Workspace, changed: bool, jobID: string)
    requires Sound(cfg, st) && ContentAddressed(cfg, st, id)
    ensures Sound(cfg, Archived(st, user, id, ws, changed, jobID))
  {
    SoundFrame(cfg, st, Archived(st, user, id, ws, changed, jobID));
  }

  lemma ListedNamesAreLines(cfg: Config, st: Store, names: seq<string>)
    requires Sound(cfg, st) && forall n :: n in names ==> n in st.blobs
    ensures Lines(names)
  {
    forall i | 0 <= i < |names| ensures '\n' !in names[i] { assert names[i] in names; }
  }

  /** A minted checkpoint lists the names, whether its snapshot was there before or
      not. */
  lemma MintIsExact(cfg: Config, st: Store, claimed: string, names: seq<string>)
    requires SoundHashes(cfg) && Sound(cfg, st) && StrictlySorted(names) && forall n :: n in names ==> n in st.blobs
    ensures var r := MintCheckpoint(cfg, st, claimed, names);
            Sound(cfg, r.store) && ContentAddressed(cfg, r.store, r.id) && NamesOf(r.store, r.id) == names
  {
    var id := CheckpointName(cfg, names);
    ListedNamesAreLines(cfg, st, names);
    NotARepositorySnapshot(cfg, names);
    if id in st.snapshots {
      ResolvesToItsNames(cfg, st, names);
    } else {
      SnapshotKeepsSound(cfg, st, id, Snapshot("", claimed, names));
    }
  }

  /** Resolving a delta over stored names yields a checkpoint that lists exactly
      base minus deleted plus added, and keeps the store sound. */
  lemma ResolveIsExact(cfg: Config, st: Store, claimed: string, added: set<string>, deleted: set<string>)
    requires SoundHashes(cfg) && Sound(cfg, st) && added <= st.blobs.Keys
    requires Resolve(cfg, st, claimed, added, deleted) != Gone
    requires claimed == "" || claimed !in st.snapshots || ContentAddressed(cfg, st, claimed)
    ensures var r := Resolve(cfg, st, claimed, added, deleted);
            && Sound(cfg, r.store) && ContentAddressed(cfg, r.store, r.id)
            && Elements(NamesOf(r.store, r.id)) == ResolvedNames(st, claimed, added, deleted)
            && (forall n :: n in NamesOf(r.store, r.id) <==>
                  n in added || (n !in deleted && claimed != "" && n in NamesOf(st, claimed)))
            && r.store.blobs == st.blobs
  {
    if claimed == "" || added != {} || deleted != {} {
      var s := ResolvedNames(st, claimed, added, deleted);
      forall n | n in Listing(s) ensures n in st.blobs {
        assert n in Elements(Listing(s));
        if n !in added { assert Lists(st, claimed, n); }
      }
      MintIsExact(cfg, st, claimed, Listing(s));
    }
  }

  lemma StillAddressed(cfg: Config, st: Store, id: string, sn: Snapshot)
    requires id !in st.snapshots
    ensures forall x :: ContentAddressed(cfg, st, x) ==> ContentAddressed(cfg, WithSnapshot(st, id, sn), x)
  {
  }

  lemma SnapshotKeepsSound(cfg: Config, st: Store, id: string, sn: Snapshot)
    requires Sound(cfg, st) && id !in st.snapshots
    requires forall n :: n in sn.blobNames ==> n in st.blobs
    requires if sn.repositoryID == "" then StrictlySorted(sn.blobNames) && id == CheckpointName(cfg, sn.blobNames)
             else "snap_" <= id
    ensures Sound(cfg, WithSnapshot(st, id, sn))
  {
    var s := WithSnapshot(st, id, sn);
    forall x, n | Lists(s, x, n) ensures n in s.blobs {
      if x != id { assert Lists(st, x, n); }
    }
    StillAddressed(cfg, st, id, sn);
  }

  lemma ArchiveKeepsCatalogue(st: Store, user: string, id: string, ws: Workspace, changed: bool, jobID: string)
    ensures var s := Archived(st, user, id, ws, changed, jobID);
            s.snapshots == st.snapshots && s.blobs == st.blobs && s.checkpoints == st.checkpoints && s.files == st.files
  {
  }

  /** A retrieval keeps the store sound, and answers with a checkpoint that lists
      exactly base minus deleted plus added and that the user owns. */
  lemma RetrievalIsExact(cfg: Config, st: Store, user: string, claimed: string, added: set<string>,
                         deleted: set<string>, ws: Workspace, jobID: string)
    requires SoundHashes(cfg) && Sound(cfg, st) && added <= st.blobs.Keys
    requires claimed == "" || claimed !in st.snapshots || ContentAddressed(cfg, st, claimed)
    requires Retrieved(cfg, st, user, claimed, added, deleted, ws, jobID) != Gone
    ensures var r := Retrieved(cfg, st, user, claimed, added, deleted, ws, jobID);
            && Sound(cfg, r.store) && ContentAddressed(cfg, r.store, r.id)
            && Elements(NamesOf(r.store, r.id)) == ResolvedNames(st, claimed, added, deleted)
            && (forall n :: n in NamesOf(r.store, r.id) <==>
                  n in added || (n !in deleted && claimed != "" && n in NamesOf(st, claimed)))
            && r.store.blobs == st.blobs && (user != "" ==> Owns(r.store, user, r.id))
  {
    ResolveIsExact(cfg, st, claimed, added, deleted);
    var r := Resolve(cfg, st, claimed, added, deleted);
    if user != "" { ArchivedIsOwned(cfg, r.store, user, r.id, ws, added + deleted != {}, jobID); }
  }

  /** Pointing at a checkpoint and archiving it makes it the user's. */
  lemma ArchivedIsOwned(cfg: Config, st: Store, user: string, id: string, ws: Workspace, changed: bool, jobID: string)
    requires Sound(cfg, st) && ContentAddressed(cfg, st, id)
    ensures var t := Archived(WithCheckpoint(st, user, id), user, id, ws, changed, jobID);
            && Sound(cfg, t) && ContentAddressed(cfg, t, id) && NamesOf(t, id) == NamesOf(st, id)
            && t.blobs == st.blobs && Owns(t, user, id)
  {
    var s := WithCheckpoint(st, user, id);
    SoundFrame(cfg, st, s);
    assert ContentAddressed(cfg, s, id);
    ArchiveKeepsSound(cfg, s, user, id, ws, changed, jobID);
    ArchiveKeepsCatalogue(s, user, id, ws, changed, jobID);
  }

  // ------------------------------------------------------------- asking again

  /** The rows of a sound store point at checkpoints, which list each name once. */
  lemma SoundRowsListOnce(cfg: Config, st: Store)
    requires Sound(cfg, st)
    ensures RowsListOnce(st)
  {
    NoUnnamedSnapshot(cfg, st);
    forall k | k in st.projects ensures NoDuplicates(NamesOf(st, st.projects[k].snapshotID)) {
      if st.projects[k].snapshotID != "" { StrictlySortedNoDuplicates(NamesOf(st, st.projects[k].snapshotID)); }
    }
  }

  lemma ResolveKeepsJobs(cfg: Config, st: Store, claimed: string, added: set<string>, deleted: set<string>)
    ensures var r := Resolve(cfg, st, claimed, added, deleted); r != Gone ==> r.store.jobs == st.jobs
  {
  }

  lemma ArchivedAgain(cfg: Config, st: Store, user: string, id: string, ws: Workspace, changed: bool, jobID: string,
                      jobID': string)
    requires Sound(cfg, st) && ContentAddressed(cfg, st, id) && jobID !in st.jobs
    ensures var s := Archived(WithCheckpoint(st, user, id), user, id, ws, changed, jobID);
            Archived(WithCheckpoint(s, user, id), user, id, ws, false, jobID') == s
  {
    var t := WithCheckpoint(st, user, id);
    SoundFrame(cfg, st, t);
    SoundRowsListOnce(cfg, t);
    ArchiveKeepsCatalogue(t, user, id, ws, changed, jobID);
    ArchivalIdempotent(t, user, id, ws, changed, jobID, jobID');
    SamePointer(Archived(t, user, id, ws, changed, jobID), user, id);
  }

  /** A claimed checkpoint of the user's own without a delta is only archived. */
  lemma RetrievedPlain(cfg: Config, st: Store, user: string, id: string, ws: Workspace, jobID: string)
    requires id != "" && id in st.snapshots && (user != "" ==> Owns(st, user, id))
    ensures Retrieved(cfg, st, user, id, {}, {}, ws, jobID) ==
            Resolved(id, if user == "" then st else Archived(WithCheckpoint(st, user, id), user, id, ws, false, jobID))
  {
  }

  /** Retrieving again with the answered checkpoint and no delta answers the same
      checkpoint and leaves the store as it is. */
  lemma RetrievalRepeats(cfg: Config, st: Store, user: string, claimed: string, added: set<string>,
                         deleted: set<string>, ws: Workspace, jobID: string, jobID': string)
    requires SoundHashes(cfg) && Sound(cfg, st) && added <= st.blobs.Keys && jobID !in st.jobs
    requires claimed == "" || claimed !in st.snapshots || ContentAddressed(cfg, st, claimed)
    requires Retrieved(cfg, st, user, claimed, added, deleted, ws, jobID) != Gone
    ensures var r := Retrieved(cfg, st, user, claimed, added, deleted, ws, jobID);
            Retrieved(cfg, r.store, user, r.id, {}, {}, ws, jobID') == r
  {
    RetrievalIsExact(cfg, st, user, claimed, added, deleted, ws, jobID);
    var r := Retrieved(cfg, st, user, claimed, added, deleted, ws, jobID);
    NoUnnamedSnapshot(cfg, r.store);
    RetrievedPlain(cfg, r.store, user, r.id, ws, jobID');
    if user != "" {
      var q := Resolve(cfg, st, claimed, added, deleted);
      ResolveIsExact(cfg, st, claimed, added, deleted);
      ResolveKeepsJobs(cfg, st, claimed, added, deleted);
      ArchivedAgain(cfg, q.store, user, q.id, ws, added + deleted != {}, jobID, jobID');
    }
  }

  lemma SamePointer(st: Store, user: string, id: string)
    requires user in st.checkpoints && st.checkpoints[user] == id
    ensures WithCheckpoint(st, user, id) == st
  {
    assert st.checkpoints[user := id] == st.checkpoints;
  }

  // ------------------------------------------------- who is refused, what is written

  /** A retrieval is refused exactly when it claims a checkpoint that is unknown, or
      that neither the caller's pointer nor one of his rows has. */
  lemma RefusedExactly(cfg: Config, st: Store, user: string, claimed: string, added: set<string>, deleted: set<string>,
                       ws: Workspace, jobID: string)
    ensures Retrieved(cfg, st, user, claimed, added, deleted, ws, jobID) == Gone <==>
            && claimed != ""
            && (claimed !in st.snapshots ||
                (user != "" && (user in st.checkpoints ==> st.checkpoints[user] != claimed) &&
                 forall k :: k in st.projects && k.user == user ==> st.projects[k].snapshotID != claimed))
  {
  }

  /** An answered retrieval shows its checkpoint in a row of the user, and records a job of
      his exactly when it brought or took a name; the shared token gets neither. */
  lemma JobOfRetrieval(cfg: Config, st: Store, user: string, claimed: string, added: set<string>, deleted: set<string>,
                       ws: Workspace, jobID: string)
    requires jobID !in st.jobs && Retrieved(cfg, st, user, claimed, added, deleted, ws, jobID) != Gone
    ensures var r := Retrieved(cfg, st, user, claimed, added, deleted, ws, jobID);
            && (jobID in r.store.jobs <==> user != "" && exists n :: n in added || n in deleted)
            && (jobID in r.store.jobs ==> r.store.jobs[jobID].owner == user)
            && (user != "" ==> exists k :: k in r.store.projects && k.user == user && r.store.projects[k].snapshotID == r.id)
            && (user == "" ==> r.store.projects == st.projects)
  {
    var q := Resolve(cfg, st, claimed, added, deleted);
    if user != "" {
      var s, changed := WithCheckpoint(q.store, user, q.id), added + deleted != {};
      ArchivalFolds(s, user, q.id, ws, changed, jobID);
      JobRecorded(s, user, q.id, ws, jobID);
      var l := Landed(s, user, q.id, ws);
      assert RowKey(user, l.name, l.branch) in Archived(s, user, q.id, ws, changed, jobID).projects;
      assert (exists n :: n in added || n in deleted) <==> changed by {
        if changed { var n :| n in added + deleted; }
      }
    }
  }

  /** An answered retrieval of a user points his pointer at the answer and moves no
      other user's pointer or row, and nobody's blob; of the shared token it moves none. */
  lemma RetrievalWrites(cfg: Config, st: Store, user: string, claimed: string, added: set<string>, deleted: set<string>,
                        ws: Workspace, jobID: string)
    requires Retrieved(cfg, st, user, claimed, added, deleted, ws, jobID) != Gone
    ensures var r := Retrieved(cfg, st, user, claimed, added, deleted, ws, jobID);
            && r.store.checkpoints == (if user == "" then st.checkpoints else st.checkpoints[user := r.id])
            && (forall k: RowKey :: k.user != user || user == "" ==>
                  (k in r.store.projects <==> k in st.projects) &&
                  (k in st.projects && k in r.store.projects ==> r.store.projects[k] == st.projects[k]))
            && r.store.blobs == st.blobs && r.store.files == st.files
  {
    var q := Resolve(cfg, st, claimed, added, deleted);
    ResolveWrites(cfg, st, claimed, added, deleted);
    if user != "" {
      ArchiveKeepsCatalogue(WithCheckpoint(q.store, user, q.id), user, q.id, ws, added + deleted != {}, jobID);
      ArchiveKeepsOthers(WithCheckpoint(q.store, user, q.id), user, q.id, ws, added + deleted != {}, jobID);
    }
  }

  lemma ResolveWrites(cfg: Config, st: Store, claimed: string, added: set<string>, deleted: set<string>)
    ensures var r := Resolve(cfg, st, claimed, added, deleted);
            r != Gone ==>
            && r.store.checkpoints == st.checkpoints && r.store.projects == st.projects
            && r.store.blobs == st.blobs && r.store.files == st.files
  {
  }
}
