/** A run in which a checkpoint ends up listing a name that is not stored. */
module GhostRuns {
  import opened Domain
  import opened Text
  import opened State
  import opened MemoryStore
  import opened Archive
  import opened Service
  import opened Client
  import opened Safety
  import opened Interleaving

  /** One checkpoint of one user, one row on it, and nothing else refers to anything. */
  ghost predicate OneProject(st: Store, user: string, key: RowKey, id: string, n: string) {
    && id in st.snapshots && st.snapshots.Keys == {id} && st.snapshots[id].repositoryID == ""
    && Elements(st.snapshots[id].blobNames) == {n}
    && key.user == user && st.projects.Keys == {key} && st.projects[key].snapshotID == id
    && st.checkpoints == map[user := id] && st.files == map[]
  }

  ghost predicate NothingRefers(st: Store) {
    st.snapshots == map[] && st.projects == map[] && st.checkpoints == map[] && st.files == map[]
  }

  lemma FirstRow(st: Store, user: string, id: string, ws: Workspace, changed: bool, jobID: string) returns (key: RowKey)
    requires st.projects == map[]
    ensures var t := Archived(st, user, id, ws, changed, jobID);
            && key.user == user && t.projects.Keys == {key} && t.projects[key].snapshotID == id
            && t.snapshots == st.snapshots && t.checkpoints == st.checkpoints && t.files == st.files && t.blobs == st.blobs
            && t.jobs.Keys <= st.jobs.Keys + {jobID}
  {
    var l := Landed(st, user, id, ws);
    key := RowKey(user, l.name, l.branch);
    assert FoldedKeys(st, user, id, ws) == {};
  }

  lemma FirstProject(cfg: Config, st: Store, user: string, n: string, ws: Workspace, jobID: string) returns (key: RowKey)
    requires NothingRefers(st) && user != ""
    ensures var r := Retrieved(cfg, st, user, "", {n}, {}, ws, jobID);
            && r != Gone && OneProject(r.store, user, key, r.id, n)
            && r.store.blobs == st.blobs && r.store.jobs.Keys <= st.jobs.Keys + {jobID}
  {
    var names := Listing({n});
    assert ResolvedNames(st, "", {n}, {}) == {n};
    assert Resolve(cfg, st, "", {n}, {}) == MintCheckpoint(cfg, st, "", names);
    var id := CheckpointName(cfg, names);
    var s := WithCheckpoint(WithSnapshot(st, id, Snapshot("", "", names)), user, id);
    key := FirstRow(s, user, id, ws, {n} + {} != {}, jobID);
  }

  /** Purging the only row takes its checkpoint and the blob only that lists. */
  lemma PurgeTakesTheBlob(st: Store, user: string, key: RowKey, id: string, n: string)
    requires OneProject(st, user, key, id, n)
    ensures n !in Purged(st, key).blobs && Purged(st, key).jobs.Keys <= st.jobs.Keys
  {
    var s := WithoutRow(st, key);
    assert s.projects == map[];
    assert Doomed(s, user, id, id);
    PurgeRemovesExactly(st, key, id);
    assert Lists(st, id, n);
    PurgeRemovesDeadBlobs(st, key, n);
  }

  /** A client that starts from nothing sends its one file. */
  lemma OneSent(cfg: Config, f: FileInput)
    requires SoundHashes(cfg)
    ensures Changed(cfg, [f], map[]) == [f] && Elements(FileNames(cfg, [f])) == {BlobName(cfg, f)}
    ensures Stale(cfg, [f], map[]) == {}
  {
    assert [f][..0] == [];
    assert FileNames(cfg, [f]) == [BlobName(cfg, f)];
  }

  lemma RunExtended(cfg: Config, steps: seq<Step>, trace: seq<World>, step: Step)
    requires Run(cfg, steps, trace) && Enabled(trace[|steps|], step)
    ensures Run(cfg, steps + [step], trace + [Next(cfg, trace[|steps|], step)])
  {
  }

  /** Clients a and b of two users. */
  function Two(ws: Workspace, f: FileInput, aSent: bool, bSent: bool, saved: ClientState): map<string, Peer> {
    var s := Sent(ws, [f], FRESH);
    map["a" := Peer("a", saved, if aSent then Some(s) else None), "b" := Peer("b", FRESH, if bSent then Some(s) else None)]
  }

  lemma TwoMoves(ws: Workspace, f: FileInput, saved: ClientState)
    ensures "a" in Two(ws, f, true, false, FRESH) && "b" in Two(ws, f, false, true, saved)
    ensures Two(ws, f, true, false, FRESH)["a" := Peer("a", saved, None)] == Two(ws, f, false, false, saved)
    ensures Two(ws, f, true, false, FRESH)["a"] == Peer("a", FRESH, Some(Sent(ws, [f], FRESH)))
    ensures Two(ws, f, false, true, saved)["b"] == Peer("b", FRESH, Some(Sent(ws, [f], FRESH)))
  {
  }

  lemma NothingYet(st: Store, n: string)
    requires GrowsBy(EMPTY, st, {n})
    ensures NothingRefers(st) && st.jobs == map[] && n in st.blobs
  {
    assert n in EMPTY.blobs.Keys + {n};
  }

  lemma BothJoin(cfg: Config, ws: Workspace, f: FileInput) returns (steps: seq<Step>, trace: seq<World>)
    ensures Run(cfg, steps, trace) && |steps| == 2 && trace[2] == World(EMPTY, Two(ws, f, false, false, FRESH))
  {
    steps, trace := [], [START];
    RunExtended(cfg, steps, trace, Join("a", "a"));
    steps, trace := steps + [Join("a", "a")], trace + [Next(cfg, START, Join("a", "a"))];
    RunExtended(cfg, steps, trace, Join("b", "b"));
    steps, trace := steps + [Join("b", "b")], trace + [Next(cfg, trace[1], Join("b", "b"))];
    assert trace[2].clients == Two(ws, f, false, false, FRESH);
  }

  lemma BeginsWith(cfg: Config, w: World, c: string, ws: Workspace, f: FileInput)
    requires SoundHashes(cfg) && c in w.clients
    ensures Enabled(w, Begin(c, ws, [f], true))
    ensures var w' := Next(cfg, w, Begin(c, ws, [f], true));
            && w'.clients == w.clients[c := w.clients[c].(sent := Some(Sent(ws, [f], FRESH)))]
            && GrowsBy(w.store, w'.store, {BlobName(cfg, f)})
  {
    OneSent(cfg, f);
    UploadCatalogue(cfg, w.store, [f]);
  }

  lemma SameProject(a: Store, b: Store, user: string, key: RowKey, id: string, n: string)
    requires OneProject(a, user, key, id, n) && GrowsBy(a, b, {n})
    ensures OneProject(b, user, key, id, n) && n in b.blobs && b.jobs == a.jobs
  {
    assert n in a.blobs.Keys + {n};
  }

  lemma EndsWith(cfg: Config, w: World, c: string, ws: Workspace, f: FileInput, jobID: string)
    returns (key: RowKey, saved: ClientState)
    requires SoundHashes(cfg) && c in w.clients && w.clients[c].sent == Some(Sent(ws, [f], FRESH))
    requires NothingRefers(w.store) && w.store.jobs == map[] && w.clients[c].user != "" && BlobName(cfg, f) in w.store.blobs
    ensures Enabled(w, End(c, jobID, true))
    ensures var w' := Next(cfg, w, End(c, jobID, true));
            && w'.clients == w.clients[c := Peer(w.clients[c].user, saved, None)] && w'.store.jobs.Keys <= {jobID}
            && OneProject(w'.store, w.clients[c].user, key, saved.checkpointID, BlobName(cfg, f))
            && BlobName(cfg, f) in w'.store.blobs
  {
    var user, s := w.clients[c].user, Sent(ws, [f], FRESH);
    OneSent(cfg, f);
    key := FirstProject(cfg, w.store, user, BlobName(cfg, f), ws, jobID);
    saved := ClientState(Answer(cfg, w.store, user, s, jobID).id, Current(cfg, [f]));
  }

  lemma FirstBegins(cfg: Config, ws: Workspace, f: FileInput) returns (steps: seq<Step>, trace: seq<World>)
    requires SoundHashes(cfg)
    ensures Run(cfg, steps, trace) && |steps| == 3
    ensures trace[3].clients == Two(ws, f, true, false, FRESH) && GrowsBy(EMPTY, trace[3].store, {BlobName(cfg, f)})
  {
    steps, trace := BothJoin(cfg, ws, f);
    var w, begin := trace[2], Begin("a", ws, [f], true);
    BeginsWith(cfg, w, "a", ws, f);
    RunExtended(cfg, steps, trace, begin);
    steps, trace := steps + [begin], trace + [Next(cfg, w, begin)];
  }

  /** One round of a, in two steps, makes the first project. */
  lemma FirstRound(cfg: Config, ws: Workspace, f: FileInput)
    returns (steps: seq<Step>, trace: seq<World>, key: RowKey, saved: ClientState)
    requires SoundHashes(cfg)
    ensures Run(cfg, steps, trace) && |steps| == 4
    ensures var w := trace[4];
            && w.clients == Two(ws, f, false, false, saved) && w.store.jobs.Keys <= {"j"}
            && OneProject(w.store, "a", key, saved.checkpointID, BlobName(cfg, f)) && BlobName(cfg, f) in w.store.blobs
  {
    steps, trace := FirstBegins(cfg, ws, f);
    var w, end := trace[3], End("a", "j", true);
    NothingYet(w.store, BlobName(cfg, f));
    TwoMoves(ws, f, FRESH);
    key, saved := EndsWith(cfg, w, "a", ws, f, "j");
    TwoMoves(ws, f, saved);
    RunExtended(cfg, steps, trace, end);
    steps, trace := steps + [end], trace + [Next(cfg, w, end)];
  }

  lemma SecondBegins(cfg: Config, ws: Workspace, f: FileInput)
    returns (steps: seq<Step>, trace: seq<World>, key: RowKey, saved: ClientState)
    requires SoundHashes(cfg)
    ensures Run(cfg, steps, trace) && |steps| == 5
    ensures var w := trace[5];
            && w.clients == Two(ws, f, false, true, saved) && w.store.jobs.Keys <= {"j"}
            && OneProject(w.store, "a", key, saved.checkpointID, BlobName(cfg, f)) && BlobName(cfg, f) in w.store.blobs
  {
    steps, trace, key, saved := FirstRound(cfg, ws, f);
    var w, begin := trace[4], Begin("b", ws, [f], true);
    BeginsWith(cfg, w, "b", ws, f);
    RunExtended(cfg, steps, trace, begin);
    SameProject(w.store, Next(cfg, w, begin).store, "a", key, saved.checkpointID, BlobName(cfg, f));
    steps, trace := steps + [begin], trace + [Next(cfg, w, begin)];
  }

  lemma PurgeStrikes(cfg: Config, w: World, c: string, ws: Workspace, f: FileInput, user: string, key: RowKey, id: string)
    requires SoundHashes(cfg) && c in w.clients && w.clients[c].sent == Some(Sent(ws, [f], FRESH))
    requires OneProject(w.store, user, key, id, BlobName(cfg, f)) && BlobName(cfg, f) in w.store.blobs
    ensures var purge := Shared(Protocol.Purge(key));
            && Enabled(w, purge) && Struck(cfg, w, purge, Next(cfg, w, purge), BlobName(cfg, f))
            && Next(cfg, w, purge).clients == w.clients && Next(cfg, w, purge).store.jobs.Keys <= w.store.jobs.Keys
  {
    OneSent(cfg, f);
    PurgeTakesTheBlob(w.store, user, key, id, BlobName(cfg, f));
    assert BlobName(cfg, f) in Added(cfg, w.clients[c].sent.value);
  }

  /** Then b uploads the same file and a's project is purged before b retrieves. */
  lemma PurgedBetween(cfg: Config, ws: Workspace, f: FileInput)
    returns (steps: seq<Step>, trace: seq<World>, saved: ClientState)
    requires SoundHashes(cfg)
    ensures Run(cfg, steps, trace) && |steps| == 6 && Struck(cfg, trace[5], steps[5], trace[6], BlobName(cfg, f))
    ensures trace[6].clients == Two(ws, f, false, true, saved) && trace[6].store.jobs.Keys <= {"j"}
  {
    var key;
    steps, trace, key, saved := SecondBegins(cfg, ws, f);
    var w, purge := trace[5], Shared(Protocol.Purge(key));
    PurgeStrikes(cfg, w, "b", ws, f, "a", key, saved.checkpointID);
    RunExtended(cfg, steps, trace, purge);
    steps, trace := steps + [purge], trace + [Next(cfg, w, purge)];
  }

  /** A run of seven steps with a ghost: two clients of two users have the same file;
      a's project is purged between b's upload and b's retrieval, and b's saved
      checkpoint lists a name the store does not have. */
  lemma GhostRun(cfg: Config, ws: Workspace, f: FileInput) returns (steps: seq<Step>, trace: seq<World>)
    requires SoundHashes(cfg)
    ensures Run(cfg, steps, trace) && |steps| == 7 && "b" in trace[7].clients
    ensures Lists(trace[7].store, trace[7].clients["b"].saved.checkpointID, BlobName(cfg, f))
    ensures BlobName(cfg, f) !in trace[7].store.blobs
  {
    var before, worlds, saved := PurgedBetween(cfg, ws, f);
    var w, end := worlds[6], End("b", "k", true);
    TwoMoves(ws, f, saved);
    assert "j"[0] != "k"[0];
    LeavesGhost(cfg, before, worlds, "b", ws, f, "k");
    var w' := Next(cfg, w, end);
    RunExtended(cfg, before, worlds, end);
    steps, trace := before + [end], worlds + [w'];
    assert trace[7] == w';
  }

  lemma LeavesGhost(cfg: Config, steps: seq<Step>, trace: seq<World>, c: string, ws: Workspace, f: FileInput, jobID: string)
    requires SoundHashes(cfg) && Run(cfg, steps, trace) && c in trace[|steps|].clients
    requires trace[|steps|].clients[c].sent == Some(Sent(ws, [f], FRESH)) && jobID !in trace[|steps|].store.jobs
    requires BlobName(cfg, f) !in trace[|steps|].store.blobs
    ensures Enabled(trace[|steps|], End(c, jobID, true))
    ensures var w' := Next(cfg, trace[|steps|], End(c, jobID, true));
            c in w'.clients && Lists(w'.store, w'.clients[c].saved.checkpointID, BlobName(cfg, f)) &&
            BlobName(cfg, f) !in w'.store.blobs
  {
    OneSent(cfg, f);
    Unrefused(cfg, trace[|steps|], c, ws, f, jobID);
    StruckNameIsGhost(cfg, steps, trace, c, jobID, BlobName(cfg, f));
  }

  /** A client that starts from nothing is not refused. */
  lemma Unrefused(cfg: Config, w: World, c: string, ws: Workspace, f: FileInput, jobID: string)
    requires c in w.clients && w.clients[c].sent == Some(Sent(ws, [f], FRESH)) && jobID !in w.store.jobs
    ensures Answered(cfg, w, c, jobID) && c in Next(cfg, w, End(c, jobID, true)).clients
  {
  }
}
