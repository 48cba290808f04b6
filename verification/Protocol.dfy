/** The delta protocol as a state machine: any number of clients of any users,
    retrieval rounds that may lose their response, uploads, purges, repository
    syncs, pending rows and embeddings, in any order. */
module Protocol {
  import opened Text
  import opened State
  import opened MemoryStore
  import opened Archive
  import opened Service
  import opened Client
  import opened Safety

  datatype Peer = Peer(user: string, saved: ClientState)

  datatype World = World(store: Store, clients: map<string, Peer>)

  datatype Step =
    | Join(client: string, user: string)
    // one search: the response arrives, or it is lost after the first attempt,
    // or after the second
    | Round(client: string, ws: Workspace, files: seq<FileInput>, jobID: string)
    | LostFirst(client: string, ws: Workspace, files: seq<FileInput>, jobID: string)
    | LostLast(client: string, ws: Workspace, files: seq<FileInput>, jobID: string)
    | Upload(files: seq<FileInput>)
    | Purge(key: RowKey)
    | Sync(repo: string, snapID: string, upserts: seq<FileInput>, deleted: seq<string>)
    | Pending(key: RowKey, worktree: bool)
    | Embed(embeddings: seq<Embedding>)

  const START := World(EMPTY, map[])

  // ------------------------------------------------------------ repository sync

  function FilesOf(cfg: Config, fs: seq<FileInput>): (r: seq<File>)
    ensures |r| == |fs| && forall i :: 0 <= i < |fs| ==> r[i] == File(fs[i].path, BlobName(cfg, fs[i]))
  {
    seq(|fs|, i requires 0 <= i < |fs| => File(fs[i].path, BlobName(cfg, fs[i])))
  }

  ghost function RepositoryNames(st: Store, repo: string): set<string> {
    set k | k in st.files && k.0 == repo :: st.files[k]
  }

  /** SyncRepository: upload, replace the manifest, and snapshot the repository
      under a fresh random id. */
  ghost function Synced(cfg: Config, st: Store, repo: string, snapID: string, upserts: seq<FileInput>,
                        deleted: seq<string>): Store
  {
    var s := WithFiles(Uploaded(cfg, st, upserts), repo, FilesOf(cfg, upserts), deleted);
    WithSnapshot(s, snapID, Snapshot(repo, "", Listing(RepositoryNames(s, repo))))
  }

  // ---------------------------------------------------------------------- steps

  /** What the source and its random ids guarantee of a step. */
  ghost predicate Enabled(w: World, step: Step) {
    match step
    case Join(c, _) => c !in w.clients
    case Round(c, _, files, jobID) => c in w.clients && DistinctPaths(files) && jobID !in w.store.jobs
    case LostFirst(c, _, files, jobID) => c in w.clients && DistinctPaths(files) && jobID !in w.store.jobs
    case LostLast(c, _, files, jobID) => c in w.clients && DistinctPaths(files) && jobID !in w.store.jobs
    case Upload(_) => true
    case Purge(key) => true
    case Sync(repo, snapID, _, _) => repo != "" && "snap_" <= snapID && snapID !in w.store.snapshots
    case Pending(_, _) => true
    case Embed(_) => true
  }

  ghost function Next(cfg: Config, w: World, step: Step): World
    requires Enabled(w, step)
  {
    match step
    case Join(c, user) => w.(clients := w.clients[c := Peer(user, FRESH)])
    case Round(c, ws, files, jobID) =>
      var p := w.clients[c];
      var r := Searched(cfg, w.store, p.user, ws, files, p.saved, jobID);
      World(r.0, if r.1.Some? then w.clients[c := Peer(p.user, r.1.value)] else w.clients)
    case LostFirst(c, ws, files, jobID) =>
      var p := w.clients[c];
      w.(store := Attempt(cfg, w.store, p.user, ws, files, p.saved, jobID).0)
    case LostLast(c, ws, files, jobID) =>
      var p := w.clients[c];
      w.(store := Searched(cfg, w.store, p.user, ws, files, p.saved, jobID).0)
    case Upload(files) => w.(store := Uploaded(cfg, w.store, files))
    case Purge(key) => if key in w.store.projects then w.(store := Purged(w.store, key)) else w
    case Sync(repo, snapID, upserts, deleted) => w.(store := Synced(cfg, w.store, repo, snapID, upserts, deleted))
    case Pending(key, worktree) =>
      if key in w.store.projects then w
      else w.(store := w.store.(projects := w.store.projects[key := Row(worktree, "")]))
    case Embed(es) => w.(store := WithEmbeddings(w.store, es))
  }

  /** w is reached from the empty world by the steps, each enabled in its turn. */
  ghost predicate Run(cfg: Config, steps: seq<Step>, w: World)
    decreases |steps|
  {
    if steps == [] then w == START
    else
      var last := steps[|steps| - 1];
      exists v :: Run(cfg, steps[..|steps| - 1], v) && Enabled(v, last) && w == Next(cfg, v, last)
  }

  // ------------------------------------------------------------------- invariant

  /** The saved checkpoint id is the id of the names in the saved manifest. */
  ghost predicate Faithful(cfg: Config, cs: ClientState) {
    && (forall n :: n in cs.blobs.Values ==> n != "" && '\n' !in n)
    && (cs.checkpointID == "" ==> cs.blobs == map[])
    && (cs.checkpointID != "" ==> cs.checkpointID == CheckpointName(cfg, Listing(cs.blobs.Values)))
  }

  ghost predicate Safe(cfg: Config, w: World) {
    Sound(cfg, w.store) && forall c :: c in w.clients ==> Faithful(cfg, w.clients[c].saved)
  }

  lemma ListingLines(s: set<string>)
    requires forall n :: n in s ==> '\n' !in n
    ensures Lines(Listing(s))
  {
    var r := Listing(s);
    forall i | 0 <= i < |r| ensures '\n' !in r[i] { assert r[i] in Elements(r); }
  }

  /** A faithful client whose checkpoint still resolves shares its snapshot with
      the server, name by name, and every name is stored. */
  lemma FaithfulIsExact(cfg: Config, st: Store, cs: ClientState)
    requires SoundHashes(cfg) && Sound(cfg, st) && Faithful(cfg, cs) && cs.checkpointID in st.snapshots
    ensures ContentAddressed(cfg, st, cs.checkpointID)
    ensures Elements(NamesOf(st, cs.checkpointID)) == cs.blobs.Values
    ensures cs.blobs.Values <= st.blobs.Keys
  {
    ListingLines(cs.blobs.Values);
    NoUnnamedSnapshot(cfg, st);
    ResolvesToItsNames(cfg, st, Listing(cs.blobs.Values));
    forall n | n in cs.blobs.Values ensures n in st.blobs {
      assert n in Elements(NamesOf(st, cs.checkpointID));
      assert Lists(st, cs.checkpointID, n);
    }
  }

  lemma FilesNamed(cfg: Config, files: seq<FileInput>)
    requires SoundHashes(cfg)
    ensures forall n :: n in Elements(FileNames(cfg, files)) ==> n != "" && '\n' !in n
    ensures forall f :: f in files ==> BlobName(cfg, f) != ""
  {
  }

  /** What an answered attempt leaves: a sound store and a client state whose
      checkpoint resolves to exactly the names of the current files. */
  ghost predicate Synchronised(cfg: Config, st: Store, user: string, files: seq<FileInput>, cs: ClientState) {
    && Faithful(cfg, cs) && ContentAddressed(cfg, st, cs.checkpointID)
    && cs.blobs == Current(cfg, files)
    && Elements(NamesOf(st, cs.checkpointID)) == Elements(FileNames(cfg, files)) == cs.blobs.Values
    && Elements(FileNames(cfg, files)) <= st.blobs.Keys
    && (user != "" ==> Owns(st, user, cs.checkpointID))
  }

  lemma AttemptIsSafe(cfg: Config, st: Store, user: string, ws: Workspace, files: seq<FileInput>, cs: ClientState,
                      jobID: string)
    requires SoundHashes(cfg) && Sound(cfg, st) && Faithful(cfg, cs) && DistinctPaths(files)
    ensures var r := Attempt(cfg, st, user, ws, files, cs, jobID);
            && Sound(cfg, r.0)
            && (r.1.Some? ==> Synchronised(cfg, r.0, user, files, r.1.value))
            && (cs == FRESH ==> r.1.Some?)
  {
    var changed := Changed(cfg, files, cs.blobs);
    var s := if changed == [] then st else Uploaded(cfg, st, changed);
    UploadGrows(cfg, st, changed);
    RetrievalSynchronises(cfg, s, user, ws, files, cs, jobID);
  }

  /** The retrieval of an attempt, once the changed files are stored. */
  lemma RetrievalSynchronises(cfg: Config, s: Store, user: string, ws: Workspace, files: seq<FileInput>,
                              cs: ClientState, jobID: string)
    requires SoundHashes(cfg) && Sound(cfg, s) && Faithful(cfg, cs) && DistinctPaths(files)
    requires Elements(FileNames(cfg, Changed(cfg, files, cs.blobs))) <= s.blobs.Keys
    ensures var r := Retrieved(cfg, s, user, cs.checkpointID,
                               Elements(FileNames(cfg, Changed(cfg, files, cs.blobs))),
                               Stale(cfg, files, cs.blobs), ws, jobID);
            && (r != Gone ==> Sound(cfg, r.store))
            && (r != Gone ==> Synchronised(cfg, r.store, user, files, ClientState(r.id, Current(cfg, files))))
            && (cs == FRESH ==> r != Gone)
  {
    var added, stale := Elements(FileNames(cfg, Changed(cfg, files, cs.blobs))), Stale(cfg, files, cs.blobs);
    var r := Retrieved(cfg, s, user, cs.checkpointID, added, stale, ws, jobID);
    if r != Gone {
      FilesNamed(cfg, files);
      DeltaExact(cfg, files, cs.blobs);
      if cs.checkpointID != "" { FaithfulIsExact(cfg, s, cs); }
      RetrievalIsExact(cfg, s, user, cs.checkpointID, added, stale, ws, jobID);
      assert Elements(NamesOf(r.store, r.id)) == Elements(FileNames(cfg, files));
      CurrentValues(cfg, files);
      AnswerIsSynchronised(cfg, r.store, files, r.id);
    }
  }

  lemma AnswerIsSynchronised(cfg: Config, st: Store, files: seq<FileInput>, id: string)
    requires SoundHashes(cfg) && Sound(cfg, st) && ContentAddressed(cfg, st, id)
    requires Elements(NamesOf(st, id)) == Elements(FileNames(cfg, files)) == Current(cfg, files).Values
    ensures Faithful(cfg, ClientState(id, Current(cfg, files)))
    ensures Elements(FileNames(cfg, files)) <= st.blobs.Keys
  {
    FilesNamed(cfg, files);
    var names := NamesOf(st, id);
    SortedListingUnique(names, Listing(Current(cfg, files).Values));
    NotARepositorySnapshot(cfg, names);
    forall n | n in Elements(FileNames(cfg, files)) ensures n in st.blobs {
      assert n in Elements(names);
      assert Lists(st, id, n);
    }
  }

  /** A search always ends synchronised: a refused checkpoint (410) only costs a
      second attempt from nothing. */
  lemma SearchSynchronises(cfg: Config, st: Store, user: string, ws: Workspace, files: seq<FileInput>, cs: ClientState,
                           jobID: string)
    requires SoundHashes(cfg) && Sound(cfg, st) && Faithful(cfg, cs) && DistinctPaths(files)
    ensures var r := Searched(cfg, st, user, ws, files, cs, jobID);
            Sound(cfg, r.0) && r.1.Some? && Synchronised(cfg, r.0, user, files, r.1.value)
  {
    AttemptIsSafe(cfg, st, user, ws, files, cs, jobID);
    var first := Attempt(cfg, st, user, ws, files, cs, jobID);
    AttemptIsSafe(cfg, first.0, user, ws, files, FRESH, jobID);
  }

  // ----------------------------------------------------------- searching again

  lemma {:induction false} NothingChanged(cfg: Config, files: seq<FileInput>, blobs: map<string, string>)
    requires forall f :: f in files ==> f.path in blobs && blobs[f.path] == BlobName(cfg, f)
    ensures Changed(cfg, files, blobs) == []
  {
    if files != [] { NothingChanged(cfg, files[..|files| - 1], blobs); }
  }

  lemma CurrentNeedsNoDelta(cfg: Config, files: seq<FileInput>)
    requires DistinctPaths(files)
    ensures Changed(cfg, files, Current(cfg, files)) == [] && Stale(cfg, files, Current(cfg, files)) == {}
  {
    CurrentAt(cfg, files);
    CurrentValues(cfg, files);
    NothingChanged(cfg, files, Current(cfg, files));
  }

  /** An answered attempt, made again with the state it answered, answers the same
      and leaves the store as it is. */
  lemma AttemptRepeats(cfg: Config, st: Store, user: string, ws: Workspace, files: seq<FileInput>, cs: ClientState,
                       jobID: string, jobID': string)
    requires SoundHashes(cfg) && Sound(cfg, st) && Faithful(cfg, cs) && DistinctPaths(files) && jobID !in st.jobs
    requires Attempt(cfg, st, user, ws, files, cs, jobID).1.Some?
    ensures var r := Attempt(cfg, st, user, ws, files, cs, jobID);
            Attempt(cfg, r.0, user, ws, files, r.1.value, jobID') == r
  {
    var changed := Changed(cfg, files, cs.blobs);
    var s := if changed == [] then st else Uploaded(cfg, st, changed);
    UploadGrows(cfg, st, changed);
    var added, stale := Elements(FileNames(cfg, changed)), Stale(cfg, files, cs.blobs);
    if cs.checkpointID in s.snapshots { FaithfulIsExact(cfg, s, cs); }
    RetrievalRepeats(cfg, s, user, cs.checkpointID, added, stale, ws, jobID, jobID');
    CurrentNeedsNoDelta(cfg, files);
    assert Elements(FileNames(cfg, [])) == {};
  }

  lemma SearchRepeats(cfg: Config, st: Store, user: string, ws: Workspace, files: seq<FileInput>, cs: ClientState,
                      jobID: string, jobID': string)
    requires SoundHashes(cfg) && Sound(cfg, st) && Faithful(cfg, cs) && DistinctPaths(files) && jobID !in st.jobs
    ensures var r := Searched(cfg, st, user, ws, files, cs, jobID);
            r.1.Some? && Searched(cfg, r.0, user, ws, files, r.1.value, jobID') == r
  {
    SearchSynchronises(cfg, st, user, ws, files, cs, jobID);
    var first := Attempt(cfg, st, user, ws, files, cs, jobID);
    if first.1.Some? {
      AttemptRepeats(cfg, st, user, ws, files, cs, jobID, jobID');
    } else {
      AttemptIsSafe(cfg, st, user, ws, files, cs, jobID);
      UploadGrows(cfg, st, Changed(cfg, files, cs.blobs));
      AttemptRepeats(cfg, first.0, user, ws, files, FRESH, jobID, jobID');
    }
  }

  // ------------------------------------------------------------- the other steps

  lemma {:induction false} DropFilesKeeps(files: map<(string, string), string>, repo: string, paths: seq<string>)
    ensures forall k :: k in DropFiles(files, repo, paths) ==> k in files && DropFiles(files, repo, paths)[k] == files[k]
    decreases |paths|
  {
    if paths != [] { DropFilesKeeps(files - {(repo, paths[0])}, repo, paths[1..]); }
  }

  lemma {:induction false} PutFilesHolds(files: map<(string, string), string>, repo: string, fs: seq<File>, names: set<string>)
    requires forall k :: k in files ==> files[k] in names
    requires forall i :: 0 <= i < |fs| ==> fs[i].blobName in names
    ensures forall k :: k in PutFiles(files, repo, fs) ==> PutFiles(files, repo, fs)[k] in names
    decreases |fs|
  {
    if fs != [] { PutFilesHolds(files[(repo, fs[0].path) := fs[0].blobName], repo, fs[1..], names); }
  }

  lemma FilesFrame(cfg: Config, st: Store, files: map<(string, string), string>)
    requires Sound(cfg, st) && forall k :: k in files ==> files[k] in st.blobs
    ensures Sound(cfg, st.(files := files))
  {
    var s := st.(files := files);
    assert forall id, n :: Lists(s, id, n) ==> Lists(st, id, n);
    assert forall id :: ContentAddressed(cfg, st, id) ==> ContentAddressed(cfg, s, id);
  }

  lemma SyncIsSafe(cfg: Config, st: Store, repo: string, snapID: string, upserts: seq<FileInput>, deleted: seq<string>)
    requires SoundHashes(cfg) && Sound(cfg, st)
    requires repo != "" && "snap_" <= snapID && snapID !in st.snapshots
    ensures Sound(cfg, Synced(cfg, st, repo, snapID, upserts, deleted))
  {
    var up, fs := Uploaded(cfg, st, upserts), FilesOf(cfg, upserts);
    UploadGrows(cfg, st, upserts);
    forall i | 0 <= i < |fs| ensures fs[i].blobName in up.blobs {
      assert FileNames(cfg, upserts)[i] in Elements(FileNames(cfg, upserts));
    }
    DropFilesKeeps(up.files, repo, deleted);
    PutFilesHolds(DropFiles(up.files, repo, deleted), repo, fs, up.blobs.Keys);
    var s := WithFiles(up, repo, fs, deleted);
    FilesFrame(cfg, up, s.files);
    var names := Listing(RepositoryNames(s, repo));
    forall n | n in names ensures n in s.blobs { assert n in Elements(names); }
    SnapshotKeepsSound(cfg, s, snapID, Snapshot(repo, "", names));
  }

  lemma SearchStepIsSafe(cfg: Config, w: World, step: Step)
    requires SoundHashes(cfg) && Safe(cfg, w) && Enabled(w, step) && (step.Round? || step.LostFirst? || step.LostLast?)
    ensures Safe(cfg, Next(cfg, w, step))
  {
    var p := w.clients[step.client];
    AttemptIsSafe(cfg, w.store, p.user, step.ws, step.files, p.saved, step.jobID);
    SearchSynchronises(cfg, w.store, p.user, step.ws, step.files, p.saved, step.jobID);
  }

  lemma StoreStepIsSafe(cfg: Config, w: World, step: Step)
    requires SoundHashes(cfg) && Sound(cfg, w.store) && Enabled(w, step)
    requires step.Upload? || step.Purge? || step.Sync? || step.Pending? || step.Embed?
    ensures Sound(cfg, Next(cfg, w, step).store) && Next(cfg, w, step).clients == w.clients
  {
    match step
    case Upload(files) => UploadGrows(cfg, w.store, files);
    case Purge(key) => if key in w.store.projects { PurgeKeepsSound(cfg, w.store, key); }
    case Sync(repo, snapID, upserts, deleted) => SyncIsSafe(cfg, w.store, repo, snapID, upserts, deleted);
    case Pending(key, worktree) => SoundFrame(cfg, w.store, Next(cfg, w, step).store);
    case Embed(es) => SoundFrame(cfg, w.store, WithEmbeddings(w.store, es));
  }

  /** Every step of the protocol keeps the world safe. */
  lemma StepIsSafe(cfg: Config, w: World, step: Step)
    requires SoundHashes(cfg) && Safe(cfg, w) && Enabled(w, step)
    ensures Safe(cfg, Next(cfg, w, step))
  {
    if step.Round? || step.LostFirst? || step.LostLast? {
      SearchStepIsSafe(cfg, w, step);
    } else if !step.Join? {
      StoreStepIsSafe(cfg, w, step);
    }
  }

  lemma {:induction false} RunIsSafe(cfg: Config, steps: seq<Step>, w: World)
    requires SoundHashes(cfg) && Run(cfg, steps, w)
    ensures Safe(cfg, w)
    decreases |steps|
  {
    if steps == [] {
      EmptyIsSound(cfg);
    } else {
      var last := steps[|steps| - 1];
      var v :| Run(cfg, steps[..|steps| - 1], v) && Enabled(v, last) && w == Next(cfg, v, last);
      RunIsSafe(cfg, steps[..|steps| - 1], v);
      StepIsSafe(cfg, v, last);
    }
  }

  // ------------------------------------------------------------------- theorems

  /** Safety of the protocol. Over every run of rounds, lost responses, resets,
      uploads, syncs and purges by anyone: whenever a client's saved checkpoint
      still resolves, its snapshot's names are exactly the names in the client's
      saved manifest, and every one of them is stored. */
  lemma SavedCheckpointIsExact(cfg: Config, steps: seq<Step>, w: World, c: string)
    requires SoundHashes(cfg) && Run(cfg, steps, w) && c in w.clients
    requires w.clients[c].saved.checkpointID in w.store.snapshots
    ensures var saved := w.clients[c].saved;
            Elements(NamesOf(w.store, saved.checkpointID)) == saved.blobs.Values && saved.blobs.Values <= w.store.blobs.Keys
  {
    RunIsSafe(cfg, steps, w);
    FaithfulIsExact(cfg, w.store, w.clients[c].saved);
  }

  /** A round that is answered leaves the client's checkpoint equal to its current
      workspace, resolvable, owned by its user and fully stored, whatever
      happened before. */
  lemma RoundReachesWorkspace(cfg: Config, steps: seq<Step>, w: World, c: string, ws: Workspace, files: seq<FileInput>,
                              jobID: string)
    requires SoundHashes(cfg) && Run(cfg, steps, w) && Enabled(w, Round(c, ws, files, jobID))
    ensures var w' := Next(cfg, w, Round(c, ws, files, jobID));
            Synchronised(cfg, w'.store, w.clients[c].user, files, w'.clients[c].saved)
  {
    RunIsSafe(cfg, steps, w);
    SearchSynchronises(cfg, w.store, w.clients[c].user, ws, files, w.clients[c].saved, jobID);
  }

  lemma RoundUnfolds(cfg: Config, w: World, c: string, ws: Workspace, files: seq<FileInput>, jobID: string)
    requires Enabled(w, Round(c, ws, files, jobID))
    ensures var p := w.clients[c];
            var r := Searched(cfg, w.store, p.user, ws, files, p.saved, jobID);
            r.1.Some? ==> Next(cfg, w, Round(c, ws, files, jobID)) == World(r.0, w.clients[c := Peer(p.user, r.1.value)])
  {
  }

  /** Searching again with nothing edited and nobody in between is idle, whatever
      happened before: no row wanders, no job is added, nothing is stored. */
  lemma RepeatedRoundIsIdle(cfg: Config, steps: seq<Step>, w: World, c: string, ws: Workspace, files: seq<FileInput>,
                            jobID: string, jobID': string)
    requires SoundHashes(cfg) && Run(cfg, steps, w) && Enabled(w, Round(c, ws, files, jobID))
    requires jobID' !in Next(cfg, w, Round(c, ws, files, jobID)).store.jobs
    ensures var w' := Next(cfg, w, Round(c, ws, files, jobID)); Next(cfg, w', Round(c, ws, files, jobID')) == w'
  {
    RunIsSafe(cfg, steps, w);
    SearchRepeats(cfg, w.store, w.clients[c].user, ws, files, w.clients[c].saved, jobID, jobID');
    RoundUnfolds(cfg, w, c, ws, files, jobID);
    var w' := Next(cfg, w, Round(c, ws, files, jobID));
    RoundUnfolds(cfg, w', c, ws, files, jobID');
    assert w'.clients[c := w'.clients[c]] == w'.clients;
  }

  /** Over every run, every project row and every checkpoint pointer resolves to a
      stored snapshot, and every blob a snapshot or repository file names exists:
      no sequence of purges leaves a dangling reference. */
  lemma NothingDangles(cfg: Config, steps: seq<Step>, w: World)
    requires SoundHashes(cfg) && Run(cfg, steps, w)
    ensures forall k :: k in w.store.projects ==>
              w.store.projects[k].snapshotID == "" || w.store.projects[k].snapshotID in w.store.snapshots
    ensures forall u :: u in w.store.checkpoints ==> w.store.checkpoints[u] in w.store.snapshots
    ensures forall id, n :: Lists(w.store, id, n) ==> n in w.store.blobs
    ensures forall f :: f in w.store.files ==> w.store.files[f] in w.store.blobs
  {
    RunIsSafe(cfg, steps, w);
  }

  lemma CheckpointsListOnce(cfg: Config, st: Store)
    requires Sound(cfg, st)
    ensures ListsOnce(st) && GhostsBare(st)
  {
    forall x | x in st.snapshots && st.snapshots[x].repositoryID == ""
      ensures NoDuplicates(st.snapshots[x].blobNames)
    {
      StrictlySortedNoDuplicates(st.snapshots[x].blobNames);
    }
  }

  /** On every reachable store the loops of the in-memory purge and the SQL
      transaction leave one and the same store. */
  lemma PurgeAgreesWithSQL(cfg: Config, steps: seq<Step>, w: World, key: RowKey)
    requires SoundHashes(cfg) && Run(cfg, steps, w) && key in w.store.projects
    ensures PurgedSQL(w.store, key) == Purged(w.store, key)
  {
    RunIsSafe(cfg, steps, w);
    CheckpointsListOnce(cfg, w.store);
    PurgesAgree(w.store, key);
  }
}
