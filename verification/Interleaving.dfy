/** The delta protocol with a client's upload and retrieval as two steps, between
    which anyone may do anything: what a purge in between can break, and what it
    cannot. */
module Interleaving {
  import opened Domain
  import opened Text
  import opened State
  import opened MemoryStore
  import opened Archive
  import opened Service
  import opened Client
  import opened Safety
  import Protocol

  /** What a client has uploaded and not yet retrieved for, and the state its delta
      starts from. */
  datatype Sent = Sent(ws: Workspace, files: seq<FileInput>, from: ClientState)

  datatype Peer = Peer(user: string, saved: ClientState, sent: Option<Sent>)

  datatype World = World(store: Store, clients: map<string, Peer>)

  datatype Step =
    | Join(client: string, user: string)
    | Begin(client: string, ws: Workspace, files: seq<FileInput>, anew: bool)
    | End(client: string, jobID: string, answered: bool) // the response may be lost
    | Shared(step: Protocol.Step)                        // upload, purge, sync, pending row, embeddings

  const START := World(EMPTY, map[])

  /** The names of the files a client found changed. */
  function Added(cfg: Config, s: Sent): set<string> {
    Elements(FileNames(cfg, Changed(cfg, s.files, s.from.blobs)))
  }

  ghost predicate Enabled(w: World, step: Step) {
    match step
    case Join(c, _) => c !in w.clients
    case Begin(c, _, files, _) => c in w.clients && DistinctPaths(files)
    case End(c, jobID, _) => c in w.clients && w.clients[c].sent.Some? && jobID !in w.store.jobs
    case Shared(s) => Protocol.Enabled(Protocol.World(w.store, map[]), s)
  }

  ghost function Answer(cfg: Config, st: Store, user: string, s: Sent, jobID: string): Resolved {
    Retrieved(cfg, st, user, s.from.checkpointID, Added(cfg, s), Stale(cfg, s.files, s.from.blobs), s.ws, jobID)
  }

  ghost function Next(cfg: Config, w: World, step: Step): World
    requires Enabled(w, step)
  {
    match step
    case Join(c, user) => w.(clients := w.clients[c := Peer(user, FRESH, None)])
    case Begin(c, ws, files, anew) =>
      var p := w.clients[c];
      var from := if anew then FRESH else p.saved;
      World(Uploaded(cfg, w.store, Changed(cfg, files, from.blobs)),
            w.clients[c := p.(sent := Some(Sent(ws, files, from)))])
    case End(c, jobID, answered) =>
      var p := w.clients[c];
      var s := p.sent.value;
      var r := Answer(cfg, w.store, p.user, s, jobID);
      if r == Gone then w.(clients := w.clients[c := p.(sent := None)])
      else
        var saved := if answered then ClientState(r.id, Current(cfg, s.files)) else p.saved;
        World(r.store, w.clients[c := Peer(p.user, saved, None)])
    case Shared(s) => w.(store := Protocol.Next(cfg, Protocol.World(w.store, map[]), s).store)
  }

  /** The worlds of a run: the first is empty and each step leads to the next. */
  ghost predicate Run(cfg: Config, steps: seq<Step>, trace: seq<World>) {
    && |trace| == |steps| + 1 && trace[0] == START
    && forall k :: 0 <= k < |steps| ==> Enabled(trace[k], steps[k]) && trace[k + 1] == Next(cfg, trace[k], steps[k])
  }

  /** Some client has uploaded the name and not yet retrieved for it. */
  ghost predicate Awaited(cfg: Config, w: World, n: string) {
    exists c :: c in w.clients && w.clients[c].sent.Some? && n in Added(cfg, w.clients[c].sent.value)
  }

  /** The step is a purge that removes the name while a client awaits it. */
  ghost predicate Struck(cfg: Config, w: World, step: Step, w': World, n: string) {
    step.Shared? && step.step.Purge? && n in w.store.blobs && n !in w'.store.blobs && Awaited(cfg, w, n)
  }

  ghost function StruckSet(cfg: Config, w: World, step: Step, w': World): set<string> {
    set n | n in w.store.blobs && Struck(cfg, w, step, w', n)
  }

  /** The names struck in the run that have not been stored again since. */
  ghost function Missing(cfg: Config, steps: seq<Step>, trace: seq<World>): set<string>
    requires |trace| == |steps| + 1
  {
    if steps == [] then {}
    else
      var k := |steps| - 1;
      Missing(cfg, steps[..k], trace[..k + 1]) + StruckSet(cfg, trace[k], steps[k], trace[k + 1])
      - trace[k + 1].store.blobs.Keys
  }

  // ---------------------------------------------------- a store with names missing

  /** The store as if the lost names were still there. */
  function Filled(st: Store, lost: set<string>): Store {
    st.(blobs := (map n | n in lost :: Blob("", "")) + st.blobs)
  }

  ghost predicate Names(lost: set<string>) {
    forall n :: n in lost ==> n != "" && '\n' !in n && ':' !in n
  }

  /** Sound but for the lost names. */
  ghost predicate SoundBut(cfg: Config, st: Store, lost: set<string>) {
    Names(lost) && Sound(cfg, Filled(st, lost))
  }

  ghost predicate SafeBut(cfg: Config, w: World, lost: set<string>) {
    SoundBut(cfg, w.store, lost) && forall c :: c in w.clients ==> PeerSafe(cfg, w.store, w.clients[c], lost)
  }

  /** What a client has saved is faithful, and what it sent is stored or lost. */
  ghost predicate PeerSafe(cfg: Config, st: Store, p: Peer, lost: set<string>) {
    && Protocol.Faithful(cfg, p.saved)
    && (p.sent.Some? ==>
          var s := p.sent.value;
          Protocol.Faithful(cfg, s.from) && DistinctPaths(s.files) && Added(cfg, s) <= st.blobs.Keys + lost)
  }

  /** Same snapshots, rows, pointers and files, and no name fewer. */
  ghost predicate Covers(a: Store, b: Store) {
    && a.snapshots == b.snapshots && a.files == b.files && a.projects == b.projects && a.checkpoints == b.checkpoints
    && a.blobs.Keys <= b.blobs.Keys
  }

  lemma CoveredIsSound(cfg: Config, a: Store, b: Store)
    requires Sound(cfg, a) && Covers(a, b) && forall n :: n in b.blobs ==> n != "" && '\n' !in n && ':' !in n
    ensures Sound(cfg, b)
  {
    SoundFrame(cfg, a, b);
  }

  lemma FilledKeys(st: Store, lost: set<string>)
    ensures Filled(st, lost).blobs.Keys == st.blobs.Keys + lost
  {
  }

  // --------------------------------------------------------------------- upload

  lemma UploadKeepsSoundBut(cfg: Config, st: Store, lost: set<string>, fs: seq<FileInput>)
    requires SoundHashes(cfg) && SoundBut(cfg, st, lost)
    ensures SoundBut(cfg, Uploaded(cfg, st, fs), lost)
  {
    var s := Uploaded(cfg, st, fs);
    UploadCatalogue(cfg, st, fs);
    FilledKeys(st, lost);
    FilledKeys(s, lost);
    forall n | n in Filled(s, lost).blobs ensures n != "" && '\n' !in n && ':' !in n {
      assert n in Filled(st, lost).blobs || n in Elements(FileNames(cfg, fs));
    }
    CoveredIsSound(cfg, Filled(st, lost), Filled(s, lost));
  }

  // ---------------------------------------------------------------------- purge

  lemma SameDoomed(a: Store, b: Store, user: string, purged: string)
    requires a.snapshots == b.snapshots && a.projects == b.projects && a.checkpoints == b.checkpoints
    ensures DoomedSet(a, user, purged) == DoomedSet(b, user, purged)
  {
    forall id ensures Doomed(a, user, purged, id) <==> Doomed(b, user, purged, id) {
      assert Needed(a, user, id) <==> Needed(b, user, id);
    }
  }

  lemma SameDead(a: Store, b: Store, doomed: set<string>)
    requires a.snapshots == b.snapshots && a.files == b.files
    ensures DeadSet(a, doomed) == DeadSet(b, doomed)
  {
    forall n ensures n in DeadSet(a, doomed) <==> n in DeadSet(b, doomed) {
      DeadSetMember(a, doomed, n);
      DeadSetMember(b, doomed, n);
      assert forall id :: Lists(a, id, n) <==> Lists(b, id, n);
    }
  }

  lemma PurgeShape(st: Store, key: RowKey, doomed: set<string>, dead: set<string>)
    requires key in st.projects && doomed == DoomedSet(WithoutRow(st, key), key.user, st.projects[key].snapshotID)
    requires dead == DeadSet(WithoutRow(st, key), doomed)
    ensures var t := Purged(st, key);
            && t.snapshots == st.snapshots - doomed && t.files == st.files && t.projects == st.projects - {key}
            && t.checkpoints == WithoutSnapshots(st, key.user, doomed).checkpoints && t.blobs == st.blobs - dead
  {
  }

  lemma FilledPurge(st: Store, lost: set<string>, key: RowKey)
    requires key in st.projects
    ensures Covers(Purged(Filled(st, lost), key), Filled(Purged(st, key), lost))
    ensures Purged(st, key).blobs.Keys <= st.blobs.Keys
  {
    var s, f := WithoutRow(st, key), WithoutRow(Filled(st, lost), key);
    SameDoomed(s, f, key.user, st.projects[key].snapshotID);
    var doomed := DoomedSet(s, key.user, st.projects[key].snapshotID);
    SameDead(s, f, doomed);
    PurgeShape(st, key, doomed, DeadSet(s, doomed));
    PurgeShape(Filled(st, lost), key, doomed, DeadSet(s, doomed));
    FilledKeys(st, lost);
    FilledKeys(Purged(st, key), lost);
  }

  lemma PurgeKeepsSoundBut(cfg: Config, st: Store, lost: set<string>, key: RowKey)
    requires SoundBut(cfg, st, lost) && key in st.projects
    ensures SoundBut(cfg, Purged(st, key), lost)
  {
    PurgeKeepsSound(cfg, Filled(st, lost), key);
    FilledPurge(st, lost, key);
    FilledKeys(st, lost);
    FilledKeys(Purged(st, key), lost);
    CoveredIsSound(cfg, Purged(Filled(st, lost), key), Filled(Purged(st, key), lost));
  }

  lemma MoreLost(cfg: Config, st: Store, lost: set<string>, more: set<string>)
    requires SoundBut(cfg, st, lost) && Names(more)
    ensures SoundBut(cfg, st, lost + more)
  {
    FilledKeys(st, lost);
    FilledKeys(st, lost + more);
    CoveredIsSound(cfg, Filled(st, lost), Filled(st, lost + more));
  }

  lemma Trimmed(cfg: Config, w: World, lost: set<string>)
    requires SafeBut(cfg, w, lost)
    ensures SafeBut(cfg, w, lost - w.store.blobs.Keys)
  {
    var less := lost - w.store.blobs.Keys;
    FilledKeys(w.store, lost);
    FilledKeys(w.store, less);
    CoveredIsSound(cfg, Filled(w.store, lost), Filled(w.store, less));
    forall c | c in w.clients ensures PeerSafe(cfg, w.store, w.clients[c], less) {
      assert PeerSafe(cfg, w.store, w.clients[c], lost);
    }
  }

  // ------------------------------------------------------------------ retrieval

  lemma SameMatches(a: Store, b: Store, user: string, id: string)
    requires a.snapshots == b.snapshots && a.projects == b.projects
    ensures MatchSet(a, user, id) == MatchSet(b, user, id)
  {
    forall m ensures m in MatchSet(a, user, id) <==> m in MatchSet(b, user, id) {
      assert Matches(a, user, id, m) <==> Matches(b, user, id, m);
    }
  }

  lemma SameLanding(a: Store, b: Store, user: string, id: string, ws: Workspace)
    requires a.snapshots == b.snapshots && a.projects == b.projects
    ensures Landed(a, user, id, ws) == Landed(b, user, id, ws)
    ensures FoldedKeys(a, user, id, ws) == FoldedKeys(b, user, id, ws)
  {
    SameMatches(a, b, user, id);
  }

  lemma ArchivedFilled(st: Store, lost: set<string>, user: string, id: string, ws: Workspace, changed: bool, jobID: string)
    ensures Archived(Filled(st, lost), user, id, ws, changed, jobID) ==
            Filled(Archived(st, user, id, ws, changed, jobID), lost)
  {
    SameLanding(Filled(st, lost), st, user, id, ws);
  }

  function FilledAnswer(r: Resolved, lost: set<string>): Resolved {
    match r
    case Gone => Gone
    case Resolved(id, st) => Resolved(id, Filled(st, lost))
  }

  lemma MintFilled(cfg: Config, st: Store, lost: set<string>, claimed: string, names: seq<string>)
    ensures MintCheckpoint(cfg, Filled(st, lost), claimed, names) ==
            FilledAnswer(MintCheckpoint(cfg, st, claimed, names), lost)
  {
    var id := CheckpointName(cfg, names);
    var sn := Snapshot("", claimed, names);
    assert WithSnapshot(Filled(st, lost), id, sn) == Filled(WithSnapshot(st, id, sn), lost);
  }

  lemma ResolveFilled(cfg: Config, st: Store, lost: set<string>, claimed: string, added: set<string>, deleted: set<string>)
    ensures Resolve(cfg, Filled(st, lost), claimed, added, deleted) ==
            FilledAnswer(Resolve(cfg, st, claimed, added, deleted), lost)
  {
    var names := ResolvedNames(st, claimed, added, deleted);
    assert ResolvedNames(Filled(st, lost), claimed, added, deleted) == names;
    MintFilled(cfg, st, lost, claimed, Listing(names));
  }

  /** A retrieval does not look at the blobs, so missing ones go unnoticed. */
  lemma RetrievedFilled(cfg: Config, st: Store, lost: set<string>, user: string, claimed: string, added: set<string>,
                        deleted: set<string>, ws: Workspace, jobID: string)
    ensures Retrieved(cfg, Filled(st, lost), user, claimed, added, deleted, ws, jobID) ==
            FilledAnswer(Retrieved(cfg, st, user, claimed, added, deleted, ws, jobID), lost)
  {
    ResolveFilled(cfg, st, lost, claimed, added, deleted);
    var r := Resolve(cfg, st, claimed, added, deleted);
    assert Owns(Filled(st, lost), user, claimed) <==> Owns(st, user, claimed);
    if r != Gone && user != "" {
      assert WithCheckpoint(Filled(r.store, lost), user, r.id) == Filled(WithCheckpoint(r.store, user, r.id), lost);
      ArchivedFilled(WithCheckpoint(r.store, user, r.id), lost, user, r.id, ws, added + deleted != {}, jobID);
    }
  }

  lemma RetrievedKeepsBlobs(cfg: Config, st: Store, user: string, claimed: string, added: set<string>,
                            deleted: set<string>, ws: Workspace, jobID: string)
    ensures var r := Retrieved(cfg, st, user, claimed, added, deleted, ws, jobID);
            r != Gone ==> r.store.blobs == st.blobs
  {
    var r := Resolve(cfg, st, claimed, added, deleted);
    assert r != Gone ==> r.store.blobs == st.blobs;
  }

  /** What holds after an answer: manifest and snapshot list the names of the files
      sent. */
  ghost predicate Agrees(cfg: Config, st: Store, files: seq<FileInput>, saved: ClientState) {
    && Protocol.Faithful(cfg, saved) && ContentAddressed(cfg, st, saved.checkpointID)
    && Elements(NamesOf(st, saved.checkpointID)) == Elements(FileNames(cfg, files)) == saved.blobs.Values
  }

  lemma AnswerAgrees(cfg: Config, st: Store, lost: set<string>, user: string, s: Sent, jobID: string)
    requires SoundHashes(cfg) && SoundBut(cfg, st, lost) && Protocol.Faithful(cfg, s.from) && DistinctPaths(s.files)
    requires Added(cfg, s) <= st.blobs.Keys + lost && Answer(cfg, st, user, s, jobID) != Gone
    ensures var r := Answer(cfg, st, user, s, jobID);
            && SoundBut(cfg, r.store, lost) && r.store.blobs == st.blobs
            && Agrees(cfg, r.store, s.files, ClientState(r.id, Current(cfg, s.files)))
  {
    var stale := Stale(cfg, s.files, s.from.blobs);
    FilledKeys(st, lost);
    RetrievedFilled(cfg, st, lost, user, s.from.checkpointID, Added(cfg, s), stale, s.ws, jobID);
    RetrievedKeepsBlobs(cfg, st, user, s.from.checkpointID, Added(cfg, s), stale, s.ws, jobID);
    Protocol.RetrievalSynchronises(cfg, Filled(st, lost), user, s.ws, s.files, s.from, jobID);
  }

  // ----------------------------------------------------------------- other steps

  lemma FilledSync(cfg: Config, st: Store, lost: set<string>, repo: string, snapID: string, upserts: seq<FileInput>,
                   deleted: seq<string>)
    ensures Covers(Protocol.Synced(cfg, Filled(st, lost), repo, snapID, upserts, deleted),
                   Filled(Protocol.Synced(cfg, st, repo, snapID, upserts, deleted), lost))
    ensures Protocol.Synced(cfg, st, repo, snapID, upserts, deleted).blobs == Uploaded(cfg, st, upserts).blobs
  {
    var s, f := Uploaded(cfg, st, upserts), Uploaded(cfg, Filled(st, lost), upserts);
    UploadCatalogue(cfg, st, upserts);
    UploadCatalogue(cfg, Filled(st, lost), upserts);
    FilledKeys(st, lost);
    FilledKeys(s, lost);
    SameSync(cfg, s, f, repo, snapID, upserts, deleted);
    FilledKeys(Protocol.Synced(cfg, st, repo, snapID, upserts, deleted), lost);
  }

  lemma SameSync(cfg: Config, a: Store, b: Store, repo: string, snapID: string, upserts: seq<FileInput>, deleted: seq<string>)
    requires a.snapshots == b.snapshots && a.files == b.files
    ensures var s, t := WithFiles(a, repo, Protocol.FilesOf(cfg, upserts), deleted),
                        WithFiles(b, repo, Protocol.FilesOf(cfg, upserts), deleted);
            s.files == t.files && Protocol.RepositoryNames(s, repo) == Protocol.RepositoryNames(t, repo)
  {
  }

  /** A step of the others keeps what a client relies on, names struck by a purge
      aside. */
  lemma SharedKeepsSoundBut(cfg: Config, st: Store, lost: set<string>, step: Protocol.Step)
    requires SoundHashes(cfg) && SoundBut(cfg, st, lost) && Protocol.Enabled(Protocol.World(st, map[]), step)
    ensures var t := Protocol.Next(cfg, Protocol.World(st, map[]), step).store;
            SoundBut(cfg, t, lost) && (!step.Purge? ==> st.blobs.Keys <= t.blobs.Keys)
  {
    var w := Protocol.World(st, map[]);
    var t := Protocol.Next(cfg, w, step).store;
    match step
    case Join(_, _) =>
    case Upload(fs) =>
      UploadKeepsSoundBut(cfg, st, lost, fs);
      UploadCatalogue(cfg, st, fs);
    case Purge(key) => if key in st.projects { PurgeKeepsSoundBut(cfg, st, lost, key); }
    case Sync(repo, snapID, upserts, deleted) =>
      SyncKeepsSoundBut(cfg, st, lost, repo, snapID, upserts, deleted);
      UploadCatalogue(cfg, st, upserts);
    case Pending(key, worktree) =>
      if key !in st.projects { PendingKeepsSoundBut(cfg, st, lost, key, worktree); }
    case Embed(es) => EmbedKeepsSoundBut(cfg, st, lost, es);
  }

  lemma PendingKeepsSoundBut(cfg: Config, st: Store, lost: set<string>, key: RowKey, worktree: bool)
    requires SoundBut(cfg, st, lost)
    ensures SoundBut(cfg, st.(projects := st.projects[key := Row(worktree, "")]), lost)
  {
    SoundFrame(cfg, Filled(st, lost), Filled(st.(projects := st.projects[key := Row(worktree, "")]), lost));
  }

  lemma EmbedKeepsSoundBut(cfg: Config, st: Store, lost: set<string>, es: seq<Embedding>)
    requires SoundBut(cfg, st, lost)
    ensures SoundBut(cfg, WithEmbeddings(st, es), lost) && WithEmbeddings(st, es).blobs == st.blobs
  {
    SoundFrame(cfg, Filled(st, lost), Filled(WithEmbeddings(st, es), lost));
  }

  lemma SyncKeepsSoundBut(cfg: Config, st: Store, lost: set<string>, repo: string, snapID: string,
                          upserts: seq<FileInput>, deleted: seq<string>)
    requires SoundHashes(cfg) && SoundBut(cfg, st, lost)
    requires repo != "" && "snap_" <= snapID && snapID !in st.snapshots
    ensures SoundBut(cfg, Protocol.Synced(cfg, st, repo, snapID, upserts, deleted), lost)
    ensures Protocol.Synced(cfg, st, repo, snapID, upserts, deleted).blobs == Uploaded(cfg, st, upserts).blobs
  {
    var t := Protocol.Synced(cfg, st, repo, snapID, upserts, deleted);
    Protocol.SyncIsSafe(cfg, Filled(st, lost), repo, snapID, upserts, deleted);
    FilledSync(cfg, st, lost, repo, snapID, upserts, deleted);
    UploadKeepsSoundBut(cfg, st, lost, upserts);
    FilledKeys(t, lost);
    FilledKeys(Uploaded(cfg, st, upserts), lost);
    CoveredIsSound(cfg, Protocol.Synced(cfg, Filled(st, lost), repo, snapID, upserts, deleted), Filled(t, lost));
  }

  // ------------------------------------------------------------------------ runs

  lemma StruckAreNames(cfg: Config, w: World, step: Step, w': World, lost: set<string>)
    requires SafeBut(cfg, w, lost)
    ensures Names(StruckSet(cfg, w, step, w')) && Names(lost + StruckSet(cfg, w, step, w'))
  {
    FilledKeys(w.store, lost);
    forall n | n in StruckSet(cfg, w, step, w') ensures n != "" && '\n' !in n && ':' !in n {
      assert n in Filled(w.store, lost).blobs;
    }
  }

  /** What a client awaits stays stored, or is struck. */
  lemma AwaitedStays(cfg: Config, w: World, step: Step, lost: set<string>, c: string)
    requires SafeBut(cfg, w, lost) && step.Shared? && Enabled(w, step) && c in w.clients
    requires !step.step.Purge? ==> w.store.blobs.Keys <= Next(cfg, w, step).store.blobs.Keys
    ensures var w' := Next(cfg, w, step);
            PeerSafe(cfg, w'.store, w.clients[c], lost + StruckSet(cfg, w, step, w'))
  {
    var w', p := Next(cfg, w, step), w.clients[c];
    assert PeerSafe(cfg, w.store, p, lost);
    if p.sent.Some? {
      forall n | n in Added(cfg, p.sent.value) ensures n in w'.store.blobs || n in lost + StruckSet(cfg, w, step, w') {
        if n in w.store.blobs && n !in w'.store.blobs { assert Awaited(cfg, w, n); }
      }
    }
  }

  lemma SharedIsSafeBut(cfg: Config, w: World, step: Step, lost: set<string>)
    requires SoundHashes(cfg) && SafeBut(cfg, w, lost) && step.Shared? && Enabled(w, step)
    ensures var w' := Next(cfg, w, step); SafeBut(cfg, w', lost + StruckSet(cfg, w, step, w'))
  {
    var w' := Next(cfg, w, step);
    SharedKeepsSoundBut(cfg, w.store, lost, step.step);
    StruckAreNames(cfg, w, step, w', lost);
    MoreLost(cfg, w'.store, lost, StruckSet(cfg, w, step, w'));
    forall c | c in w'.clients ensures PeerSafe(cfg, w'.store, w'.clients[c], lost + StruckSet(cfg, w, step, w')) {
      AwaitedStays(cfg, w, step, lost, c);
    }
  }

  lemma OthersStaySafe(cfg: Config, w: World, st: Store, lost: set<string>)
    requires SafeBut(cfg, w, lost) && w.store.blobs.Keys <= st.blobs.Keys
    ensures forall c :: c in w.clients ==> PeerSafe(cfg, st, w.clients[c], lost)
  {
  }

  lemma BeginnerIsSafe(cfg: Config, st: Store, p: Peer, s: Sent, lost: set<string>)
    requires Protocol.Faithful(cfg, p.saved) && Protocol.Faithful(cfg, s.from) && DistinctPaths(s.files)
    ensures PeerSafe(cfg, Uploaded(cfg, st, Changed(cfg, s.files, s.from.blobs)), p.(sent := Some(s)), lost)
  {
    UploadCatalogue(cfg, st, Changed(cfg, s.files, s.from.blobs));
  }

  lemma BeginIsSafeBut(cfg: Config, w: World, step: Step, lost: set<string>)
    requires SoundHashes(cfg) && SafeBut(cfg, w, lost) && step.Begin? && Enabled(w, step)
    ensures SafeBut(cfg, Next(cfg, w, step), lost)
  {
    var p := w.clients[step.client];
    var s := Sent(step.ws, step.files, if step.anew then FRESH else p.saved);
    var changed := Changed(cfg, s.files, s.from.blobs);
    assert PeerSafe(cfg, w.store, p, lost);
    UploadKeepsSoundBut(cfg, w.store, lost, changed);
    UploadCatalogue(cfg, w.store, changed);
    OthersStaySafe(cfg, w, Uploaded(cfg, w.store, changed), lost);
    BeginnerIsSafe(cfg, w.store, p, s, lost);
  }

  lemma EndIsSafeBut(cfg: Config, w: World, step: Step, lost: set<string>)
    requires SoundHashes(cfg) && SafeBut(cfg, w, lost) && step.End? && Enabled(w, step)
    ensures SafeBut(cfg, Next(cfg, w, step), lost)
  {
    var w', p := Next(cfg, w, step), w.clients[step.client];
    assert PeerSafe(cfg, w.store, p, lost);
    if Answer(cfg, w.store, p.user, p.sent.value, step.jobID) != Gone {
      AnswerAgrees(cfg, w.store, lost, p.user, p.sent.value, step.jobID);
    }
    OthersStaySafe(cfg, w, w'.store, lost);
    assert PeerSafe(cfg, w'.store, w'.clients[step.client], lost);
  }

  lemma JoinIsSafeBut(cfg: Config, w: World, step: Step, lost: set<string>)
    requires SafeBut(cfg, w, lost) && step.Join? && Enabled(w, step)
    ensures SafeBut(cfg, Next(cfg, w, step), lost)
  {
    OthersStaySafe(cfg, w, w.store, lost);
  }

  lemma OnlyPurgesStrike(cfg: Config, w: World, step: Step, w': World, lost: set<string>)
    requires !step.Shared?
    ensures lost + StruckSet(cfg, w, step, w') == lost
  {
  }

  lemma StepIsSafeBut(cfg: Config, w: World, step: Step, lost: set<string>)
    requires SoundHashes(cfg) && SafeBut(cfg, w, lost) && Enabled(w, step)
    ensures var w' := Next(cfg, w, step); SafeBut(cfg, w', lost + StruckSet(cfg, w, step, w'))
  {
    if step.Shared? {
      SharedIsSafeBut(cfg, w, step, lost);
    } else {
      OnlyPurgesStrike(cfg, w, step, Next(cfg, w, step), lost);
      if step.Join? {
        JoinIsSafeBut(cfg, w, step, lost);
      } else if step.Begin? {
        BeginIsSafeBut(cfg, w, step, lost);
      } else {
        EndIsSafeBut(cfg, w, step, lost);
      }
    }
  }

  lemma RunPrefix(cfg: Config, steps: seq<Step>, trace: seq<World>)
    requires Run(cfg, steps, trace) && steps != []
    ensures Run(cfg, steps[..|steps| - 1], trace[..|steps|])
  {
  }

  lemma {:induction false} RunIsSafeBut(cfg: Config, steps: seq<Step>, trace: seq<World>)
    requires SoundHashes(cfg) && Run(cfg, steps, trace)
    ensures SafeBut(cfg, trace[|steps|], Missing(cfg, steps, trace))
  {
    if steps == [] {
      EmptyIsSound(cfg);
      assert Filled(EMPTY, {}).blobs == EMPTY.blobs;
    } else {
      var k := |steps| - 1;
      var before := Missing(cfg, steps[..k], trace[..k + 1]);
      RunPrefix(cfg, steps, trace);
      RunIsSafeBut(cfg, steps[..k], trace[..k + 1]);
      StepIsSafeBut(cfg, trace[k], steps[k], before);
      Trimmed(cfg, trace[k + 1], before + StruckSet(cfg, trace[k], steps[k], trace[k + 1]));
    }
  }

  /** Step k of the run strikes the name, and it has not been stored again since. */
  ghost predicate StruckForGood(cfg: Config, steps: seq<Step>, trace: seq<World>, n: string, k: nat)
    requires |trace| == |steps| + 1
  {
    && k < |steps| && Struck(cfg, trace[k], steps[k], trace[k + 1], n)
    && forall j :: k < j <= |steps| ==> n !in trace[j].store.blobs
  }

  lemma StruckLater(cfg: Config, steps: seq<Step>, trace: seq<World>, n: string, k: nat)
    requires |trace| == |steps| + 1 && k < |steps| - 1
    ensures var last := |steps| - 1;
            StruckForGood(cfg, steps, trace, n, k) <==>
            StruckForGood(cfg, steps[..last], trace[..|steps|], n, k) && n !in trace[|steps|].store.blobs
  {
    var init, pre := steps[..|steps| - 1], trace[..|steps|];
    assert init[k] == steps[k] && pre[k] == trace[k] && pre[k + 1] == trace[k + 1];
    if StruckForGood(cfg, steps, trace, n, k) {
      forall j | k < j <= |init| ensures n !in pre[j].store.blobs { assert pre[j] == trace[j]; }
    }
    if StruckForGood(cfg, init, pre, n, k) && n !in trace[|steps|].store.blobs {
      forall j | k < j <= |steps| ensures n !in trace[j].store.blobs {
        if j < |steps| { assert pre[j] == trace[j]; }
      }
    }
  }

  lemma StruckLast(cfg: Config, steps: seq<Step>, trace: seq<World>, n: string)
    requires |trace| == |steps| + 1 && steps != []
    ensures var last := |steps| - 1;
            StruckForGood(cfg, steps, trace, n, last) <==> n in StruckSet(cfg, trace[last], steps[last], trace[|steps|])
  {
  }

  lemma {:induction false} StruckIsMissing(cfg: Config, steps: seq<Step>, trace: seq<World>, n: string, k: nat)
    requires |trace| == |steps| + 1 && StruckForGood(cfg, steps, trace, n, k)
    ensures n in Missing(cfg, steps, trace)
    decreases |steps|
  {
    var last := |steps| - 1;
    if k < last {
      StruckLater(cfg, steps, trace, n, k);
      StruckIsMissing(cfg, steps[..last], trace[..|steps|], n, k);
    } else {
      StruckLast(cfg, steps, trace, n);
    }
  }

  lemma {:induction false} MissingIsStruck(cfg: Config, steps: seq<Step>, trace: seq<World>, n: string) returns (k: nat)
    requires |trace| == |steps| + 1 && n in Missing(cfg, steps, trace)
    ensures StruckForGood(cfg, steps, trace, n, k)
    decreases |steps|
  {
    k := |steps| - 1;
    if n in Missing(cfg, steps[..k], trace[..|steps|]) {
      var last := k;
      k := MissingIsStruck(cfg, steps[..last], trace[..|steps|], n);
      StruckLater(cfg, steps, trace, n, k);
    } else {
      StruckLast(cfg, steps, trace, n);
    }
  }

  /** The missing names are those that some step struck for good. */
  lemma MissingIs(cfg: Config, steps: seq<Step>, trace: seq<World>, n: string)
    requires |trace| == |steps| + 1
    ensures n in Missing(cfg, steps, trace) <==> exists k :: StruckForGood(cfg, steps, trace, n, k)
  {
    if n in Missing(cfg, steps, trace) { var k := MissingIsStruck(cfg, steps, trace, n); }
    if k: nat :| StruckForGood(cfg, steps, trace, n, k) { StruckIsMissing(cfg, steps, trace, n, k); }
  }

  // -------------------------------------------------------------------- theorems

  /** However the steps of all clients and everyone else interleave: a saved
      checkpoint that resolves lists exactly the names of the saved manifest. */
  lemma SavedCheckpointListsManifest(cfg: Config, steps: seq<Step>, trace: seq<World>, c: string)
    requires SoundHashes(cfg) && Run(cfg, steps, trace)
    requires var w := trace[|steps|]; c in w.clients && w.clients[c].saved.checkpointID in w.store.snapshots
    ensures var w := trace[|steps|];
            Elements(NamesOf(w.store, w.clients[c].saved.checkpointID)) == w.clients[c].saved.blobs.Values
  {
    var w, lost := trace[|steps|], Missing(cfg, steps, trace);
    RunIsSafeBut(cfg, steps, trace);
    assert PeerSafe(cfg, w.store, w.clients[c], lost);
    Protocol.FaithfulIsExact(cfg, Filled(w.store, lost), w.clients[c].saved);
  }

  /** Rows and pointers resolve in every interleaving. */
  lemma ReferencesResolve(cfg: Config, steps: seq<Step>, trace: seq<World>)
    requires SoundHashes(cfg) && Run(cfg, steps, trace)
    ensures var st := trace[|steps|].store;
            && (forall k :: k in st.projects ==> st.projects[k].snapshotID == "" || st.projects[k].snapshotID in st.snapshots)
            && (forall u :: u in st.checkpoints ==> st.checkpoints[u] in st.snapshots)
  {
    RunIsSafeBut(cfg, steps, trace);
  }

  /** A name that some snapshot lists is missing from the store exactly when a purge
      of the run removed it while some client was between its upload of that name
      and its retrieval, and nobody has stored it again since. */
  lemma MissingExactly(cfg: Config, steps: seq<Step>, trace: seq<World>, id: string, n: string)
    requires SoundHashes(cfg) && Run(cfg, steps, trace) && Lists(trace[|steps|].store, id, n)
    ensures n !in trace[|steps|].store.blobs <==> exists k :: StruckForGood(cfg, steps, trace, n, k)
  {
    var st, lost := trace[|steps|].store, Missing(cfg, steps, trace);
    RunIsSafeBut(cfg, steps, trace);
    FilledKeys(st, lost);
    assert Lists(Filled(st, lost), id, n);
    MissingIs(cfg, steps, trace, n);
  }

  /** Where purges keep out of the way of clients between their two steps, every
      listed name is stored. */
  lemma QuietRunsLoseNothing(cfg: Config, steps: seq<Step>, trace: seq<World>, id: string, n: string)
    requires SoundHashes(cfg) && Run(cfg, steps, trace) && Lists(trace[|steps|].store, id, n)
    requires forall k :: 0 <= k < |steps| && steps[k].Shared? && steps[k].step.Purge? ==> Idle(trace[k])
    ensures n in trace[|steps|].store.blobs
  {
    MissingExactly(cfg, steps, trace, id, n);
  }

  ghost predicate Idle(w: World) {
    forall c :: c in w.clients ==> w.clients[c].sent.None?
  }

  /** An answer lists the names of the files that were sent, whether they are still
      stored or not. */
  lemma AnswerListsSent(cfg: Config, steps: seq<Step>, trace: seq<World>, c: string, jobID: string)
    requires SoundHashes(cfg) && Run(cfg, steps, trace)
    requires Answered(cfg, trace[|steps|], c, jobID)
    ensures var w := trace[|steps|];
            var w', files := Next(cfg, w, End(c, jobID, true)), w.clients[c].sent.value.files;
            Agrees(cfg, w'.store, files, w'.clients[c].saved) && w'.store.blobs == w.store.blobs
  {
    var w, lost := trace[|steps|], Missing(cfg, steps, trace);
    RunIsSafeBut(cfg, steps, trace);
    assert PeerSafe(cfg, w.store, w.clients[c], lost);
    AnswerAgrees(cfg, w.store, lost, w.clients[c].user, w.clients[c].sent.value, jobID);
  }

  /** The client's retrieval can be made now and is not refused. */
  ghost predicate Answered(cfg: Config, w: World, c: string, jobID: string) {
    && Enabled(w, End(c, jobID, true))
    && Answer(cfg, w.store, w.clients[c].user, w.clients[c].sent.value, jobID) != Gone
  }

  /** So a name struck between the two steps becomes a ghost: the client's own
      checkpoint lists it and the store does not have it. */
  lemma StruckNameIsGhost(cfg: Config, steps: seq<Step>, trace: seq<World>, c: string, jobID: string, n: string)
    requires SoundHashes(cfg) && Run(cfg, steps, trace) && Answered(cfg, trace[|steps|], c, jobID)
    requires n in Added(cfg, trace[|steps|].clients[c].sent.value) && n !in trace[|steps|].store.blobs
    ensures var w' := Next(cfg, trace[|steps|], End(c, jobID, true));
            Lists(w'.store, w'.clients[c].saved.checkpointID, n) && n !in w'.store.blobs
  {
    var w := trace[|steps|];
    var w', s := Next(cfg, w, End(c, jobID, true)), w.clients[c].sent.value;
    AnswerListsSent(cfg, steps, trace, c, jobID);
    ChangedIsListed(cfg, s, n);
    assert n in Elements(NamesOf(w'.store, w'.clients[c].saved.checkpointID));
  }

  lemma ChangedIsListed(cfg: Config, s: Sent, n: string)
    requires n in Added(cfg, s)
    ensures n in Elements(FileNames(cfg, s.files))
  {
    var changed := Changed(cfg, s.files, s.from.blobs);
    ChangedNames(cfg, s.files, s.from.blobs);
    var i :| 0 <= i < |changed| && FileNames(cfg, changed)[i] == n;
    assert changed[i] in s.files;
    var k :| 0 <= k < |s.files| && s.files[k] == changed[i];
    assert FileNames(cfg, s.files)[k] == n;
  }

  // ------------------------------------------------------------- repositories

  /** Repository files and repository snapshots name stored blobs only. */
  ghost predicate RepositoriesStored(st: Store) {
    && (forall f :: f in st.files ==> st.files[f] in st.blobs)
    && (forall id, n :: Lists(st, id, n) && st.snapshots[id].repositoryID != "" ==> n in st.blobs)
  }

  lemma RepositoriesFrame(a: Store, b: Store)
    requires RepositoriesStored(a) && a.blobs.Keys <= b.blobs.Keys && b.files == a.files
    requires forall id :: id in b.snapshots && b.snapshots[id].repositoryID != "" ==>
               id in a.snapshots && a.snapshots[id] == b.snapshots[id]
    ensures RepositoriesStored(b)
  {
    forall id, n | Lists(b, id, n) && b.snapshots[id].repositoryID != "" ensures n in b.blobs { assert Lists(a, id, n); }
  }

  /** Nothing that a repository names ever dies. */
  lemma PurgeSparesRepositories(st: Store, key: RowKey)
    requires RepositoriesStored(st) && key in st.projects
    ensures RepositoriesStored(Purged(st, key))
  {
    var t := Purged(st, key);
    forall f | f in t.files ensures t.files[f] in t.blobs { PurgeRemovesDeadBlobs(st, key, st.files[f]); }
    forall id, n | Lists(t, id, n) && t.snapshots[id].repositoryID != "" ensures n in t.blobs {
      PurgeRemovesExactly(st, key, id);
      assert Lists(st, id, n);
      PurgeRemovesDeadBlobs(st, key, n);
    }
  }

  lemma SyncStoresRepository(cfg: Config, st: Store, repo: string, snapID: string, upserts: seq<FileInput>, deleted: seq<string>)
    requires RepositoriesStored(st) && snapID !in st.snapshots
    ensures RepositoriesStored(Protocol.Synced(cfg, st, repo, snapID, upserts, deleted))
  {
    var up, fs := Uploaded(cfg, st, upserts), Protocol.FilesOf(cfg, upserts);
    UploadCatalogue(cfg, st, upserts);
    forall i | 0 <= i < |fs| ensures fs[i].blobName in up.blobs {
      assert FileNames(cfg, upserts)[i] in Elements(FileNames(cfg, upserts));
    }
    Protocol.DropFilesKeeps(up.files, repo, deleted);
    Protocol.PutFilesHolds(DropFiles(up.files, repo, deleted), repo, fs, up.blobs.Keys);
    var s := WithFiles(up, repo, fs, deleted);
    var names := Listing(Protocol.RepositoryNames(s, repo));
    var t := WithSnapshot(s, snapID, Snapshot(repo, "", names));
    forall id, n | Lists(t, id, n) && t.snapshots[id].repositoryID != "" ensures n in t.blobs {
      if id == snapID { assert n in Elements(names); } else { assert Lists(st, id, n); }
    }
  }

  lemma ResolveKeepsRepositories(cfg: Config, st: Store, claimed: string, added: set<string>, deleted: set<string>)
    requires RepositoriesStored(st) && Resolve(cfg, st, claimed, added, deleted) != Gone
    ensures RepositoriesStored(Resolve(cfg, st, claimed, added, deleted).store)
  {
    if !(claimed != "" && added == {} && deleted == {}) {
      MintKeepsRepositories(cfg, st, claimed, Listing(ResolvedNames(st, claimed, added, deleted)));
    }
  }

  lemma MintKeepsRepositories(cfg: Config, st: Store, claimed: string, names: seq<string>)
    requires RepositoriesStored(st)
    ensures RepositoriesStored(MintCheckpoint(cfg, st, claimed, names).store)
  {
    var id := CheckpointName(cfg, names);
    if id !in st.snapshots { RepositoriesFrame(st, WithSnapshot(st, id, Snapshot("", claimed, names))); }
  }

  lemma ArchivedKeepsRepositories(st: Store, user: string, id: string, ws: Workspace, changed: bool, jobID: string)
    requires RepositoriesStored(st)
    ensures RepositoriesStored(Archived(WithCheckpoint(st, user, id), user, id, ws, changed, jobID))
  {
    var t := WithCheckpoint(st, user, id);
    ArchiveKeepsCatalogue(t, user, id, ws, changed, jobID);
    RepositoriesFrame(st, Archived(t, user, id, ws, changed, jobID));
  }

  lemma RetrievedKeepsRepositories(cfg: Config, st: Store, user: string, s: Sent, jobID: string)
    requires RepositoriesStored(st) && Answer(cfg, st, user, s, jobID) != Gone
    ensures RepositoriesStored(Answer(cfg, st, user, s, jobID).store)
  {
    var added, stale := Added(cfg, s), Stale(cfg, s.files, s.from.blobs);
    var r := Resolve(cfg, st, s.from.checkpointID, added, stale);
    ResolveKeepsRepositories(cfg, st, s.from.checkpointID, added, stale);
    if user != "" { ArchivedKeepsRepositories(r.store, user, r.id, s.ws, added + stale != {}, jobID); }
  }

  lemma StepKeepsRepositories(cfg: Config, w: World, step: Step)
    requires RepositoriesStored(w.store) && Enabled(w, step)
    ensures RepositoriesStored(Next(cfg, w, step).store)
  {
    match step
    case Join(_, _) =>
    case Begin(c, ws, files, anew) =>
      var changed := Changed(cfg, files, (if anew then FRESH else w.clients[c].saved).blobs);
      UploadCatalogue(cfg, w.store, changed);
      RepositoriesFrame(w.store, Uploaded(cfg, w.store, changed));
    case End(c, jobID, _) =>
      var p := w.clients[c];
      if Answer(cfg, w.store, p.user, p.sent.value, jobID) != Gone {
        RetrievedKeepsRepositories(cfg, w.store, p.user, p.sent.value, jobID);
      }
    case Shared(s) => SharedKeepsRepositories(cfg, w.store, s);
  }

  lemma SharedKeepsRepositories(cfg: Config, st: Store, step: Protocol.Step)
    requires RepositoriesStored(st) && Protocol.Enabled(Protocol.World(st, map[]), step)
    ensures RepositoriesStored(Protocol.Next(cfg, Protocol.World(st, map[]), step).store)
  {
    match step
    case Join(_, _) =>
    case Upload(fs) =>
      UploadCatalogue(cfg, st, fs);
      RepositoriesFrame(st, Uploaded(cfg, st, fs));
    case Purge(key) => if key in st.projects { PurgeSparesRepositories(st, key); }
    case Sync(repo, snapID, upserts, deleted) => SyncStoresRepository(cfg, st, repo, snapID, upserts, deleted);
    case Pending(key, worktree) => RepositoriesFrame(st, st.(projects := st.projects[key := Row(worktree, "")]));
    case Embed(es) => RepositoriesFrame(st, WithEmbeddings(st, es));
  }

  /** Every name of a repository's files and of its snapshots is stored, in every
      interleaving: only checkpoints can list a missing name. */
  lemma {:induction false} RepositoriesLoseNothing(cfg: Config, steps: seq<Step>, trace: seq<World>)
    requires Run(cfg, steps, trace)
    ensures RepositoriesStored(trace[|steps|].store)
  {
    if steps != [] {
      var k := |steps| - 1;
      RunPrefix(cfg, steps, trace);
      RepositoriesLoseNothing(cfg, steps[..k], trace[..k + 1]);
      StepKeepsRepositories(cfg, trace[k], steps[k]);
    }
  }

  // ------------------------------------------------------- the two kinds of purge

  /** Every chunk list has its blob. */
  ghost predicate ChunksStored(st: Store) {
    st.chunks.Keys <= st.blobs.Keys
  }

  lemma IndexChunks(st: Store, n: string, cs: seq<Chunk>, rows: map<(string, string), nat>)
    ensures WithIndex(st, n, cs, rows).chunks.Keys == st.chunks.Keys + {n}
  {
    assert WithIndex(st, n, cs, rows).chunks == st.chunks[n := cs];
  }

  lemma BlobChunks(st: Store, n: string, b: Blob)
    ensures WithBlob(st, n, b).chunks == st.chunks
  {
  }

  lemma IngestChunks(cfg: Config, st: Store, f: FileInput)
    ensures Ingest(cfg, st, f).chunks.Keys <= st.chunks.Keys + {BlobName(cfg, f)}
  {
    var n := BlobName(cfg, f);
    var s := WithBlob(st, n, Blob(f.path, f.content));
    BlobChunks(st, n, Blob(f.path, f.content));
    if !cfg.excluded(f.path) && n !in s.chunks { IndexChunks(s, n, cfg.chunks(n, f), cfg.rows(n, f)); }
  }

  lemma IngestKeepsChunks(cfg: Config, st: Store, f: FileInput)
    requires ChunksStored(st)
    ensures ChunksStored(Ingest(cfg, st, f))
  {
    IngestCatalogue(cfg, st, f);
    IngestChunks(cfg, st, f);
  }

  lemma {:induction false} IngestAllKeepsChunks(cfg: Config, st: Store, existing: set<string>, fs: seq<FileInput>)
    requires ChunksStored(st)
    ensures ChunksStored(IngestAll(cfg, st, existing, fs))
    decreases |fs|
  {
    if fs != [] {
      IngestKeepsChunks(cfg, st, fs[0]);
      var mid := if BlobName(cfg, fs[0]) in existing then st else Ingest(cfg, st, fs[0]);
      IngestAllKeepsChunks(cfg, mid, existing, fs[1..]);
    }
  }

  lemma UploadKeepsChunks(cfg: Config, st: Store, fs: seq<FileInput>)
    requires ChunksStored(st)
    ensures ChunksStored(Uploaded(cfg, st, fs))
  {
    IngestAllKeepsChunks(cfg, st, (set n | n in FileNames(cfg, fs) && n in st.blobs), fs);
  }

  lemma PurgeKeepsChunks(st: Store, key: RowKey)
    requires ChunksStored(st) && key in st.projects
    ensures ChunksStored(Purged(st, key))
  {
  }

  lemma ResolveKeepsChunks(cfg: Config, st: Store, claimed: string, added: set<string>, deleted: set<string>)
    ensures var r := Resolve(cfg, st, claimed, added, deleted);
            r != Gone ==> r.store.blobs == st.blobs && r.store.chunks == st.chunks
  {
  }

  lemma AnswerKeepsChunks(cfg: Config, st: Store, user: string, s: Sent, jobID: string)
    ensures var r := Answer(cfg, st, user, s, jobID);
            r != Gone ==> r.store.blobs == st.blobs && r.store.chunks == st.chunks
  {
    ResolveKeepsChunks(cfg, st, s.from.checkpointID, Added(cfg, s), Stale(cfg, s.files, s.from.blobs));
  }

  lemma SharedKeepsChunks(cfg: Config, st: Store, step: Protocol.Step)
    requires ChunksStored(st) && Protocol.Enabled(Protocol.World(st, map[]), step)
    ensures ChunksStored(Protocol.Next(cfg, Protocol.World(st, map[]), step).store)
  {
    match step
    case Join(_, _) =>
    case Upload(fs) => UploadKeepsChunks(cfg, st, fs);
    case Purge(key) => if key in st.projects { PurgeKeepsChunks(st, key); }
    case Sync(_, _, upserts, _) => UploadKeepsChunks(cfg, st, upserts);
    case Pending(_, _) =>
    case Embed(_) =>
  }

  lemma StepKeepsChunks(cfg: Config, w: World, step: Step)
    requires ChunksStored(w.store) && Enabled(w, step)
    ensures ChunksStored(Next(cfg, w, step).store)
  {
    match step
    case Join(_, _) =>
    case Begin(c, _, files, anew) =>
      UploadKeepsChunks(cfg, w.store, Changed(cfg, files, (if anew then FRESH else w.clients[c].saved).blobs));
    case End(c, jobID, _) => AnswerKeepsChunks(cfg, w.store, w.clients[c].user, w.clients[c].sent.value, jobID);
    case Shared(s) => SharedKeepsChunks(cfg, w.store, s);
  }

  lemma {:induction false} RunKeepsChunks(cfg: Config, steps: seq<Step>, trace: seq<World>)
    requires Run(cfg, steps, trace)
    ensures ChunksStored(trace[|steps|].store)
  {
    if steps != [] {
      var k := |steps| - 1;
      RunPrefix(cfg, steps, trace);
      RunKeepsChunks(cfg, steps[..k], trace[..k + 1]);
      StepKeepsChunks(cfg, trace[k], steps[k]);
    }
  }

  /** In every interleaving, names missing or not, the loops of the in-memory purge and
      the SQL transaction leave one and the same store. */
  lemma PurgeAgreesWithSQL(cfg: Config, steps: seq<Step>, trace: seq<World>, key: RowKey)
    requires SoundHashes(cfg) && Run(cfg, steps, trace) && key in trace[|steps|].store.projects
    ensures PurgedSQL(trace[|steps|].store, key) == Purged(trace[|steps|].store, key)
  {
    var st, lost := trace[|steps|].store, Missing(cfg, steps, trace);
    RunIsSafeBut(cfg, steps, trace);
    Protocol.CheckpointsListOnce(cfg, Filled(st, lost));
    assert ListsOnce(st) by { assert Filled(st, lost).snapshots == st.snapshots; }
    RunKeepsChunks(cfg, steps, trace);
    PurgesAgree(st, key);
  }
}
