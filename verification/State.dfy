/** What the store holds (internal/store/memory.go), as one value. The Go maps of
    maps are flat maps keyed by the pair of keys. */
module State {
  import opened Domain
  import opened Text

  datatype Snapshot = Snapshot(repositoryID: string, parentID: string, blobNames: seq<string>)

  /** A project row is addressed by user, name and branch (aceKey). */
  datatype RowKey = RowKey(user: string, name: string, branch: string)
  datatype Row = Row(worktree: bool, snapshotID: string)

  datatype Job = Job(owner: string, repository: string, repositoryID: string)

  type Vector = seq<real>

  datatype Store = Store(
    blobs: map<string, Blob>,
    chunks: map<string, seq<Chunk>>,            // by blob name
    postings: map<(string, string), nat>,       // (term, chunk id) -> term frequency
    vectors: map<(string, string), Vector>,     // legacy: (model, chunk id)
    hashVectors: map<(string, string), Vector>, // (model, content hash)
    chunkHash: map<string, string>,             // chunk id -> content hash
    snapshots: map<string, Snapshot>,
    files: map<(string, string), string>,       // (repository, path) -> blob name
    jobs: map<string, Job>,
    checkpoints: map<string, string>,           // user -> latest checkpoint
    projects: map<RowKey, Row>)

  const EMPTY: Store :=
    Store(map[], map[], map[], map[], map[], map[], map[], map[], map[], map[], map[])

  function ProjectLabel(name: string, branch: string): string {
    if branch == "" then name else name + " (" + branch + ")"
  }

  /** The blob names of a snapshot; Go's zero snapshot has none. */
  function NamesOf(st: Store, id: string): seq<string> {
    if id in st.snapshots then st.snapshots[id].blobNames else []
  }

  // ------------------------------------------------------------ purge, declaratively

  /** Another row, or another user's checkpoint pointer, still needs the snapshot. */
  ghost predicate Needed(st: Store, user: string, id: string) {
    || (exists k :: k in st.projects && st.projects[k].snapshotID == id)
    || (exists u :: u in st.checkpoints && u != user && st.checkpoints[u] == id)
  }

  /** How many of the listed names are in the target. */
  function Shared(names: seq<string>, target: set<string>): nat {
    if names == [] then 0
    else Shared(names[..|names| - 1], target) + if names[|names| - 1] in target then 1 else 0
  }

  /** At least half of the smaller side is shared; the float ratio test, exactly. */
  predicate Overlapping(shared: nat, size: nat, targetSize: nat) {
    var smaller := if size < targetSize then size else targetSize;
    shared > 0 && smaller > 0 && 2 * shared >= smaller
  }

  /** The purge of snapshot `purged` for `user` removes snapshot id: no repository
      owns it, nobody needs it, and it is the purged one or shares at least half
      of its blobs with it. */
  ghost predicate Doomed(st: Store, user: string, purged: string, id: string) {
    && id in st.snapshots && st.snapshots[id].repositoryID == "" && !Needed(st, user, id)
    && (id == purged ||
        Overlapping(Shared(NamesOf(st, id), Elements(NamesOf(st, purged))), |NamesOf(st, id)|,
                    |Elements(NamesOf(st, purged))|))
  }

  /** The same test as the PostgreSQL statement makes it, on sets of names. */
  ghost predicate DoomedSQL(st: Store, user: string, purged: string, id: string) {
    var target, names := Elements(NamesOf(st, purged)), Elements(NamesOf(st, id));
    && id in st.snapshots && st.snapshots[id].repositoryID == "" && !Needed(st, user, id)
    && (id == purged || Overlapping(|names * target|, |names|, |target|))
  }

  /** What the dead_blobs clause selects. */
  ghost predicate DeadSQL(st: Store, doomed: set<string>, name: string) {
    && name in st.blobs && (exists id :: id in doomed && Lists(st, id, name))
    && !(exists id :: Lists(st, id, name) && id !in doomed)
    && !(exists f :: f in st.files && st.files[f] == name)
  }

  /** A chunk of one of the blobs: its row goes with theirs by foreign key. */
  ghost predicate ChunkOf(st: Store, names: set<string>, id: string) {
    exists n :: n in names && n in st.chunks && id in IDs(st.chunks[n])
  }

  ghost function Kept<V>(m: map<(string, string), V>, st: Store, dead: set<string>): map<(string, string), V> {
    map k | k in m && !ChunkOf(st, dead, k.1) :: m[k]
  }

  ghost function KeptHashes(st: Store, dead: set<string>): map<string, string> {
    map c | c in st.chunkHash && !ChunkOf(st, dead, c) :: st.chunkHash[c]
  }

  function KeptPointers(st: Store, user: string, doomed: set<string>): map<string, string> {
    map u | u in st.checkpoints && !(u == user && st.checkpoints[u] in doomed) :: st.checkpoints[u]
  }

  function Without<V>(m: map<string, V>, keys: set<string>): map<string, V> {
    map k | k in m && k !in keys :: m[k]
  }

  /** The deletions, table by table, with the cascades of their foreign keys. */
  ghost function DeletedSQL(st: Store, user: string, doomed: set<string>, dead: set<string>): Store {
    Store(Without(st.blobs, dead), Without(st.chunks, dead), Kept(st.postings, st, dead), Kept(st.vectors, st, dead),
          st.hashVectors, KeptHashes(st, dead), Without(st.snapshots, doomed), st.files, st.jobs,
          KeptPointers(st, user, doomed), st.projects)
  }

  /** The PostgreSQL transaction: the row and its jobs, then one statement. */
  ghost function PurgedSQL(st: Store, key: RowKey): Store
    requires key in st.projects
  {
    var s := WithoutRow(st, key);
    var doomed := set id | id in s.snapshots && DoomedSQL(s, key.user, st.projects[key].snapshotID, id);
    DeletedSQL(s, key.user, doomed, set n | n in s.blobs && DeadSQL(s, doomed, n))
  }

  ghost function DoomedSet(st: Store, user: string, purged: string): set<string> {
    set id | id in st.snapshots && Doomed(st, user, purged, id)
  }

  /** Snapshot id lists the name. */
  ghost predicate Lists(st: Store, id: string, name: string) {
    id in st.snapshots && name in st.snapshots[id].blobNames
  }

  /** A blob dies when a doomed snapshot lists it and no other snapshot and no
      repository file does. */
  ghost predicate Dead(st: Store, doomed: set<string>, name: string) {
    && (exists id :: id in doomed && Lists(st, id, name))
    && (forall id :: Lists(st, id, name) ==> id in doomed)
    && (forall f :: f in st.files ==> st.files[f] != name)
  }

  ghost function DeadSet(st: Store, doomed: set<string>): set<string> {
    set id, n | id in doomed && id in st.snapshots && n in st.snapshots[id].blobNames && Dead(st, doomed, n) :: n
  }

  function IDs(cs: seq<Chunk>): set<string> {
    set i | 0 <= i < |cs| :: cs[i].id
  }

  function ChunkIDs(st: Store, names: set<string>): set<string> {
    set n, i | n in names && n in st.chunks && 0 <= i < |st.chunks[n]| :: st.chunks[n][i].id
  }

  /** The entries whose chunk is not among ids. */
  function Off<V>(m: map<(string, string), V>, ids: set<string>): map<(string, string), V> {
    map k | k in m && k.1 !in ids :: m[k]
  }

  /** The store without the given blobs and everything indexed under them. */
  function WithoutBlobs(st: Store, names: set<string>): Store {
    var ids := ChunkIDs(st, names);
    st.(blobs := st.blobs - names, chunks := st.chunks - names, chunkHash := st.chunkHash - ids,
        postings := Off(st.postings, ids), vectors := Off(st.vectors, ids))
  }

  /** An index-activity job of the user's project with that label; jobs of a
      repository carry its id. */
  predicate Labelled(j: Job, user: string, title: string) {
    j.owner == user && j.repository == title && j.repositoryID == ""
  }

  function WithoutJobs(jobs: map<string, Job>, user: string, title: string): map<string, Job> {
    map j | j in jobs && !Labelled(jobs[j], user, title) :: jobs[j]
  }

  function WithoutRow(st: Store, key: RowKey): Store {
    st.(projects := st.projects - {key},
        jobs := WithoutJobs(st.jobs, key.user, ProjectLabel(key.name, key.branch)))
  }

  /** PurgeACEProject. */
  ghost function Purged(st: Store, key: RowKey): Store
    requires key in st.projects
  {
    var s := WithoutRow(st, key);
    var doomed := DoomedSet(s, key.user, st.projects[key].snapshotID);
    WithoutBlobs(WithoutSnapshots(s, key.user, doomed), DeadSet(s, doomed))
  }

  /** The store without the doomed snapshots, and without the user's pointer if
      it pointed at one of them. */
  function WithoutSnapshots(st: Store, user: string, doomed: set<string>): Store {
    st.(snapshots := st.snapshots - doomed,
        checkpoints := if user in st.checkpoints && st.checkpoints[user] in doomed
                       then st.checkpoints - {user} else st.checkpoints)
  }

  // ------------------------------------------------- the loops' test and the SQL's

  lemma OneMore(e: set<string>, target: set<string>, x: string)
    requires x !in e
    ensures |(e + {x}) * target| == |e * target| + if x in target then 1 else 0
    ensures |e + {x}| == |e| + 1
  {
    assert (e + {x}) * target == e * target + if x in target then {x} else {};
  }

  lemma ElementsOfLast(names: seq<string>)
    requires NoDuplicates(names) && names != []
    ensures var init, last := names[..|names| - 1], names[|names| - 1];
            NoDuplicates(init) && last !in init && last !in Elements(init) && Elements(names) == Elements(init) + {last}
  {
    var init, last := names[..|names| - 1], names[|names| - 1];
    assert forall i :: 0 <= i < |init| ==> init[i] == names[i] != last;
    assert names == init + [last];
  }

  lemma {:induction false} SharedIsIntersection(names: seq<string>, target: set<string>)
    requires NoDuplicates(names)
    ensures Shared(names, target) == |Elements(names) * target|
    ensures |Elements(names)| == |names|
  {
    if names != [] {
      var init, last := names[..|names| - 1], names[|names| - 1];
      SharedIsIntersection(init, target);
      ElementsOfLast(names);
      OneMore(Elements(init), target, last);
    }
  }

  /** Checkpoints list each name once. */
  ghost predicate ListsOnce(st: Store) {
    forall id :: id in st.snapshots && st.snapshots[id].repositoryID == "" ==> NoDuplicates(st.snapshots[id].blobNames)
  }

  /** A listed name that is not stored has no chunks either. Snapshots may list names
      that are not stored: no key of the database forbids it. */
  ghost predicate GhostsBare(st: Store) {
    forall id, n :: Lists(st, id, n) && n in st.chunks ==> n in st.blobs
  }

  /** The in-memory loops and the one SQL statement doom the same snapshots. */
  lemma LoopsAgreeWithSQL(st: Store, user: string, purged: string, id: string)
    requires ListsOnce(st)
    ensures Doomed(st, user, purged, id) <==> DoomedSQL(st, user, purged, id)
  {
    if id in st.snapshots && st.snapshots[id].repositoryID == "" {
      SharedIsIntersection(NamesOf(st, id), Elements(NamesOf(st, purged)));
    }
  }

  lemma DoomedSetsAgree(st: Store, user: string, purged: string)
    requires ListsOnce(st)
    ensures DoomedSet(st, user, purged) == set id | id in st.snapshots && DoomedSQL(st, user, purged, id)
  {
    forall id ensures Doomed(st, user, purged, id) <==> DoomedSQL(st, user, purged, id) {
      LoopsAgreeWithSQL(st, user, purged, id);
    }
  }

  /** The statement deletes the dead blobs that are stored. */
  lemma DeadSetsAgree(st: Store, doomed: set<string>)
    ensures DeadSet(st, doomed) * st.blobs.Keys == set n | n in st.blobs && DeadSQL(st, doomed, n)
  {
    forall n | n in st.blobs ensures n in DeadSet(st, doomed) <==> DeadSQL(st, doomed, n) {
      if DeadSQL(st, doomed, n) {
        var id :| id in doomed && Lists(st, id, n);
        assert Dead(st, doomed, n) && n in st.snapshots[id].blobNames;
      }
    }
  }

  /** Dropping a name without blob and chunks changes nothing. */
  lemma BareNamesIdle(st: Store, names: set<string>)
    requires forall n :: n in names && n in st.chunks ==> n in st.blobs
    ensures WithoutBlobs(st, names * st.blobs.Keys) == WithoutBlobs(st, names)
  {
    assert ChunkIDs(st, names * st.blobs.Keys) == ChunkIDs(st, names);
    assert st.blobs - names * st.blobs.Keys == st.blobs - names;
    assert st.chunks - names * st.blobs.Keys == st.chunks - names;
  }

  lemma ChunkIDsAgree(st: Store, names: set<string>, id: string)
    ensures ChunkOf(st, names, id) <==> id in ChunkIDs(st, names)
  {
    if n :| n in names && n in st.chunks && id in IDs(st.chunks[n]) {
      var i :| 0 <= i < |st.chunks[n]| && st.chunks[n][i].id == id;
    }
    if id in ChunkIDs(st, names) {
      var n, i :| n in names && n in st.chunks && 0 <= i < |st.chunks[n]| && st.chunks[n][i].id == id;
      assert id in IDs(st.chunks[n]);
    }
  }

  lemma WithoutIsMinus<V>(m: map<string, V>, keys: set<string>)
    ensures Without(m, keys) == m - keys
  {
  }

  lemma KeptIsOff<V>(m: map<(string, string), V>, st: Store, dead: set<string>)
    ensures Kept(m, st, dead) == Off(m, ChunkIDs(st, dead))
  {
    forall k | k in m ensures ChunkOf(st, dead, k.1) <==> k.1 in ChunkIDs(st, dead) { ChunkIDsAgree(st, dead, k.1); }
  }

  lemma KeptHashesAgree(st: Store, dead: set<string>)
    ensures KeptHashes(st, dead) == st.chunkHash - ChunkIDs(st, dead)
  {
    forall c ensures ChunkOf(st, dead, c) <==> c in ChunkIDs(st, dead) { ChunkIDsAgree(st, dead, c); }
  }

  lemma KeptPointersAgree(st: Store, user: string, doomed: set<string>)
    ensures KeptPointers(st, user, doomed) == WithoutSnapshots(st, user, doomed).checkpoints
  {
  }

  lemma DeletionsAgree(st: Store, user: string, doomed: set<string>, dead: set<string>)
    ensures DeletedSQL(st, user, doomed, dead) == WithoutBlobs(WithoutSnapshots(st, user, doomed), dead)
  {
    WithoutIsMinus(st.blobs, dead);
    WithoutIsMinus(st.chunks, dead);
    WithoutIsMinus(st.snapshots, doomed);
    KeptIsOff(st.postings, st, dead);
    KeptIsOff(st.vectors, st, dead);
    KeptHashesAgree(st, dead);
    KeptPointersAgree(st, user, doomed);
    assert ChunkIDs(WithoutSnapshots(st, user, doomed), dead) == ChunkIDs(st, dead);
  }

  /** The loops over the maps and the SQL transaction leave the same store. */
  lemma PurgesAgree(st: Store, key: RowKey)
    requires ListsOnce(st) && GhostsBare(st) && key in st.projects
    ensures PurgedSQL(st, key) == Purged(st, key)
  {
    var s, purged := WithoutRow(st, key), st.projects[key].snapshotID;
    DoomedSetsAgree(s, key.user, purged);
    var doomed := DoomedSet(s, key.user, purged);
    var dead, left := DeadSet(s, doomed), WithoutSnapshots(s, key.user, doomed);
    assert forall id, n :: Lists(s, id, n) ==> Lists(st, id, n);
    DeadSetsAgree(s, doomed);
    DeletionsAgree(s, key.user, doomed, dead * s.blobs.Keys);
    DeadAreListed(s, doomed);
    BareNamesIdle(left, dead);
  }

  lemma DeadAreListed(st: Store, doomed: set<string>)
    ensures forall n :: n in DeadSet(st, doomed) ==> exists id :: Lists(st, id, n)
  {
    forall n | n in DeadSet(st, doomed) ensures exists id :: Lists(st, id, n) {
      var id :| id in doomed && id in st.snapshots && n in st.snapshots[id].blobNames;
      assert Lists(st, id, n);
    }
  }
}
