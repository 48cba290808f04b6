/** The in-memory store (internal/store/memory.go): every method does to the
    fields what the function of the same name in this module does to the value. */
module MemoryStore {
  import opened Domain
  import opened Text
  import opened State
  import opened Sums

  datatype Posting = Posting(chunkID: string, term: string, tf: nat)

  // ----------------------------------------------------- the methods as functions

  function WithBlob(st: Store, name: string, b: Blob): Store {
    if name in st.blobs then st else st.(blobs := st.blobs[name := b])
  }

  function WithPostings(m: map<(string, string), nat>, ps: seq<Posting>): map<(string, string), nat>
    decreases |ps|
  {
    if ps == [] then m else WithPostings(m[(ps[0].term, ps[0].chunkID) := ps[0].tf], ps[1..])
  }

  function WithHashes(m: map<string, string>, cs: seq<Chunk>): map<string, string>
    decreases |cs|
  {
    if cs == [] then m
    else WithHashes(if cs[0].contentHash != "" then m[cs[0].id := cs[0].contentHash] else m, cs[1..])
  }

  function WithChunks(st: Store, name: string, cs: seq<Chunk>, ps: seq<Posting>): Store {
    if name in st.chunks then st
    else st.(chunks := st.chunks[name := cs], chunkHash := WithHashes(st.chunkHash, cs),
             postings := WithPostings(st.postings, ps))
  }

  function WithSnapshot(st: Store, id: string, s: Snapshot): Store {
    st.(snapshots := st.snapshots[id := s])
  }

  function WithCheckpoint(st: Store, user: string, id: string): Store {
    st.(checkpoints := st.checkpoints[user := id])
  }

  /** A repository file: its path and the name of its blob. */
  datatype File = File(path: string, blobName: string)

  function DropFiles(files: map<(string, string), string>, repo: string, paths: seq<string>): map<(string, string), string>
    decreases |paths|
  {
    if paths == [] then files else DropFiles(files - {(repo, paths[0])}, repo, paths[1..])
  }

  function PutFiles(files: map<(string, string), string>, repo: string, fs: seq<File>): map<(string, string), string>
    decreases |fs|
  {
    if fs == [] then files else PutFiles(files[(repo, fs[0].path) := fs[0].blobName], repo, fs[1..])
  }

  function WithFiles(st: Store, repo: string, upserts: seq<File>, deleted: seq<string>): Store {
    st.(files := PutFiles(DropFiles(st.files, repo, deleted), repo, upserts))
  }

  /** Go's zero string for a user without a pointer. */
  function PointerOf(checkpoints: map<string, string>, user: string): string {
    if user in checkpoints then checkpoints[user] else ""
  }

  /** The pointer or a row of the user's holds the id. */
  predicate Owns(st: Store, user: string, id: string) {
    || PointerOf(st.checkpoints, user) == id
    || (exists k :: k in st.projects && k.user == user && st.projects[k].snapshotID == id)
  }

  /** Row k is the user's and its snapshot lists the name. */
  ghost predicate RowHolds(st: Store, user: string, k: RowKey, name: string) {
    k in st.projects && k.user == user && name in NamesOf(st, st.projects[k].snapshotID)
  }

  /** The names of all snapshots the user's rows point at. */
  ghost function HeldNames(st: Store, user: string): (r: set<string>)
    ensures forall n :: n in r <==> exists k :: RowHolds(st, user, k, n)
  {
    set k, n | k in st.projects && n in NamesOf(st, st.projects[k].snapshotID) && RowHolds(st, user, k, n) :: n
  }

  /** The stored size of a content of some length: the length itself here, that of
      the ciphertext in PostgreSQL. */
  type Measure = nat -> nat

  const PLAIN: Measure := n => n

  function Size(blobs: map<string, Blob>, size: Measure, name: string): int {
    if name in blobs then size(|blobs[name].content|) else 0
  }

  function SizeIn(blobs: map<string, Blob>, size: Measure): string -> int {
    n => Size(blobs, size, n)
  }

  /** The stored size of the user's rows, each name counted once. */
  ghost function StorageBytes(st: Store, user: string, size: Measure): int {
    Sum(HeldNames(st, user), SizeIn(st.blobs, size))
  }

  function Renamed(jobs: map<string, Job>, user: string, from: string, to: string): map<string, Job> {
    map j | j in jobs ::
      if Labelled(jobs[j], user, from) then jobs[j].(repository := to) else jobs[j]
  }

  datatype Embedding = Embedding(model: string, chunkID: string, contentHash: string, vector: Vector)

  /** Vectors by chunk id, for chunks without a content hash. */
  function VectorsWith(m: map<(string, string), Vector>, es: seq<Embedding>): map<(string, string), Vector>
    decreases |es|
  {
    if es == [] then m
    else VectorsWith(if es[0].contentHash == "" then m[(es[0].model, es[0].chunkID) := es[0].vector] else m, es[1..])
  }

  /** Vectors by content hash. */
  function HashVectorsWith(m: map<(string, string), Vector>, es: seq<Embedding>): map<(string, string), Vector>
    decreases |es|
  {
    if es == [] then m
    else HashVectorsWith(if es[0].contentHash != "" then m[(es[0].model, es[0].contentHash) := es[0].vector] else m, es[1..])
  }

  function WithEmbeddings(st: Store, es: seq<Embedding>): Store {
    st.(vectors := VectorsWith(st.vectors, es), hashVectors := HashVectorsWith(st.hashVectors, es))
  }

  // --------------------------------------------------------- what the writes leave

  /** A rename moves the user's own jobs of that label, those of no repository, and
      leaves every other job as it is: another user's, another label's, a repository's. */
  lemma RenameIs(jobs: map<string, Job>, user: string, from: string, to: string, j: string)
    requires j in jobs
    ensures var r := Renamed(jobs, user, from, to);
            && r.Keys == jobs.Keys
            && (jobs[j].owner == user && jobs[j].repository == from && jobs[j].repositoryID == "" ==>
                  r[j] == jobs[j].(repository := to))
            && (jobs[j].owner != user || jobs[j].repository != from || jobs[j].repositoryID != "" ==> r[j] == jobs[j])
  {
  }

  /** An embedding with a content hash is found under the model and the hash; of several
      the last counts. */
  lemma {:induction false} HashVectorIs(m: map<(string, string), Vector>, es: seq<Embedding>, model: string, hash: string, i: nat)
    requires i < |es| && hash != "" && es[i].contentHash == hash && es[i].model == model
    requires forall j :: i < j < |es| ==> (es[j].model, es[j].contentHash) != (model, hash)
    ensures var r := HashVectorsWith(m, es); (model, hash) in r && r[(model, hash)] == es[i].vector
    decreases |es|
  {
    var e := es[0];
    var m1 := if e.contentHash != "" then m[(e.model, e.contentHash) := e.vector] else m;
    if i > 0 {
      HashVectorIs(m1, es[1..], model, hash, i - 1);
    } else {
      HashVectorStays(m1, es[1..], model, hash);
    }
  }

  lemma {:induction false} HashVectorStays(m: map<(string, string), Vector>, es: seq<Embedding>, model: string, hash: string)
    requires forall e :: e in es && e.contentHash != "" ==> (e.model, e.contentHash) != (model, hash)
    ensures var r := HashVectorsWith(m, es);
            ((model, hash) in r <==> (model, hash) in m) && ((model, hash) in m ==> r[(model, hash)] == m[(model, hash)])
    decreases |es|
  {
    if es != [] {
      var e := es[0];
      HashVectorStays(if e.contentHash != "" then m[(e.model, e.contentHash) := e.vector] else m, es[1..], model, hash);
    }
  }

  /** An embedding without a content hash is found under the model and the chunk id. */
  lemma {:induction false} VectorIs(m: map<(string, string), Vector>, es: seq<Embedding>, model: string, id: string, i: nat)
    requires i < |es| && es[i].contentHash == "" && es[i].model == model && es[i].chunkID == id
    requires forall j :: i < j < |es| && es[j].contentHash == "" ==> (es[j].model, es[j].chunkID) != (model, id)
    ensures var r := VectorsWith(m, es); (model, id) in r && r[(model, id)] == es[i].vector
    decreases |es|
  {
    var e := es[0];
    var m1 := if e.contentHash == "" then m[(e.model, e.chunkID) := e.vector] else m;
    if i > 0 {
      VectorIs(m1, es[1..], model, id, i - 1);
    } else {
      VectorStays(m1, es[1..], model, id);
    }
  }

  lemma {:induction false} VectorStays(m: map<(string, string), Vector>, es: seq<Embedding>, model: string, id: string)
    requires forall e :: e in es && e.contentHash == "" ==> (e.model, e.chunkID) != (model, id)
    ensures var r := VectorsWith(m, es);
            ((model, id) in r <==> (model, id) in m) && ((model, id) in m ==> r[(model, id)] == m[(model, id)])
    decreases |es|
  {
    if es != [] {
      var e := es[0];
      VectorStays(if e.contentHash == "" then m[(e.model, e.chunkID) := e.vector] else m, es[1..], model, id);
    }
  }

  /** What a repository lists after a replacement: under a path of the new files the last
      blob given for it, */
  lemma NewFileIsListed(st: Store, repo: string, upserts: seq<File>, deleted: seq<string>, path: string, i: nat)
    requires LastAt(upserts, i, path)
    ensures var after, k := WithFiles(st, repo, upserts, deleted).files, (repo, path); k in after && after[k] == upserts[i].blobName
  {
    PutLast(DropFiles(st.files, repo, deleted), repo, upserts, path, i);
  }

  /** under a deleted path without a new file nothing, */
  lemma DeletedIsGone(st: Store, repo: string, upserts: seq<File>, deleted: seq<string>, path: string)
    requires path in deleted && forall f :: f in upserts ==> f.path != path
    ensures (repo, path) !in WithFiles(st, repo, upserts, deleted).files
  {
    DropIs(st.files, repo, deleted, repo, path);
    PutStays(DropFiles(st.files, repo, deleted), repo, upserts, repo, path);
  }

  /** and under every other path, and in every other repository, what was there. */
  lemma OtherFilesStay(st: Store, repo: string, upserts: seq<File>, deleted: seq<string>, r: string, path: string)
    requires r != repo || (path !in deleted && forall f :: f in upserts ==> f.path != path)
    ensures var after, k := WithFiles(st, repo, upserts, deleted).files, (r, path);
            (k in after <==> k in st.files) && (k in st.files ==> after[k] == st.files[k])
  {
    DropIs(st.files, repo, deleted, r, path);
    PutStays(DropFiles(st.files, repo, deleted), repo, upserts, r, path);
  }

  lemma {:induction false} DropIs(files: map<(string, string), string>, repo: string, paths: seq<string>, r: string, path: string)
    ensures var after, k := DropFiles(files, repo, paths), (r, path);
            && (k in after <==> k in files && !(r == repo && path in paths)) && (k in after ==> after[k] == files[k])
    decreases |paths|
  {
    if paths != [] { DropIs(files - {(repo, paths[0])}, repo, paths[1..], r, path); }
  }

  /** fs[i] is the last of the files with the path. */
  ghost predicate LastAt(fs: seq<File>, i: nat, path: string) {
    i < |fs| && fs[i].path == path && forall j :: i < j < |fs| ==> fs[j].path != path
  }

  lemma {:induction false} PutStays(files: map<(string, string), string>, repo: string, fs: seq<File>, r: string, path: string)
    requires r != repo || forall f :: f in fs ==> f.path != path
    ensures var after, k := PutFiles(files, repo, fs), (r, path);
            (k in after <==> k in files) && (k in files ==> after[k] == files[k])
    decreases |fs|
  {
    if fs != [] { PutStays(files[(repo, fs[0].path) := fs[0].blobName], repo, fs[1..], r, path); }
  }

  lemma {:induction false} PutLast(files: map<(string, string), string>, repo: string, fs: seq<File>, path: string, i: nat)
    requires LastAt(fs, i, path)
    ensures var after, k := PutFiles(files, repo, fs), (repo, path); k in after && after[k] == fs[i].blobName
    decreases |fs|
  {
    var files1 := files[(repo, fs[0].path) := fs[0].blobName];
    if i == 0 {
      PutStays(files1, repo, fs[1..], repo, path);
    } else {
      PutLast(files1, repo, fs[1..], path, i - 1);
    }
  }

  // ------------------------------------------------------------------- the store

  class Memory {
    var blobs: map<string, Blob>
    var chunks: map<string, seq<Chunk>>
    var postings: map<(string, string), nat>
    var vectors: map<(string, string), Vector>
    var hashVectors: map<(string, string), Vector>
    var chunkHash: map<string, string>
    var snapshots: map<string, Snapshot>
    var files: map<(string, string), string>
    var jobs: map<string, Job>
    var checkpoints: map<string, string>
    var projects: map<RowKey, Row>

    ghost function View(): Store
      reads this
    {
      Store(blobs, chunks, postings, vectors, hashVectors, chunkHash, snapshots, files, jobs, checkpoints, projects)
    }

    constructor ()
      ensures View() == EMPTY
    {
      blobs, chunks, postings, vectors, hashVectors := map[], map[], map[], map[], map[];
      chunkHash, snapshots, files, jobs, checkpoints, projects := map[], map[], map[], map[], map[], map[];
    }

    method PutBlob(name: string, b: Blob)
      modifies this`blobs
      ensures View() == WithBlob(old(View()), name, b)
    {
      if name !in blobs { blobs := blobs[name := b]; }
    }

    method ExistingBlobNames(names: seq<string>) returns (r: set<string>)
      ensures r == set n | n in names && n in blobs
    {
      r := {};
      for i := 0 to |names|
        invariant r == set n | n in names[..i] && n in blobs
      {
        assert names[..i + 1] == names[..i] + [names[i]];
        if names[i] in blobs { r := r + {names[i]}; }
      }
      assert names[..|names|] == names;
    }

    method PutChunks(name: string, cs: seq<Chunk>, ps: seq<Posting>)
      modifies this`chunks, this`chunkHash, this`postings
      ensures View() == WithChunks(old(View()), name, cs, ps)
    {
      if name in chunks { return; }
      chunks := chunks[name := cs];
      ghost var hashes, entries := WithHashes(chunkHash, cs), WithPostings(postings, ps);
      assert cs[0..] == cs && ps[0..] == ps;
      for i := 0 to |cs|
        invariant WithHashes(chunkHash, cs[i..]) == hashes
        invariant postings == old(postings) && chunks == old(chunks)[name := cs]
      {
        assert cs[i..][1..] == cs[i + 1..];
        if cs[i].contentHash != "" { chunkHash := chunkHash[cs[i].id := cs[i].contentHash]; }
      }
      for i := 0 to |ps|
        invariant WithPostings(postings, ps[i..]) == entries
        invariant chunkHash == hashes && chunks == old(chunks)[name := cs]
      {
        assert ps[i..][1..] == ps[i + 1..];
        postings := postings[(ps[i].term, ps[i].chunkID) := ps[i].tf];
      }
    }

    /** The rows of the listed terms and chunks. */
    method ChunkPostings(terms: seq<string>, allowed: set<string>) returns (r: map<(string, string), nat>)
      ensures r == map k | k in postings && k.0 in terms && k.1 in allowed :: postings[k]
    {
      r := map[];
      for i := 0 to |terms|
        invariant r == map k | k in postings && k.0 in terms[..i] && k.1 in allowed :: postings[k]
      {
        assert terms[..i + 1] == terms[..i] + [terms[i]];
        var rest := set k | k in postings && k.0 == terms[i];
        ghost var before := r;
        while rest != {}
          invariant rest <= (set k | k in postings && k.0 == terms[i])
          invariant r == map k | k in postings && k.1 in allowed &&
                                 (k in before || (k.0 == terms[i] && k !in rest)) :: postings[k]
        {
          var k :| k in rest;
          if k.1 in allowed { r := r[k := postings[k]]; }
          rest := rest - {k};
        }
      }
      assert terms[..|terms|] == terms;
    }

    method PutEmbeddings(es: seq<Embedding>)
      modifies this`vectors, this`hashVectors
      ensures View() == WithEmbeddings(old(View()), es)
    {
      assert es[0..] == es;
      for i := 0 to |es|
        invariant VectorsWith(vectors, es[i..]) == VectorsWith(old(vectors), es)
        invariant HashVectorsWith(hashVectors, es[i..]) == HashVectorsWith(old(hashVectors), es)
      {
        assert es[i..][1..] == es[i + 1..];
        if es[i].contentHash != "" {
          hashVectors := hashVectors[(es[i].model, es[i].contentHash) := es[i].vector];
        } else {
          vectors := vectors[(es[i].model, es[i].chunkID) := es[i].vector];
        }
      }
    }

    method CreateSnapshot(id: string, s: Snapshot)
      modifies this`snapshots
      ensures View() == WithSnapshot(old(View()), id, s)
    {
      snapshots := snapshots[id := s];
    }

    method SnapshotByID(id: string) returns (r: Option<Snapshot>)
      ensures r == if id in snapshots then Some(snapshots[id]) else None
    {
      r := if id in snapshots then Some(snapshots[id]) else None;
    }

    method SetUserCheckpoint(user: string, id: string)
      modifies this`checkpoints
      ensures View() == WithCheckpoint(old(View()), user, id)
    {
      checkpoints := checkpoints[user := id];
    }

    method UserOwnsSnapshot(user: string, id: string) returns (r: bool)
      ensures r <==> Owns(View(), user, id)
    {
      if PointerOf(checkpoints, user) == id { return true; }
      r := exists k :: k in projects && k.user == user && projects[k].snapshotID == id;
    }

    method ReplaceRepositoryFiles(repo: string, upserts: seq<File>, deleted: seq<string>)
      modifies this`files
      ensures View() == WithFiles(old(View()), repo, upserts, deleted)
    {
      ghost var goal := PutFiles(DropFiles(files, repo, deleted), repo, upserts);
      assert deleted[0..] == deleted && upserts[0..] == upserts;
      for i := 0 to |deleted|
        invariant goal == PutFiles(DropFiles(files, repo, deleted[i..]), repo, upserts)
      {
        assert deleted[i..][1..] == deleted[i + 1..];
        files := files - {(repo, deleted[i])};
      }
      for i := 0 to |upserts|
        invariant goal == PutFiles(files, repo, upserts[i..])
      {
        assert upserts[i..][1..] == upserts[i + 1..];
        files := files[(repo, upserts[i].path) := upserts[i].blobName];
      }
    }

    method DeleteACEProject(key: RowKey)
      modifies this`projects
      ensures View() == old(View()).(projects := old(projects) - {key})
    {
      projects := projects - {key};
    }

    method SaveACEProject(key: RowKey, row: Row)
      modifies this`projects
      ensures View() == old(View()).(projects := old(projects)[key := row])
    {
      projects := projects[key := row];
    }

    method EnsureACEProject(key: RowKey, worktree: bool) returns (created: bool)
      modifies this`projects
      ensures created <==> key !in old(projects)
      ensures View() == if created then old(View()).(projects := old(projects)[key := Row(worktree, "")]) else old(View())
    {
      created := key !in projects;
      if created { projects := projects[key := Row(worktree, "")]; }
    }

    method CreateJob(id: string, job: Job)
      modifies this`jobs
      ensures View() == old(View()).(jobs := old(jobs)[id := job])
    {
      jobs := jobs[id := job];
    }

    method RenameACEJobs(user: string, from: string, to: string)
      modifies this`jobs
      ensures View() == old(View()).(jobs := Renamed(old(jobs), user, from, to))
    {
      var rest, done := jobs.Keys, {};
      while rest != {}
        invariant rest !! done && rest + done == old(jobs).Keys == jobs.Keys
        invariant forall j :: j in rest ==> jobs[j] == old(jobs)[j]
        invariant forall j :: j in done ==> jobs[j] == Renamed(old(jobs), user, from, to)[j]
      {
        var id :| id in rest;
        var j := jobs[id];
        if j.owner == user && j.repository == from && j.repositoryID == "" {
          jobs := jobs[id := j.(repository := to)];
        }
        rest, done := rest - {id}, done + {id};
      }
    }

    /** One row's share of the total: names not seen before. */
    method AddSizes(names: seq<string>, seen0: set<string>, total0: int) returns (seen: set<string>, total: int)
      requires total0 == Sum(seen0, SizeIn(blobs, PLAIN))
      ensures seen == seen0 + Elements(names) && total == Sum(seen, SizeIn(blobs, PLAIN))
    {
      seen, total := seen0, total0;
      for i := 0 to |names|
        invariant seen == seen0 + Elements(names[..i]) && total == Sum(seen, SizeIn(blobs, PLAIN))
      {
        assert names[..i + 1] == names[..i] + [names[i]];
        if names[i] in seen { continue; }
        SumPick(seen + {names[i]}, SizeIn(blobs, PLAIN), names[i]);
        assert seen + {names[i]} - {names[i]} == seen;
        if names[i] in blobs { total := total + |blobs[names[i]].content|; }
        seen := seen + {names[i]};
      }
      assert names[..|names|] == names;
    }

    method UserStorageBytes(user: string) returns (total: int)
      ensures total == StorageBytes(View(), user, PLAIN)
    {
      total := 0;
      var seen: set<string> := {};
      var rest, done := projects.Keys, {};
      while rest != {}
        invariant rest !! done && rest + done == projects.Keys
        invariant forall n :: n in seen <==> exists k :: k in done && RowHolds(View(), user, k, n)
        invariant total == Sum(seen, SizeIn(blobs, PLAIN))
      {
        var key :| key in rest;
        ghost var before := seen;
        if key.user == user && projects[key].snapshotID in snapshots {
          seen, total := AddSizes(snapshots[projects[key].snapshotID].blobNames, seen, total);
        }
        assert forall n :: n in seen <==> n in before || RowHolds(View(), user, key, n);
        rest, done := rest - {key}, done + {key};
      }
      assert seen == HeldNames(View(), user);
    }

    method UserHeldBlobNames(user: string, names: seq<string>) returns (r: set<string>)
      ensures r == Elements(names) * HeldNames(View(), user)
    {
      var held: set<string> := {};
      var rest, done := projects.Keys, {};
      while rest != {}
        invariant rest !! done && rest + done == projects.Keys
        invariant forall n :: n in held <==> exists k :: k in done && RowHolds(View(), user, k, n)
      {
        var key :| key in rest;
        ghost var before := held;
        if key.user == user && projects[key].snapshotID in snapshots {
          held := held + Elements(snapshots[projects[key].snapshotID].blobNames);
        }
        assert forall n :: n in held <==> n in before || RowHolds(View(), user, key, n);
        rest, done := rest - {key}, done + {key};
      }
      assert held == HeldNames(View(), user);
      r := {};
      for i := 0 to |names|
        invariant r == Elements(names[..i]) * held
      {
        assert names[..i + 1] == names[..i] + [names[i]];
        if names[i] in held { r := r + {names[i]}; }
      }
      assert names[..|names|] == names;
    }

    // --------------------------------------------------------------------- purge

    method NeededSnapshots(user: string) returns (keep: set<string>)
      ensures forall id :: id in keep <==> Needed(View(), user, id)
    {
      keep := {};
      var rows, doneRows := projects.Keys, {};
      while rows != {}
        invariant rows !! doneRows && rows + doneRows == projects.Keys
        invariant keep == set k | k in doneRows :: projects[k].snapshotID
      {
        var k :| k in rows;
        keep := keep + {projects[k].snapshotID};
        rows, doneRows := rows - {k}, doneRows + {k};
      }
      ghost var byRow := keep;
      var users, doneUsers := checkpoints.Keys, {};
      while users != {}
        invariant users !! doneUsers && users + doneUsers == checkpoints.Keys
        invariant keep == byRow + set u | u in doneUsers && u != user :: checkpoints[u]
      {
        var u :| u in users;
        if u != user { keep := keep + {checkpoints[u]}; }
        users, doneUsers := users - {u}, doneUsers + {u};
      }
    }

    method CountShared(names: seq<string>, target: set<string>) returns (shared: nat)
      ensures shared == Shared(names, target)
    {
      shared := 0;
      for i := 0 to |names|
        invariant shared == Shared(names[..i], target)
      {
        assert names[..i + 1][..i] == names[..i];
        if names[i] in target { shared := shared + 1; }
      }
      assert names[..|names|] == names;
    }

    method Dooms(id: string, keep: set<string>, target: set<string>, user: string, purged: string) returns (r: bool)
      requires id in snapshots && target == if purged in snapshots then Elements(snapshots[purged].blobNames) else {}
      requires id in keep <==> Needed(View(), user, id)
      ensures r <==> Doomed(View(), user, purged, id)
    {
      var s := snapshots[id];
      if s.repositoryID != "" || id in keep { return false; }
      if id == purged { return true; }
      var shared := CountShared(s.blobNames, target);
      r := Overlapping(shared, |s.blobNames|, |target|);
    }

    method DoomedSnapshots(user: string, purged: string) returns (doomed: set<string>)
      ensures doomed == DoomedSet(View(), user, purged)
    {
      var target := if purged in snapshots then Elements(snapshots[purged].blobNames) else {};
      var keep := NeededSnapshots(user);
      ghost var all := DoomedSet(View(), user, purged);
      assert forall id :: id in all <==> id in snapshots && Doomed(View(), user, purged, id);
      doomed := {};
      var rest, done := snapshots.Keys, {};
      while rest != {}
        invariant rest !! done && rest + done == snapshots.Keys
        invariant doomed == all * done
      {
        var id :| id in rest;
        var dooms := Dooms(id, keep, target, user, purged);
        if dooms { doomed := doomed + {id}; }
        rest, done := rest - {id}, done + {id};
      }
    }

    /** Remove the doomed snapshots, collecting the names they listed. */
    method TakeSnapshots(doomed: set<string>) returns (names: set<string>)
      requires doomed <= snapshots.Keys
      modifies this`snapshots
      ensures snapshots == old(snapshots) - doomed
      ensures forall n :: n in names <==> exists id :: id in doomed && Lists(old(View()), id, n)
    {
      names := {};
      var rest, done := doomed, {};
      while rest != {}
        invariant rest !! done && rest + done == doomed
        invariant snapshots == old(snapshots) - done
        invariant forall n :: n in names <==> exists id :: id in done && Lists(old(View()), id, n)
      {
        var id :| id in rest;
        names := names + Elements(snapshots[id].blobNames);
        assert forall n :: n in snapshots[id].blobNames <==> Lists(old(View()), id, n);
        snapshots := snapshots - {id};
        rest, done := rest - {id}, done + {id};
      }
    }

    /** The candidates that no remaining snapshot and no repository file names. */
    method Unreferenced(candidates: set<string>) returns (dead: set<string>)
      ensures forall n :: n in dead <==> n in candidates && (forall id :: !Lists(View(), id, n)) &&
                                         (forall f :: f in files ==> files[f] != n)
    {
      dead := candidates;
      var live, seen := snapshots.Keys, {};
      while live != {}
        invariant live !! seen && live + seen == snapshots.Keys
        invariant forall n :: n in dead <==> n in candidates && forall id :: id in seen ==> !Lists(View(), id, n)
      {
        var id :| id in live;
        assert forall n :: n in snapshots[id].blobNames <==> Lists(View(), id, n);
        dead := dead - Elements(snapshots[id].blobNames);
        live, seen := live - {id}, seen + {id};
      }
      ghost var unlisted := dead;
      assert forall n :: n in unlisted <==> n in candidates && forall id :: !Lists(View(), id, n);
      var kept, struck := files.Keys, {};
      while kept != {}
        invariant kept !! struck && kept + struck == files.Keys
        invariant forall n :: n in dead <==> n in unlisted && forall f :: f in struck ==> files[f] != n
      {
        var f :| f in kept;
        dead := dead - {files[f]};
        kept, struck := kept - {f}, struck + {f};
      }
    }

    /** Drop the doomed snapshots; what remains of their names after striking out
        every name still listed is what dies. */
    method DropSnapshots(user: string, doomed: set<string>) returns (dead: set<string>)
      requires doomed <= snapshots.Keys
      modifies this`snapshots, this`checkpoints
      ensures View() == WithoutSnapshots(old(View()), user, doomed)
      ensures dead == DeadSet(old(View()), doomed)
    {
      var candidates := TakeSnapshots(doomed);
      if user in checkpoints && checkpoints[user] in doomed { checkpoints := checkpoints - {user}; }
      dead := Unreferenced(candidates);
      assert forall id, n :: Lists(View(), id, n) <==> Lists(old(View()), id, n) && id !in doomed;
      forall n ensures n in dead <==> n in DeadSet(old(View()), doomed) {
        DeadSetMember(old(View()), doomed, n);
        assert (forall id :: !Lists(View(), id, n)) <==> (forall id :: Lists(old(View()), id, n) ==> id in doomed);
      }
    }

    method DropBlobs(dead: set<string>)
      modifies this`blobs, this`chunks, this`postings, this`vectors, this`chunkHash
      ensures View() == WithoutBlobs(old(View()), dead)
    {
      var rest, done := dead, {};
      while rest != {}
        invariant rest !! done && rest + done == dead
        invariant View() == WithoutBlobs(old(View()), done)
      {
        var name :| name in rest;
        ghost var before := View();
        if name in chunks { DropChunks(chunks[name]); }
        chunks := chunks - {name};
        blobs := blobs - {name};
        DropOne(old(View()), done, name, before);
        rest, done := rest - {name}, done + {name};
      }
    }

    method DropChunks(cs: seq<Chunk>)
      modifies this`postings, this`vectors, this`chunkHash
      ensures View() == WithoutIDs(old(View()), IDs(cs))
    {
      for i := 0 to |cs|
        invariant postings == Off(old(postings), IDs(cs[..i]))
        invariant vectors == Off(old(vectors), IDs(cs[..i]))
        invariant chunkHash == old(chunkHash) - IDs(cs[..i])
      {
        var id := cs[i].id;
        assert IDs(cs[..i + 1]) == IDs(cs[..i]) + {id};
        OffTwice(old(postings), IDs(cs[..i]), {id});
        OffTwice(old(vectors), IDs(cs[..i]), {id});
        postings := Off(postings, {id});
        vectors := Off(vectors, {id});
        chunkHash := chunkHash - {id};
      }
      assert cs[..|cs|] == cs;
    }

    /** PurgeACEProject. */
    method PurgeACEProject(key: RowKey) returns (found: bool)
      modifies this
      ensures found <==> key in old(projects)
      ensures View() == if found then Purged(old(View()), key) else old(View())
    {
      if key !in projects { return false; }
      var purged := projects[key].snapshotID;
      projects := projects - {key};
      jobs := WithoutJobs(jobs, key.user, ProjectLabel(key.name, key.branch));
      assert View() == WithoutRow(old(View()), key);
      var doomed := DoomedSnapshots(key.user, purged);
      var dead := DropSnapshots(key.user, doomed);
      DropBlobs(dead);
      return true;
    }
  }

  lemma DeadSetMember(st: Store, doomed: set<string>, n: string)
    ensures n in DeadSet(st, doomed) <==> Dead(st, doomed, n)
  {
    if Dead(st, doomed, n) {
      var id :| id in doomed && Lists(st, id, n);
      assert n in st.snapshots[id].blobNames;
    }
  }

  lemma OffTwice<V>(m: map<(string, string), V>, a: set<string>, b: set<string>)
    ensures Off(Off(m, a), b) == Off(m, a + b)
  {
  }

  function WithoutIDs(st: Store, ids: set<string>): Store {
    st.(chunkHash := st.chunkHash - ids, postings := Off(st.postings, ids), vectors := Off(st.vectors, ids))
  }

  /** Dropping one more blob from a store that has already lost some. */
  lemma DropOne(st: Store, done: set<string>, name: string, before: Store)
    requires before == WithoutBlobs(st, done) && name !in done
    ensures var s := if name in before.chunks then WithoutIDs(before, IDs(before.chunks[name])) else before;
            s.(chunks := s.chunks - {name}, blobs := s.blobs - {name}) == WithoutBlobs(st, done + {name})
  {
    var a, own := ChunkIDs(st, done), if name in st.chunks then IDs(st.chunks[name]) else {};
    ChunkIDsAdd(st, done, name);
    OffTwice(st.postings, a, own);
    OffTwice(st.vectors, a, own);
    assert st.chunks - done - {name} == st.chunks - (done + {name});
    assert st.blobs - done - {name} == st.blobs - (done + {name});
    assert st.chunkHash - a - own == st.chunkHash - (a + own);
    if name !in st.chunks { assert a + own == a; }
  }

  lemma ChunkIDsAdd(st: Store, done: set<string>, name: string)
    ensures ChunkIDs(st, done + {name}) ==
            ChunkIDs(st, done) + if name in st.chunks then IDs(st.chunks[name]) else {}
  {
  }
}
