/** The server half of the delta protocol: UploadBlobs and ResolveCheckpoint
    (internal/indexer/service.go) and the retrieval handler around them
    (internal/httpapi/server.go). */
module Service {
  import opened Domain
  import opened Text
  import opened Layout
  import opened Chunking
  import opened State
  import opened MemoryStore
  import opened Lexical
  import opened Archive

  /** A file a client uploads. */
  datatype FileInput = FileInput(path: string, content: string)

  /** How text becomes chunks and index rows: the line tests, the splitter of a
      path and content, and the lexicon. */
  datatype Source = Source(tests: LineTests, splitter: (string, string) -> Splitter, lex: Lexicon)

  /** What the store protocol needs of the rest of the server: the two hashes, the
      excluded directories, and the chunks and index rows of a named file. */
  datatype Config = Config(
    sha: string -> string,                       // sha256, hex
    digest: string -> string,                    // the first 32 hex digits of sha256
    excluded: string -> bool,                    // toolPathExcluded
    chunks: (string, FileInput) -> seq<Chunk>,
    rows: (string, FileInput) -> map<(string, string), nat>)

  /** BlobName: path and content are hashed without a separator. */
  function BlobName(cfg: Config, f: FileInput): string {
    cfg.sha(f.path + f.content)
  }

  /** checkpointName. */
  function CheckpointName(cfg: Config, names: seq<string>): string {
    "ckpt_" + cfg.digest(Encode(names))
  }

  // ------------------------------------------------------------------- upload

  function RawChunks(src: Source, name: string, f: FileInput): (r: seq<Chunk>)
    ensures Ranged(r)
  {
    ChunksSound(src.tests, src.splitter(f.path, f.content), name, f.content);
    Chunks(src.tests, src.splitter(f.path, f.content), name, f.content)
  }

  /** The chunks stored for a blob, stamped with token count and content hash. */
  function IndexedChunks(src: Source, name: string, f: FileInput): seq<Chunk> {
    StampAll(src.lex, f.path, f.content, RawChunks(src, name, f))
  }

  function IndexRows(src: Source, name: string, f: FileInput): map<(string, string), nat> {
    Entries(src.lex, f.content, RawChunks(src, name, f))
  }

  /** The configuration chunks and counts by the source's splitters and lexicon. */
  ghost predicate IndexesBy(cfg: Config, src: Source) {
    forall n, f :: cfg.chunks(n, f) == IndexedChunks(src, n, f) && cfg.rows(n, f) == IndexRows(src, n, f)
  }

  /** Chunks are numbered under their blob's name, so their ids are distinct. */
  lemma IndexedIDs(src: Source, name: string, f: FileInput)
    ensures var cs, raw := IndexedChunks(src, name, f), RawChunks(src, name, f);
            && |cs| == |raw| && DistinctIDs(raw)
            && forall i :: 0 <= i < |cs| ==> cs[i].id == raw[i].id == ChunkID(name, i)
  {
    ChunksSound(src.tests, src.splitter(f.path, f.content), name, f.content);
  }

  function WithIndex(st: Store, name: string, cs: seq<Chunk>, rows: map<(string, string), nat>): Store {
    st.(chunks := st.chunks[name := cs], chunkHash := WithHashes(st.chunkHash, cs), postings := st.postings + rows)
  }

  /** Storing one blob with its chunks and index rows. */
  function Ingest(cfg: Config, st: Store, f: FileInput): Store {
    var name := BlobName(cfg, f);
    var s := WithBlob(st, name, Blob(f.path, f.content));
    if cfg.excluded(f.path) || name in s.chunks then s
    else WithIndex(s, name, cfg.chunks(name, f), cfg.rows(name, f))
  }

  function IngestAll(cfg: Config, st: Store, existing: set<string>, fs: seq<FileInput>): Store
    decreases |fs|
  {
    if fs == [] then st
    else IngestAll(cfg, if BlobName(cfg, fs[0]) in existing then st else Ingest(cfg, st, fs[0]), existing, fs[1..])
  }

  function FileNames(cfg: Config, fs: seq<FileInput>): (r: seq<string>)
    ensures |r| == |fs| && forall i :: 0 <= i < |fs| ==> r[i] == BlobName(cfg, fs[i])
  {
    seq(|fs|, i requires 0 <= i < |fs| => BlobName(cfg, fs[i]))
  }

  /** UploadBlobs: names already stored are skipped up front. */
  function Uploaded(cfg: Config, st: Store, fs: seq<FileInput>): Store {
    IngestAll(cfg, st, (set n | n in FileNames(cfg, fs) && n in st.blobs), fs)
  }

  method ChunkAndCount(src: Source, name: string, f: FileInput) returns (cs: seq<Chunk>, ps: seq<Posting>)
    ensures cs == IndexedChunks(src, name, f) && ListsEntries(ps, IndexRows(src, name, f))
  {
    IndexedIDs(src, name, f);
    var raw := ChunkBlob(src.tests, src.splitter(f.path, f.content), name, f.content);
    assert raw == RawChunks(src, name, f);
    cs, ps := IndexPostings(src.lex, f.path, f.content, raw);
  }

  method IngestBlob(cfg: Config, src: Source, mem: Memory, name: string, f: FileInput)
    requires IndexesBy(cfg, src) && name == BlobName(cfg, f)
    modifies mem
    ensures mem.View() == Ingest(cfg, old(mem.View()), f)
  {
    mem.PutBlob(name, Blob(f.path, f.content));
    if !cfg.excluded(f.path) {
      var cs, ps := ChunkAndCount(src, name, f);
      assert cs == cfg.chunks(name, f) && ListsEntries(ps, cfg.rows(name, f));
      StoringAddsRows(mem.postings, ps, cfg.rows(name, f));
      mem.PutChunks(name, cs, ps);
    }
  }

  method UploadBlobs(cfg: Config, src: Source, mem: Memory, fs: seq<FileInput>) returns (names: seq<string>)
    requires IndexesBy(cfg, src)
    modifies mem
    ensures names == FileNames(cfg, fs)
    ensures mem.View() == Uploaded(cfg, old(mem.View()), fs)
  {
    names := FileNames(cfg, fs);
    var existing := mem.ExistingBlobNames(names);
    ghost var goal := Uploaded(cfg, mem.View(), fs);
    assert fs[0..] == fs;
    for i := 0 to |fs|
      invariant goal == IngestAll(cfg, mem.View(), existing, fs[i..])
    {
      assert fs[i..][1..] == fs[i + 1..];
      if names[i] in existing { continue; }
      IngestBlob(cfg, src, mem, names[i], fs[i]);
    }
  }

  // ----------------------------------------------------------------- checkpoints

  /** What a request means for the store: refused (410) or a checkpoint id. */
  datatype Resolved = Gone | Resolved(id: string, store: Store)

  ghost function ResolvedNames(st: Store, claimed: string, added: set<string>, deleted: set<string>): set<string> {
    (if claimed == "" then {} else Elements(NamesOf(st, claimed))) - deleted + added
  }

  /** ResolveCheckpoint: base minus deleted plus added, as an immutable snapshot
      whose id is derived from its names. */
  ghost function Resolve(cfg: Config, st: Store, claimed: string, added: set<string>, deleted: set<string>): Resolved {
    if claimed != "" && claimed !in st.snapshots then Gone
    else if claimed != "" && added == {} && deleted == {} then Resolved(claimed, st)
    else MintCheckpoint(cfg, st, claimed, Listing(ResolvedNames(st, claimed, added, deleted)))
  }

  ghost function MintCheckpoint(cfg: Config, st: Store, claimed: string, names: seq<string>): (r: Resolved)
    ensures r.Resolved? && r.store.blobs == st.blobs && r.store.chunks == st.chunks && r.store.postings == st.postings
    ensures r.store.jobs == st.jobs && r.store.checkpoints == st.checkpoints && r.store.projects == st.projects
    ensures r.store.files == st.files && r.store.chunkHash == st.chunkHash
  {
    var id := CheckpointName(cfg, names);
    Resolved(id, if id in st.snapshots then st else WithSnapshot(st, id, Snapshot("", claimed, names)))
  }

  method DrainSorted(s: set<string>) returns (r: seq<string>)
    ensures r == Listing(s)
  {
    var list: seq<string> := [];
    var rest := s;
    while rest != {}
      invariant rest !! Elements(list) && rest + Elements(list) == s && NoDuplicates(list)
    {
      var x :| x in rest;
      assert x !in list;
      list, rest := list + [x], rest - {x};
    }
    r := Sort(list);
    SortSorted(list);
    SortedListingUnique(r, Listing(s));
  }

  method ResolveCheckpoint(cfg: Config, mem: Memory, claimed: string, added: seq<string>, deleted: seq<string>)
    returns (id: Option<string>)
    modifies mem`snapshots
    ensures match Resolve(cfg, old(mem.View()), claimed, Elements(added), Elements(deleted))
            case Gone => id == None && mem.View() == old(mem.View())
            case Resolved(rid, st) => id == Some(rid) && mem.View() == st
  {
    var names: set<string> := {};
    ElementsEmpty(added);
    ElementsEmpty(deleted);
    if claimed != "" {
      var base := mem.SnapshotByID(claimed);
      if base.None? { return None; }
      names := Elements(base.value.blobNames);
    }
    ghost var base := names;
    for i := 0 to |deleted|
      invariant names == base - Elements(deleted[..i])
    {
      assert deleted[..i + 1] == deleted[..i] + [deleted[i]];
      names := names - {deleted[i]};
    }
    assert deleted[..|deleted|] == deleted;
    for i := 0 to |added|
      invariant names == base - Elements(deleted) + Elements(added[..i])
    {
      assert added[..i + 1] == added[..i] + [added[i]];
      names := names + {added[i]};
    }
    assert added[..|added|] == added;
    assert names == ResolvedNames(mem.View(), claimed, Elements(added), Elements(deleted));
    var blobs := DrainSorted(names);
    if claimed != "" && |added| == 0 && |deleted| == 0 { return Some(claimed); }
    var name := CheckpointName(cfg, blobs);
    var known := mem.SnapshotByID(name);
    if known.None? { mem.CreateSnapshot(name, Snapshot("", claimed, blobs)); }
    return Some(name);
  }

  /** A retrieval by `user` ("" is the shared token): a claimed checkpoint must be
      the user's own; the resolved one becomes the user's pointer and is archived. */
  ghost function Retrieved(cfg: Config, st: Store, user: string, claimed: string, added: set<string>,
                           deleted: set<string>, ws: Workspace, jobID: string): Resolved
  {
    if user != "" && claimed != "" && !Owns(st, user, claimed) then Gone
    else
      match Resolve(cfg, st, claimed, added, deleted)
      case Gone => Gone
      case Resolved(id, s) =>
        if user == "" then Resolved(id, s)
        else Resolved(id, Archived(WithCheckpoint(s, user, id), user, id, ws, added + deleted != {}, jobID))
  }

  method Retrieval(cfg: Config, mem: Memory, user: string, claimed: string, added: seq<string>, deleted: seq<string>,
                   ws: Workspace, jobID: string) returns (id: Option<string>)
    modifies mem
    ensures match Retrieved(cfg, old(mem.View()), user, claimed, Elements(added), Elements(deleted), ws, jobID)
            case Gone => id == None && mem.View() == old(mem.View())
            case Resolved(rid, st) => id == Some(rid) && mem.View() == st
  {
    if user != "" && claimed != "" {
      var owned := mem.UserOwnsSnapshot(user, claimed);
      if !owned { return None; }
    }
    id := ResolveCheckpoint(cfg, mem, claimed, added, deleted);
    ElementsEmpty(added);
    ElementsEmpty(deleted);
    if id.Some? && user != "" {
      mem.SetUserCheckpoint(user, id.value);
      ArchiveACEProject(mem, user, id.value, ws, |added| + |deleted| > 0, jobID);
    }
  }
}
