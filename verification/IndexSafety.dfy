/** The inverted index over whole runs: what is persisted is what direct counting
    of the stored text gives. */
module IndexSafety {
  import opened Domain
  import opened Text
  import opened Chunking
  import opened State
  import opened MemoryStore
  import opened Lexical
  import opened Archive
  import opened Service
  import opened Client
  import opened Safety
  import opened Protocol

  // ------------------------------------------------------------ blob names

  /** A set of files in which no two share a blob name. */
  ghost predicate NoClash(cfg: Config, known: iset<FileInput>) {
    forall f, g :: f in known && g in known && BlobName(cfg, f) == BlobName(cfg, g) ==> f == g
  }

  /** A blob name hashes path and content run together, so even a collision-free
      hash gives two files one name exactly when path + content agree. */
  lemma NamesClashExactly(cfg: Config, f: FileInput, g: FileInput)
    requires forall a, b :: cfg.sha(a) == cfg.sha(b) ==> a == b
    ensures BlobName(cfg, f) == BlobName(cfg, g) <==> f.path + f.content == g.path + g.content
  {
  }

  /** Two different files can have one name, and once one of them is stored the
      upload of the other changes nothing: the store keeps the first file's path
      and content. */
  lemma ClashLosesAFile(cfg: Config, st: Store)
    ensures var f, g := FileInput("a", "bc"), FileInput("ab", "c");
            && f != g && BlobName(cfg, f) == BlobName(cfg, g)
            && (BlobName(cfg, f) in st.blobs ==> Uploaded(cfg, st, [g]) == st)
  {
    var f, g := FileInput("a", "bc"), FileInput("ab", "c");
    assert f.path + f.content == "abc" == g.path + g.content;
    if BlobName(cfg, f) in st.blobs {
      var existing := set n | n in FileNames(cfg, [g]) && n in st.blobs;
      assert FileNames(cfg, [g])[0] in existing;
      assert IngestAll(cfg, st, existing, [g]) == IngestAll(cfg, st, existing, [g][1..]);
      assert [g][1..] == [];
    }
  }

  /** Among files without clashes, equal names mean equal path and content: a
      snapshot's names determine the files. */
  lemma NoClashExactly(cfg: Config, known: iset<FileInput>)
    requires forall a, b :: cfg.sha(a) == cfg.sha(b) ==> a == b
    ensures NoClash(cfg, known) <==>
            forall f, g :: f in known && g in known && f.path + f.content == g.path + g.content ==> f == g
  {
    if NoClash(cfg, known) {
      forall f, g | f in known && g in known && f.path + f.content == g.path + g.content ensures f == g {
        assert BlobName(cfg, f) == BlobName(cfg, g);
      }
    } else {
      var f, g :| f in known && g in known && BlobName(cfg, f) == BlobName(cfg, g) && f != g;
      NamesClashExactly(cfg, f, g);
    }
  }

  // --------------------------------------------------------------- invariant

  function FileOf(b: Blob): FileInput { FileInput(b.path, b.content) }

  /** Every stored blob is a known file under its own name. */
  ghost predicate Named(cfg: Config, known: iset<FileInput>, st: Store) {
    forall n :: n in st.blobs ==> FileOf(st.blobs[n]) in known && n == BlobName(cfg, FileOf(st.blobs[n]))
  }

  /** Every chunk list is the chunking of its blob. */
  ghost predicate Chunked(cfg: Config, st: Store) {
    forall n :: n in st.chunks ==> n in st.blobs && st.chunks[n] == cfg.chunks(n, FileOf(st.blobs[n]))
  }

  /** The postings of a blob's chunks are the rows counted from its text. */
  ghost predicate RowsExact(cfg: Config, st: Store, n: string)
    requires n in st.chunks && n in st.blobs
  {
    var rows := cfg.rows(n, FileOf(st.blobs[n]));
    && (forall k :: k in rows ==> k in st.postings && st.postings[k] == rows[k])
    && (forall k :: k in st.postings && k.1 in IDs(st.chunks[n]) ==> k in rows)
  }

  /** No posting is left of a chunk that is not stored. */
  ghost predicate NoOrphans(st: Store) {
    forall k :: k in st.postings ==> exists n :: n in st.chunks && k.1 in IDs(st.chunks[n])
  }

  /** What is stored of the index is right. */
  ghost predicate Consistent(cfg: Config, known: iset<FileInput>, st: Store) {
    && Named(cfg, known, st) && Chunked(cfg, st) && NoOrphans(st)
    && forall n :: n in st.chunks ==> RowsExact(cfg, st, n)
  }

  /** Nothing of it is missing or too much: exactly the blobs whose path is not excluded
      have a chunk list. */
  ghost predicate Covered(cfg: Config, st: Store) {
    forall n :: n in st.blobs ==> (n in st.chunks <==> !cfg.excluded(st.blobs[n].path))
  }

  /** Each of the chunks has its content hash on record, if it has one. */
  ghost predicate OnRecord(hashes: map<string, string>, cs: seq<Chunk>) {
    forall i :: 0 <= i < |cs| && cs[i].contentHash != "" ==> cs[i].id in hashes && hashes[cs[i].id] == cs[i].contentHash
  }

  /** The content hashes on record are those of the stored chunks. */
  ghost predicate HashesExact(st: Store) {
    && (forall n :: n in st.chunks ==> OnRecord(st.chunkHash, st.chunks[n]))
    && (forall id :: id in st.chunkHash ==> exists n :: n in st.chunks && id in IDs(st.chunks[n]))
  }

  ghost predicate Indexed(cfg: Config, known: iset<FileInput>, st: Store) {
    Consistent(cfg, known, st) && Covered(cfg, st) && HashesExact(st)
  }

  /** Index rows belong to the chunks of their blob, chunks have different ids, and so
      have chunks of different blobs. */
  ghost predicate Lawful(cfg: Config) {
    && (forall n, f :: DistinctIDs(cfg.chunks(n, f)))
    && (forall n, f, k :: k in cfg.rows(n, f) ==> k.1 in IDs(cfg.chunks(n, f)))
    && (forall n, f, m, g :: n != m && ':' !in n && ':' !in m ==> IDs(cfg.chunks(n, f)) !! IDs(cfg.chunks(m, g)))
  }

  lemma IDsOf(src: Source, n: string, f: FileInput, id: string)
    ensures id in IDs(IndexedChunks(src, n, f)) <==>
            exists i: nat :: i < |RawChunks(src, n, f)| && id == ChunkID(n, i)
    ensures IDs(IndexedChunks(src, n, f)) == IDs(RawChunks(src, n, f))
  {
    IndexedIDs(src, n, f);
    NumberedIDs(n, IndexedChunks(src, n, f), RawChunks(src, n, f), id);
  }

  lemma NumberedIDs(n: string, cs: seq<Chunk>, raw: seq<Chunk>, id: string)
    requires |cs| == |raw| && forall i :: 0 <= i < |cs| ==> cs[i].id == raw[i].id == ChunkID(n, i)
    ensures id in IDs(cs) <==> exists i: nat :: i < |raw| && id == ChunkID(n, i)
    ensures IDs(cs) == IDs(raw)
  {
    if i: nat :| i < |raw| && id == ChunkID(n, i) { assert cs[i].id == id; }
    assert forall i :: 0 <= i < |cs| ==> cs[i].id == raw[i].id;
  }

  lemma ChunksDistinct(src: Source, n: string, f: FileInput)
    ensures DistinctIDs(IndexedChunks(src, n, f))
  {
    IndexedIDs(src, n, f);
  }

  /** ChunkBlob's numbering and indexPostings' rows obey the laws. */
  lemma SourceIsLawful(cfg: Config, src: Source)
    requires IndexesBy(cfg, src)
    ensures Lawful(cfg)
  {
    forall n, f ensures DistinctIDs(cfg.chunks(n, f)) { ChunksDistinct(src, n, f); }
    forall n, f, k | k in cfg.rows(n, f) ensures k.1 in IDs(cfg.chunks(n, f)) {
      IDsOf(src, n, f, k.1);
      IndexedIDs(src, n, f);
      EntriesOfChunk(src.lex, f.content, RawChunks(src, n, f), k.0, k.1);
    }
    forall n, f, m, g | n != m && ':' !in n && ':' !in m ensures IDs(cfg.chunks(n, f)) !! IDs(cfg.chunks(m, g)) {
      forall id | id in IDs(cfg.chunks(n, f)) ensures id !in IDs(cfg.chunks(m, g)) {
        IDsOf(src, n, f, id);
        IDsOf(src, m, g, id);
        var i: nat :| i < |RawChunks(src, n, f)| && id == ChunkID(n, i);
        if j: nat :| j < |RawChunks(src, m, g)| && id == ChunkID(m, j) { ChunkIDInjective(n, i, m, j); }
      }
    }
  }

  // -------------------------------------------------------------------- upload

  lemma BlobKeepsConsistent(cfg: Config, known: iset<FileInput>, st: Store, f: FileInput)
    requires Consistent(cfg, known, st) && f in known
    ensures Consistent(cfg, known, WithBlob(st, BlobName(cfg, f), Blob(f.path, f.content)))
  {
    var n, b := BlobName(cfg, f), Blob(f.path, f.content);
    if n !in st.blobs {
      var s := st.(blobs := st.blobs[n := b]);
      assert FileOf(b) == f;
      forall m | m in s.chunks ensures m in s.blobs && s.blobs[m] == st.blobs[m] && RowsExact(cfg, s, m) {
        assert RowsExact(cfg, st, m);
      }
      assert Named(cfg, known, s) && Chunked(cfg, s) && NoOrphans(s);
    }
  }

  lemma IndexKeepsConsistent(cfg: Config, known: iset<FileInput>, st: Store, f: FileInput)
    requires Lawful(cfg) && SoundHashes(cfg) && Consistent(cfg, known, st)
    requires var n := BlobName(cfg, f); n in st.blobs && FileOf(st.blobs[n]) == f && n !in st.chunks
    ensures var n := BlobName(cfg, f);
            Consistent(cfg, known, WithIndex(st, n, cfg.chunks(n, f), cfg.rows(n, f)))
  {
    var n := BlobName(cfg, f);
    var cs, rows := cfg.chunks(n, f), cfg.rows(n, f);
    var s := WithIndex(st, n, cs, rows);
    assert Named(cfg, known, s) && Chunked(cfg, s);
    forall m | m in s.chunks ensures RowsExact(cfg, s, m) { RowsAfterIndexing(cfg, known, st, n, f, s, m); }
    NoOrphansAfterIndexing(st, n, cs, rows);
  }

  lemma NoOrphansAfterIndexing(st: Store, n: string, cs: seq<Chunk>, rows: map<(string, string), nat>)
    requires NoOrphans(st) && n !in st.chunks && forall k :: k in rows ==> k.1 in IDs(cs)
    ensures NoOrphans(WithIndex(st, n, cs, rows))
  {
    var s := WithIndex(st, n, cs, rows);
    forall k | k in s.postings ensures exists m :: m in s.chunks && k.1 in IDs(s.chunks[m]) {
      if k in rows {
        assert n in s.chunks && k.1 in IDs(s.chunks[n]);
      } else {
        var m :| m in st.chunks && k.1 in IDs(st.chunks[m]);
        assert s.chunks[m] == st.chunks[m];
      }
    }
  }

  lemma RowsAfterIndexing(cfg: Config, known: iset<FileInput>, st: Store, n: string, f: FileInput, s: Store, m: string)
    requires Lawful(cfg) && SoundHashes(cfg) && Consistent(cfg, known, st)
    requires n == BlobName(cfg, f) && n in st.blobs && FileOf(st.blobs[n]) == f && n !in st.chunks
    requires s == WithIndex(st, n, cfg.chunks(n, f), cfg.rows(n, f)) && m in s.chunks && m in s.blobs
    ensures RowsExact(cfg, s, m)
  {
    IDsApart(cfg, known, st, n, f);
    if m == n {
      OldPostingsElsewhere(st, cfg.chunks(n, f));
    } else {
      assert RowsExact(cfg, st, m);
      RowsOfOther(cfg, st, m, cfg.rows(n, f), cfg.chunks(n, f));
    }
  }

  lemma IDsApart(cfg: Config, known: iset<FileInput>, st: Store, n: string, f: FileInput)
    requires Lawful(cfg) && SoundHashes(cfg) && Consistent(cfg, known, st) && n == BlobName(cfg, f) && n !in st.chunks
    ensures forall x :: x in st.chunks ==> IDs(st.chunks[x]) !! IDs(cfg.chunks(n, f))
  {
    forall x | x in st.chunks ensures IDs(st.chunks[x]) !! IDs(cfg.chunks(n, f)) {
      assert ':' !in x && ':' !in n;
    }
  }

  lemma OldPostingsElsewhere(st: Store, cs: seq<Chunk>)
    requires NoOrphans(st) && forall m :: m in st.chunks ==> IDs(st.chunks[m]) !! IDs(cs)
    ensures forall k :: k in st.postings ==> k.1 !in IDs(cs)
  {
  }

  lemma RowsOfOther(cfg: Config, st: Store, m: string, rows: map<(string, string), nat>, cs: seq<Chunk>)
    requires Lawful(cfg) && m in st.chunks && m in st.blobs && RowsExact(cfg, st, m)
    requires st.chunks[m] == cfg.chunks(m, FileOf(st.blobs[m]))
    requires IDs(st.chunks[m]) !! IDs(cs) && forall k :: k in rows ==> k.1 in IDs(cs)
    ensures forall k :: k in cfg.rows(m, FileOf(st.blobs[m])) || k.1 in IDs(st.chunks[m]) ==> k !in rows
  {
    forall k | k in cfg.rows(m, FileOf(st.blobs[m])) ensures k !in rows {}
  }

  lemma IngestKeepsConsistent(cfg: Config, known: iset<FileInput>, st: Store, f: FileInput)
    requires Lawful(cfg) && SoundHashes(cfg) && NoClash(cfg, known) && Consistent(cfg, known, st) && f in known
    ensures Consistent(cfg, known, Ingest(cfg, st, f))
  {
    var n := BlobName(cfg, f);
    var s := WithBlob(st, n, Blob(f.path, f.content));
    BlobKeepsConsistent(cfg, known, st, f);
    assert FileOf(s.blobs[n]) == f;
    if !cfg.excluded(f.path) && n !in s.chunks { IndexKeepsConsistent(cfg, known, s, f); }
  }

  /** Exactly the uploaded file gets a chunk list, if it has none, and if its path is not
      excluded. */
  lemma IngestChunksFile(cfg: Config, st: Store, f: FileInput)
    ensures Ingest(cfg, st, f).chunks.Keys == st.chunks.Keys + if cfg.excluded(f.path) then {} else {BlobName(cfg, f)}
  {
    var n := BlobName(cfg, f);
    var s := WithBlob(st, n, Blob(f.path, f.content));
    assert s.chunks == st.chunks;
    if !cfg.excluded(f.path) {
      IndexedChunkKeys(s, n, cfg.chunks(n, f), cfg.rows(n, f));
      if n in st.chunks { assert st.chunks.Keys + {n} == st.chunks.Keys; }
    }
  }

  lemma IndexedChunkKeys(st: Store, n: string, cs: seq<Chunk>, rows: map<(string, string), nat>)
    ensures WithIndex(st, n, cs, rows).blobs == st.blobs && WithIndex(st, n, cs, rows).chunks == st.chunks[n := cs]
    ensures WithIndex(st, n, cs, rows).chunks.Keys == st.chunks.Keys + {n}
    ensures WithIndex(st, n, cs, rows).chunkHash == WithHashes(st.chunkHash, cs)
  {
  }

  /** The blob under the file's name is the file's. */
  lemma IngestStoresFile(cfg: Config, known: iset<FileInput>, st: Store, f: FileInput)
    requires NoClash(cfg, known) && Consistent(cfg, known, Ingest(cfg, st, f)) && f in known
    ensures var s, n := Ingest(cfg, st, f), BlobName(cfg, f); n in s.blobs && FileOf(s.blobs[n]) == f
  {
    var s, n := Ingest(cfg, st, f), BlobName(cfg, f);
    IngestCatalogue(cfg, st, f);
    assert n in st.blobs.Keys + {n};
    assert FileOf(s.blobs[n]) in known && n == BlobName(cfg, FileOf(s.blobs[n]));
  }

  lemma IngestKeepsCovered(cfg: Config, known: iset<FileInput>, st: Store, f: FileInput)
    requires NoClash(cfg, known) && Consistent(cfg, known, st) && Consistent(cfg, known, Ingest(cfg, st, f))
    requires Covered(cfg, st) && f in known
    ensures Covered(cfg, Ingest(cfg, st, f))
  {
    IngestStoresFile(cfg, known, st, f);
    IngestChunksFile(cfg, st, f);
    IngestCatalogue(cfg, st, f);
    CoveredAfter(cfg, st, Ingest(cfg, st, f), f, BlobName(cfg, f));
  }

  lemma CoveredAfter(cfg: Config, st: Store, s: Store, f: FileInput, n: string)
    requires Covered(cfg, st) && GrowsBy(st, s, {n}) && n in s.blobs && FileOf(s.blobs[n]) == f
    requires n !in st.blobs ==> n !in st.chunks
    requires s.chunks.Keys == st.chunks.Keys + if cfg.excluded(f.path) then {} else {n}
    ensures Covered(cfg, s)
  {
    forall m | m in s.blobs ensures m in s.chunks <==> !cfg.excluded(s.blobs[m].path) {
      assert m in st.blobs.Keys + {n};
      assert m in s.chunks <==> m in st.chunks.Keys + if cfg.excluded(f.path) then {} else {n};
    }
  }

  lemma {:induction false} HashesWritten(m: map<string, string>, cs: seq<Chunk>)
    requires DistinctIDs(cs)
    ensures OnRecord(WithHashes(m, cs), cs)
    ensures forall id :: id !in IDs(cs) ==> (id in WithHashes(m, cs) <==> id in m) && (id in m ==> WithHashes(m, cs)[id] == m[id])
    decreases |cs|
  {
    if cs != [] {
      var rest := cs[1..];
      var next := if cs[0].contentHash != "" then m[cs[0].id := cs[0].contentHash] else m;
      assert forall i :: 0 <= i < |rest| ==> rest[i] == cs[i + 1];
      assert cs[0].id !in IDs(rest);
      HashesWritten(next, rest);
      forall i | 0 <= i < |cs| && cs[i].contentHash != ""
        ensures cs[i].id in WithHashes(m, cs) && WithHashes(m, cs)[cs[i].id] == cs[i].contentHash
      {
        if i > 0 { assert rest[i - 1] == cs[i]; }
      }
      forall id | id !in IDs(cs)
        ensures (id in WithHashes(m, cs) <==> id in m) && (id in m ==> WithHashes(m, cs)[id] == m[id])
      {
        assert id != cs[0].id && id !in IDs(rest);
      }
    }
  }

  lemma HashesAfterIndexing(st: Store, s: Store, n: string, cs: seq<Chunk>)
    requires HashesExact(st) && n !in st.chunks && DistinctIDs(cs)
    requires forall m :: m in st.chunks ==> IDs(st.chunks[m]) !! IDs(cs)
    requires s.chunks == st.chunks[n := cs] && s.chunkHash == WithHashes(st.chunkHash, cs)
    ensures HashesExact(s)
  {
    HashesWritten(st.chunkHash, cs);
    forall m | m in s.chunks ensures OnRecord(s.chunkHash, s.chunks[m]) {
      if m != n {
        assert OnRecord(st.chunkHash, st.chunks[m]);
        forall i | 0 <= i < |st.chunks[m]| ensures st.chunks[m][i].id !in IDs(cs) { assert st.chunks[m][i].id in IDs(st.chunks[m]); }
      }
    }
    forall id | id in s.chunkHash ensures exists m :: m in s.chunks && id in IDs(s.chunks[m]) {
      if id in IDs(cs) {
        assert n in s.chunks && id in IDs(s.chunks[n]);
      } else {
        var m :| m in st.chunks && id in IDs(st.chunks[m]);
        assert s.chunks[m] == st.chunks[m];
      }
    }
  }

  lemma IndexingKeepsHashes(st: Store, s: Store, n: string, cs: seq<Chunk>, rows: map<(string, string), nat>)
    requires HashesExact(st) && n !in st.chunks && DistinctIDs(cs) && s.chunks == st.chunks && s.chunkHash == st.chunkHash
    requires forall m :: m in st.chunks ==> IDs(st.chunks[m]) !! IDs(cs)
    ensures HashesExact(WithIndex(s, n, cs, rows))
  {
    IndexedChunkKeys(s, n, cs, rows);
    HashesAfterIndexing(st, WithIndex(s, n, cs, rows), n, cs);
  }

  lemma BlobLeavesIndex(st: Store, n: string, b: Blob)
    ensures var s := WithBlob(st, n, b); s.chunks == st.chunks && s.chunkHash == st.chunkHash
  {
  }

  lemma IngestKeepsHashes(cfg: Config, known: iset<FileInput>, st: Store, f: FileInput)
    requires Lawful(cfg) && SoundHashes(cfg) && NoClash(cfg, known) && Consistent(cfg, known, st) && HashesExact(st) && f in known
    ensures HashesExact(Ingest(cfg, st, f))
  {
    var n := BlobName(cfg, f);
    var s := WithBlob(st, n, Blob(f.path, f.content));
    BlobLeavesIndex(st, n, Blob(f.path, f.content));
    if !cfg.excluded(f.path) && n !in s.chunks {
      IDsApart(cfg, known, st, n, f);
      IndexingKeepsHashes(st, s, n, cfg.chunks(n, f), cfg.rows(n, f));
    }
  }

  lemma IngestKeepsIndexed(cfg: Config, known: iset<FileInput>, st: Store, f: FileInput)
    requires Lawful(cfg) && SoundHashes(cfg) && NoClash(cfg, known) && Indexed(cfg, known, st) && f in known
    ensures Indexed(cfg, known, Ingest(cfg, st, f))
  {
    IngestKeepsConsistent(cfg, known, st, f);
    IngestKeepsCovered(cfg, known, st, f);
    IngestKeepsHashes(cfg, known, st, f);
  }

  lemma {:induction false} IngestAllKeepsIndexed(cfg: Config, known: iset<FileInput>, st: Store, existing: set<string>,
                                                 fs: seq<FileInput>)
    requires Lawful(cfg) && SoundHashes(cfg) && NoClash(cfg, known) && Indexed(cfg, known, st)
    requires forall f :: f in fs ==> f in known
    ensures Indexed(cfg, known, IngestAll(cfg, st, existing, fs))
    decreases |fs|
  {
    if fs != [] {
      if BlobName(cfg, fs[0]) in existing {
        IngestAllKeepsIndexed(cfg, known, st, existing, fs[1..]);
      } else {
        IngestKeepsIndexed(cfg, known, st, fs[0]);
        IngestAllKeepsIndexed(cfg, known, Ingest(cfg, st, fs[0]), existing, fs[1..]);
      }
    }
  }

  lemma UploadKeepsIndexed(cfg: Config, known: iset<FileInput>, st: Store, fs: seq<FileInput>)
    requires Lawful(cfg) && SoundHashes(cfg) && NoClash(cfg, known) && Indexed(cfg, known, st)
    requires forall f :: f in fs ==> f in known
    ensures Indexed(cfg, known, Uploaded(cfg, st, fs))
  {
    IngestAllKeepsIndexed(cfg, known, st, (set n | n in FileNames(cfg, fs) && n in st.blobs), fs);
  }

  // --------------------------------------------------------------------- purge

  lemma DropKeepsConsistent(cfg: Config, known: iset<FileInput>, st: Store, dead: set<string>)
    requires Lawful(cfg) && Consistent(cfg, known, st)
    requires forall n :: n in st.blobs ==> ':' !in n
    ensures Consistent(cfg, known, WithoutBlobs(st, dead))
  {
    var s := WithoutBlobs(st, dead);
    forall n | n in s.chunks ensures RowsExact(cfg, s, n) {
      LiveIDs(cfg, st, dead, n);
      assert RowsExact(cfg, st, n);
    }
    NoOrphansAfterDrop(st, dead);
    assert Named(cfg, known, s) && Chunked(cfg, s);
  }

  lemma DropKeepsCovered(cfg: Config, st: Store, dead: set<string>)
    requires Covered(cfg, st)
    ensures Covered(cfg, WithoutBlobs(st, dead))
  {
  }

  lemma DropKeepsHashes(cfg: Config, st: Store, dead: set<string>)
    requires Lawful(cfg) && Chunked(cfg, st) && HashesExact(st)
    requires forall n :: n in st.blobs ==> ':' !in n
    ensures HashesExact(WithoutBlobs(st, dead))
  {
    var s, ids := WithoutBlobs(st, dead), ChunkIDs(st, dead);
    forall n | n in s.chunks ensures OnRecord(s.chunkHash, s.chunks[n]) {
      LiveIDs(cfg, st, dead, n);
      assert OnRecord(st.chunkHash, st.chunks[n]);
      forall i | 0 <= i < |st.chunks[n]| ensures st.chunks[n][i].id !in ids { assert st.chunks[n][i].id in IDs(st.chunks[n]); }
    }
    forall id | id in s.chunkHash ensures exists n :: n in s.chunks && id in IDs(s.chunks[n]) {
      var n :| n in st.chunks && id in IDs(st.chunks[n]);
      assert n in dead ==> id in ids;
      assert n in s.chunks && s.chunks[n] == st.chunks[n];
    }
  }

  /** Dropping blobs takes their index rows and no other. */
  lemma DropKeepsIndexed(cfg: Config, known: iset<FileInput>, st: Store, dead: set<string>)
    requires Lawful(cfg) && Indexed(cfg, known, st)
    requires forall n :: n in st.blobs ==> ':' !in n
    ensures Indexed(cfg, known, WithoutBlobs(st, dead))
  {
    DropKeepsConsistent(cfg, known, st, dead);
    DropKeepsCovered(cfg, st, dead);
    DropKeepsHashes(cfg, st, dead);
  }

  lemma NoOrphansAfterDrop(st: Store, dead: set<string>)
    requires NoOrphans(st)
    ensures NoOrphans(WithoutBlobs(st, dead))
  {
    var s, ids := WithoutBlobs(st, dead), ChunkIDs(st, dead);
    forall k | k in s.postings ensures exists n :: n in s.chunks && k.1 in IDs(s.chunks[n]) {
      var n :| n in st.chunks && k.1 in IDs(st.chunks[n]);
      assert n in dead ==> k.1 in ids;
      assert n in s.chunks && s.chunks[n] == st.chunks[n];
    }
  }

  /** A purge keeps the index exact for every blob that survives. */
  lemma PurgeKeepsIndexed(cfg: Config, known: iset<FileInput>, st: Store, key: RowKey)
    requires Lawful(cfg) && Indexed(cfg, known, st) && key in st.projects
    requires forall n :: n in st.blobs ==> ':' !in n
    ensures Indexed(cfg, known, Purged(st, key))
  {
    var s := WithoutRow(st, key);
    var doomed := DoomedSet(s, key.user, st.projects[key].snapshotID);
    var t := WithoutSnapshots(s, key.user, doomed);
    IndexFrame(cfg, known, st, t);
    DropKeepsIndexed(cfg, known, t, DeadSet(s, doomed));
  }

  lemma LiveIDs(cfg: Config, st: Store, dead: set<string>, n: string)
    requires Lawful(cfg) && Chunked(cfg, st) && n in st.chunks && n !in dead && forall m :: m in st.blobs ==> ':' !in m
    ensures IDs(st.chunks[n]) !! ChunkIDs(st, dead)
  {
    forall id | id in ChunkIDs(st, dead) ensures id !in IDs(st.chunks[n]) {
      var m, i :| m in dead && m in st.chunks && 0 <= i < |st.chunks[m]| && st.chunks[m][i].id == id;
      assert id in IDs(st.chunks[m]);
    }
  }

  // ---------------------------------------------------------------------- runs

  lemma IndexFrame(cfg: Config, known: iset<FileInput>, st: Store, s: Store)
    requires Indexed(cfg, known, st)
    requires s.blobs == st.blobs && s.chunks == st.chunks && s.postings == st.postings && s.chunkHash == st.chunkHash
    ensures Indexed(cfg, known, s)
  {
    forall n | n in s.chunks ensures RowsExact(cfg, s, n) { assert RowsExact(cfg, st, n); }
  }

  lemma ResolveKeepsIndex(cfg: Config, st: Store, claimed: string, added: set<string>, deleted: set<string>)
    ensures var r := Resolve(cfg, st, claimed, added, deleted);
            r != Gone ==>
            && r.store.blobs == st.blobs && r.store.chunks == st.chunks && r.store.postings == st.postings
            && r.store.chunkHash == st.chunkHash
  {
  }

  lemma RetrievalKeepsIndex(cfg: Config, st: Store, user: string, claimed: string, added: set<string>,
                            deleted: set<string>, ws: Workspace, jobID: string)
    ensures var r := Retrieved(cfg, st, user, claimed, added, deleted, ws, jobID);
            r != Gone ==>
            && r.store.blobs == st.blobs && r.store.chunks == st.chunks && r.store.postings == st.postings
            && r.store.chunkHash == st.chunkHash
  {
    ResolveKeepsIndex(cfg, st, claimed, added, deleted);
    match Resolve(cfg, st, claimed, added, deleted)
    case Gone =>
    case Resolved(id, s) => ArchiveKeepsIndex(WithCheckpoint(s, user, id), user, id, ws, added + deleted != {}, jobID);
  }

  lemma ArchiveKeepsIndex(st: Store, user: string, id: string, ws: Workspace, changed: bool, jobID: string)
    ensures var s := Archived(st, user, id, ws, changed, jobID);
            s.blobs == st.blobs && s.chunks == st.chunks && s.postings == st.postings && s.chunkHash == st.chunkHash
  {
  }

  lemma AttemptKeepsIndexed(cfg: Config, known: iset<FileInput>, st: Store, user: string, ws: Workspace,
                            files: seq<FileInput>, cs: ClientState, jobID: string)
    requires Lawful(cfg) && SoundHashes(cfg) && NoClash(cfg, known) && Indexed(cfg, known, st)
    requires forall f :: f in files ==> f in known
    ensures Indexed(cfg, known, Attempt(cfg, st, user, ws, files, cs, jobID).0)
  {
    var changed := Changed(cfg, files, cs.blobs);
    ChangedNames(cfg, files, cs.blobs);
    UploadKeepsIndexed(cfg, known, st, changed);
    var s := if changed == [] then st else Uploaded(cfg, st, changed);
    var r := Retrieved(cfg, s, user, cs.checkpointID, Elements(FileNames(cfg, changed)), Stale(cfg, files, cs.blobs), ws, jobID);
    RetrievalKeepsIndex(cfg, s, user, cs.checkpointID, Elements(FileNames(cfg, changed)),
                        Stale(cfg, files, cs.blobs), ws, jobID);
    if r != Gone { IndexFrame(cfg, known, s, r.store); }
  }

  lemma SearchKeepsIndexed(cfg: Config, known: iset<FileInput>, st: Store, user: string, ws: Workspace,
                           files: seq<FileInput>, cs: ClientState, jobID: string)
    requires Lawful(cfg) && SoundHashes(cfg) && NoClash(cfg, known) && Indexed(cfg, known, st)
    requires forall f :: f in files ==> f in known
    ensures Indexed(cfg, known, Searched(cfg, st, user, ws, files, cs, jobID).0)
  {
    AttemptKeepsIndexed(cfg, known, st, user, ws, files, cs, jobID);
    AttemptKeepsIndexed(cfg, known, Attempt(cfg, st, user, ws, files, cs, jobID).0, user, ws, files, FRESH, jobID);
  }

  /** The files a step uploads. */
  function Uploads(step: Step): seq<FileInput> {
    match step
    case Round(_, _, files, _) => files
    case LostFirst(_, _, files, _) => files
    case LostLast(_, _, files, _) => files
    case Upload(files) => files
    case Sync(_, _, upserts, _) => upserts
    case _ => []
  }

  lemma ClientStepKeepsIndexed(cfg: Config, known: iset<FileInput>, w: World, step: Step)
    requires Lawful(cfg) && SoundHashes(cfg) && NoClash(cfg, known) && Indexed(cfg, known, w.store)
    requires Enabled(w, step) && forall f :: f in Uploads(step) ==> f in known
    requires step.Round? || step.LostFirst? || step.LostLast?
    ensures Indexed(cfg, known, Next(cfg, w, step).store)
  {
    match step
    case Round(c, ws, files, jobID) =>
      SearchKeepsIndexed(cfg, known, w.store, w.clients[c].user, ws, files, w.clients[c].saved, jobID);
    case LostFirst(c, ws, files, jobID) =>
      AttemptKeepsIndexed(cfg, known, w.store, w.clients[c].user, ws, files, w.clients[c].saved, jobID);
    case LostLast(c, ws, files, jobID) =>
      SearchKeepsIndexed(cfg, known, w.store, w.clients[c].user, ws, files, w.clients[c].saved, jobID);
  }

  lemma SyncKeepsIndexed(cfg: Config, known: iset<FileInput>, w: World, step: Step)
    requires Lawful(cfg) && SoundHashes(cfg) && NoClash(cfg, known) && Indexed(cfg, known, w.store)
    requires step.Sync? && Enabled(w, step) && forall f :: f in step.upserts ==> f in known
    ensures Indexed(cfg, known, Next(cfg, w, step).store)
  {
    UploadKeepsIndexed(cfg, known, w.store, step.upserts);
    IndexFrame(cfg, known, Uploaded(cfg, w.store, step.upserts), Next(cfg, w, step).store);
  }

  lemma PurgeStepKeepsIndexed(cfg: Config, known: iset<FileInput>, w: World, step: Step)
    requires Lawful(cfg) && SoundHashes(cfg) && Indexed(cfg, known, w.store) && step.Purge? && Enabled(w, step)
    ensures Indexed(cfg, known, Next(cfg, w, step).store)
  {
    if step.key in w.store.projects { PurgeKeepsIndexed(cfg, known, w.store, step.key); }
  }

  /** Steps that touch no blob, chunk or posting. */
  lemma OtherStepKeepsIndexed(cfg: Config, known: iset<FileInput>, w: World, step: Step)
    requires Indexed(cfg, known, w.store) && (step.Join? || step.Pending? || step.Embed?) && Enabled(w, step)
    ensures Indexed(cfg, known, Next(cfg, w, step).store)
  {
    match step
    case Join(c, user) =>
    case Pending(key, worktree) =>
      if key !in w.store.projects {
        IndexFrame(cfg, known, w.store, w.store.(projects := w.store.projects[key := Row(worktree, "")]));
      }
    case Embed(es) => IndexFrame(cfg, known, w.store, WithEmbeddings(w.store, es));
  }

  lemma StepKeepsIndexed(cfg: Config, known: iset<FileInput>, w: World, step: Step)
    requires Lawful(cfg) && SoundHashes(cfg) && NoClash(cfg, known) && Indexed(cfg, known, w.store)
    requires Enabled(w, step) && forall f :: f in Uploads(step) ==> f in known
    ensures Indexed(cfg, known, Next(cfg, w, step).store)
  {
    if step.Round? || step.LostFirst? || step.LostLast? {
      ClientStepKeepsIndexed(cfg, known, w, step);
    } else if step.Upload? {
      UploadKeepsIndexed(cfg, known, w.store, step.files);
    } else if step.Purge? {
      PurgeStepKeepsIndexed(cfg, known, w, step);
    } else if step.Sync? {
      SyncKeepsIndexed(cfg, known, w, step);
    } else {
      OtherStepKeepsIndexed(cfg, known, w, step);
    }
  }

  lemma {:induction false} RunKeepsIndexed(cfg: Config, known: iset<FileInput>, steps: seq<Step>, w: World)
    requires Lawful(cfg) && SoundHashes(cfg) && NoClash(cfg, known) && Run(cfg, steps, w)
    requires forall i :: 0 <= i < |steps| ==> forall f :: f in Uploads(steps[i]) ==> f in known
    ensures Indexed(cfg, known, w.store)
    decreases |steps|
  {
    if steps != [] {
      var init, last := steps[..|steps| - 1], steps[|steps| - 1];
      var v :| Run(cfg, init, v) && Enabled(v, last) && w == Next(cfg, v, last);
      RunKeepsIndexed(cfg, known, init, v);
      RunIsSafe(cfg, init, v);
      StepKeepsIndexed(cfg, known, v, last);
    }
  }

  /** A term of the tokens has a row, with its number of occurrences, and no other has. */
  ghost predicate TermIndexed(postings: map<(string, string), nat>, id: string, tokens: seq<string>, t: string) {
    && ((t, id) in postings <==> t in tokens)
    && (t in tokens && (t, id) in postings ==> postings[(t, id)] == multiset(tokens)[t])
  }

  /** Chunk i of blob n is indexed with the text: the text is the chunk's lines of the
      blob, the persisted frequency of every term is its number of occurrences among
      the tokens of that text, the length is the number of those tokens, and the content
      hash is that of path and text, on record for the chunk. */
  ghost predicate IndexedAs(lex: Lexicon, st: Store, n: string, i: nat, text: string)
    requires n in st.chunks && n in st.blobs && i < |st.chunks[n]|
  {
    var c := st.chunks[n][i];
    && CutFrom(text, st.blobs[n].content, c.startLine, c.endLine)
    && c.tokenCount == |lex.tokens(text)| && c.contentHash == lex.fingerprint(st.blobs[n].path, text)
    && (forall t :: TermIndexed(st.postings, c.id, lex.tokens(text), t))
    && (c.contentHash != "" ==> c.id in st.chunkHash && st.chunkHash[c.id] == c.contentHash)
  }

  /** Over every run whose uploads have no clashing names, the inverted index
      agrees with direct tokenization of the lines of each stored chunk. */
  lemma IndexAgreesWithText(cfg: Config, src: Source, known: iset<FileInput>, steps: seq<Step>, w: World, n: string, i: nat)
    returns (text: string)
    requires IndexesBy(cfg, src) && SoundHashes(cfg) && NoClash(cfg, known) && Run(cfg, steps, w)
    requires forall j :: 0 <= j < |steps| ==> forall f :: f in Uploads(steps[j]) ==> f in known
    requires n in w.store.chunks && i < |w.store.chunks[n]|
    ensures n in w.store.blobs && IndexedAs(src.lex, w.store, n, i, text)
  {
    SourceIsLawful(cfg, src);
    RunKeepsIndexed(cfg, known, steps, w);
    text := ChunkIsIndexed(cfg, src, known, w.store, n, i);
  }

  /** And over every such run no file is left out of the index and no other is in it: a
      stored blob has a chunk list exactly when its path is not excluded, and then that
      is the chunking of its own content. */
  lemma StoredIsChunked(cfg: Config, src: Source, known: iset<FileInput>, steps: seq<Step>, w: World, n: string)
    requires IndexesBy(cfg, src) && SoundHashes(cfg) && NoClash(cfg, known) && Run(cfg, steps, w)
    requires forall j :: 0 <= j < |steps| ==> forall f :: f in Uploads(steps[j]) ==> f in known
    requires n in w.store.blobs
    ensures n in w.store.chunks <==> !cfg.excluded(w.store.blobs[n].path)
    ensures n in w.store.chunks ==>
              w.store.chunks[n] == IndexedChunks(src, n, FileInput(w.store.blobs[n].path, w.store.blobs[n].content))
  {
    SourceIsLawful(cfg, src);
    RunKeepsIndexed(cfg, known, steps, w);
  }

  /** After an upload each of its files is stored, and chunked unless its path is
      excluded. */
  lemma UploadedAreChunked(cfg: Config, src: Source, known: iset<FileInput>, st: Store, fs: seq<FileInput>, f: FileInput)
    requires IndexesBy(cfg, src) && SoundHashes(cfg) && NoClash(cfg, known) && Indexed(cfg, known, st)
    requires f in fs && forall g :: g in fs ==> g in known
    ensures var s, n := Uploaded(cfg, st, fs), BlobName(cfg, f);
            && n in s.blobs && s.blobs[n] == Blob(f.path, f.content)
            && (n in s.chunks <==> !cfg.excluded(f.path))
            && (n in s.chunks ==> s.chunks[n] == IndexedChunks(src, n, f))
  {
    var s, n := Uploaded(cfg, st, fs), BlobName(cfg, f);
    SourceIsLawful(cfg, src);
    UploadKeepsIndexed(cfg, known, st, fs);
    UploadCatalogue(cfg, st, fs);
    var k :| 0 <= k < |fs| && fs[k] == f;
    assert FileNames(cfg, fs)[k] in Elements(FileNames(cfg, fs));
    assert n in st.blobs.Keys + Elements(FileNames(cfg, fs));
    assert FileOf(s.blobs[n]) == f;
  }

  lemma ChunkIsIndexed(cfg: Config, src: Source, known: iset<FileInput>, st: Store, n: string, i: nat) returns (text: string)
    requires IndexesBy(cfg, src) && Indexed(cfg, known, st) && n in st.chunks && i < |st.chunks[n]|
    ensures n in st.blobs && IndexedAs(src.lex, st, n, i, text)
    ensures var c := st.chunks[n][i]; c.startLine - 1 <= c.endLine && text == ChunkText(st.blobs[n].content, c)
  {
    var c, b := st.chunks[n][i], st.blobs[n];
    ChunkStamp(cfg, src, known, st, n, i);
    text := ChunkText(b.content, c);
    ChunkTextIsCut(b.content, c);
    HashOnRecord(st, n, i);
    forall t ensures TermIndexed(st.postings, c.id, src.lex.tokens(text), t) { TermAgrees(cfg, src, known, st, n, i, t, text); }
  }

  lemma HashOnRecord(st: Store, n: string, i: nat)
    requires HashesExact(st) && n in st.chunks && i < |st.chunks[n]|
    ensures var c := st.chunks[n][i]; c.contentHash != "" ==> c.id in st.chunkHash && st.chunkHash[c.id] == c.contentHash
  {
    assert OnRecord(st.chunkHash, st.chunks[n]);
  }

  lemma TermAgrees(cfg: Config, src: Source, known: iset<FileInput>, st: Store, n: string, i: nat, t: string, text: string)
    requires IndexesBy(cfg, src) && Indexed(cfg, known, st) && n in st.chunks && i < |st.chunks[n]|
    requires n in st.blobs && st.chunks[n][i].startLine - 1 <= st.chunks[n][i].endLine
    requires text == ChunkText(st.blobs[n].content, st.chunks[n][i])
    ensures TermIndexed(st.postings, st.chunks[n][i].id, src.lex.tokens(text), t)
  {
    ChunkAgrees(cfg, src, known, st, n, i, t);
    TermsAgree(cfg, src, known, st, n, i, t);
  }

  /** A stored chunk lies in its file, and is stamped from its text. */
  lemma ChunkStamp(cfg: Config, src: Source, known: iset<FileInput>, st: Store, n: string, i: nat)
    requires IndexesBy(cfg, src) && Indexed(cfg, known, st) && n in st.chunks && i < |st.chunks[n]|
    ensures n in st.blobs
    ensures var c, b := st.chunks[n][i], st.blobs[n];
            && 1 <= c.startLine <= c.endLine <= |Split(b.content)|
            && c.tokenCount == |TokensOf(src.lex, b.content, c)|
            && c.contentHash == src.lex.fingerprint(b.path, ChunkText(b.content, c))
  {
    var f := FileOf(st.blobs[n]);
    assert st.chunks[n] == IndexedChunks(src, n, f);
    ChunksSound(src.tests, src.splitter(f.path, f.content), n, f.content);
    StampIs(src.lex, f.path, f.content, RawChunks(src, n, f)[i]);
  }

  lemma StampIs(lex: Lexicon, path: string, content: string, c: Chunk)
    requires c.startLine - 1 <= c.endLine
    ensures var s := Stamp(lex, path, content, c);
            && s.startLine == c.startLine && s.endLine == c.endLine && ChunkText(content, s) == ChunkText(content, c)
            && s.tokenCount == |TokensOf(lex, content, s)| && s.contentHash == lex.fingerprint(path, ChunkText(content, s))
  {
  }

  lemma TermsAgree(cfg: Config, src: Source, known: iset<FileInput>, st: Store, n: string, i: nat, t: string)
    requires IndexesBy(cfg, src) && Indexed(cfg, known, st) && n in st.chunks && i < |st.chunks[n]|
    ensures n in st.blobs && st.chunks[n][i].startLine - 1 <= st.chunks[n][i].endLine
    ensures (t, st.chunks[n][i].id) in st.postings <==> t in TokensOf(src.lex, st.blobs[n].content, st.chunks[n][i])
  {
    var f := FileOf(st.blobs[n]);
    var raw := RawChunks(src, n, f);
    assert RowsExact(cfg, st, n) && st.chunks[n][i].id in IDs(st.chunks[n]);
    assert cfg.rows(n, f) == IndexRows(src, n, f) && st.chunks[n] == IndexedChunks(src, n, f);
    IndexedIDs(src, n, f);
    EntriesOfChunk(src.lex, f.content, raw, t, raw[i].id);
    StampIs(src.lex, f.path, f.content, raw[i]);
  }

  lemma ChunkAgrees(cfg: Config, src: Source, known: iset<FileInput>, st: Store, n: string, i: nat, term: string)
    requires IndexesBy(cfg, src) && Indexed(cfg, known, st) && n in st.chunks && i < |st.chunks[n]|
    ensures n in st.blobs
    ensures var c, text := st.chunks[n][i], st.blobs[n].content;
            && c.startLine - 1 <= c.endLine
            && Persisted(st.postings, term, c.id) == Frequency(TokensOf(src.lex, text, c), term)
            && c.tokenCount == |TokensOf(src.lex, text, c)|
  {
    var f := FileOf(st.blobs[n]);
    PersistedIsRow(cfg, known, st, n, i, term);
    assert cfg.rows(n, f) == IndexRows(src, n, f) && cfg.chunks(n, f) == IndexedChunks(src, n, f);
    StampedChunkAgrees(src, n, f, i, term);
  }

  lemma PersistedIsRow(cfg: Config, known: iset<FileInput>, st: Store, n: string, i: nat, term: string)
    requires Indexed(cfg, known, st) && n in st.chunks && i < |st.chunks[n]|
    ensures n in st.blobs && st.chunks[n] == cfg.chunks(n, FileOf(st.blobs[n]))
    ensures var id := st.chunks[n][i].id;
            Persisted(st.postings, term, id) == Persisted(cfg.rows(n, FileOf(st.blobs[n])), term, id)
  {
    assert RowsExact(cfg, st, n);
    assert st.chunks[n][i].id in IDs(st.chunks[n]);
  }

  /** A stamped chunk's rows and length are those of its text. */
  lemma StampedChunkAgrees(src: Source, n: string, f: FileInput, i: nat, term: string)
    requires i < |IndexedChunks(src, n, f)|
    ensures var c, rows := IndexedChunks(src, n, f)[i], IndexRows(src, n, f);
            && c.startLine - 1 <= c.endLine
            && Persisted(rows, term, c.id) == Frequency(TokensOf(src.lex, f.content, c), term)
            && c.tokenCount == |TokensOf(src.lex, f.content, c)|
  {
    IndexedIDs(src, n, f);
    RawChunkAgrees(src.lex, f.path, f.content, RawChunks(src, n, f), i, term);
  }

  lemma RawChunkAgrees(lex: Lexicon, path: string, content: string, raw: seq<Chunk>, i: nat, term: string)
    requires Ranged(raw) && DistinctIDs(raw) && i < |raw|
    ensures var c := StampAll(lex, path, content, raw)[i];
            && c.startLine - 1 <= c.endLine
            && Persisted(Entries(lex, content, raw), term, c.id) == Frequency(TokensOf(lex, content, c), term)
            && c.tokenCount == |TokensOf(lex, content, c)|
  {
    var c := StampAll(lex, path, content, raw)[i];
    EntriesOfChunk(lex, content, raw, term, c.id);
    assert ChunkText(content, c) == ChunkText(content, raw[i]);
  }

  /** Over every such run a stored blob holds the very file it was named for, so
      an answered round leaves each workspace file stored under its name with its
      own path and content. */
  lemma WorkspaceIsStored(cfg: Config, src: Source, known: iset<FileInput>, steps: seq<Step>, w: World, c: string, ws: Workspace,
                          files: seq<FileInput>, jobID: string)
    requires IndexesBy(cfg, src) && SoundHashes(cfg) && NoClash(cfg, known) && Run(cfg, steps, w)
    requires forall j :: 0 <= j < |steps| ==> forall f :: f in Uploads(steps[j]) ==> f in known
    requires Enabled(w, Round(c, ws, files, jobID)) && forall f :: f in files ==> f in known
    ensures var w' := Next(cfg, w, Round(c, ws, files, jobID));
            forall f :: f in files ==>
              BlobName(cfg, f) in w'.store.blobs && w'.store.blobs[BlobName(cfg, f)] == Blob(f.path, f.content) &&
              Lists(w'.store, w'.clients[c].saved.checkpointID, BlobName(cfg, f))
  {
    var w' := Next(cfg, w, Round(c, ws, files, jobID));
    SourceIsLawful(cfg, src);
    RunIsSafe(cfg, steps, w);
    RunKeepsIndexed(cfg, known, steps, w);
    StepKeepsIndexed(cfg, known, w, Round(c, ws, files, jobID));
    RoundReachesWorkspace(cfg, steps, w, c, ws, files, jobID);
    forall f | f in files
      ensures BlobName(cfg, f) in w'.store.blobs && w'.store.blobs[BlobName(cfg, f)] == Blob(f.path, f.content)
      ensures Lists(w'.store, w'.clients[c].saved.checkpointID, BlobName(cfg, f))
    {
      var k :| 0 <= k < |files| && files[k] == f;
      assert FileNames(cfg, files)[k] in Elements(FileNames(cfg, files));
    }
  }
}
