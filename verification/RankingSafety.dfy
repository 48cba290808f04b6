/** Searches against the store after any run: the persisted index is fit to score by,
    and the memo stays truthful from one store to the next. */
module RankingSafety {
  import opened Domain
  import opened Chunking
  import opened State
  import opened Lexical
  import opened Service
  import opened Safety
  import opened Protocol
  import opened IndexSafety
  import opened Ranking

  /** A candidate collected from a stored chunk, with the chunk's lines of its blob. */
  ghost predicate Drawn(st: Store, c: Candidate) {
    exists n, i :: DrawnFrom(st, c, n, i)
  }

  ghost predicate DrawnFrom(st: Store, c: Candidate, n: string, i: nat) {
    && n in st.chunks && n in st.blobs && i < |st.chunks[n]|
    && c.id == st.chunks[n][i].id && c.tokenCount == st.chunks[n][i].tokenCount
    && CutFrom(c.text, st.blobs[n].content, st.chunks[n][i].startLine, st.chunks[n][i].endLine)
  }

  /** chunkText gives the candidate its text. */
  lemma DrawnChunkText(st: Store, c: Candidate, n: string, i: nat)
    requires DrawnFrom(st, c, n, i)
    ensures c.text == ChunkText(st.blobs[n].content, st.chunks[n][i])
  {
    var k := st.chunks[n][i];
    ChunkTextIsCut(st.blobs[n].content, k);
    SameCut(c.text, ChunkText(st.blobs[n].content, k), st.blobs[n].content, k.startLine, k.endLine);
  }

  /** Each stored chunk's persisted counts and length are those of its text, so
      scores may be taken from them. */
  lemma DrawnIsHonest(cfg: Config, src: Source, known: iset<FileInput>, st: Store, c: Candidate)
    requires IndexesBy(cfg, src) && Indexed(cfg, known, st) && Drawn(st, c)
    ensures Honest(src.lex, st.postings, c)
  {
    var n, i: nat :| DrawnFrom(st, c, n, i);
    DrawnChunkText(st, c, n, i);
    forall t ensures Counted(src.lex, st.postings, c, t) {
      ChunkAgrees(cfg, src, known, st, n, i, t);
    }
    CountedIsHonest(src.lex, st.postings, c);
  }

  ghost predicate Counted(lex: Lexicon, postings: map<(string, string), nat>, c: Candidate, t: string) {
    Persisted(postings, t, c.id) == Frequency(lex.tokens(c.text), t) && c.tokenCount == |lex.tokens(c.text)|
  }

  lemma CountedIsHonest(lex: Lexicon, postings: map<(string, string), nat>, c: Candidate)
    requires forall t :: Counted(lex, postings, c, t)
    ensures Honest(lex, postings, c)
  {
    assert Counted(lex, postings, c, "");
    forall t ensures Persisted(postings, t, c.id) == Frequency(lex.tokens(c.text), t) {
      assert Counted(lex, postings, c, t);
    }
  }

  /** A stored chunk is the numbered chunk of the file its blob is named for. */
  lemma StoredChunk(cfg: Config, src: Source, known: iset<FileInput>, st: Store, n: string, i: nat)
    requires IndexesBy(cfg, src) && Indexed(cfg, known, st) && n in st.chunks && i < |st.chunks[n]|
    ensures n in st.blobs && n == BlobName(cfg, FileOf(st.blobs[n])) && FileOf(st.blobs[n]) in known
    ensures st.chunks[n] == cfg.chunks(n, FileOf(st.blobs[n])) && st.chunks[n][i].id == ChunkID(n, i)
  {
    IndexedIDs(src, n, FileOf(st.blobs[n]));
    assert cfg.chunks(n, FileOf(st.blobs[n])) == IndexedChunks(src, n, FileOf(st.blobs[n]));
  }

  lemma NoColon(cfg: Config, f: FileInput)
    requires SoundHashes(cfg)
    ensures ':' !in BlobName(cfg, f)
  {
  }

  /** Over every run without clashing names the scores of stored candidates may be
      taken from the index. */
  lemma IndexScoresAfterAnyRun(cfg: Config, src: Source, known: iset<FileInput>, steps: seq<Step>, w: World, c: Candidate)
    requires IndexesBy(cfg, src) && SoundHashes(cfg) && NoClash(cfg, known) && Run(cfg, steps, w)
    requires forall j :: 0 <= j < |steps| ==> forall f :: f in Uploads(steps[j]) ==> f in known
    requires Drawn(w.store, c)
    ensures Honest(src.lex, w.store.postings, c)
  {
    SourceIsLawful(cfg, src);
    RunKeepsIndexed(cfg, known, steps, w);
    DrawnIsHonest(cfg, src, known, w.store, c);
  }

  // ------------------------------------------------------- searches between steps

  /** Chunk i of a known file has this id. */
  ghost predicate Numbered(cfg: Config, src: Source, known: iset<FileInput>, id: string, f: FileInput, i: nat) {
    f in known && i < |RawChunks(src, BlobName(cfg, f), f)| && id == ChunkID(BlobName(cfg, f), i)
  }

  /** The text a chunk id stands for: the lines of the known file's chunk. */
  ghost function TextOf(cfg: Config, src: Source, known: iset<FileInput>, id: string): string {
    if exists f, i: nat :: Numbered(cfg, src, known, id, f, i) then
      var f, i: nat :| Numbered(cfg, src, known, id, f, i);
      ChunkText(f.content, RawChunks(src, BlobName(cfg, f), f)[i])
    else ""
  }

  ghost function Texts(cfg: Config, src: Source, known: iset<FileInput>): string -> string {
    id => TextOf(cfg, src, known, id)
  }

  lemma NumberedOnce(cfg: Config, src: Source, known: iset<FileInput>, id: string, f: FileInput, i: nat, g: FileInput, j: nat)
    requires SoundHashes(cfg) && NoClash(cfg, known)
    requires Numbered(cfg, src, known, id, f, i) && Numbered(cfg, src, known, id, g, j)
    ensures f == g && i == j
  {
    NoColon(cfg, f);
    NoColon(cfg, g);
    ChunkIDInjective(BlobName(cfg, f), i, BlobName(cfg, g), j);
  }

  lemma NumberedText(cfg: Config, src: Source, known: iset<FileInput>, id: string, f: FileInput, i: nat)
    requires SoundHashes(cfg) && NoClash(cfg, known) && Numbered(cfg, src, known, id, f, i)
    ensures TextOf(cfg, src, known, id) == ChunkText(f.content, RawChunks(src, BlobName(cfg, f), f)[i])
  {
    forall g, j: nat | Numbered(cfg, src, known, id, g, j) ensures g == f && j == i {
      NumberedOnce(cfg, src, known, id, f, i, g, j);
    }
  }

  lemma SameLines(content: string, a: Chunk, b: Chunk)
    requires a.startLine - 1 <= a.endLine && a.startLine == b.startLine && a.endLine == b.endLine
    ensures ChunkText(content, a) == ChunkText(content, b)
  {
  }

  /** A candidate drawn from any reachable store has the text its id stands for. */
  lemma DrawnText(cfg: Config, src: Source, known: iset<FileInput>, st: Store, c: Candidate)
    requires IndexesBy(cfg, src) && SoundHashes(cfg) && NoClash(cfg, known) && Indexed(cfg, known, st) && Drawn(st, c)
    ensures c.text == TextOf(cfg, src, known, c.id)
  {
    var n, i: nat :| DrawnFrom(st, c, n, i);
    StoredChunk(cfg, src, known, st, n, i);
    var f := FileOf(st.blobs[n]);
    IndexedIDs(src, n, f);
    assert st.chunks[n] == IndexedChunks(src, n, f);
    assert Numbered(cfg, src, known, c.id, f, i);
    NumberedText(cfg, src, known, c.id, f, i);
    DrawnChunkText(st, c, n, i);
    SameLines(f.content, RawChunks(src, n, f)[i], st.chunks[n][i]);
  }

  /** A chunk id stands for one text: in any two stores reached over files without
      clashing names, candidates of one id have one text. */
  lemma SameIDSameText(cfg: Config, src: Source, known: iset<FileInput>, st: Store, st': Store, c: Candidate, d: Candidate)
    requires IndexesBy(cfg, src) && SoundHashes(cfg) && NoClash(cfg, known)
    requires Indexed(cfg, known, st) && Indexed(cfg, known, st')
    requires Drawn(st, c) && Drawn(st', d) && c.id == d.id
    ensures c.text == d.text
  {
    DrawnText(cfg, src, known, st, c);
    DrawnText(cfg, src, known, st', d);
  }

  lemma CandidatesAreDrawn(cfg: Config, src: Source, known: iset<FileInput>, st: Store, cs: seq<Candidate>)
    requires IndexesBy(cfg, src) && SoundHashes(cfg) && NoClash(cfg, known) && Indexed(cfg, known, st)
    requires forall c :: c in cs ==> Drawn(st, c)
    ensures forall i :: 0 <= i < |cs| ==>
              cs[i].text == Texts(cfg, src, known)(cs[i].id) && Honest(src.lex, st.postings, cs[i])
  {
    forall i | 0 <= i < |cs|
      ensures cs[i].text == Texts(cfg, src, known)(cs[i].id) && Honest(src.lex, st.postings, cs[i])
    {
      assert cs[i] in cs;
      DrawnText(cfg, src, known, st, cs[i]);
      DrawnIsHonest(cfg, src, known, st, cs[i]);
    }
  }
}
