/** The inverted index and BM25 over it (internal/indexer/lexical.go). */
module Lexical {
  import opened Domain
  import opened Text
  import opened State
  import opened MemoryStore

  /** codeTokens and chunkContentHash, of which nothing is assumed here. */
  datatype Lexicon = Lexicon(tokens: string -> seq<string>, fingerprint: (string, string) -> string)

  // ----------------------------------------------------------------- indexing

  /** chunkText: the chunk's lines of the full content. */
  function ChunkText(content: string, c: Chunk): string
    requires c.startLine - 1 <= c.endLine
  {
    var lines := Split(content);
    var start, end := c.startLine - 1, if c.endLine > |lines| then |lines| else c.endLine;
    if start < 0 || start >= |lines| then "" else Join(lines[start..end])
  }

  /** The text consists of lines from..to of the content, counted from 1. */
  ghost predicate CutFrom(text: string, content: string, from: int, to: int) {
    1 <= from <= to <= |Split(content)| && Split(text) == Split(content)[from - 1..to]
  }

  /** A chunk's text is its own lines of the content, no more and no less. */
  lemma ChunkTextIsCut(content: string, c: Chunk)
    requires 1 <= c.startLine <= c.endLine <= |Split(content)|
    ensures CutFrom(ChunkText(content, c), content, c.startLine, c.endLine)
  {
    SplitJoin(Split(content)[c.startLine - 1..c.endLine]);
  }

  /** Lines determine their text. */
  lemma SameCut(a: string, b: string, content: string, from: int, to: int)
    requires CutFrom(a, content, from, to) && CutFrom(b, content, from, to)
    ensures a == b
  {
    JoinSplit(a);
    JoinSplit(b);
  }

  ghost predicate Ranged(cs: seq<Chunk>) {
    forall i :: 0 <= i < |cs| ==> cs[i].startLine - 1 <= cs[i].endLine
  }

  function TokensOf(lex: Lexicon, content: string, c: Chunk): seq<string>
    requires c.startLine - 1 <= c.endLine
  {
    lex.tokens(ChunkText(content, c))
  }

  /** Occurrences of a term among tokens. */
  function Frequency(tokens: seq<string>, term: string): nat {
    multiset(tokens)[term]
  }

  function Stamp(lex: Lexicon, path: string, content: string, c: Chunk): Chunk
    requires c.startLine - 1 <= c.endLine
  {
    c.(contentHash := lex.fingerprint(path, ChunkText(content, c)), tokenCount := |TokensOf(lex, content, c)|)
  }

  function StampAll(lex: Lexicon, path: string, content: string, cs: seq<Chunk>): (r: seq<Chunk>)
    requires Ranged(cs)
    ensures |r| == |cs| && forall i :: 0 <= i < |cs| ==> r[i] == Stamp(lex, path, content, cs[i])
  {
    seq(|cs|, i requires 0 <= i < |cs| => Stamp(lex, path, content, cs[i]))
  }

  /** The index rows of one chunk: what direct counting gives. */
  function Rows(lex: Lexicon, content: string, c: Chunk): map<(string, string), nat>
    requires c.startLine - 1 <= c.endLine
  {
    RowsOf(c.id, TokensOf(lex, content, c))
  }

  function RowsOf(id: string, tokens: seq<string>): map<(string, string), nat> {
    map t | t in tokens :: (t, id) := Frequency(tokens, t)
  }

  function Entries(lex: Lexicon, content: string, cs: seq<Chunk>): map<(string, string), nat>
    requires Ranged(cs)
  {
    if cs == [] then map[]
    else Entries(lex, content, cs[..|cs| - 1]) + Rows(lex, content, cs[|cs| - 1])
  }

  ghost predicate DistinctIDs(cs: seq<Chunk>) {
    forall i, j :: 0 <= i < j < |cs| ==> cs[i].id != cs[j].id
  }

  lemma RowAdded(rows: map<(string, string), nat>, tokens: seq<string>, last: string, t: string, id: string)
    ensures var all, k := rows + RowsOf(last, tokens), (t, id);
            if id == last && t in tokens then k in all && all[k] == Frequency(tokens, t)
            else (k in all <==> k in rows) && (k in rows ==> all[k] == rows[k])
  {
  }

  /** The rows of chunk i are exactly its terms, each with its count; no other
      chunk id has a row. */
  lemma {:induction false} EntriesOfChunk(lex: Lexicon, content: string, cs: seq<Chunk>, t: string, id: string)
    requires Ranged(cs) && DistinctIDs(cs)
    ensures forall i :: 0 <= i < |cs| && cs[i].id == id ==>
              ((t, id) in Entries(lex, content, cs) <==> t in TokensOf(lex, content, cs[i])) &&
              ((t, id) in Entries(lex, content, cs) ==>
                 Entries(lex, content, cs)[(t, id)] == Frequency(TokensOf(lex, content, cs[i]), t))
    ensures id !in IDs(cs) ==> (t, id) !in Entries(lex, content, cs)
  {
    if cs != [] {
      var init, last := cs[..|cs| - 1], cs[|cs| - 1];
      assert forall i :: 0 <= i < |init| ==> init[i] == cs[i];
      EntriesOfChunk(lex, content, init, t, id);
      RowAdded(Entries(lex, content, init), TokensOf(lex, content, last), last.id, t, id);
      if id == last.id || id !in IDs(cs) { assert id !in IDs(init); }
    }
  }

  /** The persisted frequency of a term in a chunk; nothing stored means zero. */
  function Persisted(postings: map<(string, string), nat>, term: string, id: string): nat {
    if (term, id) in postings then postings[(term, id)] else 0
  }

  /** The postings list the rows in some order: the order of a Go map. */
  ghost predicate ListsEntries(ps: seq<Posting>, rows: map<(string, string), nat>) {
    && (forall i :: 0 <= i < |ps| ==>
          (ps[i].term, ps[i].chunkID) in rows && rows[(ps[i].term, ps[i].chunkID)] == ps[i].tf)
    && (forall k :: k in rows ==> Posting(k.1, k.0, rows[k]) in ps)
  }

  /** Whatever the order, storing the postings adds exactly the rows. */
  lemma {:induction false} StoringAddsRows(m: map<(string, string), nat>, ps: seq<Posting>, rows: map<(string, string), nat>)
    requires ListsEntries(ps, rows)
    ensures WithPostings(m, ps) == m + rows
  {
    forall k ensures (k in WithPostings(m, ps) <==> k in m + rows) &&
                     (k in m + rows ==> WithPostings(m, ps)[k] == (m + rows)[k]) {
      StoredRow(m, ps, rows, k);
    }
  }

  lemma {:induction false} StoredRow(m: map<(string, string), nat>, ps: seq<Posting>, rows: map<(string, string), nat>,
                                     k: (string, string))
    requires forall i :: 0 <= i < |ps| ==>
               (ps[i].term, ps[i].chunkID) in rows && rows[(ps[i].term, ps[i].chunkID)] == ps[i].tf
    ensures var listed := exists i :: 0 <= i < |ps| && (ps[i].term, ps[i].chunkID) == k;
            && (k in WithPostings(m, ps) <==> k in m || listed)
            && (listed ==> WithPostings(m, ps)[k] == rows[k])
            && (!listed && k in m ==> WithPostings(m, ps)[k] == m[k])
    decreases |ps|
  {
    if ps != [] {
      assert forall i :: 0 <= i < |ps| - 1 ==> ps[1..][i] == ps[i + 1];
      StoredRow(m[(ps[0].term, ps[0].chunkID) := ps[0].tf], ps[1..], rows, k);
      if i :| 0 <= i < |ps| && (ps[i].term, ps[i].chunkID) == k {
        if i > 0 { assert ps[1..][i - 1] == ps[i]; }
      }
    }
  }

  datatype ChunkStats = ChunkStats(counts: map<string, nat>, length: nat)

  /** The counts are the direct counts of the tokens. */
  ghost predicate StatsOf(s: ChunkStats, tokens: seq<string>) {
    && s.length == |tokens|
    && s.counts.Keys == Elements(tokens)
    && forall t :: t in s.counts ==> s.counts[t] == Frequency(tokens, t)
  }

  /** newChunkStats. */
  method NewChunkStats(lex: Lexicon, text: string) returns (s: ChunkStats)
    ensures StatsOf(s, lex.tokens(text))
  {
    var tokens := lex.tokens(text);
    var counts: map<string, nat> := map[];
    for i := 0 to |tokens|
      invariant StatsOf(ChunkStats(counts, i), tokens[..i])
    {
      assert tokens[..i + 1] == tokens[..i] + [tokens[i]];
      counts := counts[tokens[i] := (if tokens[i] in counts then counts[tokens[i]] else 0) + 1];
    }
    assert tokens[..|tokens|] == tokens;
    s := ChunkStats(counts, |tokens|);
  }

  lemma EntriesAppend(lex: Lexicon, content: string, cs: seq<Chunk>, c: Chunk)
    requires Ranged(cs) && c.startLine - 1 <= c.endLine
    ensures Entries(lex, content, cs + [c]) == Entries(lex, content, cs) + Rows(lex, content, c)
  {
    assert (cs + [c])[..|cs|] == cs;
  }

  /** The term rows of one chunk, in whatever order the count map is walked. */
  method PostingsOf(id: string, s: ChunkStats, tokens: seq<string>) returns (ps: seq<Posting>)
    requires StatsOf(s, tokens)
    ensures ListsEntries(ps, RowsOf(id, tokens))
  {
    ps := [];
    var rest, done := s.counts.Keys, {};
    while rest != {}
      invariant rest !! done && rest + done == s.counts.Keys
      invariant forall i :: 0 <= i < |ps| ==>
                  ps[i].chunkID == id && ps[i].term in done && ps[i].tf == s.counts[ps[i].term]
      invariant forall t :: t in done ==> Posting(id, t, s.counts[t]) in ps
    {
      var t :| t in rest;
      ps := ps + [Posting(id, t, s.counts[t])];
      rest, done := rest - {t}, done + {t};
    }
  }

  /** indexPostings. */
  method IndexPostings(lex: Lexicon, path: string, content: string, cs: seq<Chunk>)
    returns (stamped: seq<Chunk>, ps: seq<Posting>)
    requires Ranged(cs) && DistinctIDs(cs)
    ensures stamped == StampAll(lex, path, content, cs)
    ensures ListsEntries(ps, Entries(lex, content, cs))
  {
    stamped, ps := [], [];
    for i := 0 to |cs|
      invariant stamped == StampAll(lex, path, content, cs)[..i]
      invariant ListsEntries(ps, Entries(lex, content, cs[..i]))
    {
      var text := ChunkText(content, cs[i]);
      var s := NewChunkStats(lex, text);
      stamped := stamped + [cs[i].(contentHash := lex.fingerprint(path, text), tokenCount := s.length)];
      var own := PostingsOf(cs[i].id, s, lex.tokens(text));
      assert cs[..i + 1] == cs[..i] + [cs[i]];
      assert cs[i].id !in IDs(cs[..i]);
      JoinListings(lex, content, cs[..i], cs[i], ps, own);
      ps := ps + own;
    }
    assert cs[..|cs|] == cs;
  }

  lemma JoinListings(lex: Lexicon, content: string, cs: seq<Chunk>, c: Chunk, ps: seq<Posting>, own: seq<Posting>)
    requires Ranged(cs) && DistinctIDs(cs) && c.startLine - 1 <= c.endLine && c.id !in IDs(cs)
    requires ListsEntries(ps, Entries(lex, content, cs))
    requires ListsEntries(own, Rows(lex, content, c))
    ensures ListsEntries(ps + own, Entries(lex, content, cs + [c]))
  {
    var a, b := Entries(lex, content, cs), Rows(lex, content, c);
    EntriesAppend(lex, content, cs, c);
    forall k | k in a ensures k !in b {
      EntriesOfChunk(lex, content, cs, k.0, k.1);
    }
    JoinDisjoint(ps, own, a, b);
  }

  lemma JoinDisjoint(p: seq<Posting>, q: seq<Posting>, a: map<(string, string), nat>, b: map<(string, string), nat>)
    requires ListsEntries(p, a) && ListsEntries(q, b) && forall k :: k in a ==> k !in b
    ensures ListsEntries(p + q, a + b)
  {
    var r, m := p + q, a + b;
    forall i | 0 <= i < |r| ensures (r[i].term, r[i].chunkID) in m && m[(r[i].term, r[i].chunkID)] == r[i].tf {
      if i < |p| { assert r[i] == p[i]; } else { assert r[i] == q[i - |p|]; }
    }
    forall k | k in m ensures Posting(k.1, k.0, m[k]) in r {
      if k in a { assert Posting(k.1, k.0, a[k]) in p; } else { assert Posting(k.1, k.0, b[k]) in q; }
    }
  }
}
