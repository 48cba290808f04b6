/** BM25 over the candidate set (internal/indexer/lexical.go): with persisted postings,
    with the memoised fallback, or with any mix of the two. */
module Ranking {
  import opened Domain
  import opened Text
  import opened MemoryStore
  import opened Lexical

  const TF_CACHE_LIMIT := 100_000

  /** The numbers the scores are computed in and the operations on them, rounding
      included: idf of (candidates, document frequency), norm of (term frequency,
      length, total length, candidates), and value + idf * norm. */
  datatype Arithmetic<!F> = Arithmetic(zero: F, flat: F, idf: (nat, nat) -> F, norm: (nat, nat, nat, nat) -> F,
                                       accrue: (F, F, F) -> F)

  // ------------------------------------------------ the scores, counted directly

  /** Candidates as token lists: the corpus of one search. */
  type Corpus = seq<seq<string>>

  function DocFrequency(docs: Corpus, term: string): (df: nat)
    ensures df <= |docs|
  {
    if docs == [] then 0
    else DocFrequency(docs[..|docs| - 1], term) + if Frequency(docs[|docs| - 1], term) > 0 then 1 else 0
  }

  function TotalLength(docs: Corpus): nat {
    if docs == [] then 0 else TotalLength(docs[..|docs| - 1]) + |docs[|docs| - 1]|
  }

  /** The candidates whose text has the term. */
  function Holders(docs: Corpus, term: string): set<nat> {
    set i: nat | i < |docs| && term in docs[i]
  }

  lemma {:induction false} DocFrequencyIs(docs: Corpus, term: string)
    ensures DocFrequency(docs, term) == |Holders(docs, term)|
  {
    if docs != [] {
      var init, last := docs[..|docs| - 1], |docs| - 1;
      DocFrequencyIs(init, term);
      assert Holders(docs, term) == if term in docs[last] then Holders(init, term) + {last} else Holders(init, term);
      assert last !in Holders(init, term);
    } else {
      assert Holders(docs, term) == {};
    }
  }

  /** All tokens of all candidates. */
  function AllTokens(docs: Corpus): seq<string> {
    if docs == [] then [] else docs[0] + AllTokens(docs[1..])
  }

  lemma {:induction false} TotalLengthIs(docs: Corpus)
    ensures TotalLength(docs) == |AllTokens(docs)|
  {
    if docs != [] {
      TotalLengthIs(docs[1..]);
      TotalFromFront(docs);
    }
  }

  lemma {:induction false} TotalFromFront(docs: Corpus)
    requires docs != []
    ensures TotalLength(docs) == |docs[0]| + TotalLength(docs[1..])
  {
    var init, tail := docs[..|docs| - 1], docs[1..];
    if |docs| > 1 {
      TotalFromFront(init);
      assert init[1..] == tail[..|tail| - 1];
    } else {
      assert init == [] && tail == [];
    }
  }

  /** A value after a term with tf occurrences among length tokens. */
  function Accrued<F>(ar: Arithmetic<F>, value: F, n: nat, df: nat, tf: nat, length: nat, total: nat): F {
    if tf == 0 then value else ar.accrue(value, ar.idf(n, df), ar.norm(tf, length, total, n))
  }

  function Gained<F>(ar: Arithmetic<F>, docs: Corpus, i: nat, term: string, value: F): F
    requires i < |docs|
  {
    Accrued(ar, value, |docs|, DocFrequency(docs, term), Frequency(docs[i], term), |docs[i]|, TotalLength(docs))
  }

  function Score<F>(ar: Arithmetic<F>, docs: Corpus, i: nat, terms: seq<string>): F
    requires i < |docs|
  {
    if terms == [] then ar.zero
    else Gained(ar, docs, i, terms[|terms| - 1], Score(ar, docs, i, terms[..|terms| - 1]))
  }

  /** The terms without repeats, in order of first occurrence. */
  function Distinct(terms: seq<string>): (r: seq<string>)
    ensures forall t :: t in r <==> t in terms
    ensures forall i, j :: 0 <= i < j < |r| ==> r[i] != r[j]
  {
    if terms == [] then []
    else
      var init, last := Distinct(terms[..|terms| - 1]), terms[|terms| - 1];
      assert terms == terms[..|terms| - 1] + [last];
      if last in init then init else init + [last]
  }

  /** What the query is worth for candidate i. */
  function Worth<F>(ar: Arithmetic<F>, docs: Corpus, i: nat, query: seq<string>): F
    requires i < |docs|
  {
    if query == [] then ar.flat else Score(ar, docs, i, Distinct(query))
  }

  lemma DistinctRepeat(query: seq<string>, t: string)
    requires t in query
    ensures Distinct(query + [t]) == Distinct(query)
  {
    assert (query + [t])[..|query|] == query;
  }

  /** Repeating a term in the query changes no score. */
  lemma RepeatsDoNotCount<F>(ar: Arithmetic<F>, docs: Corpus, i: nat, query: seq<string>, t: string)
    requires i < |docs| && t in query
    ensures Worth(ar, docs, i, query + [t]) == Worth(ar, docs, i, query)
  {
    DistinctRepeat(query, t);
  }

  // -------------------------------------------------------------- the sources

  datatype Candidate = Candidate(id: string, tokenCount: nat, text: string)

  function Docs(lex: Lexicon, cs: seq<Candidate>): (docs: Corpus)
    ensures |docs| == |cs| && forall i :: 0 <= i < |cs| ==> docs[i] == lex.tokens(cs[i].text)
  {
    seq(|cs|, i requires 0 <= i < |cs| => lex.tokens(cs[i].text))
  }

  /** What the store has for an indexed candidate is what its text holds. */
  ghost predicate Honest(lex: Lexicon, postings: map<(string, string), nat>, c: Candidate) {
    c.tokenCount > 0 ==>
      && c.tokenCount == |lex.tokens(c.text)|
      && forall t :: Persisted(postings, t, c.id) == Frequency(lex.tokens(c.text), t)
  }

  /** Where the counts of a candidate come from: its own count map, or the postings. */
  datatype TermSource = TermSource(counts: Option<map<string, nat>>, length: nat)

  function Count(m: map<string, nat>, t: string): nat { if t in m then m[t] else 0 }

  /** tfOf. */
  function TfOf(s: TermSource, postings: map<(string, string), nat>, id: string, term: string): nat {
    if s.counts.Some? then Count(s.counts.value, term) else Persisted(postings, term, id)
  }

  /** The source gives the direct counts of the tokens for the terms. */
  ghost predicate Direct(s: TermSource, postings: map<(string, string), nat>, id: string, tokens: seq<string>, terms: seq<string>) {
    && s.length == |tokens|
    && forall t :: t in terms ==> TfOf(s, postings, id, t) == Frequency(tokens, t)
  }

  /** The fetched rows are the stored ones of the listed terms and chunks. */
  ghost predicate Fetched(got: map<(string, string), nat>, all: map<(string, string), nat>, terms: seq<string>,
                          ids: set<string>) {
    forall t, id :: t in terms && id in ids ==> Persisted(got, t, id) == Persisted(all, t, id)
  }

  // ------------------------------------------------------------------ the memo

  /** The counts chunkStatsFor has kept, by chunk id. */
  type Memo = map<string, ChunkStats>

  function StatsFrom(tokens: seq<string>): (s: ChunkStats)
    ensures StatsOf(s, tokens)
  {
    ChunkStats(map t | t in tokens :: Frequency(tokens, t), |tokens|)
  }

  lemma StatsUnique(s: ChunkStats, tokens: seq<string>)
    requires StatsOf(s, tokens)
    ensures s == StatsFrom(tokens)
  {
    assert s.counts.Keys == StatsFrom(tokens).counts.Keys;
  }

  /** The memo once a candidate has been looked up: reset past the limit, and what
      it has stands. */
  function Remembered(lex: Lexicon, memo: Memo, c: Candidate): (r: Memo)
    ensures c.id in r
  {
    var kept := if |memo| > TF_CACHE_LIMIT then map[] else memo;
    if c.id in kept then kept else kept[c.id := StatsFrom(lex.tokens(c.text))]
  }

  /** A candidate is served by the index when that was fetched and has it. */
  predicate Served(usePostings: bool, c: Candidate) { usePostings && c.tokenCount > 0 }

  function MemoAfter(lex: Lexicon, memo: Memo, cs: seq<Candidate>, usePostings: bool): Memo {
    if cs == [] then memo
    else
      var before, c := MemoAfter(lex, memo, cs[..|cs| - 1], usePostings), cs[|cs| - 1];
      if Served(usePostings, c) then before else Remembered(lex, before, c)
  }

  function SourceOf(lex: Lexicon, memo: Memo, c: Candidate, usePostings: bool): TermSource {
    if Served(usePostings, c) then TermSource(None, c.tokenCount)
    else var s := Remembered(lex, memo, c)[c.id]; TermSource(Some(s.counts), s.length)
  }

  function SourcesFrom(lex: Lexicon, memo: Memo, cs: seq<Candidate>, usePostings: bool): (r: seq<TermSource>)
    ensures |r| == |cs|
  {
    if cs == [] then []
    else
      var init := cs[..|cs| - 1];
      SourcesFrom(lex, memo, init, usePostings) +
      [SourceOf(lex, MemoAfter(lex, memo, init, usePostings), cs[|cs| - 1], usePostings)]
  }

  // --------------------------------------------------- the scores from the sources

  /** How many of the first n candidates the sources give the term to. */
  function DocsWith(cs: seq<Candidate>, sources: seq<TermSource>, got: map<(string, string), nat>, term: string, n: nat): nat
    requires n <= |cs| == |sources|
  {
    if n == 0 then 0
    else DocsWith(cs, sources, got, term, n - 1) + if TfOf(sources[n - 1], got, cs[n - 1].id, term) > 0 then 1 else 0
  }

  function SumLengths(sources: seq<TermSource>): nat {
    if sources == [] then 0 else SumLengths(sources[..|sources| - 1]) + sources[|sources| - 1].length
  }

  function Raised<F>(ar: Arithmetic<F>, cs: seq<Candidate>, sources: seq<TermSource>, got: map<(string, string), nat>,
                     i: nat, term: string, value: F): F
    requires i < |cs| == |sources|
  {
    Accrued(ar, value, |cs|, DocsWith(cs, sources, got, term, |cs|), TfOf(sources[i], got, cs[i].id, term),
            sources[i].length, SumLengths(sources))
  }

  function ScoreFrom<F>(ar: Arithmetic<F>, cs: seq<Candidate>, sources: seq<TermSource>, got: map<(string, string), nat>,
                        i: nat, terms: seq<string>): F
    requires i < |cs| == |sources|
  {
    if terms == [] then ar.zero
    else Raised(ar, cs, sources, got, i, terms[|terms| - 1], ScoreFrom(ar, cs, sources, got, i, terms[..|terms| - 1]))
  }

  function CountedIDs(cs: seq<Candidate>): set<string> {
    set i | 0 <= i < |cs| && cs[i].tokenCount > 0 :: cs[i].id
  }

  /** The rows ChunkPostings fetches. */
  function RowsFor(postings: map<(string, string), nat>, terms: seq<string>, ids: set<string>): map<(string, string), nat> {
    map k | k in postings && k.0 in terms && k.1 in ids :: postings[k]
  }

  predicate UsesPostings(cs: seq<Candidate>, reachable: bool) { CountedIDs(cs) != {} && reachable }

  function Got(postings: map<(string, string), nat>, cs: seq<Candidate>, terms: seq<string>, reachable: bool)
    : map<(string, string), nat>
  {
    if UsesPostings(cs, reachable) then RowsFor(postings, terms, CountedIDs(cs)) else map[]
  }

  /** What bm25Values answers for candidate i: from the rows of the index, where it
      has the candidate and can be reached, and else from what the memo has or gets. */
  function Answer<F>(lex: Lexicon, ar: Arithmetic<F>, postings: map<(string, string), nat>, memo: Memo, reachable: bool,
                     cs: seq<Candidate>, query: seq<string>, i: nat): F
    requires i < |cs|
  {
    if query == [] then ar.flat
    else ScoreFrom(ar, cs, SourcesFrom(lex, memo, cs, UsesPostings(cs, reachable)),
                   Got(postings, cs, Distinct(query), reachable), i, Distinct(query))
  }

  /** And the memo it leaves. */
  function MemoLeft(lex: Lexicon, memo: Memo, reachable: bool, cs: seq<Candidate>, query: seq<string>): Memo {
    if cs == [] || query == [] then memo else MemoAfter(lex, memo, cs, UsesPostings(cs, reachable))
  }

  // ------------------------------------------------- sources make no difference

  /** The memo holds the counts of the texts its chunk ids stand for. */
  ghost predicate Truthful(lex: Lexicon, memo: Memo, textOf: string -> string) {
    forall id :: id in memo ==> StatsOf(memo[id], lex.tokens(textOf(id)))
  }

  lemma RememberedIsTruthful(lex: Lexicon, memo: Memo, c: Candidate, textOf: string -> string)
    requires Truthful(lex, memo, textOf) && c.text == textOf(c.id)
    ensures Truthful(lex, Remembered(lex, memo, c), textOf)
  {
  }

  lemma {:induction false} MemoStaysTruthful(lex: Lexicon, memo: Memo, cs: seq<Candidate>, usePostings: bool,
                                             textOf: string -> string)
    requires Truthful(lex, memo, textOf) && forall i :: 0 <= i < |cs| ==> cs[i].text == textOf(cs[i].id)
    ensures Truthful(lex, MemoAfter(lex, memo, cs, usePostings), textOf)
  {
    if cs != [] {
      var init := cs[..|cs| - 1];
      MemoStaysTruthful(lex, memo, init, usePostings, textOf);
      RememberedIsTruthful(lex, MemoAfter(lex, memo, init, usePostings), cs[|cs| - 1], textOf);
    }
  }

  /** One candidate's source gives the direct counts. */
  lemma SourceIsDirect(lex: Lexicon, memo: Memo, c: Candidate, usePostings: bool, textOf: string -> string,
                       got: map<(string, string), nat>, terms: seq<string>)
    requires Truthful(lex, memo, textOf) && c.text == textOf(c.id)
    requires Served(usePostings, c) ==> Direct(TermSource(None, c.tokenCount), got, c.id, lex.tokens(c.text), terms)
    ensures Direct(SourceOf(lex, memo, c, usePostings), got, c.id, lex.tokens(c.text), terms)
  {
    if !Served(usePostings, c) {
      RememberedIsTruthful(lex, memo, c, textOf);
      CountsAreDirect(Remembered(lex, memo, c)[c.id], lex.tokens(c.text), got, c.id, terms);
    }
  }

  lemma {:induction false} SourcesAreDirect(lex: Lexicon, memo: Memo, cs: seq<Candidate>, usePostings: bool,
                                            textOf: string -> string, got: map<(string, string), nat>, terms: seq<string>, i: nat)
    requires Truthful(lex, memo, textOf) && forall j :: 0 <= j < |cs| ==> cs[j].text == textOf(cs[j].id)
    requires i < |cs|
    requires Served(usePostings, cs[i]) ==>
               Direct(TermSource(None, cs[i].tokenCount), got, cs[i].id, lex.tokens(cs[i].text), terms)
    ensures Direct(SourcesFrom(lex, memo, cs, usePostings)[i], got, cs[i].id, lex.tokens(cs[i].text), terms)
  {
    var init := cs[..|cs| - 1];
    if i < |init| {
      SourcesAreDirect(lex, memo, init, usePostings, textOf, got, terms, i);
    } else {
      MemoStaysTruthful(lex, memo, init, usePostings, textOf);
      SourceIsDirect(lex, MemoAfter(lex, memo, init, usePostings), cs[i], usePostings, textOf, got, terms);
    }
  }

  ghost predicate AllDirect(cs: seq<Candidate>, sources: seq<TermSource>, got: map<(string, string), nat>, docs: Corpus,
                            terms: seq<string>)
  {
    && |docs| == |cs| == |sources|
    && forall i :: 0 <= i < |cs| ==> Direct(sources[i], got, cs[i].id, docs[i], terms)
  }

  /** The document frequency over mixed sources is the direct one. */
  lemma {:induction false} DocsWithIsDirect(cs: seq<Candidate>, sources: seq<TermSource>, got: map<(string, string), nat>,
                                            docs: Corpus, terms: seq<string>, term: string, n: nat)
    requires AllDirect(cs, sources, got, docs, terms) && term in terms && n <= |cs|
    ensures DocsWith(cs, sources, got, term, n) == DocFrequency(docs[..n], term)
  {
    if n > 0 {
      DocsWithIsDirect(cs, sources, got, docs, terms, term, n - 1);
      assert docs[..n][..n - 1] == docs[..n - 1];
      assert Direct(sources[n - 1], got, cs[n - 1].id, docs[n - 1], terms);
    }
  }

  lemma {:induction false} LengthsAreDirect(sources: seq<TermSource>, docs: Corpus)
    requires |docs| == |sources| && forall i :: 0 <= i < |docs| ==> sources[i].length == |docs[i]|
    ensures SumLengths(sources) == TotalLength(docs)
  {
    if docs != [] { LengthsAreDirect(sources[..|docs| - 1], docs[..|docs| - 1]); }
  }

  lemma RaisedIsGained<F>(ar: Arithmetic<F>, cs: seq<Candidate>, sources: seq<TermSource>, got: map<(string, string), nat>,
                          docs: Corpus, terms: seq<string>, i: nat, term: string, value: F)
    requires AllDirect(cs, sources, got, docs, terms) && i < |cs| && term in terms
    ensures Raised(ar, cs, sources, got, i, term, value) == Gained(ar, docs, i, term, value)
  {
    DocsWithIsDirect(cs, sources, got, docs, terms, term, |cs|);
    assert docs[..|cs|] == docs;
    LengthsAreDirect(sources, docs);
    assert Direct(sources[i], got, cs[i].id, docs[i], terms);
  }

  lemma {:induction false} ScoreFromIsDirect<F>(ar: Arithmetic<F>, cs: seq<Candidate>, sources: seq<TermSource>,
                                                got: map<(string, string), nat>, docs: Corpus, terms: seq<string>, i: nat, k: nat)
    requires AllDirect(cs, sources, got, docs, terms) && i < |cs| && k <= |terms|
    ensures ScoreFrom(ar, cs, sources, got, i, terms[..k]) == Score(ar, docs, i, terms[..k])
  {
    if k > 0 {
      ScoreFromIsDirect(ar, cs, sources, got, docs, terms, i, k - 1);
      assert terms[..k][..k - 1] == terms[..k - 1];
      RaisedIsGained(ar, cs, sources, got, docs, terms, i, terms[k - 1], Score(ar, docs, i, terms[..k - 1]));
    }
  }

  lemma CountsAreDirect(st: ChunkStats, tokens: seq<string>, got: map<(string, string), nat>, id: string, terms: seq<string>)
    requires StatsOf(st, tokens)
    ensures Direct(TermSource(Some(st.counts), st.length), got, id, tokens, terms)
  {
    forall t | t in terms ensures Count(st.counts, t) == Frequency(tokens, t) {
      assert t in tokens <==> t in Elements(tokens);
    }
  }

  lemma HonestIsDirect(lex: Lexicon, all: map<(string, string), nat>, got: map<(string, string), nat>, cs: seq<Candidate>,
                       terms: seq<string>, ids: set<string>)
    requires forall i :: 0 <= i < |cs| ==> Honest(lex, all, cs[i])
    requires ids == set i | 0 <= i < |cs| && cs[i].tokenCount > 0 :: cs[i].id
    requires Fetched(got, all, terms, ids)
    ensures forall i :: 0 <= i < |cs| && cs[i].tokenCount > 0 ==>
              Direct(TermSource(None, cs[i].tokenCount), got, cs[i].id, lex.tokens(cs[i].text), terms)
  {
    forall i | 0 <= i < |cs| && cs[i].tokenCount > 0
      ensures Direct(TermSource(None, cs[i].tokenCount), got, cs[i].id, lex.tokens(cs[i].text), terms)
    {
      assert Honest(lex, all, cs[i]);
      assert cs[i].id in ids;
    }
  }

  /** Whether the postings could be fetched, which candidates are indexed and what the
      memo holds makes no difference to the scores, to the last bit of whatever
      arithmetic. */
  lemma AnswerIsDirect<F>(lex: Lexicon, ar: Arithmetic<F>, postings: map<(string, string), nat>, memo: Memo,
                          reachable: bool, cs: seq<Candidate>, query: seq<string>, textOf: string -> string, i: nat)
    requires Truthful(lex, memo, textOf) && i < |cs|
    requires forall j :: 0 <= j < |cs| ==> cs[j].text == textOf(cs[j].id) && Honest(lex, postings, cs[j])
    ensures Answer(lex, ar, postings, memo, reachable, cs, query, i) == Worth(ar, Docs(lex, cs), i, query)
  {
    if query != [] {
      var terms, docs := Distinct(query), Docs(lex, cs);
      var got, sources := Got(postings, cs, terms, reachable), SourcesFrom(lex, memo, cs, UsesPostings(cs, reachable));
      if UsesPostings(cs, reachable) { HonestIsDirect(lex, postings, got, cs, terms, CountedIDs(cs)); }
      forall j | 0 <= j < |cs| ensures Direct(sources[j], got, cs[j].id, docs[j], terms) {
        SourcesAreDirect(lex, memo, cs, UsesPostings(cs, reachable), textOf, got, terms, j);
      }
      ScoreFromIsDirect(ar, cs, sources, got, docs, terms, i, |terms|);
      assert terms[..|terms|] == terms;
    }
  }

  /** And the memo stays truthful. */
  lemma MemoLeftIsTruthful(lex: Lexicon, memo: Memo, reachable: bool, cs: seq<Candidate>, query: seq<string>,
                           textOf: string -> string)
    requires Truthful(lex, memo, textOf) && forall i :: 0 <= i < |cs| ==> cs[i].text == textOf(cs[i].id)
    ensures Truthful(lex, MemoLeft(lex, memo, reachable, cs, query), textOf)
  {
    MemoStaysTruthful(lex, memo, cs, UsesPostings(cs, reachable), textOf);
  }

  lemma RememberedIsBounded(lex: Lexicon, memo: Memo, c: Candidate)
    ensures |Remembered(lex, memo, c)| <= TF_CACHE_LIMIT + 1
  {
    var kept := if |memo| > TF_CACHE_LIMIT then map[] else memo;
    if c.id !in kept { CacheGrows(kept, c.id, StatsFrom(lex.tokens(c.text))); }
  }

  /** The memo never holds more than one entry past its limit. */
  lemma {:induction false} MemoIsBounded(lex: Lexicon, memo: Memo, cs: seq<Candidate>, usePostings: bool)
    requires |memo| <= TF_CACHE_LIMIT + 1
    ensures |MemoAfter(lex, memo, cs, usePostings)| <= TF_CACHE_LIMIT + 1
  {
    if cs != [] {
      MemoIsBounded(lex, memo, cs[..|cs| - 1], usePostings);
      RememberedIsBounded(lex, MemoAfter(lex, memo, cs[..|cs| - 1], usePostings), cs[|cs| - 1]);
    }
  }

  lemma CacheGrows(cache: Memo, id: string, s: ChunkStats)
    requires id !in cache
    ensures |cache[id := s]| == |cache| + 1
  {
    assert cache[id := s].Keys == cache.Keys + {id};
  }

  ghost predicate Answered<F>(lex: Lexicon, ar: Arithmetic<F>, postings: map<(string, string), nat>, memo: Memo,
                              reachable: bool, cs: seq<Candidate>, query: seq<string>, values: seq<F>)
  {
    |values| == |cs| &&
    forall i :: 0 <= i < |cs| ==> values[i] == Answer(lex, ar, postings, memo, reachable, cs, query, i)
  }

  /** Whatever the chunk ids stand for: a memo true to it and candidates the index is
      honest about give the direct scores, and a memo still true to it. */
  ghost predicate ScoresDirectly<F>(lex: Lexicon, ar: Arithmetic<F>, postings: map<(string, string), nat>, before: Memo,
                                    after: Memo, cs: seq<Candidate>, query: seq<string>, values: seq<F>)
  {
    && |values| == |cs|
    && forall textOf {:trigger Truthful(lex, before, textOf)} ::
         Truthful(lex, before, textOf) &&
         (forall i :: 0 <= i < |cs| ==> cs[i].text == textOf(cs[i].id) && Honest(lex, postings, cs[i])) ==>
         Truthful(lex, after, textOf) && forall i :: 0 <= i < |cs| ==> values[i] == Worth(ar, Docs(lex, cs), i, query)
  }

  lemma AnswersScoreDirectly<F>(lex: Lexicon, ar: Arithmetic<F>, postings: map<(string, string), nat>, memo: Memo,
                                reachable: bool, cs: seq<Candidate>, query: seq<string>, values: seq<F>)
    requires Answered(lex, ar, postings, memo, reachable, cs, query, values)
    ensures ScoresDirectly(lex, ar, postings, memo, MemoLeft(lex, memo, reachable, cs, query), cs, query, values)
  {
    forall textOf | Truthful(lex, memo, textOf) &&
                    (forall i :: 0 <= i < |cs| ==> cs[i].text == textOf(cs[i].id) && Honest(lex, postings, cs[i]))
      ensures Truthful(lex, MemoLeft(lex, memo, reachable, cs, query), textOf)
      ensures forall i :: 0 <= i < |cs| ==> values[i] == Worth(ar, Docs(lex, cs), i, query)
    {
      MemoLeftIsTruthful(lex, memo, reachable, cs, query, textOf);
      forall i | 0 <= i < |cs| { AnswerIsDirect(lex, ar, postings, memo, reachable, cs, query, textOf, i); }
    }
  }

  // -------------------------------------------------------------- the algorithm

  method DistinctTerms(query: seq<string>) returns (termList: seq<string>)
    ensures termList == Distinct(query)
  {
    var terms: set<string> := {};
    termList := [];
    for i := 0 to |query|
      invariant termList == Distinct(query[..i])
      invariant terms == Elements(termList)
    {
      assert query[..i + 1][..i] == query[..i];
      if query[i] !in terms {
        terms := terms + {query[i]};
        termList := termList + [query[i]];
      }
    }
    assert query[..|query|] == query;
  }

  lemma SourcesStep(lex: Lexicon, memo: Memo, cs: seq<Candidate>, usePostings: bool, i: nat)
    requires i < |cs|
    ensures var before := MemoAfter(lex, memo, cs[..i], usePostings);
            && MemoAfter(lex, memo, cs[..i + 1], usePostings) ==
               (if Served(usePostings, cs[i]) then before else Remembered(lex, before, cs[i]))
            && SourcesFrom(lex, memo, cs[..i + 1], usePostings) ==
               SourcesFrom(lex, memo, cs[..i], usePostings) + [SourceOf(lex, before, cs[i], usePostings)]
  {
    assert cs[..i + 1][..i] == cs[..i];
  }

  lemma LengthsStep(sources: seq<TermSource>, s: TermSource)
    ensures SumLengths(sources + [s]) == SumLengths(sources) + s.length
  {
    assert (sources + [s])[..|sources|] == sources;
  }

  class Scorer {
    var tfCache: Memo

    constructor ()
      ensures tfCache == map[]
    {
      tfCache := map[];
    }

    /** chunkStatsFor. */
    method ChunkStatsFor(lex: Lexicon, c: Candidate) returns (s: ChunkStats)
      modifies this
      ensures tfCache == Remembered(lex, old(tfCache), c) && s == tfCache[c.id]
    {
      if |tfCache| > TF_CACHE_LIMIT { tfCache := map[]; }
      if c.id in tfCache { return tfCache[c.id]; }
      s := NewChunkStats(lex, c.text);
      StatsUnique(s, lex.tokens(c.text));
      tfCache := tfCache[c.id := s];
    }

    method SourceFor(lex: Lexicon, c: Candidate, usePostings: bool) returns (source: TermSource)
      modifies this
      ensures source == SourceOf(lex, old(tfCache), c, usePostings)
      ensures tfCache == if Served(usePostings, c) then old(tfCache) else Remembered(lex, old(tfCache), c)
    {
      if usePostings && c.tokenCount > 0 { return TermSource(None, c.tokenCount); }
      var st := ChunkStatsFor(lex, c);
      source := TermSource(Some(st.counts), st.length);
    }

    /** The sources of all candidates and their total length. */
    method SourcesOf(lex: Lexicon, cs: seq<Candidate>, usePostings: bool)
      returns (sources: seq<TermSource>, total: nat)
      modifies this
      ensures tfCache == MemoAfter(lex, old(tfCache), cs, usePostings)
      ensures sources == SourcesFrom(lex, old(tfCache), cs, usePostings) && total == SumLengths(sources)
    {
      sources, total := [], 0;
      for i := 0 to |cs|
        invariant tfCache == MemoAfter(lex, old(tfCache), cs[..i], usePostings)
        invariant sources == SourcesFrom(lex, old(tfCache), cs[..i], usePostings) && total == SumLengths(sources)
      {
        SourcesStep(lex, old(tfCache), cs, usePostings, i);
        var source := SourceFor(lex, cs[i], usePostings);
        LengthsStep(sources, source);
        sources, total := sources + [source], total + source.length;
      }
      assert cs[..|cs|] == cs;
    }

    /** bm25Values. */
    method BM25Values<F>(lex: Lexicon, ar: Arithmetic<F>, store: Memory, reachable: bool, cs: seq<Candidate>,
                         query: seq<string>)
      returns (values: seq<F>)
      modifies this
      ensures Answered(lex, ar, store.postings, old(tfCache), reachable, cs, query, values)
      ensures tfCache == MemoLeft(lex, old(tfCache), reachable, cs, query)
      ensures ScoresDirectly(lex, ar, store.postings, old(tfCache), tfCache, cs, query, values)
    {
      values := ScoresOf(lex, ar, store, reachable, cs, query);
      AnswersScoreDirectly(lex, ar, store.postings, old(tfCache), reachable, cs, query, values);
    }

    method ScoresOf<F>(lex: Lexicon, ar: Arithmetic<F>, store: Memory, reachable: bool, cs: seq<Candidate>,
                       query: seq<string>)
      returns (values: seq<F>)
      modifies this
      ensures Answered(lex, ar, store.postings, old(tfCache), reachable, cs, query, values)
      ensures tfCache == MemoLeft(lex, old(tfCache), reachable, cs, query)
    {
      if cs == [] { return []; }
      if query == [] { return seq(|cs|, i => ar.flat); }
      var termList := DistinctTerms(query);
      var indexed := set i | 0 <= i < |cs| && cs[i].tokenCount > 0 :: cs[i].id;
      var got: map<(string, string), nat> := map[];
      var usePostings := false;
      if indexed != {} && reachable {
        got := store.ChunkPostings(termList, indexed);
        usePostings := true;
      }
      assert got == Got(store.postings, cs, termList, reachable) && usePostings == UsesPostings(cs, reachable);
      var sources, total := SourcesOf(lex, cs, usePostings);
      values := Accumulate(ar, cs, sources, got, total, termList);
    }
  }

  /** The document frequency of a term over the sources. */
  method CountDocs(cs: seq<Candidate>, sources: seq<TermSource>, got: map<(string, string), nat>, term: string)
    returns (df: nat)
    requires |cs| == |sources|
    ensures df == DocsWith(cs, sources, got, term, |cs|)
  {
    df := 0;
    for i := 0 to |cs|
      invariant df == DocsWith(cs, sources, got, term, i)
    {
      if TfOf(sources[i], got, cs[i].id, term) > 0 { df := df + 1; }
    }
  }

  /** A term no candidate holds adds nothing. */
  lemma {:induction false} NoDocs(cs: seq<Candidate>, sources: seq<TermSource>, got: map<(string, string), nat>, term: string,
                                  n: nat, i: nat)
    requires n <= |cs| == |sources| && DocsWith(cs, sources, got, term, n) == 0 && i < n
    ensures TfOf(sources[i], got, cs[i].id, term) == 0
  {
    if i < n - 1 { NoDocs(cs, sources, got, term, n - 1, i); }
  }

  /** One term's turn: every candidate's value moves by what the term is worth to it. */
  method AddTerm<F>(ar: Arithmetic<F>, cs: seq<Candidate>, sources: seq<TermSource>, got: map<(string, string), nat>,
                    total: nat, term: string, values: array<F>)
    requires |cs| == |sources| == values.Length && total == SumLengths(sources)
    modifies values
    ensures forall i :: 0 <= i < |cs| ==> values[i] == Raised(ar, cs, sources, got, i, term, old(values[i]))
  {
    var df := CountDocs(cs, sources, got, term);
    if df == 0 {
      forall i | 0 <= i < |cs| ensures TfOf(sources[i], got, cs[i].id, term) == 0 {
        NoDocs(cs, sources, got, term, |cs|, i);
      }
      return;
    }
    var idf := ar.idf(|cs|, df);
    for i := 0 to |cs|
      invariant forall j :: 0 <= j < i ==> values[j] == Raised(ar, cs, sources, got, j, term, old(values[j]))
      invariant forall j :: i <= j < |cs| ==> values[j] == old(values[j])
    {
      var tf := TfOf(sources[i], got, cs[i].id, term);
      if tf != 0 { values[i] := ar.accrue(values[i], idf, ar.norm(tf, sources[i].length, total, |cs|)); }
    }
  }

  lemma ScoreStep<F>(ar: Arithmetic<F>, cs: seq<Candidate>, sources: seq<TermSource>, got: map<(string, string), nat>,
                     i: nat, terms: seq<string>, k: nat)
    requires i < |cs| == |sources| && k < |terms|
    ensures ScoreFrom(ar, cs, sources, got, i, terms[..k + 1]) ==
            Raised(ar, cs, sources, got, i, terms[k], ScoreFrom(ar, cs, sources, got, i, terms[..k]))
  {
    assert terms[..k + 1][..k] == terms[..k];
  }

  /** The term loop. */
  method Accumulate<F>(ar: Arithmetic<F>, cs: seq<Candidate>, sources: seq<TermSource>, got: map<(string, string), nat>,
                       total: nat, terms: seq<string>)
    returns (result: seq<F>)
    requires |cs| == |sources| && total == SumLengths(sources)
    ensures |result| == |cs| && forall i :: 0 <= i < |cs| ==> result[i] == ScoreFrom(ar, cs, sources, got, i, terms)
  {
    var values := new F[|cs|](i => ar.zero);
    for k := 0 to |terms|
      invariant forall i :: 0 <= i < |cs| ==> values[i] == ScoreFrom(ar, cs, sources, got, i, terms[..k])
    {
      forall i | 0 <= i < |cs| { ScoreStep(ar, cs, sources, got, i, terms, k); }
      AddTerm(ar, cs, sources, got, total, terms[k], values);
    }
    assert terms[..|terms|] == terms;
    result := values[..];
  }
}
