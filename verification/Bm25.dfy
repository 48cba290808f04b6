/** What BM25 scores say (internal/indexer/lexical.go), on real numbers. */
module Bm25 {
  import opened Lexical
  import opened Ranking

  const K1 := 1.2
  const B := 0.75

  function Quotient(a: real, b: real): real
    requires b > 0.0
  {
    a / b
  }

  function Product(a: real, b: real): real { a * b }

  function Average(total: nat, n: nat): real {
    if total == 0 || n == 0 then 1.0 else Quotient(total as real, n as real)
  }

  function Idf(ln: real -> real, n: nat, df: nat): real {
    ln(1.0 + Quotient(n as real - df as real + 0.5, df as real + 0.5))
  }

  lemma QuotientPositive(a: real, b: real)
    requires b > 0.0
    ensures a > 0.0 ==> Quotient(a, b) > 0.0
    ensures a >= 0.0 ==> Quotient(a, b) >= 0.0
  {
  }

  lemma AveragePositive(total: nat, n: nat)
    ensures Average(total, n) > 0.0
  {
    if total > 0 && n > 0 { QuotientPositive(total as real, n as real); }
  }

  /** tf * (k1 + 1) / (tf + k1 * (1 - b + b * length / average)). */
  function Norm(tf: nat, length: nat, total: nat, n: nat): real {
    AveragePositive(total, n);
    QuotientPositive(length as real, Average(total, n));
    Quotient(tf as real * (K1 + 1.0), tf as real + K1 * (1.0 - B + B * Quotient(length as real, Average(total, n))))
  }

  function Reals(ln: real -> real): Arithmetic<real> {
    Arithmetic(0.0, 0.1, (n, df) => Idf(ln, n, df), (tf, length, total, n) => Norm(tf, length, total, n),
               (value, idf, norm) => value + Product(idf, norm))
  }

  /** Of the logarithm only that it is positive above 1 is used. */
  ghost predicate Logarithm(ln: real -> real) {
    forall x :: x > 1.0 ==> ln(x) > 0.0
  }

  /** A matching term raises a value. */
  ghost predicate Rising(ar: Arithmetic<real>) {
    && ar.zero == 0.0
    && forall v, n: nat, df: nat, tf: nat, length: nat, total: nat :: df <= n && tf > 0 ==>
         Accrued(ar, v, n, df, tf, length, total) > v
  }

  lemma IdfPositive(ln: real -> real, n: nat, df: nat)
    requires Logarithm(ln) && df <= n
    ensures Idf(ln, n, df) > 0.0
  {
    QuotientPositive(n as real - df as real + 0.5, df as real + 0.5);
  }

  lemma NormPositive(tf: nat, length: nat, total: nat, n: nat)
    requires tf > 0
    ensures Norm(tf, length, total, n) > 0.0
  {
    AveragePositive(total, n);
    QuotientPositive(length as real, Average(total, n));
    QuotientPositive(tf as real * (K1 + 1.0),
                     tf as real + K1 * (1.0 - B + B * Quotient(length as real, Average(total, n))));
  }

  lemma ProductPositive(a: real, b: real)
    requires a > 0.0 && b > 0.0
    ensures Product(a, b) > 0.0
  {
  }

  lemma RealsRise(ln: real -> real)
    requires Logarithm(ln)
    ensures Rising(Reals(ln))
  {
    var ar := Reals(ln);
    forall v, n: nat, df: nat, tf: nat, length: nat, total: nat | df <= n && tf > 0
      ensures Accrued(ar, v, n, df, tf, length, total) > v
    {
      IdfPositive(ln, n, df);
      NormPositive(tf, length, total, n);
      ProductPositive(Idf(ln, n, df), Norm(tf, length, total, n));
    }
  }

  lemma {:induction false} ScoreRises(ar: Arithmetic<real>, docs: Corpus, i: nat, terms: seq<string>)
    requires Rising(ar) && i < |docs|
    ensures Score(ar, docs, i, terms) >= 0.0
    ensures Score(ar, docs, i, terms) > 0.0 <==> exists t :: t in terms && t in docs[i]
  {
    if terms != [] {
      var init, last := terms[..|terms| - 1], terms[|terms| - 1];
      assert terms == init + [last];
      ScoreRises(ar, docs, i, init);
      assert Frequency(docs[i], last) > 0 <==> last in docs[i];
    }
  }

  /** A candidate scores above zero exactly when it holds a term of the query. */
  lemma MatchesExactly(ln: real -> real, docs: Corpus, i: nat, query: seq<string>)
    requires Logarithm(ln) && i < |docs| && query != []
    ensures Worth(Reals(ln), docs, i, query) > 0.0 <==> exists t :: t in query && t in docs[i]
  {
    RealsRise(ln);
    ScoreRises(Reals(ln), docs, i, Distinct(query));
    forall t ensures t in Distinct(query) <==> t in query {}
  }

  // ------------------------------------------------------- what moves a score, and how

  lemma ProductLess(x: real, y: real, z: real)
    requires x < y && z > 0.0
    ensures Product(x, z) < Product(y, z)
  {
    ProductPositive(y - x, z);
    assert Product(y - x, z) == Product(y, z) - Product(x, z);
  }

  lemma QuotientTimes(a: real, b: real)
    requires b > 0.0
    ensures Product(Quotient(a, b), b) == a
  {
  }

  lemma ProductSwaps(x: real, y: real, z: real)
    ensures Product(Product(x, y), z) == Product(x, Product(y, z)) && Product(x, y) == Product(y, x)
  {
  }

  /** Quotients compare by their cross products. */
  lemma QuotientLess(a: real, b: real, c: real, d: real)
    requires b > 0.0 && d > 0.0 && Product(a, d) < Product(c, b)
    ensures Quotient(a, b) < Quotient(c, d)
  {
    var x, y, bd := Quotient(a, b), Quotient(c, d), Product(b, d);
    QuotientTimes(a, b);
    QuotientTimes(c, d);
    ProductSwaps(x, b, d);
    ProductSwaps(y, d, b);
    ProductSwaps(d, b, 0.0);
    ProductPositive(b, d);
    assert Product(x, bd) == Product(a, d) && Product(y, bd) == Product(c, b);
    if x > y { ProductLess(y, x, bd); }
  }

  /** What a frequency is worth against a weight of the length. */
  function Saturated(tf: real, weight: real): real
    requires tf >= 0.0 && weight > 0.0
  {
    Quotient(tf * (K1 + 1.0), tf + weight)
  }

  function Weight(q: real): real { K1 * (1.0 - B + B * q) }

  lemma NormIs(tf: nat, length: nat, total: nat, n: nat)
    ensures Average(total, n) > 0.0 && Quotient(length as real, Average(total, n)) >= 0.0
    ensures var w := Weight(Quotient(length as real, Average(total, n)));
            w > 0.0 && Norm(tf, length, total, n) == Saturated(tf as real, w)
  {
    AveragePositive(total, n);
    QuotientPositive(length as real, Average(total, n));
  }

  lemma SaturatedRises(a: real, b: real, w: real)
    requires 0.0 <= a < b && w > 0.0
    ensures Saturated(a, w) < Saturated(b, w)
  {
    var x, y := a * (K1 + 1.0), b * (K1 + 1.0);
    ProductLess(a, b, w);
    assert Product(x, b + w) == (K1 + 1.0) * (Product(a, b) + Product(a, w));
    assert Product(y, a + w) == (K1 + 1.0) * (Product(b, a) + Product(b, w));
    ProductSwaps(a, b, 0.0);
    QuotientLess(x, a + w, y, b + w);
  }

  lemma SaturatedFalls(a: real, v: real, w: real)
    requires a > 0.0 && 0.0 < v < w
    ensures Saturated(a, w) < Saturated(a, v)
  {
    var x := a * (K1 + 1.0);
    ProductLess(a + v, a + w, x);
    ProductSwaps(a + v, x, 0.0);
    ProductSwaps(a + w, x, 0.0);
    QuotientLess(x, a + w, x, a + v);
  }

  lemma LongerWeighsMore(length: nat, longer: nat, total: nat, n: nat)
    requires length < longer
    ensures Average(total, n) > 0.0
    ensures Weight(Quotient(length as real, Average(total, n))) < Weight(Quotient(longer as real, Average(total, n)))
  {
    AveragePositive(total, n);
    var avg := Average(total, n);
    ProductLess(length as real, longer as real, avg);
    QuotientLess(length as real, avg, longer as real, avg);
  }

  /** The logarithm is strictly increasing above 1, where it is positive. */
  ghost predicate RisingLogarithm(ln: real -> real) {
    Logarithm(ln) && forall x, y :: 1.0 < x < y ==> ln(x) < ln(y)
  }

  lemma IdfFalls(ln: real -> real, n: nat, df: nat, more: nat)
    requires RisingLogarithm(ln) && df < more <= n
    ensures Idf(ln, n, more) < Idf(ln, n, df)
  {
    var a, b := n as real - df as real + 0.5, df as real + 0.5;
    var c, d := n as real - more as real + 0.5, more as real + 0.5;
    QuotientPositive(c, d);
    ProductLess(c, a, b);
    ProductLess(b, d, a);
    ProductSwaps(a, b, 0.0);
    ProductSwaps(a, d, 0.0);
    QuotientLess(c, d, a, b);
  }

  /** One term alone is worth its inverse document frequency times its normalised
      frequency. */
  lemma OneTerm(ln: real -> real, docs: Corpus, i: nat, t: string)
    requires i < |docs|
    ensures Worth(Reals(ln), docs, i, [t]) ==
            if Frequency(docs[i], t) == 0 then 0.0
            else Product(Idf(ln, |docs|, DocFrequency(docs, t)), Norm(Frequency(docs[i], t), |docs[i]|, TotalLength(docs), |docs|))
  {
    assert [t][..0] == [];
    assert Distinct([]) == [] && Distinct([t]) == [t];
    assert Score(Reals(ln), docs, i, []) == 0.0;
    assert Score(Reals(ln), docs, i, [t]) == Gained(Reals(ln), docs, i, t, 0.0);
  }

  lemma ProductLessRight(z: real, x: real, y: real)
    requires x < y && z > 0.0
    ensures Product(z, x) < Product(z, y)
  {
    ProductLess(x, y, z);
    ProductSwaps(x, z, 0.0);
    ProductSwaps(y, z, 0.0);
  }

  /** Of two candidates of one length the one that has the term more often scores higher. */
  lemma MoreOftenScoresHigher(ln: real -> real, docs: Corpus, i: nat, j: nat, t: string)
    requires RisingLogarithm(ln) && i < |docs| && j < |docs| && |docs[i]| == |docs[j]|
    requires Frequency(docs[j], t) < Frequency(docs[i], t)
    ensures Worth(Reals(ln), docs, j, [t]) < Worth(Reals(ln), docs, i, [t])
  {
    var n, total, df := |docs|, TotalLength(docs), DocFrequency(docs, t);
    var a, b := Frequency(docs[j], t), Frequency(docs[i], t);
    OneTerm(ln, docs, i, t);
    OneTerm(ln, docs, j, t);
    IdfPositive(ln, n, df);
    NormIs(a, |docs[i]|, total, n);
    NormIs(b, |docs[i]|, total, n);
    SaturatedRises(a as real, b as real, Weight(Quotient(|docs[i]| as real, Average(total, n))));
    NormPositive(b, |docs[i]|, total, n);
    ProductPositive(Idf(ln, n, df), Norm(b, |docs[i]|, total, n));
    ProductLessRight(Idf(ln, n, df), Norm(a, |docs[i]|, total, n), Norm(b, |docs[i]|, total, n));
  }

  /** Of two candidates that have the term equally often the shorter one scores higher. */
  lemma ShorterScoresHigher(ln: real -> real, docs: Corpus, i: nat, j: nat, t: string)
    requires RisingLogarithm(ln) && i < |docs| && j < |docs| && |docs[i]| < |docs[j]|
    requires Frequency(docs[j], t) == Frequency(docs[i], t) > 0
    ensures Worth(Reals(ln), docs, j, [t]) < Worth(Reals(ln), docs, i, [t])
  {
    var n, total, df, tf := |docs|, TotalLength(docs), DocFrequency(docs, t), Frequency(docs[i], t);
    var v, w := Weight(Quotient(|docs[i]| as real, Average(total, n))), Weight(Quotient(|docs[j]| as real, Average(total, n)));
    OneTerm(ln, docs, i, t);
    OneTerm(ln, docs, j, t);
    IdfPositive(ln, n, df);
    NormIs(tf, |docs[i]|, total, n);
    NormIs(tf, |docs[j]|, total, n);
    LongerWeighsMore(|docs[i]|, |docs[j]|, total, n);
    SaturatedFalls(tf as real, v, w);
    ProductLessRight(Idf(ln, n, df), Norm(tf, |docs[j]|, total, n), Norm(tf, |docs[i]|, total, n));
  }

  /** Of two terms that a candidate has equally often the one fewer candidates have scores
      higher. */
  lemma RarerScoresHigher(ln: real -> real, docs: Corpus, i: nat, s: string, t: string)
    requires RisingLogarithm(ln) && i < |docs| && Frequency(docs[i], s) == Frequency(docs[i], t) > 0
    requires |Holders(docs, s)| < |Holders(docs, t)|
    ensures Worth(Reals(ln), docs, i, [t]) < Worth(Reals(ln), docs, i, [s])
  {
    DocFrequencyIs(docs, s);
    DocFrequencyIs(docs, t);
    var n, total, tf := |docs|, TotalLength(docs), Frequency(docs[i], s);
    OneTerm(ln, docs, i, s);
    OneTerm(ln, docs, i, t);
    NormPositive(tf, |docs[i]|, total, n);
    IdfFalls(ln, n, DocFrequency(docs, s), DocFrequency(docs, t));
    ProductLess(Idf(ln, n, DocFrequency(docs, t)), Idf(ln, n, DocFrequency(docs, s)), Norm(tf, |docs[i]|, total, n));
  }

  lemma DistinctMore(query: seq<string>, t: string)
    ensures Distinct(query + [t]) == if t in query then Distinct(query) else Distinct(query) + [t]
  {
    assert (query + [t])[..|query|] == query;
  }

  lemma ScoreMore(ln: real -> real, docs: Corpus, i: nat, terms: seq<string>, t: string)
    requires i < |docs|
    ensures Score(Reals(ln), docs, i, terms + [t]) == Gained(Reals(ln), docs, i, t, Score(Reals(ln), docs, i, terms))
  {
    assert (terms + [t])[..|terms|] == terms;
  }

  /** The score of a longer query is the sum over its terms, a repeated term counted once. */
  lemma ScoresAdd(ln: real -> real, docs: Corpus, i: nat, query: seq<string>, t: string)
    requires i < |docs| && query != []
    ensures Worth(Reals(ln), docs, i, query + [t]) ==
            Worth(Reals(ln), docs, i, query) + if t in query then 0.0 else Worth(Reals(ln), docs, i, [t])
  {
    DistinctMore(query, t);
    if t !in query {
      ScoreMore(ln, docs, i, Distinct(query), t);
      OneTerm(ln, docs, i, t);
    }
  }

  /** The average length, times the number of candidates, is the number of all tokens. */
  lemma AverageIs(docs: Corpus)
    requires docs != [] && AllTokens(docs) != []
    ensures Product(Average(TotalLength(docs), |docs|), |docs| as real) == |AllTokens(docs)| as real
  {
    TotalLengthIs(docs);
    QuotientTimes(TotalLength(docs) as real, |docs| as real);
  }

  /** A candidate of average length that has the term once gets just its inverse document
      frequency, and no frequency is worth more than 2.2 times that. */
  lemma NormScale(tf: nat, length: nat, total: nat, n: nat)
    ensures Norm(tf, length, total, n) < 2.2
    ensures tf == 1 && length as real == Average(total, n) ==> Norm(tf, length, total, n) == 1.0
  {
    NormIs(tf, length, total, n);
    var w := Weight(Quotient(length as real, Average(total, n)));
    var x := tf as real * (K1 + 1.0);
    assert Product(x, 1.0) == x && Product(2.2, tf as real + w) == 2.2 * tf as real + 2.2 * w;
    QuotientLess(x, tf as real + w, 2.2, 1.0);
    assert Quotient(2.2, 1.0) == 2.2;
    if tf == 1 && length as real == Average(total, n) { SameQuotient(length as real); }
  }

  lemma SameQuotient(a: real)
    requires a > 0.0
    ensures Quotient(a, a) == 1.0
  {
  }
}
