/** From merged groups to search hits (internal/indexer/curate.go): padding, content
    sliced anew from the unit's lines, scores and symbol of the members. */
module Hits {
  import opened Text
  import opened Pseudo
  import opened PseudoIndex
  import opened Curate

  datatype Hit = Hit(path: string, symbol: string, score: real, startLine: int, endLine: int, content: string,
                     scores: Scores)

  /** The texts known to the search, of blobs and of rejoined files. */
  datatype Texts = Texts(byBlob: map<string, string>, logical: map<string, string>)

  /** The lines of a unit; none when its text is unknown. */
  function LinesOf(texts: Texts, key: string): seq<string> {
    if key in texts.byBlob then Split(texts.byBlob[key])
    else if key in texts.logical then Split(texts.logical[key])
    else []
  }

  function MaxReal(a: real, b: real): real { if a < b then b else a }

  function MaxScores(a: Scores, b: Scores): Scores {
    Scores(MaxReal(a.lex, b.lex), MaxReal(a.path, b.path), MaxReal(a.symbol, b.symbol),
           MaxReal(a.semantic, b.semantic), MaxReal(a.rerank, b.rerank))
  }

  function TopScores(cs: seq<Candidate>, rs: seq<nat>): Scores
    requires forall k :: 0 <= k < |rs| ==> rs[k] < |cs|
  {
    if rs == [] then Scores(0.0, 0.0, 0.0, 0.0, 0.0)
    else MaxScores(TopScores(cs, rs[..|rs| - 1]), cs[rs[|rs| - 1]].scores)
  }

  function FirstSymbol(cs: seq<Candidate>, rs: seq<nat>): string
    requires forall k :: 0 <= k < |rs| ==> rs[k] < |cs|
  {
    if rs == [] then "" else if cs[rs[0]].symbol != "" then cs[rs[0]].symbol else FirstSymbol(cs, rs[1..])
  }

  /** Chunks start at line 1 or later and are not empty. */
  ghost predicate WellPlaced(ps: seq<Piece>) {
    forall r :: 0 <= r < |ps| ==> 1 <= ps[r].start <= ps[r].end
  }

  predicate Small(g: Group) { g.end - g.start + 1 < EXPAND_MIN_LINES }

  function ShownStart(g: Group): int {
    if Small(g) then Max(1, g.start - EXPAND_PAD_LINES) else g.start
  }

  function ShownEnd(g: Group, n: nat): int {
    if Small(g) then Min(n, g.end + EXPAND_PAD_LINES) else g.end
  }

  /** The cited lines, or the fallback when the first of them does not exist. */
  function Excerpt(lines: seq<string>, start: int, end: int, fallback: string): string
    requires 1 <= start && Min(|lines|, start) <= Min(|lines|, end)
  {
    if start - 1 < |lines| then Join(lines[start - 1..Min(end, |lines|)]) else fallback
  }

  lemma GroupPlaced(ps: seq<Piece>, g: Group)
    requires IsGroup(ps, g) && WellPlaced(ps)
    ensures 1 <= g.start <= g.end
  {
    LastEndIs(ps, g.members);
    assert ps[g.members[0]].end <= g.end;
  }

  function HitOf(cs: seq<Candidate>, ps: seq<Piece>, texts: Texts, g: Group): Hit
    requires |cs| == |ps| && g.members != [] && Ranks(ps, g.members) && g.bestRank < |cs| && 1 <= g.start <= g.end
  {
    var best, lines := g.bestRank, LinesOf(texts, g.key);
    var path := if g.logical then g.key else cs[best].path;
    var symbol := if cs[best].symbol != "" then cs[best].symbol else FirstSymbol(cs, g.members);
    if lines == [] then
      Hit(path, symbol, cs[best].fused, ps[best].start, ps[best].end, cs[best].content, TopScores(cs, g.members))
    else
      var start, end := ShownStart(g), ShownEnd(g, |lines|);
      Hit(path, symbol, cs[best].fused, start, end, Excerpt(lines, start, end, cs[best].content), TopScores(cs, g.members))
  }

  // --------------------------------------------------------- what a hit shows

  /** A hit cites lines of its unit: the content is exactly the cited slice. */
  lemma HitCitesItsLines(cs: seq<Candidate>, ps: seq<Piece>, texts: Texts, g: Group)
    requires |cs| == |ps| && WellPlaced(ps) && IsGroup(ps, g) && g.start <= |LinesOf(texts, g.key)|
    ensures g.bestRank < |cs| && 1 <= g.start <= g.end
    ensures var lines, hit := LinesOf(texts, g.key), HitOf(cs, ps, texts, g);
            && 1 <= hit.startLine <= g.start && g.start - hit.startLine <= EXPAND_PAD_LINES
            && Min(g.end, |lines|) <= hit.endLine <= g.end + EXPAND_PAD_LINES
            && hit.startLine <= Min(hit.endLine, |lines|)
            && Split(hit.content) == lines[hit.startLine - 1..Min(hit.endLine, |lines|)]
  {
    GroupPlaced(ps, g);
    BestRankIs(g.members);
    var lines := LinesOf(texts, g.key);
    SplitJoin(lines[ShownStart(g) - 1..Min(ShownEnd(g, |lines|), |lines|)]);
  }

  /** Every line of every member that the text has is in the hit, under its own
      number: content line k is line startLine + k of the unit. */
  lemma MemberLinesShown(cs: seq<Candidate>, ps: seq<Piece>, texts: Texts, g: Group, r: nat, line: int)
    requires |cs| == |ps| && WellPlaced(ps) && IsGroup(ps, g) && r in g.members
    requires ps[r].start <= line <= ps[r].end && line <= |LinesOf(texts, g.key)|
    ensures g.bestRank < |cs| && 1 <= g.start <= g.end
    ensures var hit := HitOf(cs, ps, texts, g);
            && hit.startLine <= line <= hit.endLine
            && line - hit.startLine < |Split(hit.content)|
            && Split(hit.content)[line - hit.startLine] == LinesOf(texts, g.key)[line - 1]
  {
    MemberInSpan(ps, g, r);
    HitCitesItsLines(cs, ps, texts, g);
  }

  lemma ShiftedIn(cs: seq<string>, k: nat, line: int, file: string, part: string, shifted: int)
    requires k < |cs| && forall i :: 0 <= i < |cs| - 1 ==> cs[i] != ""
    requires file == Join(cs) && part == cs[k] && shifted == Offset(cs, k) + line && 1 <= line <= |Split(part)|
    ensures 1 <= shifted <= |Split(file)| && Split(file)[shifted - 1] == Split(part)[line - 1]
  {
    ShiftedLineIsOwnLine(cs, k, line - 1);
  }

  lemma PartOffset(files: seq<File>, base: string, idx: seq<nat>, spans: map<string, Span>, logical: map<string, string>, k: nat)
    requires IsParts(files, base, idx) && IsRemapped(files, base, idx, spans, logical) && k < |idx|
    ensures var blob := files[idx[k]].blobName;
            blob in spans && spans[blob] == Span(base, Offset(Contents(files, idx), k))
    ensures base in logical && logical[base] == Join(Contents(files, idx))
  {
    assert BlobsOf(files, idx)[k] == files[idx[k]].blobName;
  }

  /** Line `line` of part k is shown as line `shifted` of the file, with its text. */
  ghost predicate ShowsPartLine(spans: map<string, Span>, texts: Texts, base: string, part: string, c: Candidate, line: int)
    requires c.blob in spans && 1 <= line <= |Split(part)|
  {
    var p, shifted := PieceOf(spans, c), spans[c.blob].offset + line;
    && p.key == base && p.logical && p.start <= shifted <= p.end
    && 1 <= shifted <= |LinesOf(texts, base)|
    && LinesOf(texts, base)[shifted - 1] == Split(part)[line - 1]
  }

  lemma ShowsShifted(spans: map<string, Span>, texts: Texts, base: string, part: string, c: Candidate, line: int,
                     offset: int, shifted: int)
    requires c.blob in spans && spans[c.blob] == Span(base, offset) && shifted == offset + line
    requires c.startLine <= line <= c.endLine && 1 <= line <= |Split(part)|
    requires 1 <= shifted <= |LinesOf(texts, base)| && LinesOf(texts, base)[shifted - 1] == Split(part)[line - 1]
    ensures ShowsPartLine(spans, texts, base, part, c, line)
  {
  }

  lemma PlacedPartLine(cs: seq<string>, base: string, spans: map<string, Span>, texts: Texts, k: nat, c: Candidate, line: int)
    requires k < |cs| && forall i :: 0 <= i < |cs| - 1 ==> cs[i] != ""
    requires c.blob in spans && spans[c.blob] == Span(base, Offset(cs, k))
    requires base !in texts.byBlob && base in texts.logical && texts.logical[base] == Join(cs)
    requires c.startLine <= line <= c.endLine && 1 <= line <= |Split(cs[k])|
    ensures ShowsPartLine(spans, texts, base, cs[k], c, line)
  {
    var offset := Offset(cs, k);
    var shifted := offset + line;
    ShiftedIn(cs, k, line, texts.logical[base], cs[k], shifted);
    assert LinesOf(texts, base) == Split(texts.logical[base]);
    ShowsShifted(spans, texts, base, cs[k], c, line, offset, shifted);
  }

  /** A chunk of a part of a split file, shown through the pseudo index, shows the
      lines it has in its own part. */
  lemma PartLinesShown(files: seq<File>, base: string, idx: seq<nat>, spans: map<string, Span>, texts: Texts,
                       k: nat, c: Candidate, line: int)
    requires IsParts(files, base, idx) && IsRemapped(files, base, idx, spans, texts.logical) && base !in texts.byBlob
    requires k < |idx| && c.blob == files[idx[k]].blobName
    requires forall i :: 0 <= i < |idx| - 1 ==> files[idx[i]].content != ""
    requires c.startLine <= line <= c.endLine && 1 <= line <= |Split(files[idx[k]].content)|
    ensures c.blob in spans && ShowsPartLine(spans, texts, base, files[idx[k]].content, c, line)
  {
    PartOffset(files, base, idx, spans, texts.logical, k);
    PlacedPartLine(Contents(files, idx), base, spans, texts, k, c, line);
  }

  // ------------------------------------------------------------- building hits

  method BuildHit(cs: seq<Candidate>, ps: seq<Piece>, texts: Texts, g: Group, lines: seq<string>) returns (hit: Hit)
    requires |cs| == |ps| && IsGroup(ps, g) && WellPlaced(ps) && lines == LinesOf(texts, g.key)
    ensures g.bestRank < |cs| && 1 <= g.start <= g.end && hit == HitOf(cs, ps, texts, g)
  {
    GroupPlaced(ps, g);
    BestRankIs(g.members);
    var best, scores := FindBest(cs, ps, g.members);
    var symbol := cs[best].symbol;
    if symbol == "" { symbol := FindSymbol(cs, g.members); }
    var path := if g.logical then g.key else cs[best].path;
    if lines == [] {
      hit := Hit(path, symbol, cs[best].fused, ps[best].start, ps[best].end, cs[best].content, scores);
    } else {
      var start, end := Expand(g, |lines|);
      hit := Hit(path, symbol, cs[best].fused, start, end, Excerpt(lines, start, end, cs[best].content), scores);
    }
  }

  /** Small spans grow by the padding. */
  method Expand(g: Group, n: nat) returns (start: int, end: int)
    requires 1 <= g.start <= g.end
    ensures start == ShownStart(g) && end == ShownEnd(g, n) && 1 <= start && Min(n, start) <= Min(n, end)
  {
    start, end := g.start, g.end;
    if end - start + 1 < EXPAND_MIN_LINES {
      start, end := Max(1, start - EXPAND_PAD_LINES), Min(n, end + EXPAND_PAD_LINES);
    }
  }

  /** One pass over the members for the best rank and the top scores. */
  method FindBest(cs: seq<Candidate>, ps: seq<Piece>, rs: seq<nat>) returns (best: nat, scores: Scores)
    requires |cs| == |ps| && rs != [] && Ranks(ps, rs)
    ensures best == BestRank(rs) && scores == TopScores(cs, rs)
  {
    best, scores := rs[0], Scores(0.0, 0.0, 0.0, 0.0, 0.0);
    for k := 0 to |rs|
      invariant k == 0 ==> best == rs[0]
      invariant k > 0 ==> best == BestRank(rs[..k])
      invariant scores == TopScores(cs, rs[..k])
    {
      assert rs[..k + 1][..k] == rs[..k];
      if rs[k] < best { best := rs[k]; }
      scores := MaxScores(scores, cs[rs[k]].scores);
    }
    assert rs[..|rs|] == rs;
  }

  method FindSymbol(cs: seq<Candidate>, rs: seq<nat>) returns (symbol: string)
    requires forall k :: 0 <= k < |rs| ==> rs[k] < |cs|
    ensures symbol == FirstSymbol(cs, rs)
  {
    assert rs[0..] == rs;
    for k := 0 to |rs|
      invariant FirstSymbol(cs, rs) == FirstSymbol(cs, rs[k..])
    {
      assert rs[k..][1..] == rs[k + 1..];
      if cs[rs[k]].symbol != "" { return cs[rs[k]].symbol; }
    }
    symbol := "";
  }

  /** The hits are those of the groups, in the order of their best ranks. */
  ghost predicate HitsOf(cs: seq<Candidate>, ps: seq<Piece>, texts: Texts, gs: seq<Group>, hits: seq<Hit>)
    requires |cs| == |ps|
  {
    |hits| <= |gs| && forall i :: 0 <= i < |hits| ==> IsHitOf(cs, ps, texts, gs[i], hits[i])
  }

  ghost predicate IsHitOf(cs: seq<Candidate>, ps: seq<Piece>, texts: Texts, g: Group, hit: Hit)
    requires |cs| == |ps|
  {
    && g.members != [] && Ranks(ps, g.members) && g.bestRank < |cs| && 1 <= g.start <= g.end
    && hit == HitOf(cs, ps, texts, g)
  }

  lemma HitsStep(cs: seq<Candidate>, ps: seq<Piece>, texts: Texts, gs: seq<Group>, hits: seq<Hit>, hit: Hit)
    requires |cs| == |ps| && HitsOf(cs, ps, texts, gs, hits) && |hits| < |gs|
    requires IsHitOf(cs, ps, texts, gs[|hits|], hit)
    ensures HitsOf(cs, ps, texts, gs, hits + [hit])
  {
  }

  /** One hit per group; the lines of a unit are split once. */
  method ShowGroups(cs: seq<Candidate>, ps: seq<Piece>, texts: Texts, gs: seq<Group>) returns (hits: seq<Hit>)
    requires |cs| == |ps| && WellPlaced(ps) && AllGroups(ps, gs)
    ensures |hits| == |gs| && HitsOf(cs, ps, texts, gs, hits)
  {
    hits := [];
    var linesByKey: map<string, seq<string>> := map[];
    for i := 0 to |gs|
      invariant |hits| == i && HitsOf(cs, ps, texts, gs, hits)
      invariant forall key :: key in linesByKey ==> linesByKey[key] == LinesOf(texts, key)
    {
      var key := gs[i].key;
      if key !in linesByKey { linesByKey := linesByKey[key := LinesOf(texts, key)]; }
      var hit := BuildHit(cs, ps, texts, gs[i], linesByKey[key]);
      HitsStep(cs, ps, texts, gs, hits, hit);
      hits := hits + [hit];
    }
  }

  /** The hits come from a partition of the selection into groups, best rank first. */
  ghost predicate Curated(cs: seq<Candidate>, ps: seq<Piece>, texts: Texts, gs: seq<Group>, hits: seq<Hit>)
    requires |cs| == |ps|
  {
    && Grouping(ps, gs) && RankOrder(gs) && (forall g :: g in gs ==> g.logical == LogicalIn(ps, g.key, |ps|))
    && |hits| == |gs| && HitsOf(cs, ps, texts, gs, hits)
  }

  /** curateHits. The candidates are those the order selects, listed by rank, so a
      rank stands for the candidate at it. */
  method CurateHits(cs: seq<Candidate>, spans: map<string, Span>, texts: Texts) returns (hits: seq<Hit>)
    requires WellPlaced(Pieces(spans, cs))
    ensures exists gs :: Curated(cs, Pieces(spans, cs), texts, gs, hits)
  {
    var ps := Pieces(spans, cs);
    var groups := GroupPieces(ps);
    var sorted := SortByRank(groups);
    StillAllGroups(ps, groups, sorted);
    hits := ShowGroups(cs, ps, texts, sorted);
    assert Curated(cs, ps, texts, sorted, hits);
  }

  lemma StillAllGroups(ps: seq<Piece>, gs: seq<Group>, out: seq<Group>)
    requires AllGroups(ps, gs) && forall h :: h in out <==> h in gs
    ensures AllGroups(ps, out)
  {
    forall i | 0 <= i < |out| ensures IsGroup(ps, out[i]) { assert out[i] in gs; }
  }

  // ------------------------------------------------------- hits of one unit

  /** Of two groups more than the gap apart, the padding brings the shown lines
      back together exactly when both are small and the second starts within twice
      the padding of the first one's end. */
  lemma PaddingMeets(g: Group, h: Group, n: nat)
    requires 1 <= g.start <= g.end && h.start <= h.end && Clears(g, h) && h.start <= n
    ensures ShownEnd(g, n) >= ShownStart(h) <==> Small(g) && Small(h) && h.start <= g.end + 2 * EXPAND_PAD_LINES
  {
  }

  lemma {:induction false} TwiceInFlat(gs: seq<Group>, i: nat, j: nat, r: nat)
    requires i < j < |gs| && r in gs[i].members && r in gs[j].members
    ensures multiset(Flat(gs))[r] >= 2
  {
    var init, last := gs[..|gs| - 1], gs[|gs| - 1];
    if j < |init| {
      TwiceInFlat(init, i, j, r);
    } else {
      assert init[i] == gs[i];
      InFlat(init, r);
    }
  }

  /** A partition has no group twice. */
  lemma GroupsDiffer(ps: seq<Piece>, gs: seq<Group>, i: nat, j: nat)
    requires Grouping(ps, gs) && i < j < |gs|
    ensures gs[i] != gs[j]
  {
    if gs[i] == gs[j] {
      assert IsGroup(ps, gs[i]);
      var r := gs[i].members[0];
      TwiceInFlat(gs, i, j, r);
      OnceInNumbers(|ps|, r);
    }
  }

  lemma {:induction false} OnceInNumbers(n: nat, r: nat)
    ensures multiset(Numbers(n))[r] <= 1
  {
    if n > 0 {
      OnceInNumbers(n - 1, r);
      assert Numbers(n) == Numbers(n - 1) + [n - 1];
    }
  }

  predicate Overlap(a: Hit, b: Hit) {
    a.startLine <= b.endLine && b.startLine <= a.endLine
  }

  /** The span starts within the known text of its unit. */
  ghost predicate InText(texts: Texts, g: Group) {
    g.start <= |LinesOf(texts, g.key)|
  }

  lemma ShownIs(cs: seq<Candidate>, ps: seq<Piece>, texts: Texts, gs: seq<Group>, hits: seq<Hit>, i: nat)
    requires |cs| == |ps| && WellPlaced(ps) && Curated(cs, ps, texts, gs, hits) && i < |hits| && InText(texts, gs[i])
    ensures 1 <= gs[i].start <= gs[i].end
    ensures hits[i].startLine == ShownStart(gs[i]) && hits[i].endLine == ShownEnd(gs[i], |LinesOf(texts, gs[i].key)|)
  {
    assert IsGroup(ps, gs[i]);
    GroupPlaced(ps, gs[i]);
    assert IsHitOf(cs, ps, texts, gs[i], hits[i]);
  }

  /** Two hits of one unit show a line in common exactly when both spans are small
      and less than twice the padding lies between them: the gap between groups
      is not kept by their hits. */
  lemma HitsOverlapExactly(cs: seq<Candidate>, ps: seq<Piece>, texts: Texts, gs: seq<Group>, hits: seq<Hit>, i: nat, j: nat)
    requires |cs| == |ps| && WellPlaced(ps) && Curated(cs, ps, texts, gs, hits)
    requires i < |hits| && j < |hits| && i != j && gs[i].key == gs[j].key && InText(texts, gs[i]) && InText(texts, gs[j])
    ensures Overlap(hits[i], hits[j]) <==>
            && Small(gs[i]) && Small(gs[j])
            && gs[j].start <= gs[i].end + 2 * EXPAND_PAD_LINES && gs[i].start <= gs[j].end + 2 * EXPAND_PAD_LINES
  {
    GroupsDiffer(ps, gs, if i < j then i else j, if i < j then j else i);
    ShownIs(cs, ps, texts, gs, hits, i);
    ShownIs(cs, ps, texts, gs, hits, j);
    var n := |LinesOf(texts, gs[i].key)|;
    assert gs[i] in gs && gs[j] in gs;
    if Clears(gs[i], gs[j]) { PaddingMeets(gs[i], gs[j], n); } else { PaddingMeets(gs[j], gs[i], n); }
  }

  function Four(start: int): Candidate {
    Candidate("b", "a.go", "", start, start + 3, "", 0.0, Scores(0.0, 0.0, 0.0, 0.0, 0.0))
  }

  lemma FlatTwo(g: Group, h: Group)
    ensures Flat([g, h]) == g.members + h.members
  {
    FlatAppend([], g);
    FlatAppend([g], h);
    assert [] + [g] == [g] && [g] + [h] == [g, h];
    assert Flat([]) + g.members == g.members;
  }

  lemma TwoApart(g: Group, h: Group)
    requires Clears(g, h) && g.bestRank <= h.bestRank
    ensures KeysApart([g, h]) && RankOrder([g, h])
  {
  }

  /** Two single groups of one blob, in rank order and more than the gap apart. */
  lemma TwoGroups(ps: seq<Piece>, g: Group, h: Group)
    requires |ps| == 2 && g == Group(ps[0].key, false, ps[0].start, ps[0].end, 0, [0])
    requires h == Group(ps[1].key, false, ps[1].start, ps[1].end, 1, [1]) && Clears(g, h)
    ensures Grouping(ps, [g, h]) && RankOrder([g, h])
  {
    SingleGroup(ps, g, 0);
    SingleGroup(ps, h, 1);
    FlatTwo(g, h);
    TwoApart(g, h);
    assert Numbers(2) == [0] + [1];
  }

  function TwelveLines(): (r: seq<string>)
    ensures |r| == 12 && Lines(r)
  {
    seq(12, i => "x")
  }

  lemma TwelveKnown() returns (texts: Texts)
    ensures |LinesOf(texts, "b")| == 12
  {
    texts := Texts(map["b" := Join(TwelveLines())], map[]);
    SplitJoin(TwelveLines());
  }

  /** Of three four-line chunks that tile a twelve-line file the first and the last
      are selected: the hits show lines 1 to 7 and 6 to 12. */
  lemma PaddingCanOverlap() returns (texts: Texts, gs: seq<Group>, hits: seq<Hit>)
    ensures var cs := [Four(1), Four(9)];
            && |LinesOf(texts, "b")| == 12 && Curated(cs, Pieces(map[], cs), texts, gs, hits) && |hits| == 2
            && hits[0].startLine == 1 && hits[0].endLine == 7 && hits[1].startLine == 6 && hits[1].endLine == 12
  {
    var cs := [Four(1), Four(9)];
    var ps := Pieces(map[], cs);
    var g, h := Group("b", false, 1, 4, 0, [0]), Group("b", false, 9, 12, 1, [1]);
    texts := TwelveKnown();
    gs := [g, h];
    TwoGroups(ps, g, h);
    hits := ShownBy(cs, ps, texts, gs);
  }

  lemma {:induction false} NoneLogical(ps: seq<Piece>, key: string, n: nat)
    requires n <= |ps| && forall r :: 0 <= r < |ps| ==> !ps[r].logical
    ensures !LogicalIn(ps, key, n)
  {
    if n > 0 { NoneLogical(ps, key, n - 1); }
  }

  /** The hits of two groups of plain blobs. */
  lemma ShownBy(cs: seq<Candidate>, ps: seq<Piece>, texts: Texts, gs: seq<Group>) returns (hits: seq<Hit>)
    requires |cs| == |ps| == |gs| == 2 && WellPlaced(ps) && Grouping(ps, gs) && RankOrder(gs)
    requires forall r :: 0 <= r < |ps| ==> !ps[r].logical
    requires forall i :: 0 <= i < 2 ==> !gs[i].logical && InText(texts, gs[i])
    ensures Curated(cs, ps, texts, gs, hits) && |hits| == 2
    ensures forall i :: 0 <= i < 2 ==> hits[i].startLine == ShownStart(gs[i]) &&
                                       hits[i].endLine == ShownEnd(gs[i], |LinesOf(texts, gs[i].key)|)
  {
    forall key { NoneLogical(ps, key, 2); }
    forall i | 0 <= i < 2 ensures gs[i].bestRank < |cs| && 1 <= gs[i].start <= gs[i].end {
      assert IsGroup(ps, gs[i]);
      GroupPlaced(ps, gs[i]);
      BestRankIs(gs[i].members);
    }
    assert IsGroup(ps, gs[0]) && IsGroup(ps, gs[1]);
    hits := [HitOf(cs, ps, texts, gs[0]), HitOf(cs, ps, texts, gs[1])];
    assert IsHitOf(cs, ps, texts, gs[0], hits[0]) && IsHitOf(cs, ps, texts, gs[1], hits[1]);
    ShownIs(cs, ps, texts, gs, hits, 0);
    ShownIs(cs, ps, texts, gs, hits, 1);
  }

  // ----------------------------------------------- what a hit says of its candidates

  /** No selected plain blob is called as a split file is: blob names are hashes. */
  ghost predicate Unmixed(cs: seq<Candidate>, spans: map<string, Span>) {
    forall c, d :: c in cs && d in cs && c.blob !in spans && d.blob in spans ==> c.blob != spans[d.blob].base
  }

  lemma {:induction false} LogicalIs(cs: seq<Candidate>, spans: map<string, Span>, r: nat, n: nat)
    requires Unmixed(cs, spans) && r < n <= |cs|
    ensures var ps := Pieces(spans, cs); LogicalIn(ps, ps[r].key, n) == (cs[r].blob in spans)
  {
    var ps := Pieces(spans, cs);
    assert cs[r] in cs && cs[n - 1] in cs;
    if ps[n - 1].key != ps[r].key { LogicalIs(cs, spans, r, n - 1); }
  }

  /** One of the scores a candidate comes with. */
  datatype Part = Lex | Path | Symbol | Semantic | Rerank

  function Of(s: Scores, p: Part): real {
    match p
    case Lex => s.lex
    case Path => s.path
    case Symbol => s.symbol
    case Semantic => s.semantic
    case Rerank => s.rerank
  }

  /** x is the greatest of zero and the members' scores. */
  ghost predicate IsTop(cs: seq<Candidate>, rs: seq<nat>, p: Part, x: real) {
    && x >= 0.0 && (forall r :: r in rs && r < |cs| ==> Of(cs[r].scores, p) <= x)
    && (x == 0.0 || exists r :: r in rs && r < |cs| && Of(cs[r].scores, p) == x)
  }

  lemma {:induction false} TopIs(cs: seq<Candidate>, rs: seq<nat>, p: Part)
    requires forall k :: 0 <= k < |rs| ==> rs[k] < |cs|
    ensures IsTop(cs, rs, p, Of(TopScores(cs, rs), p))
  {
    if rs != [] {
      var init, last := rs[..|rs| - 1], rs[|rs| - 1];
      TopIs(cs, init, p);
      assert rs == init + [last];
      var before, x := Of(TopScores(cs, init), p), Of(TopScores(cs, rs), p);
      assert x == MaxReal(before, Of(cs[last].scores, p));
      if x != 0.0 && x == before {
        var r :| r in init && r < |cs| && Of(cs[r].scores, p) == x;
        assert r in rs;
      }
    }
  }

  /** Some member has a symbol, or none has and the symbol is empty. */
  lemma {:induction false} FirstSymbolIs(cs: seq<Candidate>, rs: seq<nat>)
    requires forall k :: 0 <= k < |rs| ==> rs[k] < |cs|
    ensures FirstSymbol(cs, rs) == "" <==> forall r :: r in rs ==> r < |cs| && cs[r].symbol == ""
    ensures FirstSymbol(cs, rs) != "" ==> exists r :: r in rs && r < |cs| && cs[r].symbol == FirstSymbol(cs, rs)
  {
    if rs != [] {
      assert rs == [rs[0]] + rs[1..];
      if cs[rs[0]].symbol == "" {
        FirstSymbolIs(cs, rs[1..]);
      } else {
        assert rs[0] in rs;
      }
    }
  }

  /** What hit i of a curated result says, by its members: its path is the real path of
      the best one's file, its score the best one's, each of its other scores the greatest
      of the members', and its symbol the best one's or, without that, a member's. */
  lemma HitSpeaksOfMembers(cs: seq<Candidate>, spans: map<string, Span>, texts: Texts, gs: seq<Group>, hits: seq<Hit>, i: nat)
    returns (best: nat)
    requires Unmixed(cs, spans) && WellPlaced(Pieces(spans, cs)) && Curated(cs, Pieces(spans, cs), texts, gs, hits) && i < |hits|
    ensures best < |cs| && best in gs[i].members && (forall r :: r in gs[i].members ==> best <= r < |cs|)
    ensures hits[i].path == if cs[best].blob in spans then spans[cs[best].blob].base else cs[best].path
    ensures hits[i].score == cs[best].fused
    ensures forall p :: IsTop(cs, gs[i].members, p, Of(hits[i].scores, p))
    ensures cs[best].symbol != "" ==> hits[i].symbol == cs[best].symbol
    ensures hits[i].symbol == "" <==> forall r :: r in gs[i].members ==> cs[r].symbol == ""
    ensures hits[i].symbol != "" ==> exists r :: r in gs[i].members && cs[r].symbol == hits[i].symbol
  {
    var ps, g := Pieces(spans, cs), gs[i];
    best := g.bestRank;
    assert IsGroup(ps, g) && IsHitOf(cs, ps, texts, g, hits[i]) && g in gs;
    BestRankIs(g.members);
    MemberInSpan(ps, g, best);
    LogicalIs(cs, spans, best, |cs|);
    FirstSymbolIs(cs, g.members);
    forall p ensures IsTop(cs, g.members, p, Of(hits[i].scores, p)) { TopIs(cs, g.members, p); }
  }

  /** Without the text of its unit a hit is the best chunk as it is. */
  lemma HitWithoutText(cs: seq<Candidate>, spans: map<string, Span>, texts: Texts, gs: seq<Group>, hits: seq<Hit>, i: nat)
    requires WellPlaced(Pieces(spans, cs)) && Curated(cs, Pieces(spans, cs), texts, gs, hits) && i < |hits|
    requires gs[i].key !in texts.byBlob && gs[i].key !in texts.logical
    ensures var ps, best := Pieces(spans, cs), gs[i].bestRank;
            best < |cs| && hits[i].content == cs[best].content && hits[i].startLine == ps[best].start && hits[i].endLine == ps[best].end
  {
    assert IsHitOf(cs, Pieces(spans, cs), texts, gs[i], hits[i]);
  }

  /** One plain chunk of blob "b" at "a.go" is cited as "a.go". */
  lemma PlainPathIsCited(texts: Texts, gs: seq<Group>, hits: seq<Hit>)
    requires Curated([Four(1)], Pieces(map[], [Four(1)]), texts, gs, hits) && |hits| > 0
    ensures hits[0].path == "a.go"
  {
    var best := HitSpeaksOfMembers([Four(1)], map[], texts, gs, hits, 0);
  }
}
