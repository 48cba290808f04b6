/** The final hits of a search (internal/indexer/curate.go): nearby chunks of one
    unit merge into spans, small spans are padded, content is sliced anew. */
module Curate {
  import opened PseudoIndex

  const MERGE_GAP_LINES := 2
  const EXPAND_MIN_LINES := 6
  const EXPAND_PAD_LINES := 3

  datatype Scores = Scores(lex: real, path: real, symbol: real, semantic: real, rerank: real)

  /** A candidate chunk, with the score the fused ranking gives it. */
  datatype Candidate = Candidate(blob: string, path: string, symbol: string, startLine: int, endLine: int,
                                 content: string, fused: real, scores: Scores)

  /** A selected chunk in the coordinates of the unit it merges within: its blob,
      or its logical file when remapped. The selection is listed by rank. */
  datatype Piece = Piece(key: string, logical: bool, start: int, end: int)

  function PieceOf(spans: map<string, Span>, c: Candidate): Piece {
    if c.blob in spans then
      Piece(spans[c.blob].base, true, c.startLine + spans[c.blob].offset, c.endLine + spans[c.blob].offset)
    else Piece(c.blob, false, c.startLine, c.endLine)
  }

  function Pieces(spans: map<string, Span>, cs: seq<Candidate>): (ps: seq<Piece>)
    ensures |ps| == |cs| && forall r :: 0 <= r < |cs| ==> ps[r] == PieceOf(spans, cs[r])
  {
    seq(|cs|, r requires 0 <= r < |cs| => PieceOf(spans, cs[r]))
  }

  /** A group of ranks; its span is 1-based and inclusive. */
  datatype Group = Group(key: string, logical: bool, start: int, end: int, bestRank: nat, members: seq<nat>)

  function Max(a: int, b: int): int { if a < b then b else a }
  function Min(a: int, b: int): int { if b < a then b else a }

  // ------------------------------------------------------------ what a group is

  ghost predicate Ranks(ps: seq<Piece>, rs: seq<nat>) {
    forall k :: 0 <= k < |rs| ==> rs[k] < |ps|
  }

  function LastEnd(ps: seq<Piece>, rs: seq<nat>): int
    requires rs != [] && Ranks(ps, rs)
  {
    var init, last := rs[..|rs| - 1], ps[rs[|rs| - 1]].end;
    if init == [] then last else Max(LastEnd(ps, init), last)
  }

  function BestRank(rs: seq<nat>): nat
    requires rs != []
  {
    var init, last := rs[..|rs| - 1], rs[|rs| - 1];
    if init == [] then last else if last < BestRank(init) then last else BestRank(init)
  }

  lemma {:induction false} LastEndIs(ps: seq<Piece>, rs: seq<nat>)
    requires rs != [] && Ranks(ps, rs)
    ensures forall k :: 0 <= k < |rs| ==> ps[rs[k]].end <= LastEnd(ps, rs)
    ensures exists k :: 0 <= k < |rs| && ps[rs[k]].end == LastEnd(ps, rs)
  {
    var init := rs[..|rs| - 1];
    if init != [] {
      LastEndIs(ps, init);
      var k :| 0 <= k < |init| && ps[init[k]].end == LastEnd(ps, init);
      assert ps[rs[k]].end == LastEnd(ps, init);
      forall k | 0 <= k < |rs| ensures ps[rs[k]].end <= LastEnd(ps, rs) {
        if k < |init| { assert ps[init[k]].end <= LastEnd(ps, init); }
      }
    }
  }

  lemma {:induction false} BestRankIs(rs: seq<nat>)
    requires rs != []
    ensures BestRank(rs) in rs && forall k :: 0 <= k < |rs| ==> BestRank(rs) <= rs[k]
  {
    var init := rs[..|rs| - 1];
    if init != [] {
      BestRankIs(init);
      forall k | 0 <= k < |rs| ensures BestRank(rs) <= rs[k] {
        if k < |init| { assert BestRank(init) <= init[k]; }
      }
    }
  }

  ghost predicate Ascending(ps: seq<Piece>, rs: seq<nat>)
    requires Ranks(ps, rs)
  {
    forall i, j :: 0 <= i < j < |rs| ==> ps[rs[i]].start <= ps[rs[j]].start
  }

  /** Each member but the first starts within the gap of those before it. */
  ghost predicate Chained(ps: seq<Piece>, rs: seq<nat>)
    requires Ranks(ps, rs)
  {
    forall k :: 0 < k < |rs| ==> ps[rs[k]].start <= LastEnd(ps, rs[..k]) + 1 + MERGE_GAP_LINES
  }

  ghost predicate OneKey(ps: seq<Piece>, rs: seq<nat>, key: string)
    requires Ranks(ps, rs)
  {
    forall k :: 0 <= k < |rs| ==> ps[rs[k]].key == key
  }

  /** Members of one key, ascending and chained, with their exact span and best rank. */
  ghost predicate IsGroup(ps: seq<Piece>, g: Group) {
    && g.members != [] && Ranks(ps, g.members) && OneKey(ps, g.members, g.key)
    && Ascending(ps, g.members) && Chained(ps, g.members)
    && g.start == ps[g.members[0]].start && g.end == LastEnd(ps, g.members) && g.bestRank == BestRank(g.members)
  }

  /** More than the gap lies between the end of a and the start of b. */
  predicate Clears(a: Group, b: Group) {
    a.end + 1 + MERGE_GAP_LINES < b.start
  }

  function Flat(gs: seq<Group>): seq<nat> {
    if gs == [] then [] else Flat(gs[..|gs| - 1]) + gs[|gs| - 1].members
  }

  function Numbers(n: nat): (r: seq<nat>)
    ensures |r| == n && forall i :: 0 <= i < n ==> r[i] == i
  {
    seq(n, i requires 0 <= i < n => i)
  }

  ghost predicate KeysApart(gs: seq<Group>) {
    forall g, h :: g in gs && h in gs && g != h && g.key == h.key ==> Clears(g, h) || Clears(h, g)
  }

  ghost predicate AllGroups(ps: seq<Piece>, gs: seq<Group>) {
    forall i :: 0 <= i < |gs| ==> IsGroup(ps, gs[i])
  }

  /** The groups partition the selection, each rank in one group and once, and
      groups of one key are more than the gap apart. */
  ghost predicate Grouping(ps: seq<Piece>, gs: seq<Group>) {
    && AllGroups(ps, gs)
    && multiset(Flat(gs)) == multiset(Numbers(|ps|))
    && KeysApart(gs)
  }

  // ------------------------------------------- the grouping, independently defined

  /** No selected chunk of the key reaches across line t, give or take the gap. */
  ghost predicate Cut(ps: seq<Piece>, key: string, t: int) {
    forall r :: 0 <= r < |ps| && ps[r].key == key ==> t <= ps[r].start || ps[r].end + 1 + MERGE_GAP_LINES < t
  }

  ghost predicate Together(gs: seq<Group>, a: nat, b: nat) {
    exists i :: 0 <= i < |gs| && a in gs[i].members && b in gs[i].members
  }

  lemma {:induction false} InFlat(gs: seq<Group>, r: nat)
    ensures r in Flat(gs) <==> exists i :: 0 <= i < |gs| && r in gs[i].members
  {
    if gs != [] { InFlat(gs[..|gs| - 1], r); }
  }

  lemma SomeGroup(ps: seq<Piece>, gs: seq<Group>, r: nat) returns (i: nat)
    requires Grouping(ps, gs) && r < |ps|
    ensures i < |gs| && r in gs[i].members && gs[i].key == ps[r].key
  {
    assert Numbers(|ps|)[r] == r;
    assert r in multiset(Numbers(|ps|));
    assert r in Flat(gs);
    InFlat(gs, r);
    i :| 0 <= i < |gs| && r in gs[i].members;
    assert IsGroup(ps, gs[i]);
    var k :| 0 <= k < |gs[i].members| && gs[i].members[k] == r;
  }

  /** No cut passes through a group. */
  lemma NoCutInside(ps: seq<Piece>, g: Group, t: int, j: nat)
    requires IsGroup(ps, g) && Cut(ps, g.key, t)
    requires ps[g.members[0]].start < t && j < |g.members|
    ensures ps[g.members[j]].start < t
  {
    if j > 0 {
      var init := g.members[..j];
      LastEndIs(ps, init);
      forall k | 0 <= k < j ensures ps[init[k]].end + 1 + MERGE_GAP_LINES < t {
        NoCutInside(ps, g, t, k);
        assert ps[g.members[k]].key == g.key;
      }
      assert ps[g.members[j]].start <= LastEnd(ps, init) + 1 + MERGE_GAP_LINES;
    }
  }

  /** The start of a group is a cut. */
  lemma StartIsCut(ps: seq<Piece>, gs: seq<Group>, j: nat)
    requires Grouping(ps, gs) && j < |gs|
    requires forall r :: 0 <= r < |ps| ==> ps[r].start <= ps[r].end
    ensures Cut(ps, gs[j].key, gs[j].start)
  {
    forall r | 0 <= r < |ps| && ps[r].key == gs[j].key
      ensures gs[j].start <= ps[r].start || ps[r].end + 1 + MERGE_GAP_LINES < gs[j].start
    {
      var i := SomeGroup(ps, gs, r);
      MemberInSpan(ps, gs[i], r);
      assert IsGroup(ps, gs[j]);
      MemberInSpan(ps, gs[j], gs[j].members[0]);
      if gs[i] != gs[j] && ps[r].start < gs[j].start { ApartBefore(gs, gs[i], gs[j]); }
    }
  }

  /** A group's span runs exactly from the least start to the greatest end. */
  lemma MemberInSpan(ps: seq<Piece>, g: Group, r: nat)
    requires IsGroup(ps, g) && r in g.members
    ensures r < |ps| && ps[r].key == g.key && g.start <= ps[r].start && ps[r].end <= g.end && g.bestRank <= r
  {
    var k :| 0 <= k < |g.members| && g.members[k] == r;
    LastEndIs(ps, g.members);
    BestRankIs(g.members);
    if k > 0 { assert ps[g.members[0]].start <= ps[g.members[k]].start; }
  }

  lemma ApartBefore(gs: seq<Group>, g: Group, h: Group)
    requires KeysApart(gs) && g in gs && h in gs && g != h && g.key == h.key
    requires g.start <= h.end
    ensures Clears(g, h)
  {
  }

  /** Two selected chunks of one key land in different groups exactly when a cut
      separates them: the groups depend on the spans alone. */
  lemma SeparatedByCuts(ps: seq<Piece>, gs: seq<Group>, a: nat, b: nat)
    requires Grouping(ps, gs) && a < |ps| && b < |ps|
    requires forall r :: 0 <= r < |ps| ==> ps[r].start <= ps[r].end
    requires ps[a].key == ps[b].key && ps[a].start <= ps[b].start
    ensures !Together(gs, a, b) <==> exists t :: ps[a].start < t <= ps[b].start && Cut(ps, ps[a].key, t)
  {
    var i := SomeGroup(ps, gs, a);
    var j := SomeGroup(ps, gs, b);
    MemberInSpan(ps, gs[i], a);
    MemberInSpan(ps, gs[j], b);
    StartIsCut(ps, gs, j);
    if !Together(gs, a, b) {
      ApartBefore(gs, gs[i], gs[j]);
      assert ps[a].start < gs[j].start <= ps[b].start;
    }
    if t :| ps[a].start < t <= ps[b].start && Cut(ps, ps[a].key, t) {
      if Together(gs, a, b) {
        var m :| 0 <= m < |gs| && a in gs[m].members && b in gs[m].members;
        assert IsGroup(ps, gs[m]);
        MemberInSpan(ps, gs[m], a);
        var k :| 0 <= k < |gs[m].members| && gs[m].members[k] == b;
        NoCutInside(ps, gs[m], t, k);
      }
    }
  }

  // ---------------------------------------------------------------- the merge

  lemma AscendingAppend(ps: seq<Piece>, rs: seq<nat>, r: nat)
    requires rs != [] && Ranks(ps, rs) && r < |ps| && Ascending(ps, rs) && ps[rs[|rs| - 1]].start <= ps[r].start
    ensures Ascending(ps, rs + [r])
  {
    forall i | 0 <= i < |rs| ensures ps[rs[i]].start <= ps[r].start {
      if i < |rs| - 1 { assert ps[rs[i]].start <= ps[rs[|rs| - 1]].start; }
    }
  }

  function Slot(ps: seq<Piece>, r: nat, rs: seq<nat>): seq<nat>
    requires r < |ps| && Ranks(ps, rs)
  {
    if rs == [] then [r]
    else if ps[r].start < ps[rs[|rs| - 1]].start then Slot(ps, r, rs[..|rs| - 1]) + [rs[|rs| - 1]]
    else rs + [r]
  }

  lemma {:induction false} SlotElements(ps: seq<Piece>, r: nat, rs: seq<nat>)
    requires r < |ps| && Ranks(ps, rs)
    ensures multiset(Slot(ps, r, rs)) == multiset(rs) + multiset{r}
  {
    if rs != [] && ps[r].start < ps[rs[|rs| - 1]].start {
      SlotElements(ps, r, rs[..|rs| - 1]);
      assert rs == rs[..|rs| - 1] + [rs[|rs| - 1]];
    }
  }

  lemma {:induction false} SlotAscending(ps: seq<Piece>, r: nat, rs: seq<nat>)
    requires r < |ps| && Ranks(ps, rs) && Ascending(ps, rs)
    ensures Ranks(ps, Slot(ps, r, rs)) && Ascending(ps, Slot(ps, r, rs))
  {
    if rs != [] {
      var init, last := rs[..|rs| - 1], rs[|rs| - 1];
      if ps[r].start < ps[last].start {
        SlotAscending(ps, r, init);
        SlotElements(ps, r, init);
        NoneLater(ps, r, init, Slot(ps, r, init), last);
        AscendingAppend(ps, Slot(ps, r, init), last);
      } else {
        AscendingAppend(ps, rs, r);
      }
    }
  }

  lemma NoneLater(ps: seq<Piece>, r: nat, rs: seq<nat>, out: seq<nat>, last: nat)
    requires last < |ps| && r < |ps| && Ranks(ps, rs) && multiset(out) == multiset(rs) + multiset{r}
    requires ps[r].start <= ps[last].start && forall k :: 0 <= k < |rs| ==> ps[rs[k]].start <= ps[last].start
    ensures Ranks(ps, out) && out != [] && ps[out[|out| - 1]].start <= ps[last].start
  {
    assert r in multiset(out);
    forall k | 0 <= k < |out| ensures out[k] < |ps| && ps[out[k]].start <= ps[last].start {
      assert out[k] in multiset(out);
      assert out[k] == r || out[k] in rs;
    }
  }

  /** sort.Slice by start line: some ascending rearrangement. */
  method SortByStart(ps: seq<Piece>, rs: seq<nat>) returns (out: seq<nat>)
    requires Ranks(ps, rs)
    ensures multiset(out) == multiset(rs) && Ranks(ps, out) && Ascending(ps, out)
  {
    out := [];
    for i := 0 to |rs|
      invariant multiset(out) == multiset(rs[..i]) && Ranks(ps, out) && Ascending(ps, out)
    {
      SlotAscending(ps, rs[i], out);
      SlotElements(ps, rs[i], out);
      assert rs[..i + 1] == rs[..i] + [rs[i]];
      out := Slot(ps, rs[i], out);
    }
    assert rs[..|rs|] == rs;
  }

  lemma ChainedAppend(ps: seq<Piece>, rs: seq<nat>, r: nat)
    requires rs != [] && Ranks(ps, rs) && r < |ps| && Chained(ps, rs)
    requires ps[r].start <= LastEnd(ps, rs) + 1 + MERGE_GAP_LINES
    ensures Chained(ps, rs + [r])
  {
    var out := rs + [r];
    forall k | 0 < k < |out| ensures ps[out[k]].start <= LastEnd(ps, out[..k]) + 1 + MERGE_GAP_LINES {
      if k < |rs| { assert out[..k] == rs[..k]; } else { assert out[..k] == rs; }
    }
  }

  /** The group with one more member. */
  function With(ps: seq<Piece>, g: Group, r: nat): Group
    requires r < |ps|
  {
    g.(end := Max(g.end, ps[r].end), bestRank := if r < g.bestRank then r else g.bestRank, members := g.members + [r])
  }

  lemma ExtendLast(ps: seq<Piece>, gs: seq<Group>, r: nat)
    requires gs != [] && r < |ps| && InOrder(gs)
    ensures var out := gs[..|gs| - 1] + [With(ps, gs[|gs| - 1], r)];
            Flat(out) == Flat(gs) + [r] && InOrder(out)
  {
    var init, more := gs[..|gs| - 1], With(ps, gs[|gs| - 1], r);
    FlatAppend(init, more);
    assert Flat(init) + gs[|gs| - 1].members + [r] == Flat(init) + more.members;
    forall i, j | 0 <= i < j < |gs| ensures Clears((init + [more])[i], (init + [more])[j]) {
      assert Clears(gs[i], gs[j]);
    }
  }

  lemma ExtendGroup(ps: seq<Piece>, g: Group, r: nat)
    requires IsGroup(ps, g) && r < |ps| && ps[r].key == g.key
    requires ps[g.members[|g.members| - 1]].start <= ps[r].start <= g.end + 1 + MERGE_GAP_LINES
    ensures IsGroup(ps, With(ps, g, r))
  {
    var rs := g.members + [r];
    assert rs[..|rs| - 1] == g.members;
    ChainedAppend(ps, g.members, r);
    AscendingAppend(ps, g.members, r);
  }

  lemma FlatAppend(gs: seq<Group>, g: Group)
    ensures Flat(gs + [g]) == Flat(gs) + g.members
  {
    assert (gs + [g])[..|gs|] == gs;
  }

  /** Consecutive groups are more than the gap apart, and so all are. */
  ghost predicate InOrder(gs: seq<Group>) {
    forall i, j :: 0 <= i < j < |gs| ==> Clears(gs[i], gs[j])
  }

  ghost predicate OfUnit(gs: seq<Group>, key: string, logical: bool) {
    forall i :: 0 <= i < |gs| ==> gs[i].key == key && gs[i].logical == logical
  }

  /** The groups hold the first i ranks. */
  ghost predicate Built(ps: seq<Piece>, key: string, logical: bool, rs: seq<nat>, i: nat, gs: seq<Group>)
    requires i <= |rs|
  {
    AllGroups(ps, gs) && OfUnit(gs, key, logical) && Flat(gs) == rs[..i] && InOrder(gs)
  }

  /** The last group holds rank rs[i-1] last, and none starts after the next piece. */
  ghost predicate Poised(ps: seq<Piece>, rs: seq<nat>, i: nat, gs: seq<Group>)
    requires Ranks(ps, rs) && i <= |rs|
  {
    && (i == 0 <==> gs == [])
    && (gs != [] ==> var m := gs[|gs| - 1].members; i > 0 && m != [] && m[|m| - 1] == rs[i - 1])
    && (i < |rs| ==> forall k :: 0 <= k < |gs| ==> gs[k].start <= ps[rs[i]].start)
  }

  ghost predicate Merged(ps: seq<Piece>, key: string, logical: bool, rs: seq<nat>, i: nat, gs: seq<Group>)
    requires Ranks(ps, rs) && i <= |rs|
  {
    Built(ps, key, logical, rs, i, gs) && Poised(ps, rs, i, gs)
  }

  lemma BuiltExtend(ps: seq<Piece>, key: string, logical: bool, rs: seq<nat>, i: nat, gs: seq<Group>)
    requires Ranks(ps, rs) && Ascending(ps, rs) && OneKey(ps, rs, key)
    requires i < |rs| && Built(ps, key, logical, rs, i, gs) && gs != []
    requires ps[gs[|gs| - 1].members[|gs[|gs| - 1].members| - 1]].start <= ps[rs[i]].start
    requires ps[rs[i]].start <= gs[|gs| - 1].end + 1 + MERGE_GAP_LINES
    ensures Built(ps, key, logical, rs, i + 1, gs[..|gs| - 1] + [With(ps, gs[|gs| - 1], rs[i])])
  {
    assert rs[..i + 1] == rs[..i] + [rs[i]];
    ExtendLast(ps, gs, rs[i]);
    LastExtended(ps, key, logical, gs, rs[i]);
  }

  lemma PoisedExtend(ps: seq<Piece>, rs: seq<nat>, i: nat, gs: seq<Group>)
    requires Ranks(ps, rs) && Ascending(ps, rs) && i < |rs| && gs != [] && Poised(ps, rs, i, gs)
    ensures Poised(ps, rs, i + 1, gs[..|gs| - 1] + [With(ps, gs[|gs| - 1], rs[i])])
  {
    if i + 1 < |rs| { assert ps[rs[i]].start <= ps[rs[i + 1]].start; }
  }

  lemma MergedExtend(ps: seq<Piece>, key: string, logical: bool, rs: seq<nat>, i: nat, gs: seq<Group>)
    requires Ranks(ps, rs) && Ascending(ps, rs) && OneKey(ps, rs, key)
    requires i < |rs| && Merged(ps, key, logical, rs, i, gs)
    requires gs != [] && ps[rs[i]].start <= gs[|gs| - 1].end + 1 + MERGE_GAP_LINES
    ensures Merged(ps, key, logical, rs, i + 1, gs[..|gs| - 1] + [With(ps, gs[|gs| - 1], rs[i])])
  {
    assert ps[rs[i - 1]].start <= ps[rs[i]].start;
    BuiltExtend(ps, key, logical, rs, i, gs);
    PoisedExtend(ps, rs, i, gs);
  }

  lemma LastExtended(ps: seq<Piece>, key: string, logical: bool, gs: seq<Group>, r: nat)
    requires AllGroups(ps, gs) && OfUnit(gs, key, logical) && gs != [] && r < |ps| && ps[r].key == key
    requires ps[gs[|gs| - 1].members[|gs[|gs| - 1].members| - 1]].start <= ps[r].start
    requires ps[r].start <= gs[|gs| - 1].end + 1 + MERGE_GAP_LINES
    ensures var out := gs[..|gs| - 1] + [With(ps, gs[|gs| - 1], r)];
            AllGroups(ps, out) && OfUnit(out, key, logical)
  {
    ExtendGroup(ps, gs[|gs| - 1], r);
    ReplaceLast(ps, key, logical, gs, With(ps, gs[|gs| - 1], r));
  }

  lemma ReplaceLast(ps: seq<Piece>, key: string, logical: bool, gs: seq<Group>, g: Group)
    requires AllGroups(ps, gs) && OfUnit(gs, key, logical) && gs != []
    requires IsGroup(ps, g) && g.key == key && g.logical == logical
    ensures AllGroups(ps, gs[..|gs| - 1] + [g]) && OfUnit(gs[..|gs| - 1] + [g], key, logical)
  {
    var out := gs[..|gs| - 1] + [g];
    forall k | 0 <= k < |out| ensures IsGroup(ps, out[k]) {
      if k < |gs| - 1 { assert out[k] == gs[k]; }
    }
  }

  lemma MergedOpen(ps: seq<Piece>, key: string, logical: bool, rs: seq<nat>, i: nat, gs: seq<Group>)
    requires Ranks(ps, rs) && Ascending(ps, rs) && OneKey(ps, rs, key)
    requires i < |rs| && Merged(ps, key, logical, rs, i, gs)
    requires gs != [] ==> gs[|gs| - 1].end + 1 + MERGE_GAP_LINES < ps[rs[i]].start
    ensures Merged(ps, key, logical, rs, i + 1,
                   gs + [Group(key, logical, ps[rs[i]].start, ps[rs[i]].end, rs[i], [rs[i]])])
  {
    assert rs[..i + 1] == rs[..i] + [rs[i]];
    var g := Group(key, logical, ps[rs[i]].start, ps[rs[i]].end, rs[i], [rs[i]]);
    SingleGroup(ps, g, rs[i]);
    StillInOrder(ps, gs, g);
    FlatAppend(gs, g);
  }

  /** The groups of one key, from its ascending ranks. */
  method MergeRun(ps: seq<Piece>, key: string, logical: bool, rs: seq<nat>) returns (gs: seq<Group>)
    requires Ranks(ps, rs) && Ascending(ps, rs) && OneKey(ps, rs, key)
    ensures AllGroups(ps, gs) && Flat(gs) == rs && InOrder(gs) && OfUnit(gs, key, logical)
  {
    gs := [];
    for i := 0 to |rs|
      invariant Merged(ps, key, logical, rs, i, gs)
    {
      var r := rs[i];
      if gs != [] && ps[r].start <= gs[|gs| - 1].end + 1 + MERGE_GAP_LINES {
        MergedExtend(ps, key, logical, rs, i, gs);
        gs := gs[..|gs| - 1] + [With(ps, gs[|gs| - 1], r)];
      } else {
        MergedOpen(ps, key, logical, rs, i, gs);
        gs := gs + [Group(key, logical, ps[r].start, ps[r].end, r, [r])];
      }
    }
    assert rs[..|rs|] == rs;
  }

  lemma SingleGroup(ps: seq<Piece>, g: Group, r: nat)
    requires r < |ps| && g == Group(ps[r].key, g.logical, ps[r].start, ps[r].end, r, [r])
    ensures IsGroup(ps, g)
  {
  }

  lemma StillInOrder(ps: seq<Piece>, gs: seq<Group>, g: Group)
    requires InOrder(gs) && AllGroups(ps, gs)
    requires gs != [] ==> Clears(gs[|gs| - 1], g)
    requires forall k :: 0 <= k < |gs| ==> gs[k].start <= g.start
    ensures InOrder(gs + [g])
  {
    forall k | 0 <= k < |gs| ensures Clears(gs[k], g) {
      if k < |gs| - 1 { assert Clears(gs[k], gs[|gs| - 1]); }
    }
  }

  // ----------------------------------------------------------- all the units

  /** The ranks below n of the pieces whose key is among keys, ascending. */
  function RanksIn(ps: seq<Piece>, keys: set<string>, n: nat): seq<nat>
    requires n <= |ps|
  {
    if n == 0 then []
    else if ps[n - 1].key in keys then RanksIn(ps, keys, n - 1) + [n - 1]
    else RanksIn(ps, keys, n - 1)
  }

  /** The ranks below n of the pieces of one key. */
  function RanksOf(ps: seq<Piece>, key: string, n: nat): seq<nat>
    requires n <= |ps|
  {
    if n == 0 then []
    else if ps[n - 1].key == key then RanksOf(ps, key, n - 1) + [n - 1]
    else RanksOf(ps, key, n - 1)
  }

  lemma {:induction false} RanksOfAre(ps: seq<Piece>, key: string, n: nat)
    requires n <= |ps|
    ensures RanksOf(ps, key, n) == RanksIn(ps, {key}, n)
  {
    if n > 0 { RanksOfAre(ps, key, n - 1); }
  }

  lemma {:induction false} RanksInAre(ps: seq<Piece>, keys: set<string>, n: nat)
    requires n <= |ps|
    ensures forall k :: 0 <= k < |RanksIn(ps, keys, n)| ==>
              RanksIn(ps, keys, n)[k] < n && ps[RanksIn(ps, keys, n)[k]].key in keys
  {
    if n > 0 { RanksInAre(ps, keys, n - 1); }
  }

  lemma {:induction false} NoRanks(ps: seq<Piece>, n: nat)
    requires n <= |ps|
    ensures RanksIn(ps, {}, n) == []
  {
    if n > 0 { NoRanks(ps, n - 1); }
  }

  lemma {:induction false} RanksInUnion(ps: seq<Piece>, a: set<string>, b: set<string>, n: nat)
    requires n <= |ps| && a !! b
    ensures multiset(RanksIn(ps, a + b, n)) == multiset(RanksIn(ps, a, n)) + multiset(RanksIn(ps, b, n))
  {
    if n > 0 { RanksInUnion(ps, a, b, n - 1); }
  }

  lemma {:induction false} AllRanks(ps: seq<Piece>, keys: set<string>, n: nat)
    requires n <= |ps| && forall r :: 0 <= r < n ==> ps[r].key in keys
    ensures RanksIn(ps, keys, n) == Numbers(n)
  {
    if n > 0 {
      AllRanks(ps, keys, n - 1);
      assert Numbers(n) == Numbers(n - 1) + [n - 1];
    }
  }

  /** Whether the key is read as a logical path: as its last piece has it. */
  function LogicalIn(ps: seq<Piece>, key: string, n: nat): bool
    requires n <= |ps|
  {
    n > 0 && if ps[n - 1].key == key then ps[n - 1].logical else LogicalIn(ps, key, n - 1)
  }

  ghost predicate ByKey(ps: seq<Piece>, n: nat, byKey: map<string, seq<nat>>, logicalKey: map<string, bool>)
    requires n <= |ps|
  {
    && byKey.Keys == logicalKey.Keys
    && (forall r :: 0 <= r < n ==> ps[r].key in byKey)
    && (forall key :: key in byKey ==> byKey[key] == RanksOf(ps, key, n))
    && (forall key :: key !in byKey ==> RanksOf(ps, key, n) == [])
    && (forall key :: key in logicalKey ==> logicalKey[key] == LogicalIn(ps, key, n))
  }

  lemma ByKeyStep(ps: seq<Piece>, r: nat, byKey: map<string, seq<nat>>, logicalKey: map<string, bool>)
    requires r < |ps| && ByKey(ps, r, byKey, logicalKey)
    ensures var key := ps[r].key;
            var before := if key in byKey then byKey[key] else [];
            ByKey(ps, r + 1, byKey[key := before + [r]], logicalKey[key := ps[r].logical])
  {
  }

  method CollectByKey(ps: seq<Piece>) returns (byKey: map<string, seq<nat>>, logicalKey: map<string, bool>)
    ensures ByKey(ps, |ps|, byKey, logicalKey)
  {
    byKey, logicalKey := map[], map[];
    for r := 0 to |ps|
      invariant ByKey(ps, r, byKey, logicalKey)
    {
      var key := ps[r].key;
      var before := if key in byKey then byKey[key] else [];
      ByKeyStep(ps, r, byKey, logicalKey);
      byKey, logicalKey := byKey[key := before + [r]], logicalKey[key := ps[r].logical];
    }
  }

  ghost predicate KeyedBy(ps: seq<Piece>, keys: set<string>, gs: seq<Group>) {
    forall g :: g in gs ==> g.key in keys && g.logical == LogicalIn(ps, g.key, |ps|)
  }

  lemma Associative(x: seq<nat>, y: seq<nat>, z: seq<nat>)
    ensures x + y + z == x + (y + z)
  {
  }

  lemma {:induction false} FlatConcat(a: seq<Group>, b: seq<Group>)
    ensures Flat(a + b) == Flat(a) + Flat(b)
  {
    if b == [] {
      assert a + b == a;
    } else {
      var init, last := b[..|b| - 1], b[|b| - 1];
      FlatConcat(a, init);
      FlatAppend(a + init, last);
      assert a + b == (a + init) + [last];
      Associative(Flat(a), Flat(init), last.members);
    }
  }

  lemma RunApart(gs: seq<Group>, run: seq<Group>, keys: set<string>, key: string)
    requires KeysApart(gs) && (forall g :: g in gs ==> g.key in keys) && key !in keys
    requires InOrder(run) && forall g :: g in run ==> g.key == key
    ensures KeysApart(gs + run)
  {
    forall g, h | g in gs + run && h in gs + run && g != h && g.key == h.key ensures Clears(g, h) || Clears(h, g) {
      if g in run {
        assert h !in gs;
        var i :| 0 <= i < |run| && run[i] == g;
        var j :| 0 <= j < |run| && run[j] == h;
        assert if i < j then Clears(g, h) else Clears(h, g);
      } else {
        assert h !in run;
      }
    }
  }

  /** Groups over all keys, the map of keys walked in any order. */
  method GroupPieces(ps: seq<Piece>) returns (gs: seq<Group>)
    ensures Grouping(ps, gs)
    ensures forall g :: g in gs ==> g.logical == LogicalIn(ps, g.key, |ps|)
  {
    var byKey, logicalKey := CollectByKey(ps);
    gs := [];
    var rest: set<string>, done: set<string> := byKey.Keys, {};
    NoRanks(ps, |ps|);
    while rest != {}
      invariant rest !! done && rest + done == byKey.Keys
      invariant AllGroups(ps, gs) && KeysApart(gs) && KeyedBy(ps, done, gs)
      invariant multiset(Flat(gs)) == multiset(RanksIn(ps, done, |ps|))
    {
      var key :| key in rest;
      RanksOfAre(ps, key, |ps|);
      RanksInAre(ps, {key}, |ps|);
      var sorted := SortByStart(ps, byKey[key]);
      SameKey(ps, byKey[key], sorted, key);
      var run := MergeRun(ps, key, logicalKey[key], sorted);
      RunApart(gs, run, done, key);
      FlatConcat(gs, run);
      RanksInUnion(ps, done, {key}, |ps|);
      gs := gs + run;
      rest, done := rest - {key}, done + {key};
    }
    AllRanks(ps, done, |ps|);
  }

  lemma SameKey(ps: seq<Piece>, rs: seq<nat>, out: seq<nat>, key: string)
    requires multiset(out) == multiset(rs) && Ranks(ps, rs) && Ranks(ps, out) && OneKey(ps, rs, key)
    ensures OneKey(ps, out, key)
  {
    forall k | 0 <= k < |out| ensures ps[out[k]].key == key {
      assert out[k] in multiset(out);
      assert out[k] in rs;
    }
  }

  // --------------------------------------------------------------- rank order

  function Place(g: Group, gs: seq<Group>): seq<Group> {
    if gs == [] then [g]
    else if g.bestRank < gs[|gs| - 1].bestRank then Place(g, gs[..|gs| - 1]) + [gs[|gs| - 1]]
    else gs + [g]
  }

  ghost predicate RankOrder(gs: seq<Group>) {
    forall i, j :: 0 <= i < j < |gs| ==> gs[i].bestRank <= gs[j].bestRank
  }

  lemma {:induction false} PlaceHolds(g: Group, gs: seq<Group>)
    ensures forall h :: h in Place(g, gs) <==> h == g || h in gs
  {
    if gs != [] && g.bestRank < gs[|gs| - 1].bestRank {
      PlaceHolds(g, gs[..|gs| - 1]);
      assert gs == gs[..|gs| - 1] + [gs[|gs| - 1]];
    }
  }

  lemma {:induction false} PlaceFlat(g: Group, gs: seq<Group>)
    ensures multiset(Flat(Place(g, gs))) == multiset(Flat(gs)) + multiset(g.members)
  {
    if gs != [] && g.bestRank < gs[|gs| - 1].bestRank {
      PlaceFlat(g, gs[..|gs| - 1]);
      FlatAppend(Place(g, gs[..|gs| - 1]), gs[|gs| - 1]);
    } else {
      FlatAppend(gs, g);
      assert gs == [] ==> gs + [g] == [g];
    }
  }

  lemma {:induction false} PlaceOrders(g: Group, gs: seq<Group>)
    requires RankOrder(gs)
    ensures RankOrder(Place(g, gs))
  {
    if gs != [] {
      var init, last := gs[..|gs| - 1], gs[|gs| - 1];
      if g.bestRank < last.bestRank {
        PlaceOrders(g, init);
        PlaceHolds(g, init);
        PlacedBelow(Place(g, init), last);
      } else {
        PlacedBelow(gs, g);
      }
    }
  }

  lemma PlacedBelow(gs: seq<Group>, last: Group)
    requires RankOrder(gs) && forall h :: h in gs ==> h.bestRank <= last.bestRank
    ensures RankOrder(gs + [last])
  {
  }

  /** sort.Slice by best rank. */
  method SortByRank(gs: seq<Group>) returns (out: seq<Group>)
    ensures RankOrder(out) && multiset(Flat(out)) == multiset(Flat(gs))
    ensures forall h :: h in out <==> h in gs
  {
    out := [];
    for i := 0 to |gs|
      invariant RankOrder(out) && multiset(Flat(out)) == multiset(Flat(gs[..i]))
      invariant forall h :: h in out <==> h in gs[..i]
    {
      assert gs[..i + 1] == gs[..i] + [gs[i]];
      PlaceOrders(gs[i], out);
      PlaceHolds(gs[i], out);
      PlaceFlat(gs[i], out);
      FlatAppend(gs[..i], gs[i]);
      out := Place(gs[i], out);
    }
    assert gs[..|gs|] == gs;
  }
}
