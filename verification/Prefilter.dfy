/** The prefilter's allocation (internal/indexer/prefilter.go): tiers of nominated
    files drained round-robin against a budget of chunks. */
module Prefilter {
  import opened Sums

  const BUDGET: nat := 8000

  type Tiers = seq<seq<string>>

  /** A file's chunks; one for a blob without stored chunks. */
  function Cost(counts: map<string, nat>): (c: string -> int)
    ensures forall n :: c(n) >= 1
  {
    n => if n in counts && counts[n] != 0 then counts[n] else 1
  }

  /** How far each tier is drained, and what is kept at what total cost. */
  datatype Drain = Drain(idx: seq<nat>, keep: set<string>, chunks: nat)

  // ---------------------------------------------------------------- the rounds

  predicate Fits(counts: map<string, nat>, s: Drain, n: string) {
    n !in s.keep && s.chunks + Cost(counts)(n) <= BUDGET
  }

  /** The tier's next file that is new and fits; its length when there is none. */
  function NextFit(counts: map<string, nat>, s: Drain, tier: seq<string>, i: nat): (j: nat)
    requires i <= |tier|
    ensures i <= j <= |tier|
    decreases |tier| - i
  {
    if i == |tier| || Fits(counts, s, tier[i]) then i else NextFit(counts, s, tier, i + 1)
  }

  lemma {:induction false} NextFitIs(counts: map<string, nat>, s: Drain, tier: seq<string>, i: nat)
    requires i <= |tier|
    ensures var j := NextFit(counts, s, tier, i);
            (j < |tier| ==> Fits(counts, s, tier[j])) && forall k :: i <= k < j ==> !Fits(counts, s, tier[k])
    decreases |tier| - i
  {
    if i < |tier| && !Fits(counts, s, tier[i]) { NextFitIs(counts, s, tier, i + 1); }
  }

  predicate Shaped(tiers: Tiers, s: Drain) {
    |s.idx| == |tiers| && forall t :: 0 <= t < |tiers| ==> s.idx[t] <= |tiers[t]|
  }

  /** One tier's turn. */
  function Turn(counts: map<string, nat>, tiers: Tiers, s: Drain, t: nat): (r: Drain)
    requires Shaped(tiers, s) && t < |tiers|
    ensures Shaped(tiers, r)
  {
    var j := NextFit(counts, s, tiers[t], s.idx[t]);
    if j == |tiers[t]| then s.(idx := s.idx[t := j])
    else
      var n := tiers[t][j];
      Drain(s.idx[t := j + 1], s.keep + {n}, s.chunks + Cost(counts)(n))
  }

  /** The first t turns of a round. */
  function Turns(counts: map<string, nat>, tiers: Tiers, s: Drain, t: nat): (r: Drain)
    requires Shaped(tiers, s) && t <= |tiers|
    ensures Shaped(tiers, r)
  {
    if t == 0 then s else Turn(counts, tiers, Turns(counts, tiers, s, t - 1), t - 1)
  }

  lemma TurnGrows(counts: map<string, nat>, tiers: Tiers, s: Drain, t: nat, r: Drain)
    requires Shaped(tiers, s) && t < |tiers| && r == Turn(counts, tiers, s, t)
    ensures s.keep <= r.keep && s.chunks <= r.chunks && (s.chunks == r.chunks ==> s.keep == r.keep)
    ensures s.chunks <= BUDGET ==> r.chunks <= BUDGET
  {
    NextFitIs(counts, s, tiers[t], s.idx[t]);
  }

  lemma TurnsUnfold(counts: map<string, nat>, tiers: Tiers, s: Drain, t: nat)
    requires Shaped(tiers, s) && 0 < t <= |tiers|
    ensures Turns(counts, tiers, s, t) == Turn(counts, tiers, Turns(counts, tiers, s, t - 1), t - 1)
  {
  }

  /** A round that added something added cost. */
  lemma {:induction false} TurnsGrow(counts: map<string, nat>, tiers: Tiers, s: Drain, t: nat)
    requires Shaped(tiers, s) && t <= |tiers|
    ensures var r := Turns(counts, tiers, s, t);
            s.keep <= r.keep && s.chunks <= r.chunks && (s.chunks == r.chunks ==> s.keep == r.keep)
    ensures s.chunks <= BUDGET ==> Turns(counts, tiers, s, t).chunks <= BUDGET
  {
    if t > 0 {
      TurnsGrow(counts, tiers, s, t - 1);
      TurnsUnfold(counts, tiers, s, t);
      TurnGrows(counts, tiers, Turns(counts, tiers, s, t - 1), t - 1, Turns(counts, tiers, s, t));
    }
  }

  /** Rounds until one adds nothing or the budget is spent. */
  function Rounds(counts: map<string, nat>, tiers: Tiers, s: Drain): (r: Drain)
    requires Shaped(tiers, s)
    ensures Shaped(tiers, r)
    decreases BUDGET - s.chunks
  {
    if s.chunks >= BUDGET then s
    else
      var next := Turns(counts, tiers, s, |tiers|);
      TurnsGrow(counts, tiers, s, |tiers|);
      if next.chunks == s.chunks then next else Rounds(counts, tiers, next)
  }

  function Start(tiers: Tiers): (s: Drain)
    ensures Shaped(tiers, s)
  {
    Drain(seq(|tiers|, t => 0), {}, 0)
  }

  // ------------------------------------------------------------- what is kept

  /** The cost is the sum over the kept files and within the budget; what was passed
      over is kept or no longer fits. */
  ghost predicate Sound(counts: map<string, nat>, tiers: Tiers, s: Drain)
    requires Shaped(tiers, s)
  {
    && s.chunks == Sum(s.keep, Cost(counts)) && s.chunks <= BUDGET
    && (forall n :: n in s.keep ==> exists t :: 0 <= t < |tiers| && n in tiers[t])
    && (forall t, k :: 0 <= t < |tiers| && 0 <= k < s.idx[t] ==> !Fits(counts, s, tiers[t][k]))
  }

  lemma TurnKeepsSound(counts: map<string, nat>, tiers: Tiers, s: Drain, t: nat, r: Drain)
    requires Shaped(tiers, s) && 0 < t <= |tiers| && Sound(counts, tiers, s) && r == Turn(counts, tiers, s, t - 1)
    ensures Sound(counts, tiers, r)
  {
    var tier, from := tiers[t - 1], s.idx[t - 1];
    var j := NextFit(counts, s, tier, from);
    NextFitIs(counts, s, tier, from);
    if j < |tier| {
      SumPick(r.keep, Cost(counts), tier[j]);
      assert r.keep - {tier[j]} == s.keep;
    }
    forall u, k | 0 <= u < |tiers| && 0 <= k < r.idx[u] ensures !Fits(counts, r, tiers[u][k]) {
      if k < s.idx[u] { assert !Fits(counts, s, tiers[u][k]); }
    }
  }

  lemma {:induction false} TurnsKeepSound(counts: map<string, nat>, tiers: Tiers, s: Drain, t: nat)
    requires Shaped(tiers, s) && t <= |tiers| && Sound(counts, tiers, s)
    ensures Sound(counts, tiers, Turns(counts, tiers, s, t))
  {
    if t > 0 {
      var mid, r := Turns(counts, tiers, s, t - 1), Turns(counts, tiers, s, t);
      TurnsKeepSound(counts, tiers, s, t - 1);
      TurnsUnfold(counts, tiers, s, t);
      TurnKeepsSound(counts, tiers, mid, t, r);
    }
  }

  /** In a round that adds nothing every tier is drained to its end. */
  lemma {:induction false} IdleTurnsDrain(counts: map<string, nat>, tiers: Tiers, s: Drain, t: nat, u: nat)
    requires Shaped(tiers, s) && u < t <= |tiers| && Turns(counts, tiers, s, t).chunks == s.chunks
    ensures Turns(counts, tiers, s, t).idx[u] == |tiers[u]|
  {
    TurnsGrow(counts, tiers, s, t - 1);
    if u < t - 1 { IdleTurnsDrain(counts, tiers, s, t - 1, u); }
  }

  /** Nothing nominated and left out would still fit. */
  ghost predicate Maximal(counts: map<string, nat>, tiers: Tiers, s: Drain) {
    forall t, k :: 0 <= t < |tiers| && 0 <= k < |tiers[t]| ==> !Fits(counts, s, tiers[t][k])
  }

  lemma {:induction false} RoundsSound(counts: map<string, nat>, tiers: Tiers, s: Drain)
    requires Shaped(tiers, s) && Sound(counts, tiers, s)
    ensures Sound(counts, tiers, Rounds(counts, tiers, s)) && Maximal(counts, tiers, Rounds(counts, tiers, s))
    decreases BUDGET - s.chunks
  {
    if s.chunks < BUDGET {
      var next := Turns(counts, tiers, s, |tiers|);
      TurnsGrow(counts, tiers, s, |tiers|);
      TurnsKeepSound(counts, tiers, s, |tiers|);
      if next.chunks == s.chunks {
        forall t, k | 0 <= t < |tiers| && 0 <= k < |tiers[t]| ensures !Fits(counts, next, tiers[t][k]) {
          IdleTurnsDrain(counts, tiers, s, |tiers|, t);
        }
      } else {
        RoundsSound(counts, tiers, next);
      }
    }
  }

  /** The allocation: kept files are nominated ones, their total cost stays within
      the budget, and it is maximal. */
  lemma AllocationIsMaximal(counts: map<string, nat>, tiers: Tiers)
    ensures var r := Rounds(counts, tiers, Start(tiers));
            && r.chunks == Sum(r.keep, Cost(counts)) && r.chunks <= BUDGET
            && (forall n :: n in r.keep ==> exists t :: 0 <= t < |tiers| && n in tiers[t])
            && (forall t, n :: 0 <= t < |tiers| && n in tiers[t] ==> n in r.keep || r.chunks + Cost(counts)(n) > BUDGET)
  {
    RoundsSound(counts, tiers, Start(tiers));
    var r := Rounds(counts, tiers, Start(tiers));
    forall t, n | 0 <= t < |tiers| && n in tiers[t] ensures n in r.keep || r.chunks + Cost(counts)(n) > BUDGET {
      var k :| 0 <= k < |tiers[t]| && tiers[t][k] == n;
      assert !Fits(counts, r, tiers[t][k]);
    }
  }

  // ------------------------------------------------------- what the budget is for

  /** The counts are those of the files' chunk lists. */
  ghost predicate CountsOf<C>(counts: map<string, nat>, chunks: map<string, seq<C>>) {
    forall n :: (n in chunks <==> n in counts) && (n in counts && n in chunks ==> counts[n] == |chunks[n]|)
  }

  /** The chunks of the listed files, one list after the other. */
  function ChunksOf<C>(chunks: map<string, seq<C>>, files: seq<string>): seq<C> {
    if files == [] then []
    else
      var last := files[|files| - 1];
      ChunksOf(chunks, files[..|files| - 1]) + if last in chunks then chunks[last] else []
  }

  function Listed(files: seq<string>): set<string> { set n | n in files }

  /** The listed files without chunks. */
  function Bare<C(==)>(chunks: map<string, seq<C>>, files: seq<string>): set<string> {
    set n | n in files && (n !in chunks || chunks[n] == [])
  }

  lemma ListedStep<C>(chunks: map<string, seq<C>>, files: seq<string>)
    requires files != [] && forall i, j :: 0 <= i < j < |files| ==> files[i] != files[j]
    ensures var init, last := files[..|files| - 1], files[|files| - 1];
            && last !in init && last in Listed(files) && Listed(files) - {last} == Listed(init)
            && Bare(chunks, files) == Bare(chunks, init) + if last !in chunks || chunks[last] == [] then {last} else {}
  {
    var init, last := files[..|files| - 1], files[|files| - 1];
    assert files == init + [last];
  }

  lemma CostIs<C>(counts: map<string, nat>, chunks: map<string, seq<C>>, n: string)
    requires CountsOf(counts, chunks)
    ensures Cost(counts)(n) == if n in chunks && chunks[n] != [] then |chunks[n]| else 1
  {
  }

  /** The total of some files is the number of their chunks, and one for each file
      without chunks. */
  lemma {:induction false} TotalIsChunks<C>(counts: map<string, nat>, chunks: map<string, seq<C>>, files: seq<string>)
    requires CountsOf(counts, chunks) && forall i, j :: 0 <= i < j < |files| ==> files[i] != files[j]
    ensures Sum(Listed(files), Cost(counts)) == |ChunksOf(chunks, files)| + |Bare(chunks, files)|
  {
    if files != [] {
      var init, last := files[..|files| - 1], files[|files| - 1];
      ListedStep(chunks, files);
      TotalIsChunks(counts, chunks, init);
      SumPick(Listed(files), Cost(counts), last);
      CostIs(counts, chunks, last);
    }
  }

  /** So the kept files have at most 8000 chunks together, and a nominated file that was
      left out would, with its chunks, pass that. */
  lemma KeptChunksFit<C>(counts: map<string, nat>, chunks: map<string, seq<C>>, tiers: Tiers, kept: seq<string>, t: nat, k: nat)
    requires CountsOf(counts, chunks) && (forall i, j :: 0 <= i < j < |kept| ==> kept[i] != kept[j])
    requires Listed(kept) == Rounds(counts, tiers, Start(tiers)).keep
    requires t < |tiers| && k < |tiers[t]|
    ensures |ChunksOf(chunks, kept)| + |Bare(chunks, kept)| <= 8000
    ensures var n := tiers[t][k];
            n !in kept ==>
            |ChunksOf(chunks, kept)| + |Bare(chunks, kept)| + (if n in chunks && chunks[n] != [] then |chunks[n]| else 1) > 8000
  {
    AllocationIsMaximal(counts, tiers);
    TotalIsChunks(counts, chunks, kept);
    CostIs(counts, chunks, tiers[t][k]);
    assert tiers[t][k] in tiers[t] && (tiers[t][k] in kept <==> tiers[t][k] in Listed(kept));
  }

  // ---------------------------------------------------------------- fair turns

  /** The first m files of each of the first t tiers and the first m - 1 of the
      others. */
  function Heads(tiers: Tiers, m: nat, t: nat): set<string> {
    set u, k | 0 <= u < |tiers| && 0 <= k < |tiers[u]| && (k < m - 1 || (k == m - 1 && u < t)) :: tiers[u][k]
  }

  /** The file at place i of tier t is nominated nowhere else. */
  ghost predicate OnlyAt(tiers: Tiers, t: nat, i: nat)
    requires t < |tiers| && i < |tiers[t]|
  {
    forall u, j :: 0 <= u < |tiers| && 0 <= j < |tiers[u]| && tiers[u][j] == tiers[t][i] ==> u == t && j == i
  }

  /** No file is nominated twice. */
  ghost predicate NominatedOnce(tiers: Tiers) {
    forall t: nat, i: nat {:trigger OnlyAt(tiers, t, i)} :: t < |tiers| && i < |tiers[t]| ==> OnlyAt(tiers, t, i)
  }

  function Least(a: nat, b: nat): nat { if a < b then a else b }

  /** Round m, after t turns, while everything so far fit. */
  ghost predicate AtTurn(counts: map<string, nat>, tiers: Tiers, m: nat, t: nat, s: Drain)
    requires Shaped(tiers, s) && m > 0
  {
    && s.keep == Heads(tiers, m, t) && s.chunks == Sum(s.keep, Cost(counts))
    && forall u :: 0 <= u < |tiers| ==> s.idx[u] == Least(if u < t then m else m - 1, |tiers[u]|)
  }

  lemma FairTurn(counts: map<string, nat>, tiers: Tiers, m: nat, t: nat, s: Drain, r: Drain)
    requires Shaped(tiers, s) && m > 0 && 0 < t <= |tiers| && NominatedOnce(tiers) && AtTurn(counts, tiers, m, t - 1, s)
    requires Sum(Heads(tiers, m, t), Cost(counts)) <= BUDGET && r == Turn(counts, tiers, s, t - 1)
    ensures AtTurn(counts, tiers, m, t, r)
  {
    var after, tier := Heads(tiers, m, t), tiers[t - 1];
    if m - 1 < |tier| {
      var n := tier[m - 1];
      assert OnlyAt(tiers, t - 1, m - 1);
      assert after == s.keep + {n} && n !in s.keep;
      SumPick(after, Cost(counts), n);
      assert after - {n} == s.keep;
      assert Fits(counts, s, n);
    } else {
      assert after == s.keep;
    }
  }

  lemma HeadsGrow(counts: map<string, nat>, tiers: Tiers, m: nat, t: nat, m': nat, t': nat)
    requires m < m' || (m == m' && t <= t')
    ensures Heads(tiers, m, t) <= Heads(tiers, m', t')
    ensures Sum(Heads(tiers, m, t), Cost(counts)) <= Sum(Heads(tiers, m', t'), Cost(counts))
  {
    var a, b := Heads(tiers, m, t), Heads(tiers, m', t');
    assert b == a + (b - a);
    SumUnion(a, b - a, Cost(counts));
    SumNonNegative(b - a, Cost(counts));
  }

  lemma {:induction false} FairTurns(counts: map<string, nat>, tiers: Tiers, m: nat, t: nat, s: Drain)
    requires Shaped(tiers, s) && m > 0 && t <= |tiers| && NominatedOnce(tiers) && AtTurn(counts, tiers, m, 0, s)
    requires Sum(Heads(tiers, m, t), Cost(counts)) <= BUDGET
    ensures AtTurn(counts, tiers, m, t, Turns(counts, tiers, s, t))
  {
    if t > 0 {
      HeadsFit(counts, tiers, m, t - 1, m, t);
      FairTurns(counts, tiers, m, t - 1, s);
      TurnsUnfold(counts, tiers, s, t);
      FairTurn(counts, tiers, m, t, Turns(counts, tiers, s, t - 1), Turns(counts, tiers, s, t));
    }
  }

  lemma HeadsFit(counts: map<string, nat>, tiers: Tiers, m: nat, t: nat, m': nat, t': nat)
    requires (m < m' || (m == m' && t <= t')) && Sum(Heads(tiers, m', t'), Cost(counts)) <= BUDGET
    ensures Sum(Heads(tiers, m, t), Cost(counts)) <= BUDGET
  {
    HeadsGrow(counts, tiers, m, t, m', t');
  }

  lemma {:induction false} RoundsGrow(counts: map<string, nat>, tiers: Tiers, s: Drain)
    requires Shaped(tiers, s)
    ensures s.keep <= Rounds(counts, tiers, s).keep
    decreases BUDGET - s.chunks
  {
    if s.chunks < BUDGET {
      var next := Turns(counts, tiers, s, |tiers|);
      TurnsGrow(counts, tiers, s, |tiers|);
      if next.chunks != s.chunks { RoundsGrow(counts, tiers, next); }
    }
  }

  /** When a round of fair turns adds nothing, every head is kept. */
  lemma IdleHasAll(counts: map<string, nat>, tiers: Tiers, depth: nat, m: nat, s: Drain)
    requires Shaped(tiers, s) && 0 < m <= depth && Turns(counts, tiers, s, |tiers|).chunks == s.chunks
    requires AtTurn(counts, tiers, m, |tiers|, Turns(counts, tiers, s, |tiers|))
    ensures Heads(tiers, depth, |tiers|) <= Turns(counts, tiers, s, |tiers|).keep
  {
    forall n | n in Heads(tiers, depth, |tiers|) ensures n in Turns(counts, tiers, s, |tiers|).keep {
      var u, k :| 0 <= u < |tiers| && 0 <= k < |tiers[u]| && tiers[u][k] == n;
      IdleTurnsDrain(counts, tiers, s, |tiers|, u);
    }
  }

  lemma {:induction false} HeadsFollow(counts: map<string, nat>, tiers: Tiers, depth: nat, m: nat, s: Drain)
    requires Shaped(tiers, s) && 0 < m <= depth && NominatedOnce(tiers) && AtTurn(counts, tiers, m, 0, s)
    requires Sum(Heads(tiers, depth, |tiers|), Cost(counts)) <= BUDGET
    ensures Heads(tiers, depth, |tiers|) <= Rounds(counts, tiers, s).keep
    decreases depth - m
  {
    var all := Heads(tiers, depth, |tiers|);
    HeadsGrow(counts, tiers, m, 0, depth, |tiers|);
    if s.chunks >= BUDGET {
      SpentOnAll(counts, s.keep, all);
    } else {
      var next := Turns(counts, tiers, s, |tiers|);
      HeadsFit(counts, tiers, m, |tiers|, depth, |tiers|);
      FairTurns(counts, tiers, m, |tiers|, s);
      TurnsGrow(counts, tiers, s, |tiers|);
      if next.chunks == s.chunks {
        IdleHasAll(counts, tiers, depth, m, s);
      } else if m < depth {
        assert Heads(tiers, m, |tiers|) == Heads(tiers, m + 1, 0);
        HeadsFollow(counts, tiers, depth, m + 1, next);
      } else {
        RoundsGrow(counts, tiers, next);
      }
    }
  }

  /** A part that already costs the whole of a set that fits is the whole of it. */
  lemma SpentOnAll(counts: map<string, nat>, part: set<string>, all: set<string>)
    requires part <= all && Sum(part, Cost(counts)) >= BUDGET && Sum(all, Cost(counts)) <= BUDGET
    ensures part == all
  {
    assert all == part + (all - part);
    SumUnion(part, all - part, Cost(counts));
    if n :| n in all - part {
      SumNonNegative(all - part - {n}, Cost(counts));
      SumPick(all - part, Cost(counts), n);
    }
  }

  /** The turns are fair: when no file is nominated twice and the best `depth` files
      of every tier fit the budget together, all of them are kept, however long
      and heavy any one tier is beyond that. */
  lemma BestOfEveryTierKept(counts: map<string, nat>, tiers: Tiers, depth: nat)
    requires NominatedOnce(tiers) && depth > 0
    requires Sum(Heads(tiers, depth, |tiers|), Cost(counts)) <= BUDGET
    ensures forall t, k :: 0 <= t < |tiers| && 0 <= k < |tiers[t]| && k < depth ==>
              tiers[t][k] in Rounds(counts, tiers, Start(tiers)).keep
  {
    assert Heads(tiers, 1, 0) == {};
    HeadsFollow(counts, tiers, depth, 1, Start(tiers));
    forall t, k | 0 <= t < |tiers| && 0 <= k < |tiers[t]| && k < depth
      ensures tiers[t][k] in Rounds(counts, tiers, Start(tiers)).keep
    {
      assert tiers[t][k] in Heads(tiers, depth, |tiers|);
    }
  }

  // -------------------------------------------------- files nominated more than once

  /** Whatever a tier is past is kept. */
  ghost predicate AllPassedKept(tiers: Tiers, s: Drain)
    requires Shaped(tiers, s)
  {
    forall u, k :: 0 <= u < |tiers| && 0 <= k < s.idx[u] ==> tiers[u][k] in s.keep
  }

  /** No nominated file costs more than this. */
  ghost predicate CostsAtMost(counts: map<string, nat>, tiers: Tiers, most: nat) {
    forall u, k :: 0 <= u < |tiers| && 0 <= k < |tiers[u]| ==> Cost(counts)(tiers[u][k]) <= most
  }

  function Times(a: nat, b: nat): nat { if a == 0 then 0 else Times(a - 1, b) + b }

  lemma {:induction false} TimesIs(a: nat, b: nat)
    ensures Times(a, b) == a * b
  {
    if a > 0 {
      TimesIs(a - 1, b);
      assert a * b == (a - 1) * b + b;
    }
  }

  /** With room for any file a turn skips kept files only, and gets further. */
  lemma RoomyTurn(counts: map<string, nat>, tiers: Tiers, most: nat, t: nat, s: Drain, r: Drain)
    requires Shaped(tiers, s) && 0 < t <= |tiers| && CostsAtMost(counts, tiers, most) && AllPassedKept(tiers, s)
    requires s.chunks + most <= BUDGET && r == Turn(counts, tiers, s, t - 1)
    ensures AllPassedKept(tiers, r) && r.chunks <= s.chunks + most
    ensures r.idx[t - 1] >= Least(s.idx[t - 1] + 1, |tiers[t - 1]|) && r.idx == s.idx[t - 1 := r.idx[t - 1]]
  {
    var tier := tiers[t - 1];
    var j := NextFit(counts, s, tier, s.idx[t - 1]);
    NextFitIs(counts, s, tier, s.idx[t - 1]);
    forall k | s.idx[t - 1] <= k < j ensures tier[k] in s.keep { assert !Fits(counts, s, tier[k]); }
  }

  /** After t turns the first t tiers are one file further. */
  ghost predicate Further(tiers: Tiers, s: Drain, r: Drain, t: nat)
    requires Shaped(tiers, s) && Shaped(tiers, r)
  {
    forall u :: 0 <= u < |tiers| ==> r.idx[u] >= if u < t then Least(s.idx[u] + 1, |tiers[u]|) else s.idx[u]
  }

  lemma {:induction false} RoomyTurns(counts: map<string, nat>, tiers: Tiers, most: nat, t: nat, s: Drain)
    requires Shaped(tiers, s) && t <= |tiers| && CostsAtMost(counts, tiers, most) && AllPassedKept(tiers, s)
    requires s.chunks + Times(t, most) <= BUDGET
    ensures var r := Turns(counts, tiers, s, t);
            AllPassedKept(tiers, r) && r.chunks <= s.chunks + Times(t, most) && Further(tiers, s, r, t)
  {
    if t > 0 {
      RoomyTurns(counts, tiers, most, t - 1, s);
      TurnsUnfold(counts, tiers, s, t);
      RoomyTurn(counts, tiers, most, t, Turns(counts, tiers, s, t - 1), Turns(counts, tiers, s, t));
    }
  }

  /** Every tier is at least m files far. */
  ghost predicate FarAs(tiers: Tiers, s: Drain, m: nat)
    requires Shaped(tiers, s)
  {
    forall u :: 0 <= u < |tiers| ==> s.idx[u] >= Least(m, |tiers[u]|)
  }

  lemma {:induction false} RoomyRounds(counts: map<string, nat>, tiers: Tiers, most: nat, left: nat, m: nat, s: Drain,
                                       t: nat, k: nat)
    requires Shaped(tiers, s) && CostsAtMost(counts, tiers, most) && AllPassedKept(tiers, s) && FarAs(tiers, s, m)
    requires s.chunks + Times(left, Times(|tiers|, most)) <= BUDGET
    requires t < |tiers| && k < |tiers[t]| && k < m + left
    ensures tiers[t][k] in Rounds(counts, tiers, s).keep
    decreases left
  {
    if left == 0 {
      RoundsGrow(counts, tiers, s);
    } else {
      var next := Turns(counts, tiers, s, |tiers|);
      RoundCosts(counts, tiers, most, t, k);
      RoomyTurns(counts, tiers, most, |tiers|, s);
      TurnsGrow(counts, tiers, s, |tiers|);
      assert s.chunks < BUDGET;
      if next.chunks == s.chunks {
        IdleTurnsDrain(counts, tiers, s, |tiers|, t);
      } else {
        RoomyRounds(counts, tiers, most, left - 1, m + 1, next, t, k);
      }
    }
  }

  /** A round that nominates a file may cost something. */
  lemma RoundCosts(counts: map<string, nat>, tiers: Tiers, most: nat, t: nat, k: nat)
    requires CostsAtMost(counts, tiers, most) && t < |tiers| && k < |tiers[t]|
    ensures Times(|tiers|, most) >= 1
  {
    assert Cost(counts)(tiers[t][k]) >= 1;
  }

  /** Tiers of one query share files. Whichever they share: when no nominated file costs
      more than `most` and as many of that cost as `depth` rounds have turns fit the
      budget, the best `depth` files of every tier are kept. */
  lemma BestKeptWithinBudget(counts: map<string, nat>, tiers: Tiers, most: nat, depth: nat, t: nat, k: nat)
    requires CostsAtMost(counts, tiers, most) && depth * (|tiers| * most) <= BUDGET
    requires t < |tiers| && k < |tiers[t]| && k < depth
    ensures tiers[t][k] in Rounds(counts, tiers, Start(tiers)).keep
  {
    TimesIs(|tiers|, most);
    TimesIs(depth, |tiers| * most);
    RoomyRounds(counts, tiers, most, depth, 0, Start(tiers), t, k);
  }

  // ------------------------------------------------------------- the algorithm

  /** Past the files already kept or too fat for what is left. */
  method Advance(counts: map<string, nat>, tier: seq<string>, i: nat, keep: set<string>, chunks: nat) returns (j: nat)
    requires i <= |tier|
    ensures j == NextFit(counts, Drain([], keep, chunks), tier, i)
  {
    j := i;
    while j < |tier| && (tier[j] in keep || chunks + Cost(counts)(tier[j]) > BUDGET)
      invariant i <= j <= |tier|
      invariant NextFit(counts, Drain([], keep, chunks), tier, i) == NextFit(counts, Drain([], keep, chunks), tier, j)
    {
      j := j + 1;
    }
  }

  /** The inner loop over the tiers. */
  method RunRound(counts: map<string, nat>, tiers: Tiers, s: Drain) returns (r: Drain)
    requires Shaped(tiers, s)
    ensures r == Turns(counts, tiers, s, |tiers|)
  {
    r := s;
    for t := 0 to |tiers|
      invariant r == Turns(counts, tiers, s, t)
    {
      var j := Advance(counts, tiers[t], r.idx[t], r.keep, r.chunks);
      SameFit(counts, r, tiers[t], r.idx[t]);
      if j < |tiers[t]| {
        var n := tiers[t][j];
        r := Drain(r.idx[t := j + 1], r.keep + {n}, r.chunks + Cost(counts)(n));
      } else {
        r := r.(idx := r.idx[t := j]);
      }
    }
  }

  lemma {:induction false} SameFit(counts: map<string, nat>, s: Drain, tier: seq<string>, i: nat)
    requires i <= |tier|
    ensures NextFit(counts, Drain([], s.keep, s.chunks), tier, i) == NextFit(counts, s, tier, i)
    decreases |tier| - i
  {
    if i < |tier| { SameFit(counts, s, tier, i + 1); }
  }

  /** The drain loop of prefilterBlobNames; it stops when a round keeps nothing. */
  method DrainTiers(counts: map<string, nat>, tiers: Tiers) returns (keep: set<string>, chunks: nat)
    ensures var r := Rounds(counts, tiers, Start(tiers)); keep == r.keep && chunks == r.chunks
  {
    var s := Start(tiers);
    while s.chunks < BUDGET
      invariant Shaped(tiers, s) && Rounds(counts, tiers, s) == Rounds(counts, tiers, Start(tiers))
      decreases BUDGET - s.chunks
    {
      var next := RunRound(counts, tiers, s);
      TurnsGrow(counts, tiers, s, |tiers|);
      if next.chunks == s.chunks { return next.keep, next.chunks; }
      s := next;
    }
    keep, chunks := s.keep, s.chunks;
  }
}
