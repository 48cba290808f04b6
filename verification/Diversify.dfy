/** Seating the ranking (internal/indexer/curate.go): a cap per file, no byte-identical
    repeats, and at most two near-copies of one file name. */
module Diversify {
  import opened Text
  import opened Pseudo

  const DUP_BASENAME_CAP := 2

  /** What the seating reads of a candidate: its logical file, that file's lower-case
      base name, its set of non-blank trimmed lines, and its content hash. */
  datatype Library = Library(file: string -> string, base: string -> string, lines: string -> set<string>,
                             sum: string -> string)

  datatype Entry = Entry(path: string, content: string)

  /** The server's library, over strings.TrimSpace, filepath.Base and SHA-256. */
  function ServerLibrary(trim: string -> string, base: string -> string, sum: string -> string): Library {
    Library(LogicalPath, base, content => LineSet(trim, content), sum)
  }

  // -------------------------------------------------------------- near copies

  /** lineSet. */
  function LineSet(trim: string -> string, content: string): set<string> {
    set i | 0 <= i < |Split(content)| && trim(Split(content)[i]) != "" :: trim(Split(content)[i])
  }

  /** Of a text written from lines: the trimmed lines that are not empty, each once. */
  lemma LineSetIs(trim: string -> string, ls: seq<string>)
    requires ls != [] && Lines(ls)
    ensures forall x :: x in LineSet(trim, Join(ls)) <==> x != "" && exists l :: l in ls && trim(l) == x
  {
    SplitJoin(ls);
  }

  /** Line-set overlap of at least 0.7: the float quotient test, exactly. */
  predicate NearCopy(a: set<string>, b: set<string>) {
    a != {} && b != {} && 10 * |a * b| >= 7 * (|a| + |b| - |a * b|)
  }

  lemma OneMore(a: set<string>, b: set<string>, x: string)
    requires x !in a
    ensures |(a + {x}) * b| == |a * b| + if x in b then 1 else 0
  {
    assert (a + {x}) * b == a * b + if x in b then {x} else {};
  }

  /** The overlap count of lineJaccard, over the smaller set. */
  method Intersection(a: set<string>, b: set<string>) returns (inter: nat)
    ensures inter == |a * b|
  {
    var small, big := a, b;
    if |small| > |big| { small, big := big, small; }
    assert small * big == a * b;
    inter := 0;
    var rest, done := small, {};
    while rest != {}
      invariant rest !! done && rest + done == small
      invariant inter == |done * big|
    {
      var line :| line in rest;
      OneMore(done, big, line);
      if line in big { inter := inter + 1; }
      rest, done := rest - {line}, done + {line};
    }
  }

  function FileOf(lib: Library, e: Entry): string { lib.file(e.path) }
  function BaseOf(lib: Library, e: Entry): string { lib.base(FileOf(lib, e)) }

  ghost predicate Indices(cs: seq<Entry>, xs: seq<nat>) {
    forall k :: 0 <= k < |xs| ==> xs[k] < |cs|
  }

  // -------------------------------------------------------- counting the seats

  function FileCount(lib: Library, cs: seq<Entry>, picked: seq<nat>, file: string): nat
    requires Indices(cs, picked)
  {
    if picked == [] then 0
    else FileCount(lib, cs, picked[..|picked| - 1], file) + if FileOf(lib, cs[picked[|picked| - 1]]) == file then 1 else 0
  }

  /** The line sets seated under a base name. */
  function SeatedUnder(lib: Library, cs: seq<Entry>, picked: seq<nat>, base: string): seq<set<string>>
    requires Indices(cs, picked)
  {
    if picked == [] then []
    else
      var last := cs[picked[|picked| - 1]];
      SeatedUnder(lib, cs, picked[..|picked| - 1], base) +
      if BaseOf(lib, last) == base then [lib.lines(last.content)] else []
  }

  function NearIn(lines: set<string>, seated: seq<set<string>>): nat {
    if seated == [] then 0
    else NearIn(lines, seated[..|seated| - 1]) + if NearCopy(lines, seated[|seated| - 1]) then 1 else 0
  }

  /** How many seats near-copies of candidate idx already have. */
  function NearCopies(lib: Library, cs: seq<Entry>, picked: seq<nat>, idx: nat): nat
    requires Indices(cs, picked) && idx < |cs|
  {
    NearIn(lib.lines(cs[idx].content), SeatedUnder(lib, cs, picked, BaseOf(lib, cs[idx])))
  }

  predicate Repeats(lib: Library, cs: seq<Entry>, picked: seq<nat>, idx: nat)
    requires Indices(cs, picked) && idx < |cs|
  {
    exists k :: 0 <= k < |picked| && lib.sum(cs[picked[k]].content) == lib.sum(cs[idx].content)
  }

  // ------------------------------------------------------------- the two passes

  datatype Seating = Seating(picked: seq<nat>, overflow: seq<nat>)

  predicate Deferred(lib: Library, cs: seq<Entry>, picked: seq<nat>, idx: nat, fileCap: int)
    requires Indices(cs, picked) && idx < |cs|
  {
    FileCount(lib, cs, picked, FileOf(lib, cs[idx])) >= fileCap || NearCopies(lib, cs, picked, idx) >= DUP_BASENAME_CAP
  }

  function ScanStep(lib: Library, cs: seq<Entry>, s: Seating, idx: nat, limit: int, fileCap: int): (r: Seating)
    requires Indices(cs, s.picked) && Indices(cs, s.overflow) && idx < |cs|
    ensures Indices(cs, r.picked) && Indices(cs, r.overflow)
  {
    if |s.picked| >= limit || Repeats(lib, cs, s.picked, idx) then s
    else if Deferred(lib, cs, s.picked, idx, fileCap) then s.(overflow := s.overflow + [idx])
    else s.(picked := s.picked + [idx])
  }

  /** The ranking walk. */
  function Scan(lib: Library, cs: seq<Entry>, order: seq<nat>, limit: int, fileCap: int): (r: Seating)
    requires Indices(cs, order)
    ensures Indices(cs, r.picked) && Indices(cs, r.overflow)
  {
    if order == [] then Seating([], [])
    else ScanStep(lib, cs, Scan(lib, cs, order[..|order| - 1], limit, fileCap), order[|order| - 1], limit, fileCap)
  }

  lemma ScanNext(lib: Library, cs: seq<Entry>, order: seq<nat>, limit: int, fileCap: int, i: nat)
    requires Indices(cs, order) && i < |order|
    ensures Scan(lib, cs, order[..i + 1], limit, fileCap) ==
            ScanStep(lib, cs, Scan(lib, cs, order[..i], limit, fileCap), order[i], limit, fileCap)
  {
    assert order[..i + 1][..i] == order[..i];
  }

  predicate Refused(lib: Library, cs: seq<Entry>, picked: seq<nat>, idx: nat)
    requires Indices(cs, picked) && idx < |cs|
  {
    Repeats(lib, cs, picked, idx) || NearCopies(lib, cs, picked, idx) >= DUP_BASENAME_CAP
  }

  /** The backfill walk over the overflow. */
  function Refill(lib: Library, cs: seq<Entry>, picked: seq<nat>, overflow: seq<nat>, limit: int): (r: seq<nat>)
    requires Indices(cs, picked) && Indices(cs, overflow)
    ensures Indices(cs, r)
  {
    if overflow == [] then picked
    else
      var before, idx := Refill(lib, cs, picked, overflow[..|overflow| - 1], limit), overflow[|overflow| - 1];
      if |before| >= limit || Refused(lib, cs, before, idx) then before else before + [idx]
  }

  function Diversified(lib: Library, cs: seq<Entry>, order: seq<nat>, limit: int, fileCap: int): (r: seq<nat>)
    requires Indices(cs, order)
    ensures Indices(cs, r)
  {
    var s := Scan(lib, cs, order, limit, fileCap);
    Refill(lib, cs, s.picked, s.overflow, limit)
  }

  // ------------------------------------------------------- what a seating keeps

  /** Each pick was no repeat and had fewer than two near-copies before it. */
  ghost predicate WellSeated(lib: Library, cs: seq<Entry>, picked: seq<nat>)
    requires Indices(cs, picked)
  {
    forall k :: 0 <= k < |picked| ==> !Refused(lib, cs, picked[..k], picked[k])
  }

  lemma SeatKeeps(lib: Library, cs: seq<Entry>, picked: seq<nat>, idx: nat)
    requires Indices(cs, picked) && idx < |cs| && WellSeated(lib, cs, picked) && !Refused(lib, cs, picked, idx)
    ensures WellSeated(lib, cs, picked + [idx])
  {
    var out := picked + [idx];
    forall k | 0 <= k < |out| ensures !Refused(lib, cs, out[..k], out[k]) {
      if k < |picked| { assert out[..k] == picked[..k]; } else { assert out[..k] == picked; }
    }
  }

  lemma StepSeats(lib: Library, cs: seq<Entry>, s: Seating, idx: nat, limit: int, fileCap: int)
    requires Indices(cs, s.picked) && Indices(cs, s.overflow) && idx < |cs| && WellSeated(lib, cs, s.picked)
    ensures WellSeated(lib, cs, ScanStep(lib, cs, s, idx, limit, fileCap).picked)
  {
    if |s.picked| < limit && !Repeats(lib, cs, s.picked, idx) && !Deferred(lib, cs, s.picked, idx, fileCap) {
      SeatKeeps(lib, cs, s.picked, idx);
    }
  }

  lemma {:induction false} ScanSeats(lib: Library, cs: seq<Entry>, order: seq<nat>, limit: int, fileCap: int)
    requires Indices(cs, order)
    ensures WellSeated(lib, cs, Scan(lib, cs, order, limit, fileCap).picked)
  {
    if order != [] {
      var init := order[..|order| - 1];
      ScanSeats(lib, cs, init, limit, fileCap);
      StepSeats(lib, cs, Scan(lib, cs, init, limit, fileCap), order[|order| - 1], limit, fileCap);
    }
  }

  lemma {:induction false} ScanFrom(lib: Library, cs: seq<Entry>, order: seq<nat>, limit: int, fileCap: int)
    requires Indices(cs, order)
    ensures var s := Scan(lib, cs, order, limit, fileCap);
            && (|s.picked| == 0 || |s.picked| <= limit)
            && (forall x :: x in s.picked ==> x in order) && (forall x :: x in s.overflow ==> x in order)
  {
    if order != [] {
      var init, idx := order[..|order| - 1], order[|order| - 1];
      ScanFrom(lib, cs, init, limit, fileCap);
      assert order == init + [idx];
      var s := Scan(lib, cs, init, limit, fileCap);
      assert ScanStep(lib, cs, s, idx, limit, fileCap).picked in {s.picked, s.picked + [idx]};
    }
  }

  lemma {:induction false} RefillSeats(lib: Library, cs: seq<Entry>, picked: seq<nat>, overflow: seq<nat>, limit: int)
    requires Indices(cs, picked) && Indices(cs, overflow) && WellSeated(lib, cs, picked)
    requires |picked| == 0 || |picked| <= limit
    ensures var r := Refill(lib, cs, picked, overflow, limit);
            && WellSeated(lib, cs, r) && (|r| == 0 || |r| <= limit) && picked <= r
            && forall x :: x in r ==> x in picked || x in overflow
  {
    if overflow != [] {
      var init, idx := overflow[..|overflow| - 1], overflow[|overflow| - 1];
      RefillSeats(lib, cs, picked, init, limit);
      var before := Refill(lib, cs, picked, init, limit);
      assert overflow == init + [idx];
      if |before| < limit && !Refused(lib, cs, before, idx) { SeatKeeps(lib, cs, before, idx); }
    }
  }

  /** The picks come from the ranking, at most limit of them, no two with the same
      content, each seated with fewer than two near-copies before it. */
  lemma PicksAreDiverse(lib: Library, cs: seq<Entry>, order: seq<nat>, limit: int, fileCap: int)
    requires Indices(cs, order)
    ensures var r := Diversified(lib, cs, order, limit, fileCap);
            && (forall x :: x in r ==> x in order) && (r == [] || |r| <= limit)
            && (forall i, j :: 0 <= i < j < |r| ==> r[i] != r[j] && cs[r[i]].content != cs[r[j]].content)
            && (forall k :: 0 <= k < |r| ==> NearCopies(lib, cs, r[..k], r[k]) < DUP_BASENAME_CAP)
  {
    ScanSeats(lib, cs, order, limit, fileCap);
    ScanFrom(lib, cs, order, limit, fileCap);
    var s := Scan(lib, cs, order, limit, fileCap);
    RefillSeats(lib, cs, s.picked, s.overflow, limit);
    var r := Diversified(lib, cs, order, limit, fileCap);
    forall i, j | 0 <= i < j < |r| ensures r[i] != r[j] && cs[r[i]].content != cs[r[j]].content {
      assert !Refused(lib, cs, r[..j], r[j]);
      assert r[..j][i] == r[i];
    }
  }

  // ---------------------------------------------------------- who is left out

  lemma {:induction false} NearGrows(lines: set<string>, a: seq<set<string>>, b: seq<set<string>>)
    ensures NearIn(lines, a) <= NearIn(lines, a + b)
  {
    if b == [] {
      assert a + b == a;
    } else {
      NearGrows(lines, a, b[..|b| - 1]);
      assert (a + b)[..|a + b| - 1] == a + b[..|b| - 1];
    }
  }

  lemma {:induction false} SeatedGrows(lib: Library, cs: seq<Entry>, a: seq<nat>, b: seq<nat>, base: string)
    requires Indices(cs, a) && Indices(cs, b) && a <= b
    ensures SeatedUnder(lib, cs, a, base) <= SeatedUnder(lib, cs, b, base)
    decreases |b|
  {
    if a != b {
      SeatedGrows(lib, cs, a, b[..|b| - 1], base);
    }
  }

  lemma RepeatStands(lib: Library, cs: seq<Entry>, a: seq<nat>, b: seq<nat>, idx: nat)
    requires Indices(cs, a) && Indices(cs, b) && a <= b && idx < |cs| && Repeats(lib, cs, a, idx)
    ensures Repeats(lib, cs, b, idx)
  {
    var k :| 0 <= k < |a| && lib.sum(cs[a[k]].content) == lib.sum(cs[idx].content);
    assert b[k] == a[k];
  }

  lemma NearCopiesGrow(lib: Library, cs: seq<Entry>, a: seq<nat>, b: seq<nat>, idx: nat)
    requires Indices(cs, a) && Indices(cs, b) && a <= b && idx < |cs|
    ensures NearCopies(lib, cs, a, idx) <= NearCopies(lib, cs, b, idx)
  {
    var x, y := SeatedUnder(lib, cs, a, BaseOf(lib, cs[idx])), SeatedUnder(lib, cs, b, BaseOf(lib, cs[idx]));
    SeatedGrows(lib, cs, a, b, BaseOf(lib, cs[idx]));
    NearGrows(lib.lines(cs[idx].content), x, y[|x|..]);
    assert x + y[|x|..] == y;
  }

  /** A refusal stands when more is seated. */
  lemma RefusalStands(lib: Library, cs: seq<Entry>, a: seq<nat>, b: seq<nat>, idx: nat)
    requires Indices(cs, a) && Indices(cs, b) && a <= b && idx < |cs|
    requires Refused(lib, cs, a, idx)
    ensures Refused(lib, cs, b, idx)
  {
    if Repeats(lib, cs, a, idx) {
      RepeatStands(lib, cs, a, b, idx);
    } else {
      NearCopiesGrow(lib, cs, a, b, idx);
    }
  }

  lemma SeatedRepeats(lib: Library, cs: seq<Entry>, picked: seq<nat>, idx: nat)
    requires Indices(cs, picked) && idx < |cs|
    ensures Refused(lib, cs, picked + [idx], idx)
  {
    assert (picked + [idx])[|picked|] == idx;
  }

  lemma LastOf(xs: seq<nat>, x: nat)
    requires x in xs
    ensures x in xs[..|xs| - 1] || x == xs[|xs| - 1]
  {
  }

  /** After the walk, below the limit, every ranked index is refused or deferred. */
  lemma {:induction false} ScanAccounts(lib: Library, cs: seq<Entry>, order: seq<nat>, limit: int, fileCap: int, x: nat)
    requires Indices(cs, order) && x in order && x < |cs|
    requires |Scan(lib, cs, order, limit, fileCap).picked| < limit
    ensures Refused(lib, cs, Scan(lib, cs, order, limit, fileCap).picked, x) ||
            x in Scan(lib, cs, order, limit, fileCap).overflow
  {
    var init, last := order[..|order| - 1], order[|order| - 1];
    var s, t := Scan(lib, cs, init, limit, fileCap), Scan(lib, cs, order, limit, fileCap);
    StepAccounts(lib, cs, s, last, limit, fileCap);
    LastOf(order, x);
    if x in init {
      ScanAccounts(lib, cs, init, limit, fileCap, x);
      AccountStands(lib, cs, s, t, x);
    }
  }

  lemma AccountStands(lib: Library, cs: seq<Entry>, s: Seating, t: Seating, x: nat)
    requires Indices(cs, s.picked) && Indices(cs, t.picked) && x < |cs|
    requires s.picked <= t.picked && s.overflow <= t.overflow
    requires Refused(lib, cs, s.picked, x) || x in s.overflow
    ensures Refused(lib, cs, t.picked, x) || x in t.overflow
  {
    if Refused(lib, cs, s.picked, x) { RefusalStands(lib, cs, s.picked, t.picked, x); }
  }

  lemma StepAccounts(lib: Library, cs: seq<Entry>, s: Seating, idx: nat, limit: int, fileCap: int)
    requires Indices(cs, s.picked) && Indices(cs, s.overflow) && idx < |cs|
    ensures var t := ScanStep(lib, cs, s, idx, limit, fileCap);
            && s.picked <= t.picked && s.overflow <= t.overflow
            && (|t.picked| < limit ==> Refused(lib, cs, t.picked, idx) || idx in t.overflow)
  {
    SeatedRepeats(lib, cs, s.picked, idx);
  }

  lemma RefillStep(lib: Library, cs: seq<Entry>, picked: seq<nat>, overflow: seq<nat>, limit: int)
    requires Indices(cs, picked) && Indices(cs, overflow) && overflow != []
    ensures var before, r := Refill(lib, cs, picked, overflow[..|overflow| - 1], limit), Refill(lib, cs, picked, overflow, limit);
            before <= r && (|r| < limit ==> Refused(lib, cs, r, overflow[|overflow| - 1]))
  {
    SeatedRepeats(lib, cs, Refill(lib, cs, picked, overflow[..|overflow| - 1], limit), overflow[|overflow| - 1]);
  }

  lemma {:induction false} RefillAccounts(lib: Library, cs: seq<Entry>, picked: seq<nat>, overflow: seq<nat>, limit: int, x: nat)
    requires Indices(cs, picked) && Indices(cs, overflow) && x in overflow && x < |cs|
    requires |Refill(lib, cs, picked, overflow, limit)| < limit
    ensures Refused(lib, cs, Refill(lib, cs, picked, overflow, limit), x)
  {
    var init := overflow[..|overflow| - 1];
    RefillStep(lib, cs, picked, overflow, limit);
    LastOf(overflow, x);
    if x in init {
      RefillAccounts(lib, cs, picked, init, limit, x);
      RefusalStands(lib, cs, Refill(lib, cs, picked, init, limit), Refill(lib, cs, picked, overflow, limit), x);
    }
  }

  lemma {:induction false} RefillExtends(lib: Library, cs: seq<Entry>, picked: seq<nat>, overflow: seq<nat>, limit: int)
    requires Indices(cs, picked) && Indices(cs, overflow)
    ensures picked <= Refill(lib, cs, picked, overflow, limit)
  {
    if overflow != [] { RefillExtends(lib, cs, picked, overflow[..|overflow| - 1], limit); }
  }

  /** A list that stays short leaves nothing seatable out: every ranked index has a
      picked content, or two near-copies of it are seated. */
  lemma ShortListIsExhaustive(lib: Library, cs: seq<Entry>, order: seq<nat>, limit: int, fileCap: int, i: nat)
    requires Indices(cs, order) && i < |order|
    requires forall a, b :: lib.sum(a) == lib.sum(b) ==> a == b
    requires |Diversified(lib, cs, order, limit, fileCap)| < limit
    ensures var r := Diversified(lib, cs, order, limit, fileCap);
            || (exists k :: 0 <= k < |r| && cs[r[k]].content == cs[order[i]].content)
            || NearCopies(lib, cs, r, order[i]) >= DUP_BASENAME_CAP
  {
    var s, r := Scan(lib, cs, order, limit, fileCap), Diversified(lib, cs, order, limit, fileCap);
    RefillExtends(lib, cs, s.picked, s.overflow, limit);
    ScanAccounts(lib, cs, order, limit, fileCap, order[i]);
    if Refused(lib, cs, s.picked, order[i]) {
      RefusalStands(lib, cs, s.picked, r, order[i]);
    } else {
      RefillAccounts(lib, cs, s.picked, s.overflow, limit, order[i]);
    }
  }

  // ------------------------------------------------------------ no third copy

  lemma SeatedCount(lib: Library, cs: seq<Entry>, picked: seq<nat>, base: string, lines: set<string>)
    requires Indices(cs, picked) && picked != []
    ensures var init, last := picked[..|picked| - 1], cs[picked[|picked| - 1]];
            NearIn(lines, SeatedUnder(lib, cs, picked, base)) ==
            NearIn(lines, SeatedUnder(lib, cs, init, base)) +
            if BaseOf(lib, last) == base && NearCopy(lines, lib.lines(last.content)) then 1 else 0
  {
    var before, own := SeatedUnder(lib, cs, picked[..|picked| - 1], base), lib.lines(cs[picked[|picked| - 1]].content);
    assert (before + [own])[..|before|] == before;
    assert before + [] == before;
  }

  /** Entry e was picked under the base name with these lines nearly. */
  predicate NearAt(lib: Library, e: Entry, base: string, lines: set<string>) {
    BaseOf(lib, e) == base && NearCopy(lines, lib.lines(e.content))
  }

  lemma {:induction false} PairCounts(lib: Library, cs: seq<Entry>, picked: seq<nat>, base: string, lines: set<string>,
                                      i: int, j: nat)
    requires Indices(cs, picked) && -1 <= i < j < |picked|
    requires (i >= 0 ==> NearAt(lib, cs[picked[i]], base, lines)) && NearAt(lib, cs[picked[j]], base, lines)
    ensures NearIn(lines, SeatedUnder(lib, cs, picked, base)) >= if i >= 0 then 2 else 1
    decreases |picked|
  {
    var init := picked[..|picked| - 1];
    SeatedCount(lib, cs, picked, base, lines);
    if j < |init| {
      PairCounts(lib, cs, init, base, lines, i, j);
    } else if i >= 0 {
      PairCounts(lib, cs, init, base, lines, -1, i);
    }
  }

  /** Of three picks under one base name the last is no near-copy of both others. */
  lemma NoThirdCopy(lib: Library, cs: seq<Entry>, order: seq<nat>, limit: int, fileCap: int, i: nat, j: nat, k: nat)
    requires Indices(cs, order) && i < j < k < |Diversified(lib, cs, order, limit, fileCap)|
    ensures var r := Diversified(lib, cs, order, limit, fileCap);
            var base, lines := BaseOf(lib, cs[r[k]]), lib.lines(cs[r[k]].content);
            !(NearAt(lib, cs[r[i]], base, lines) && NearAt(lib, cs[r[j]], base, lines))
  {
    PicksAreDiverse(lib, cs, order, limit, fileCap);
    var r := Diversified(lib, cs, order, limit, fileCap);
    var base, lines := BaseOf(lib, cs[r[k]]), lib.lines(cs[r[k]].content);
    if NearAt(lib, cs[r[i]], base, lines) && NearAt(lib, cs[r[j]], base, lines) {
      PairCounts(lib, cs, r[..k], base, lines, i, j);
    }
  }

  lemma SameIsNear(a: set<string>)
    ensures NearCopy(a, a) <==> a != {}
  {
    assert a * a == a;
  }

  /** With the server's own tests: no three picks have one base name and the same
      lines, up to white space at the ends, blank lines and order. A part of a split
      file counts under the name of the file. */
  lemma NoThreeCopies(trim: string -> string, base: string -> string, sum: string -> string, cs: seq<Entry>,
                      order: seq<nat>, limit: int, fileCap: int, i: nat, j: nat, k: nat)
    requires Indices(cs, order)
    requires i < j < k < |Diversified(ServerLibrary(trim, base, sum), cs, order, limit, fileCap)|
    ensures var r := Diversified(ServerLibrary(trim, base, sum), cs, order, limit, fileCap);
            var a, b, c := cs[r[i]], cs[r[j]], cs[r[k]];
            base(LogicalPath(a.path)) == base(LogicalPath(b.path)) == base(LogicalPath(c.path)) &&
            LineSet(trim, a.content) == LineSet(trim, b.content) == LineSet(trim, c.content) ==>
            LineSet(trim, c.content) == {}
  {
    var lib := ServerLibrary(trim, base, sum);
    NoThirdCopy(lib, cs, order, limit, fileCap, i, j, k);
    SameIsNear(LineSet(trim, cs[Diversified(lib, cs, order, limit, fileCap)[k]].content));
  }

  /** Near copies share at least seven tenths of the lines that either has. */
  lemma NearCopyIs(a: set<string>, b: set<string>)
    ensures NearCopy(a, b) <==> a != {} && b != {} && |a * b| as real / |a + b| as real >= 0.7
  {
    assert a + b == (a - b) + b && a == (a - b) + a * b;
    assert |a + b| == |a| + |b| - |a * b|;
    if a != {} && b != {} {
      assert a <= a + b && |a + b| > 0 by {
        var x :| x in a;
        assert x in a + b;
      }
      SevenTenths(|a * b|, |a + b|);
    }
  }

  lemma SevenTenths(k: nat, n: nat)
    requires n > 0
    ensures k as real / n as real >= 0.7 <==> 10 * k >= 7 * n
  {
  }

  /** Seven lines of ten in common are enough, six of nine are not, and fewer than all are
      enough. */
  lemma SevenOfTen(a: set<string>, b: set<string>)
    requires a != {} && b != {}
    ensures |a * b| == 7 && |a + b| == 10 ==> NearCopy(a, b) && a != b
    ensures |a * b| == 6 && |a + b| == 9 ==> !NearCopy(a, b)
  {
    NearCopyIs(a, b);
    SevenTenths(|a * b|, if |a + b| > 0 then |a + b| else 1);
    if a == b { assert a * b == a + b; }
  }

  /** Three chunks of three files of one base name with the same lines. */
  ghost predicate ThreeCopies(lib: Library, cs: seq<Entry>) {
    && |cs| == 3
    && FileOf(lib, cs[0]) != FileOf(lib, cs[1]) && FileOf(lib, cs[0]) != FileOf(lib, cs[2]) && FileOf(lib, cs[1]) != FileOf(lib, cs[2])
    && BaseOf(lib, cs[0]) == BaseOf(lib, cs[1]) == BaseOf(lib, cs[2])
    && lib.lines(cs[0].content) == lib.lines(cs[1].content) == lib.lines(cs[2].content) != {}
    && lib.sum(cs[0].content) != lib.sum(cs[1].content) && lib.sum(cs[0].content) != lib.sum(cs[2].content)
    && lib.sum(cs[1].content) != lib.sum(cs[2].content)
  }

  lemma {:induction false} AllNear(lib: Library, cs: seq<Entry>, picked: seq<nat>, base: string, lines: set<string>)
    requires Indices(cs, picked) && forall k :: 0 <= k < |picked| ==> NearAt(lib, cs[picked[k]], base, lines)
    ensures NearIn(lines, SeatedUnder(lib, cs, picked, base)) == |picked|
  {
    if picked != [] {
      AllNear(lib, cs, picked[..|picked| - 1], base, lines);
      SeatedCount(lib, cs, picked, base, lines);
      assert NearAt(lib, cs[picked[|picked| - 1]], base, lines);
    }
  }

  /** The places of the picks of a file. */
  function PlacesOf(lib: Library, cs: seq<Entry>, picked: seq<nat>, file: string): set<nat>
    requires Indices(cs, picked)
  {
    set k: nat | k < |picked| && lib.file(cs[picked[k]].path) == file
  }

  /** The count of a file is the number of picks of that file. */
  lemma {:induction false} FileCountIs(lib: Library, cs: seq<Entry>, picked: seq<nat>, file: string)
    requires Indices(cs, picked)
    ensures FileCount(lib, cs, picked, file) == |PlacesOf(lib, cs, picked, file)|
  {
    if picked != [] {
      FileCountIs(lib, cs, picked[..|picked| - 1], file);
      OnePlaceMore(lib, cs, picked, |picked| - 1, file);
    } else {
      assert PlacesOf(lib, cs, picked, file) == {};
    }
  }

  lemma OnePlaceMore(lib: Library, cs: seq<Entry>, picked: seq<nat>, last: nat, file: string)
    requires Indices(cs, picked) && last + 1 == |picked|
    ensures last !in PlacesOf(lib, cs, picked[..last], file)
    ensures PlacesOf(lib, cs, picked, file) ==
            PlacesOf(lib, cs, picked[..last], file) + if lib.file(cs[picked[last]].path) == file then {last} else {}
  {
  }

  lemma {:induction false} NoneOfFile(lib: Library, cs: seq<Entry>, picked: seq<nat>, file: string)
    requires Indices(cs, picked) && forall k :: 0 <= k < |picked| ==> FileOf(lib, cs[picked[k]]) != file
    ensures FileCount(lib, cs, picked, file) == 0
  {
    if picked != [] { NoneOfFile(lib, cs, picked[..|picked| - 1], file); }
  }

  lemma OthersSeated(lib: Library, cs: seq<Entry>, picked: seq<nat>, idx: nat)
    requires ThreeCopies(lib, cs) && idx < 3 && idx !in picked && forall k :: 0 <= k < |picked| ==> picked[k] < 3
    ensures Indices(cs, picked) && NearCopies(lib, cs, picked, idx) == |picked|
    ensures !Repeats(lib, cs, picked, idx) && FileCount(lib, cs, picked, FileOf(lib, cs[idx])) == 0
  {
    var base, lines := BaseOf(lib, cs[idx]), lib.lines(cs[idx].content);
    SameIsNear(lines);
    forall k | 0 <= k < |picked|
      ensures NearAt(lib, cs[picked[k]], base, lines) && FileOf(lib, cs[picked[k]]) != FileOf(lib, cs[idx])
      ensures lib.sum(cs[picked[k]].content) != lib.sum(cs[idx].content)
    {
      assert picked[k] in {0, 1, 2} && picked[k] != idx;
    }
    AllNear(lib, cs, picked, base, lines);
    NoneOfFile(lib, cs, picked, FileOf(lib, cs[idx]));
  }

  lemma TakesNext(lib: Library, cs: seq<Entry>, picked: seq<nat>, idx: nat, limit: int, fileCap: int)
    requires ThreeCopies(lib, cs) && |picked| < limit && fileCap >= 1
    requires idx < 3 && idx !in picked && (forall k :: 0 <= k < |picked| ==> picked[k] < 3)
    ensures Indices(cs, picked) && Indices(cs, [])
    ensures ScanStep(lib, cs, Seating(picked, []), idx, limit, fileCap) ==
            if |picked| < 2 then Seating(picked + [idx], []) else Seating(picked, [idx])
    ensures |picked| >= 2 ==> Refused(lib, cs, picked, idx)
  {
    OthersSeated(lib, cs, picked, idx);
    assert [] + [idx] == [idx];
  }

  /** Two of them are seated, in the order of the ranking, and no third, however much room
      there is. */
  lemma TwoCopiesSeated(lib: Library, cs: seq<Entry>, order: seq<nat>, limit: int, fileCap: int)
    requires ThreeCopies(lib, cs) && order == [0, 1, 2] && limit >= 3 && fileCap >= 1
    ensures Diversified(lib, cs, order, limit, fileCap) == [0, 1]
  {
    ScanOfThree(lib, cs, order, limit, fileCap);
    TakesNext(lib, cs, [0, 1], 2, limit, fileCap);
    RefillOne(lib, cs, [0, 1], 2, limit);
  }

  lemma ScanTakes(lib: Library, cs: seq<Entry>, order: seq<nat>, limit: int, fileCap: int, i: nat, picked: seq<nat>)
    requires ThreeCopies(lib, cs) && Indices(cs, order) && i < |order| && Scan(lib, cs, order[..i], limit, fileCap) == Seating(picked, [])
    requires |picked| < limit && fileCap >= 1 && order[i] !in picked && (forall k :: 0 <= k < |picked| ==> picked[k] < 3)
    ensures Scan(lib, cs, order[..i + 1], limit, fileCap) ==
            if |picked| < 2 then Seating(picked + [order[i]], []) else Seating(picked, [order[i]])
  {
    ScanNext(lib, cs, order, limit, fileCap, i);
    TakesNext(lib, cs, picked, order[i], limit, fileCap);
  }

  lemma ScanOfOne(lib: Library, cs: seq<Entry>, order: seq<nat>, limit: int, fileCap: int)
    requires ThreeCopies(lib, cs) && Indices(cs, order) && |order| == 3 && order[0] == 0 && limit >= 3 && fileCap >= 1
    ensures Scan(lib, cs, order[..1], limit, fileCap) == Seating([0], [])
  {
    var none: seq<nat> := [];
    assert order[..0] == none && none + [order[0]] == [0];
    ScanTakes(lib, cs, order, limit, fileCap, 0, none);
  }

  lemma ScanOfTwo(lib: Library, cs: seq<Entry>, order: seq<nat>, limit: int, fileCap: int)
    requires ThreeCopies(lib, cs) && Indices(cs, order) && |order| == 3 && limit >= 3 && fileCap >= 1
    requires order[0] == 0 && order[1] == 1
    ensures Scan(lib, cs, order[..2], limit, fileCap) == Seating([0, 1], [])
  {
    var one: seq<nat> := [0];
    ScanOfOne(lib, cs, order, limit, fileCap);
    ScanTakes(lib, cs, order, limit, fileCap, 1, one);
    assert one + [order[1]] == [0, 1];
  }

  lemma ScanOfThree(lib: Library, cs: seq<Entry>, order: seq<nat>, limit: int, fileCap: int)
    requires ThreeCopies(lib, cs) && Indices(cs, order) && |order| == 3 && limit >= 3 && fileCap >= 1
    requires order[0] == 0 && order[1] == 1 && order[2] == 2
    ensures Scan(lib, cs, order, limit, fileCap) == Seating([0, 1], [2])
  {
    var two: seq<nat> := [0, 1];
    ScanOfTwo(lib, cs, order, limit, fileCap);
    ScanTakes(lib, cs, order, limit, fileCap, 2, two);
    assert order[..3] == order;
  }

  lemma RefillOne(lib: Library, cs: seq<Entry>, picked: seq<nat>, idx: nat, limit: int)
    requires Indices(cs, picked) && idx < |cs| && Refused(lib, cs, picked, idx)
    ensures Refill(lib, cs, picked, [idx], limit) == picked
  {
    assert [idx][..0] == [];
  }

  // -------------------------------------------------------------- the file cap

  /** No pick's file had reached the cap before it. */
  ghost predicate Capped(lib: Library, cs: seq<Entry>, picked: seq<nat>, fileCap: int)
    requires Indices(cs, picked)
  {
    forall k :: 0 <= k < |picked| ==> FileCount(lib, cs, picked[..k], FileOf(lib, cs[picked[k]])) < fileCap
  }

  lemma CapKeeps(lib: Library, cs: seq<Entry>, picked: seq<nat>, idx: nat, fileCap: int)
    requires Indices(cs, picked) && idx < |cs| && Capped(lib, cs, picked, fileCap)
    requires FileCount(lib, cs, picked, FileOf(lib, cs[idx])) < fileCap
    ensures Capped(lib, cs, picked + [idx], fileCap)
  {
    var out := picked + [idx];
    forall k | 0 <= k < |out| ensures FileCount(lib, cs, out[..k], FileOf(lib, cs[out[k]])) < fileCap {
      if k < |picked| { assert out[..k] == picked[..k] && out[k] == picked[k]; } else { assert out[..k] == picked; }
    }
  }

  lemma {:induction false} ScanCaps(lib: Library, cs: seq<Entry>, order: seq<nat>, limit: int, fileCap: int)
    requires Indices(cs, order)
    ensures Capped(lib, cs, Scan(lib, cs, order, limit, fileCap).picked, fileCap)
  {
    if order != [] {
      var s, idx := Scan(lib, cs, order[..|order| - 1], limit, fileCap), order[|order| - 1];
      ScanCaps(lib, cs, order[..|order| - 1], limit, fileCap);
      if |s.picked| < limit && !Repeats(lib, cs, s.picked, idx) && !Deferred(lib, cs, s.picked, idx, fileCap) {
        CapKeeps(lib, cs, s.picked, idx, fileCap);
      }
    }
  }

  lemma {:induction false} CountGrows(lib: Library, cs: seq<Entry>, a: seq<nat>, b: seq<nat>, file: string)
    requires Indices(cs, a) && Indices(cs, b) && a <= b
    ensures FileCount(lib, cs, a, file) <= FileCount(lib, cs, b, file)
    decreases |b|
  {
    if a != b { CountGrows(lib, cs, a, b[..|b| - 1], file); }
  }

  /** Whoever was deferred and is not refused is from a file at its cap. */
  lemma {:induction false} OverflowIsCapped(lib: Library, cs: seq<Entry>, order: seq<nat>, limit: int, fileCap: int, idx: nat)
    requires Indices(cs, order) && idx in Scan(lib, cs, order, limit, fileCap).overflow
    ensures var p := Scan(lib, cs, order, limit, fileCap).picked;
            Refused(lib, cs, p, idx) || FileCount(lib, cs, p, FileOf(lib, cs[idx])) >= fileCap
  {
    var init := order[..|order| - 1];
    var s, t := Scan(lib, cs, init, limit, fileCap), Scan(lib, cs, order, limit, fileCap);
    assert s.picked <= t.picked;
    if idx in s.overflow {
      OverflowIsCapped(lib, cs, init, limit, fileCap, idx);
      if Refused(lib, cs, s.picked, idx) { RefusalStands(lib, cs, s.picked, t.picked, idx); }
      CountGrows(lib, cs, s.picked, t.picked, FileOf(lib, cs[idx]));
    }
  }

  lemma {:induction false} RefillPicks(lib: Library, cs: seq<Entry>, picked: seq<nat>, overflow: seq<nat>, limit: int, k: nat)
    requires Indices(cs, picked) && Indices(cs, overflow) && |picked| <= k < |Refill(lib, cs, picked, overflow, limit)|
    ensures Refill(lib, cs, picked, overflow, limit)[k] in overflow
    ensures !Refused(lib, cs, picked, Refill(lib, cs, picked, overflow, limit)[k])
  {
    var before, idx := Refill(lib, cs, picked, overflow[..|overflow| - 1], limit), overflow[|overflow| - 1];
    RefillExtends(lib, cs, picked, overflow[..|overflow| - 1], limit);
    if k < |before| {
      RefillPicks(lib, cs, picked, overflow[..|overflow| - 1], limit, k);
    } else if Refused(lib, cs, picked, idx) {
      RefusalStands(lib, cs, picked, before, idx);
    }
  }

  /** Up to some pick no file exceeds its cap; the picks after it are all from files
      that reached theirs. */
  lemma CapYieldsLast(lib: Library, cs: seq<Entry>, order: seq<nat>, limit: int, fileCap: int) returns (p: nat)
    requires Indices(cs, order)
    ensures var r := Diversified(lib, cs, order, limit, fileCap);
            && p <= |r|
            && Indices(cs, r[..p]) && Capped(lib, cs, r[..p], fileCap)
            && (forall k :: p <= k < |r| ==> FileCount(lib, cs, r[..p], FileOf(lib, cs[r[k]])) >= fileCap)
  {
    var s, r := Scan(lib, cs, order, limit, fileCap), Diversified(lib, cs, order, limit, fileCap);
    p := |s.picked|;
    ScanCaps(lib, cs, order, limit, fileCap);
    RefillExtends(lib, cs, s.picked, s.overflow, limit);
    assert r[..p] == s.picked;
    forall k | p <= k < |r| ensures FileCount(lib, cs, r[..p], FileOf(lib, cs[r[k]])) >= fileCap {
      RefillPicks(lib, cs, s.picked, s.overflow, limit, k);
      OverflowIsCapped(lib, cs, order, limit, fileCap, r[k]);
    }
  }

  // ------------------------------------------------------------- the algorithm

  /** The maps of the walk, as the picks determine them. */
  ghost predicate Tallied(lib: Library, cs: seq<Entry>, picked: seq<nat>, seen: set<string>, perFile: map<string, nat>,
                          seatedByBase: map<string, seq<set<string>>>)
    requires Indices(cs, picked)
  {
    && SumsOf(lib, cs, picked, seen)
    && (forall f :: Tally(perFile, f) == FileCount(lib, cs, picked, f))
    && (forall b :: Under(seatedByBase, b) == SeatedUnder(lib, cs, picked, b))
  }

  function Tally(m: map<string, nat>, f: string): nat { if f in m then m[f] else 0 }

  function Under(m: map<string, seq<set<string>>>, b: string): seq<set<string>> { if b in m then m[b] else [] }

  method CountNear(lines: set<string>, seated: seq<set<string>>) returns (n: nat)
    ensures n == NearIn(lines, seated)
  {
    n := 0;
    for i := 0 to |seated|
      invariant n == NearIn(lines, seated[..i])
    {
      assert seated[..i + 1][..i] == seated[..i];
      if lines != {} && seated[i] != {} {
        var inter := Intersection(lines, seated[i]);
        if 10 * inter >= 7 * (|lines| + |seated[i]| - inter) { n := n + 1; }
      }
    }
    assert seated[..|seated|] == seated;
  }

  class Seats {
    var picked: seq<nat>
    var perFile: map<string, nat>
    var seatedByBase: map<string, seq<set<string>>>
    var seen: set<string>

    constructor ()
      ensures picked == [] && perFile == map[] && seatedByBase == map[] && seen == {}
    {
      picked, perFile, seatedByBase, seen := [], map[], map[], {};
    }

    ghost predicate Valid(lib: Library, cs: seq<Entry>)
      reads this
    {
      Indices(cs, picked) && Tallied(lib, cs, picked, seen, perFile, seatedByBase)
    }

    method Seat(lib: Library, cs: seq<Entry>, idx: nat)
      requires Valid(lib, cs) && idx < |cs|
      modifies this
      ensures Valid(lib, cs) && picked == old(picked) + [idx]
    {
      var e := cs[idx];
      var sum, file, base, lines := lib.sum(e.content), FileOf(lib, e), BaseOf(lib, e), lib.lines(e.content);
      SumsStep(lib, cs, picked, seen, idx);
      FilesStep(lib, cs, picked, perFile, idx);
      SeatsStep(lib, cs, picked, seatedByBase, idx);
      seen := seen + {sum};
      perFile := perFile[file := Tally(perFile, file) + 1];
      seatedByBase := seatedByBase[base := Under(seatedByBase, base) + [lines]];
      picked := picked + [idx];
    }

    /** nearCopies. */
    method NearSeated(lib: Library, cs: seq<Entry>, idx: nat) returns (n: nat)
      requires Valid(lib, cs) && idx < |cs|
      ensures n == NearCopies(lib, cs, picked, idx)
    {
      n := CountNear(lib.lines(cs[idx].content), Under(seatedByBase, BaseOf(lib, cs[idx])));
    }

    method Walk(lib: Library, cs: seq<Entry>, order: seq<nat>, limit: int, fileCap: int) returns (overflow: seq<nat>)
      requires Valid(lib, cs) && picked == [] && Indices(cs, order)
      modifies this
      ensures Valid(lib, cs) && Seating(picked, overflow) == Scan(lib, cs, order, limit, fileCap)
    {
      overflow := [];
      for i := 0 to |order|
        invariant Valid(lib, cs) && Seating(picked, overflow) == Scan(lib, cs, order[..i], limit, fileCap)
      {
        ScanNext(lib, cs, order, limit, fileCap, i);
        var idx := order[i];
        if |picked| < limit && lib.sum(cs[idx].content) !in seen {
          var near := NearSeated(lib, cs, idx);
          if Tally(perFile, FileOf(lib, cs[idx])) >= fileCap || near >= DUP_BASENAME_CAP {
            overflow := overflow + [idx];
          } else {
            Seat(lib, cs, idx);
          }
        }
      }
      assert order[..|order|] == order;
    }

    /** One index of the overflow: seated when there is room and nothing speaks against it. */
    method Reconsider(lib: Library, cs: seq<Entry>, idx: nat, limit: int)
      requires Valid(lib, cs) && idx < |cs|
      modifies this
      ensures Valid(lib, cs)
      ensures picked == if |old(picked)| >= limit || Refused(lib, cs, old(picked), idx) then old(picked) else old(picked) + [idx]
    {
      if |picked| < limit && lib.sum(cs[idx].content) !in seen {
        var near := NearSeated(lib, cs, idx);
        if near < DUP_BASENAME_CAP { Seat(lib, cs, idx); }
      }
    }

    method Backfill(lib: Library, cs: seq<Entry>, overflow: seq<nat>, limit: int)
      requires Valid(lib, cs) && Indices(cs, overflow)
      modifies this
      ensures Valid(lib, cs) && picked == Refill(lib, cs, old(picked), overflow, limit)
    {
      for i := 0 to |overflow|
        invariant Valid(lib, cs) && picked == Refill(lib, cs, old(picked), overflow[..i], limit)
      {
        assert overflow[..i + 1][..i] == overflow[..i];
        Reconsider(lib, cs, overflow[i], limit);
      }
      assert overflow[..|overflow|] == overflow;
    }
  }

  ghost predicate SumsOf(lib: Library, cs: seq<Entry>, picked: seq<nat>, seen: set<string>)
    requires Indices(cs, picked)
  {
    forall s :: s in seen <==> exists k :: 0 <= k < |picked| && lib.sum(cs[picked[k]].content) == s
  }

  lemma SumsStep(lib: Library, cs: seq<Entry>, picked: seq<nat>, seen: set<string>, idx: nat)
    requires Indices(cs, picked) && idx < |cs| && SumsOf(lib, cs, picked, seen)
    ensures SumsOf(lib, cs, picked + [idx], seen + {lib.sum(cs[idx].content)})
  {
    var out, sums := picked + [idx], seen + {lib.sum(cs[idx].content)};
    assert out[|picked|] == idx;
    forall s ensures s in sums <==> exists k :: 0 <= k < |out| && lib.sum(cs[out[k]].content) == s {
      if s in seen {
        var k :| 0 <= k < |picked| && lib.sum(cs[picked[k]].content) == s;
        assert out[k] == picked[k];
      }
    }
  }

  lemma FilesStep(lib: Library, cs: seq<Entry>, picked: seq<nat>, perFile: map<string, nat>, idx: nat)
    requires Indices(cs, picked) && idx < |cs| && forall f :: Tally(perFile, f) == FileCount(lib, cs, picked, f)
    ensures var file := FileOf(lib, cs[idx]);
            forall f :: Tally(perFile[file := Tally(perFile, file) + 1], f) == FileCount(lib, cs, picked + [idx], f)
  {
    var out := picked + [idx];
    assert out[..|out| - 1] == picked;
    forall f ensures FileCount(lib, cs, out, f) == FileCount(lib, cs, picked, f) + if FileOf(lib, cs[idx]) == f then 1 else 0 {}
  }

  lemma SeatsStep(lib: Library, cs: seq<Entry>, picked: seq<nat>, seated: map<string, seq<set<string>>>, idx: nat)
    requires Indices(cs, picked) && idx < |cs| && forall b :: Under(seated, b) == SeatedUnder(lib, cs, picked, b)
    ensures var base := BaseOf(lib, cs[idx]);
            forall b :: Under(seated[base := Under(seated, base) + [lib.lines(cs[idx].content)]], b) ==
                        SeatedUnder(lib, cs, picked + [idx], b)
  {
    var out, base := picked + [idx], BaseOf(lib, cs[idx]);
    assert out[..|out| - 1] == picked;
    forall b ensures SeatedUnder(lib, cs, out, b) ==
                     SeatedUnder(lib, cs, picked, b) + if base == b then [lib.lines(cs[idx].content)] else [] {}
  }

  /** diversifyOrder. */
  method DiversifyOrder(lib: Library, cs: seq<Entry>, order: seq<nat>, limit: int, fileCap: int) returns (r: seq<nat>)
    requires Indices(cs, order)
    ensures r == Diversified(lib, cs, order, limit, fileCap)
  {
    var seats := new Seats();
    var overflow := seats.Walk(lib, cs, order, limit, fileCap);
    seats.Backfill(lib, cs, overflow, limit);
    r := seats.picked;
  }
}
