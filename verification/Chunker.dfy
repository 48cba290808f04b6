/** Splitting a blob into chunks (internal/indexer/chunker.go and the Vue block
    splitter of internal/indexer/astchunker.go). */
module Chunker {
  import opened Domain
  import opened Text
  import opened Layout

  const WINDOW_SIZE := 80
  const WINDOW_STEP := 68 // windowChunkSize - windowOverlap
  const MIN_CHUNK_LINES := 4

  // -------------------------------------------------------------- Vue blocks

  function TagName(tag: Tag): string {
    match tag
    case NoTag => ""
    case Script => "script"
    case Template => "template"
    case Style => "style"
  }

  /** The first line from j on that closes the tag, or -1. */
  function Closing(t: LineTests, lines: seq<string>, tag: Tag, j: nat): (r: int)
    requires j <= |lines|
    ensures r == -1 || j <= r < |lines|
    ensures r == -1 ==> forall k :: j <= k < |lines| ==> !t.closes(lines[k], tag)
    ensures r >= 0 ==> t.closes(lines[r], tag) && forall k :: j <= k < r ==> !t.closes(lines[k], tag)
    decreases |lines| - j
  {
    if j == |lines| then -1 else if t.closes(lines[j], tag) then j else Closing(t, lines, tag, j + 1)
  }

  /** A top-level block opens on line i and closes on a later line. */
  predicate OpensBlock(t: LineTests, lines: seq<string>, i: nat)
    requires i < |lines|
  {
    t.opens(lines[i]) != NoTag && Closing(t, lines, t.opens(lines[i]), i + 1) >= 0
  }

  function Shift(segs: seq<Segment>, offset: int): seq<Segment> {
    seq(|segs|, i requires 0 <= i < |segs| => segs[i].(start := segs[i].start + offset, end := segs[i].end + offset))
  }

  lemma {:induction false} ShiftTiles(segs: seq<Segment>, lo: int, hi: int, offset: int)
    requires Tiles(segs, lo, hi)
    ensures Tiles(Shift(segs, offset), lo + offset, hi + offset)
  {
    if segs != [] {
      ShiftTiles(segs[1..], segs[0].end, hi, offset);
      assert Shift(segs, offset)[1..] == Shift(segs[1..], offset);
    }
  }

  /** The syntax-tree layout of a script block's interior, when there is one. */
  function ScriptInterior(t: LineTests, parse: Parser, lines: seq<string>, open: nat, close: nat): Option<seq<Segment>>
    requires open < close < |lines|
  {
    if t.opens(lines[open]) == Script && close > open + 1 then
      var lang := if t.typescript(lines[open]) then "TypeScript" else "JavaScript";
      AstSegments(t, parse, lang, Join(lines[open + 1..close]))
    else None
  }

  function Fence(line: int): seq<Segment> {
    [Segment(line, line + 1, TagName(Script), Block)]
  }

  lemma InteriorTiles(t: LineTests, parse: Parser, lines: seq<string>, open: nat, close: nat)
    requires open < close < |lines| && Lines(lines)
    requires ScriptInterior(t, parse, lines, open, close).Some?
    ensures Tiles(ScriptInterior(t, parse, lines, open, close).value, 0, close - open - 1)
  {
    var body := lines[open + 1..close];
    AstSegmentsTile(t, parse, "TypeScript", Join(body));
    AstSegmentsTile(t, parse, "JavaScript", Join(body));
    SplitJoin(body);
  }

  /** A script's interior between its fences, in the coordinates of the file. */
  function Fenced(inner: seq<Segment>, open: nat, close: nat): (r: seq<Segment>)
    requires open < close && Tiles(inner, 0, close - open - 1)
    ensures Tiles(r, open, close + 1)
  {
    ShiftTiles(inner, 0, close - open - 1, open + 1);
    TilesOne(Segment(open, open + 1, TagName(Script), Block));
    TilesOne(Segment(close, close + 1, TagName(Script), Block));
    TilesThree(Fence(open), Shift(inner, open + 1), Fence(close), open, open + 1, close, close + 1);
    Fence(open) + Shift(inner, open + 1) + Fence(close)
  }

  function BlockSegments(t: LineTests, parse: Parser, lines: seq<string>, open: nat, close: nat): (r: seq<Segment>)
    requires open < close < |lines| && Lines(lines)
    ensures Tiles(r, open, close + 1)
  {
    var inner := ScriptInterior(t, parse, lines, open, close);
    if inner.Some? then
      InteriorTiles(t, parse, lines, open, close);
      Fenced(inner.value, open, close)
    else
      TilesOne(Segment(open, close + 1, TagName(t.opens(lines[open])), Block));
      [Segment(open, close + 1, TagName(t.opens(lines[open])), Block)]
  }

  /** What vueSegments makes of the lines from i on, the first `cursor` lines
      being laid out already: a tiling of the rest of the file. */
  function VueFrom(t: LineTests, parse: Parser, lines: seq<string>, cursor: nat, i: nat): (r: seq<Segment>)
    requires cursor <= i <= |lines| && Lines(lines)
    ensures Tiles(r, cursor, |lines|)
    decreases |lines| - i
  {
    FillerTiles(cursor, i, "", Preamble);
    if i == |lines| then Filler(cursor, i, "", Preamble)
    else if OpensBlock(t, lines, i) then
      var next := Closing(t, lines, t.opens(lines[i]), i + 1) + 1;
      var f, b, rest := Filler(cursor, i, "", Preamble), BlockSegments(t, parse, lines, i, next - 1),
                        VueFrom(t, parse, lines, next, next);
      TilesThree(f, b, rest, cursor, i, next, |lines|);
      f + b + rest
    else VueFrom(t, parse, lines, cursor, i + 1)
  }

  /** Every block opened from line i on and before line k is closed before it. */
  ghost predicate ClosedBefore(t: LineTests, lines: seq<string>, i: nat, k: nat)
    requires k <= |lines|
  {
    forall l: nat :: i <= l < k && OpensBlock(t, lines, l) ==> Closing(t, lines, t.opens(lines[l]), l + 1) < k
  }

  /** A block that no earlier one swallows is one segment under its tag's name, when it
      is no script. */
  lemma {:induction false} BlockStands(t: LineTests, parse: Parser, lines: seq<string>, cursor: nat, i: nat, k: nat,
                                       tag: Tag, j: nat)
    requires cursor <= i <= k < j < |lines| && Lines(lines) && ClosedBefore(t, lines, i, k)
    requires tag != NoTag && tag != Script && t.opens(lines[k]) == tag && Closing(t, lines, tag, k + 1) == j
    ensures Segment(k, j + 1, TagName(tag), Block) in VueFrom(t, parse, lines, cursor, i)
    decreases k - i
  {
    if i == k {
      assert BlockTo(t, lines, k, j + 1);
      VueUnfold(t, parse, lines, cursor, k, j + 1);
    } else if OpensBlock(t, lines, i) {
      var next := Closing(t, lines, t.opens(lines[i]), i + 1) + 1;
      BlockStands(t, parse, lines, next, next, k, tag, j);
      VueUnfold(t, parse, lines, cursor, i, next);
    } else {
      BlockStands(t, parse, lines, cursor, i + 1, k, tag, j);
    }
  }

  /** A script is parsed as TypeScript exactly when its opening line says so: when that
      language does not parse, whatever another would do, the block stays one segment. */
  lemma ScriptLanguage(t: LineTests, parse: Parser, lines: seq<string>, open: nat, close: nat, lang: string)
    requires open < close < |lines| && Lines(lines) && t.opens(lines[open]) == Script
    requires lang == (if t.typescript(lines[open]) then "TypeScript" else "JavaScript") && forall text :: parse(lang, text).None?
    ensures BlockSegments(t, parse, lines, open, close) == [Segment(open, close + 1, "script", Block)]
  {
  }

  /** Preamble and block, when a block opens on line i and next is the line after it. */
  function VuePart(t: LineTests, parse: Parser, lines: seq<string>, cursor: nat, i: nat, next: nat): seq<Segment>
    requires cursor <= i < |lines| && Lines(lines) && i + 1 < next <= |lines|
  {
    Filler(cursor, i, "", Preamble) + BlockSegments(t, parse, lines, i, next - 1)
  }

  /** A block that opens on line i, with the line after it. */
  predicate BlockTo(t: LineTests, lines: seq<string>, i: nat, next: nat)
    requires i < |lines|
  {
    OpensBlock(t, lines, i) && next == Closing(t, lines, t.opens(lines[i]), i + 1) + 1
  }

  lemma VueUnfold(t: LineTests, parse: Parser, lines: seq<string>, cursor: nat, i: nat, next: nat)
    requires cursor <= i < |lines| && Lines(lines) && BlockTo(t, lines, i, next)
    ensures i + 1 < next <= |lines|
    ensures VueFrom(t, parse, lines, cursor, i) ==
            VuePart(t, parse, lines, cursor, i, next) + VueFrom(t, parse, lines, next, next)
  {
  }

  lemma Reassociate(a: seq<Segment>, b: seq<Segment>, c: seq<Segment>)
    ensures a + (b + c) == (a + b) + c
  {
  }

  /** A block moves the walk on, and is seen behind it. */
  lemma VueStep(t: LineTests, parse: Parser, lines: seq<string>, cursor: nat, i: nat, next: nat, before: seq<Segment>,
                goal: seq<Segment>)
    requires cursor <= i < |lines| && Lines(lines) && BlockTo(t, lines, i, next)
    requires before + VueFrom(t, parse, lines, cursor, i) == goal
    ensures i + 1 < next <= |lines| && !NoneOpens(t, lines, next)
    ensures (before + VuePart(t, parse, lines, cursor, i, next)) + VueFrom(t, parse, lines, next, next) == goal
  {
    VueUnfold(t, parse, lines, cursor, i, next);
    Reassociate(before, VuePart(t, parse, lines, cursor, i, next), VueFrom(t, parse, lines, next, next));
  }

  lemma VueSkip(t: LineTests, parse: Parser, lines: seq<string>, cursor: nat, i: nat)
    requires cursor <= i < |lines| && Lines(lines) && !OpensBlock(t, lines, i)
    ensures VueFrom(t, parse, lines, cursor, i) == VueFrom(t, parse, lines, cursor, i + 1)
    ensures NoneOpens(t, lines, i + 1) <==> NoneOpens(t, lines, i)
  {
  }

  /** No block opens before line n. */
  predicate NoneOpens(t: LineTests, lines: seq<string>, n: nat)
    requires n <= |lines|
  {
    forall i :: 0 <= i < n ==> !OpensBlock(t, lines, i)
  }

  function VueSpec(t: LineTests, parse: Parser, lines: seq<string>): Option<seq<Segment>>
    requires Lines(lines)
  {
    if NoneOpens(t, lines, |lines|) then None else Some(VueFrom(t, parse, lines, 0, 0))
  }

  method FindClosing(t: LineTests, lines: seq<string>, tag: Tag, from: nat) returns (closing: int)
    requires from <= |lines|
    ensures closing == Closing(t, lines, tag, from)
  {
    for j := from to |lines|
      invariant Closing(t, lines, tag, from) == Closing(t, lines, tag, j)
    {
      if t.closes(lines[j], tag) { return j; }
    }
    return -1;
  }

  /** vueSegments: a tiling of the whole file, or nothing exactly when no block
      opens and closes. */
  method VueSegments(t: LineTests, parse: Parser, lines: seq<string>) returns (r: Option<seq<Segment>>)
    requires Lines(lines)
    ensures r == VueSpec(t, parse, lines)
    ensures r.None? <==> NoneOpens(t, lines, |lines|)
    ensures r.Some? ==> Tiles(r.value, 0, |lines|)
  {
    var segs: seq<Segment> := [];
    var cursor, i := 0, 0;
    ghost var goal, rest := VueFrom(t, parse, lines, 0, 0), VueFrom(t, parse, lines, 0, 0);
    while i < |lines|
      invariant 0 <= cursor <= i <= |lines|
      invariant rest == VueFrom(t, parse, lines, cursor, i) && segs + rest == goal
      invariant cursor > 0 <==> !NoneOpens(t, lines, i)
    {
      var tag := t.opens(lines[i]);
      var closing := -1;
      if tag != NoTag { closing := FindClosing(t, lines, tag, i + 1); }
      if closing < 0 {
        VueSkip(t, parse, lines, cursor, i);
        i := i + 1;
        continue;
      }
      var next := closing + 1;
      VueStep(t, parse, lines, cursor, i, next, segs, goal);
      segs := segs + VuePart(t, parse, lines, cursor, i, next);
      rest := VueFrom(t, parse, lines, next, next);
      cursor, i := next, next;
    }
    if cursor == 0 { return None; }
    segs := segs + Filler(cursor, |lines|, "", Preamble);
    return Some(segs);
  }

  // ---------------------------------------------------------------- windows

  /** Overlapping windows over [lo, hi): the last one ends at hi. */
  function Windows(lo: int, hi: int, symbol: string, kind: Kind): seq<Segment>
    requires lo < hi
    decreases hi - lo
  {
    if hi - lo <= WINDOW_SIZE then [Segment(lo, hi, symbol, kind)]
    else [Segment(lo, lo + WINDOW_SIZE, symbol, kind)] + Windows(lo + WINDOW_STEP, hi, symbol, kind)
  }

  /** Window i starts 68 lines after the one before it, so neighbours share twelve, and
      only the last is shorter than eighty. */
  lemma {:induction false} WindowsAre(lo: int, hi: int, symbol: string, kind: Kind, i: nat)
    requires lo < hi && i < |Windows(lo, hi, symbol, kind)|
    ensures var ws := Windows(lo, hi, symbol, kind);
            && ws[i].start == lo + 68 * i && ws[i].end == (if i + 1 < |ws| then ws[i].start + 80 else hi)
            && ws[i].end - ws[i].start <= 80
    decreases hi - lo
  {
    if hi - lo > WINDOW_SIZE && i > 0 { WindowsAre(lo + WINDOW_STEP, hi, symbol, kind, i - 1); }
  }

  /** Line l lies in one of the segments. */
  ghost predicate Covers(segs: seq<Segment>, l: int) {
    exists i :: 0 <= i < |segs| && segs[i].start <= l < segs[i].end
  }

  lemma CoversAppend(a: seq<Segment>, b: seq<Segment>, l: int)
    ensures Covers(a + b, l) <==> Covers(a, l) || Covers(b, l)
  {
    if i :| 0 <= i < |a| && a[i].start <= l < a[i].end { assert (a + b)[i] == a[i]; }
    if i :| 0 <= i < |b| && b[i].start <= l < b[i].end { assert (a + b)[|a| + i] == b[i]; }
  }

  lemma CoversOne(s: Segment, l: int)
    ensures Covers([s], l) <==> s.start <= l < s.end
  {
    assert [s][0] == s;
  }

  /** Windows cover exactly their range, none longer than a window, and
      consecutive windows overlap so a span cut by one boundary is whole in a
      neighbour. */
  lemma {:induction false} WindowsCover(lo: int, hi: int, symbol: string, kind: Kind)
    requires lo < hi
    ensures var w := Windows(lo, hi, symbol, kind);
            && (forall l :: Covers(w, l) <==> lo <= l < hi)
            && (forall i :: 0 <= i < |w| ==> lo <= w[i].start < w[i].end <= hi && w[i].end - w[i].start <= WINDOW_SIZE)
            && (forall i :: 0 <= i < |w| - 1 ==> w[i + 1].start == w[i].end - (WINDOW_SIZE - WINDOW_STEP))
            && w[0].start == lo
    decreases hi - lo
  {
    var w := Windows(lo, hi, symbol, kind);
    if hi - lo <= WINDOW_SIZE {
      forall l ensures Covers(w, l) <==> lo <= l < hi { CoversOne(w[0], l); }
    } else {
      WindowsCover(lo + WINDOW_STEP, hi, symbol, kind);
      var rest := Windows(lo + WINDOW_STEP, hi, symbol, kind);
      forall l ensures Covers(w, l) <==> lo <= l < hi {
        CoversAppend([w[0]], rest, l);
        CoversOne(w[0], l);
      }
      forall i | 0 <= i < |w| - 1 ensures w[i + 1].start == w[i].end - (WINDOW_SIZE - WINDOW_STEP) {
        if i > 0 { assert w[i] == rest[i - 1] && w[i + 1] == rest[i]; }
      }
    }
  }

  // ------------------------------------------------------------- heuristics

  /** The declaration patterns of one language: what they read off a line that
      declares something. */
  type Matcher = string -> Option<(string, Kind)>

  datatype Boundary = Boundary(line: int, symbol: string, kind: Kind)

  function BoundsFrom(lines: seq<string>, matcher: Matcher, i: nat): (r: seq<Boundary>)
    requires i <= |lines|
    ensures forall k :: 0 <= k < |r| ==> i <= r[k].line < |lines|
    ensures forall k, m :: 0 <= k < m < |r| ==> r[k].line < r[m].line
    decreases |lines| - i
  {
    if i == |lines| then []
    else
      var m := matcher(lines[i]);
      (if m.Some? then [Boundary(i, m.value.0, m.value.1)] else []) + BoundsFrom(lines, matcher, i + 1)
  }

  /** Every matching line is a boundary, under what the matcher says, and no other is. */
  lemma {:induction false} BoundsAre(lines: seq<string>, matcher: Matcher, i: nat, b: Boundary)
    requires i <= |lines|
    ensures b in BoundsFrom(lines, matcher, i) <==> i <= b.line < |lines| && matcher(lines[b.line]) == Some((b.symbol, b.kind))
    decreases |lines| - i
  {
    if i < |lines| { BoundsAre(lines, matcher, i + 1, b); }
  }

  /** Ascending lines of the file. */
  ghost predicate Ascending(lines: seq<string>, bounds: seq<Boundary>) {
    && (forall k :: 0 <= k < |bounds| ==> 0 <= bounds[k].line < |lines|)
    && (forall k, m :: 0 <= k < m < |bounds| ==> bounds[k].line < bounds[m].line)
  }

  /** Where the comment block that ends just above the line starts. */
  function StartOf(t: LineTests, lines: seq<string>, line: int): (r: int)
    requires 0 <= line <= |lines|
    ensures 0 <= r <= line
    ensures forall l :: r <= l < line ==> t.comment(lines[l])
    ensures r == 0 || !t.comment(lines[r - 1])
  {
    if line > 0 && t.comment(lines[line - 1]) then StartOf(t, lines, line - 1) else line
  }

  /** Starts are monotone, even where a boundary line is itself a comment line
      (a Markdown heading), and two boundaries share a start exactly when every
      line from the first up to the second is a comment line. */
  lemma StartOfMonotone(t: LineTests, lines: seq<string>, a: int, b: int)
    requires 0 <= a < b <= |lines|
    ensures StartOf(t, lines, a) <= StartOf(t, lines, b)
    ensures StartOf(t, lines, a) == StartOf(t, lines, b) <==> forall l :: a <= l < b ==> t.comment(lines[l])
    ensures StartOf(t, lines, a) < StartOf(t, lines, b) ==> a < StartOf(t, lines, b)
  {
    var sa, sb := StartOf(t, lines, a), StartOf(t, lines, b);
    if sb <= a {
      assert sa == sb;
    } else {
      assert !t.comment(lines[sb - 1]) && a <= sb - 1;
    }
  }

  function EndOf(t: LineTests, lines: seq<string>, bounds: seq<Boundary>, i: nat): int
    requires Ascending(lines, bounds) && i < |bounds|
  {
    if i + 1 < |bounds| then StartOf(t, lines, bounds[i + 1].line) else |lines|
  }

  /** The segment of boundary i, unless it is empty. */
  function BoundaryPart(t: LineTests, lines: seq<string>, bounds: seq<Boundary>, i: nat): (r: seq<Segment>)
    requires Ascending(lines, bounds) && i < |bounds|
    ensures Tiles(r, StartOf(t, lines, bounds[i].line), EndOf(t, lines, bounds, i))
  {
    var start, end := StartOf(t, lines, bounds[i].line), EndOf(t, lines, bounds, i);
    if i + 1 < |bounds| then
      StartOfMonotone(t, lines, bounds[i].line, bounds[i + 1].line);
      FillerTiles(start, end, bounds[i].symbol, bounds[i].kind);
      Filler(start, end, bounds[i].symbol, bounds[i].kind)
    else
      FillerTiles(start, end, bounds[i].symbol, bounds[i].kind);
      Filler(start, end, bounds[i].symbol, bounds[i].kind)
  }

  function SegmentsFrom(t: LineTests, lines: seq<string>, bounds: seq<Boundary>, i: nat): (r: seq<Segment>)
    requires Ascending(lines, bounds) && i <= |bounds|
    ensures Tiles(r, if i < |bounds| then StartOf(t, lines, bounds[i].line) else |lines|, |lines|)
    decreases |bounds| - i
  {
    if i == |bounds| then []
    else
      var part, rest := BoundaryPart(t, lines, bounds, i), SegmentsFrom(t, lines, bounds, i + 1);
      TilesAppend(part, rest, StartOf(t, lines, bounds[i].line), EndOf(t, lines, bounds, i), |lines|);
      part + rest
  }

  /** Only comment lines lie from boundary k up to the next one. */
  ghost predicate RunsIntoNext(t: LineTests, lines: seq<string>, bounds: seq<Boundary>, k: nat)
    requires Ascending(lines, bounds) && k < |bounds|
  {
    k + 1 < |bounds| && forall l :: bounds[k].line <= l < bounds[k + 1].line ==> t.comment(lines[l])
  }

  /** A boundary is dropped exactly when only comment lines separate it from the
      next one; a kept boundary's segment holds its own line. */
  lemma BoundarySegment(t: LineTests, lines: seq<string>, bounds: seq<Boundary>, k: nat)
    requires Ascending(lines, bounds) && k < |bounds|
    ensures var start, end := StartOf(t, lines, bounds[k].line), EndOf(t, lines, bounds, k);
            if RunsIntoNext(t, lines, bounds, k) then end == start
            else start <= bounds[k].line < end &&
                 Segment(start, end, bounds[k].symbol, bounds[k].kind) in SegmentsFrom(t, lines, bounds, 0)
  {
    if k + 1 < |bounds| { StartOfMonotone(t, lines, bounds[k].line, bounds[k + 1].line); }
    var start, end := StartOf(t, lines, bounds[k].line), EndOf(t, lines, bounds, k);
    if start < end {
      var s := Segment(start, end, bounds[k].symbol, bounds[k].kind);
      assert BoundaryPart(t, lines, bounds, k) == [s];
      SegmentsFromHolds(t, lines, bounds, 0, k, s);
    }
  }

  lemma {:induction false} SegmentsFromHolds(t: LineTests, lines: seq<string>, bounds: seq<Boundary>, i: nat, k: nat,
                                             s: Segment)
    requires Ascending(lines, bounds) && i <= k < |bounds| && s in BoundaryPart(t, lines, bounds, k)
    ensures s in SegmentsFrom(t, lines, bounds, i)
    decreases k - i
  {
    if i < k { SegmentsFromHolds(t, lines, bounds, i + 1, k, s); }
    assert SegmentsFrom(t, lines, bounds, i) == BoundaryPart(t, lines, bounds, i) + SegmentsFrom(t, lines, bounds, i + 1);
  }

  /** The file is tiled as soon as one boundary matches, and covered by
      overlapping windows otherwise. */
  function HeuristicSpec(t: LineTests, lines: seq<string>, matcher: Matcher): (r: seq<Segment>)
    requires lines != []
    ensures (exists l :: 0 <= l < |lines| && matcher(lines[l]).Some?) ==> Tiles(r, 0, |lines|)
    ensures (forall l :: 0 <= l < |lines| ==> matcher(lines[l]).None?) ==> r == Windows(0, |lines|, "", Window)
  {
    var bounds := BoundsFrom(lines, matcher, 0);
    BoundsEmpty(lines, matcher, 0);
    if bounds == [] then Windows(0, |lines|, "", Window)
    else
      var first := StartOf(t, lines, bounds[0].line);
      FillerTiles(0, first, "", Preamble);
      TilesAppend(Filler(0, first, "", Preamble), SegmentsFrom(t, lines, bounds, 0), 0, first, |lines|);
      Filler(0, first, "", Preamble) + SegmentsFrom(t, lines, bounds, 0)
  }

  lemma {:induction false} BoundsEmpty(lines: seq<string>, matcher: Matcher, i: nat)
    requires i <= |lines|
    ensures BoundsFrom(lines, matcher, i) == [] <==> forall l :: i <= l < |lines| ==> matcher(lines[l]).None?
    decreases |lines| - i
  {
    if i < |lines| { BoundsEmpty(lines, matcher, i + 1); }
  }

  method StartOfBlock(t: LineTests, lines: seq<string>, line: int) returns (start: int)
    requires 0 <= line <= |lines|
    ensures start == StartOf(t, lines, line)
  {
    start := line;
    while start > 0 && t.comment(lines[start - 1])
      invariant 0 <= start <= line
      invariant StartOf(t, lines, start) == StartOf(t, lines, line)
    {
      start := start - 1;
    }
  }

  method WindowSegments(lo: int, hi: int, symbol: string, kind: Kind) returns (segs: seq<Segment>)
    requires lo < hi
    ensures segs == Windows(lo, hi, symbol, kind)
  {
    segs := [];
    var start := lo;
    while start < hi
      invariant lo <= start < hi
      invariant segs + Windows(start, hi, symbol, kind) == Windows(lo, hi, symbol, kind)
      decreases hi - start
    {
      var end := start + WINDOW_SIZE;
      if end > hi { end := hi; }
      segs := segs + [Segment(start, end, symbol, kind)];
      if end == hi { break; }
      start := start + WINDOW_STEP;
    }
  }

  /** The boundary on line i, if any. */
  function BoundaryOn(m: Option<(string, Kind)>, i: nat): seq<Boundary> {
    if m.Some? then [Boundary(i, m.value.0, m.value.1)] else []
  }

  method CollectBounds(lines: seq<string>, matcher: Matcher) returns (bounds: seq<Boundary>)
    ensures bounds == BoundsFrom(lines, matcher, 0)
  {
    bounds := [];
    ghost var goal, rest := BoundsFrom(lines, matcher, 0), BoundsFrom(lines, matcher, 0);
    for i := 0 to |lines|
      invariant rest == BoundsFrom(lines, matcher, i) && bounds + rest == goal
    {
      var m := matcher(lines[i]);
      var next := i + 1;
      BoundsStep(bounds, lines, matcher, i, next, goal);
      bounds := bounds + BoundaryOn(m, i);
      rest := BoundsFrom(lines, matcher, next);
    }
  }

  lemma BoundsStep(before: seq<Boundary>, lines: seq<string>, matcher: Matcher, i: nat, next: nat, goal: seq<Boundary>)
    requires i < |lines| && next == i + 1 && before + BoundsFrom(lines, matcher, i) == goal
    ensures (before + BoundaryOn(matcher(lines[i]), i)) + BoundsFrom(lines, matcher, next) == goal
  {
    assert BoundsFrom(lines, matcher, i) == BoundaryOn(matcher(lines[i]), i) + BoundsFrom(lines, matcher, next);
  }

  method LayoutBounds(t: LineTests, lines: seq<string>, bounds: seq<Boundary>) returns (segs: seq<Segment>)
    requires Ascending(lines, bounds) && bounds != []
    ensures segs == Filler(0, StartOf(t, lines, bounds[0].line), "", Preamble) + SegmentsFrom(t, lines, bounds, 0)
  {
    var first := StartOfBlock(t, lines, bounds[0].line);
    segs := Filler(0, first, "", Preamble);
    ghost var goal := segs + SegmentsFrom(t, lines, bounds, 0);
    for i := 0 to |bounds|
      invariant goal == segs + SegmentsFrom(t, lines, bounds, i)
    {
      var start := StartOfBlock(t, lines, bounds[i].line);
      var end := |lines|;
      if i + 1 < |bounds| { end := StartOfBlock(t, lines, bounds[i + 1].line); }
      SegmentsStep(segs, t, lines, bounds, i);
      if end <= start { continue; }
      segs := segs + [Segment(start, end, bounds[i].symbol, bounds[i].kind)];
    }
  }

  lemma SegmentsStep(before: seq<Segment>, t: LineTests, lines: seq<string>, bounds: seq<Boundary>, i: nat)
    requires Ascending(lines, bounds) && i < |bounds|
    ensures var start, end := StartOf(t, lines, bounds[i].line), EndOf(t, lines, bounds, i);
            before + SegmentsFrom(t, lines, bounds, i) ==
            if end <= start then before + SegmentsFrom(t, lines, bounds, i + 1)
            else before + [Segment(start, end, bounds[i].symbol, bounds[i].kind)] + SegmentsFrom(t, lines, bounds, i + 1)
  {
    Regroup(before, [], BoundaryPart(t, lines, bounds, i), SegmentsFrom(t, lines, bounds, i + 1));
  }

  /** heuristicSegments. */
  method HeuristicSegments(t: LineTests, lines: seq<string>, matcher: Matcher) returns (segs: seq<Segment>)
    requires lines != []
    ensures segs == HeuristicSpec(t, lines, matcher)
  {
    var bounds := CollectBounds(lines, matcher);
    if |bounds| == 0 {
      segs := WindowSegments(0, |lines|, "", Window);
    } else {
      segs := LayoutBounds(t, lines, bounds);
    }
  }
}
