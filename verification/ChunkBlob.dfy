/** ChunkBlob (internal/indexer/chunker.go): segments, the in-place merge of tiny
    segments, and windowing into chunks. */
module Chunking {
  import opened Domain
  import opened Text
  import opened Layout
  import opened Chunker

  // ------------------------------------------------------------------- merge

  /** A sub-minimum segment that touches the segment before it folds into it. */
  predicate Folds(prev: Segment, seg: Segment) {
    seg.end - seg.start < MIN_CHUNK_LINES && prev.end == seg.start
  }

  function Fold(prev: Segment, seg: Segment): Segment {
    if prev.symbol == "" then Segment(prev.start, seg.end, seg.symbol, seg.kind) else prev.(end := seg.end)
  }

  /** What the merge makes of the segments after prev, which is still open. */
  function MergeAfter(prev: Segment, segs: seq<Segment>): seq<Segment>
    decreases |segs|
  {
    if segs == [] then [prev]
    else if Folds(prev, segs[0]) then MergeAfter(Fold(prev, segs[0]), segs[1..])
    else [prev] + MergeAfter(segs[0], segs[1..])
  }

  function Merged(segs: seq<Segment>): seq<Segment> {
    if segs == [] then [] else MergeAfter(segs[0], segs[1..])
  }

  /** Merging keeps a tiling a tiling of the same range, and afterwards only the
      first segment can be shorter than the minimum. */
  lemma {:induction false} MergeTiles(prev: Segment, segs: seq<Segment>, lo: int, hi: int)
    requires lo < prev.end && prev.start == lo && Tiles(segs, prev.end, hi)
    ensures Tiles(MergeAfter(prev, segs), lo, hi)
    ensures forall i :: 0 < i < |MergeAfter(prev, segs)| ==>
              MergeAfter(prev, segs)[i].end - MergeAfter(prev, segs)[i].start >= MIN_CHUNK_LINES
    ensures MergeAfter(prev, segs) != [] && MergeAfter(prev, segs)[0].start == lo
    ensures MergeAfter(prev, segs)[0].end >= prev.end
    decreases |segs|
  {
    if segs == [] {
      TilesOne(prev);
    } else if Folds(prev, segs[0]) {
      MergeTiles(Fold(prev, segs[0]), segs[1..], lo, hi);
    } else {
      MergeTiles(segs[0], segs[1..], prev.end, hi);
      var rest := MergeAfter(segs[0], segs[1..]);
      assert ([prev] + rest)[1..] == rest;
    }
  }

  /** The k-th is the first of the part that has a symbol. */
  ghost predicate FirstNamed(part: seq<Segment>, k: nat) {
    k < |part| && part[k].symbol != "" && forall j :: 0 <= j < k ==> part[j].symbol == ""
  }

  /** The part after its first segment is of segments below the minimum. The first of the
      part that has a symbol names m; when none has, m has none either, and the kind of
      the last. */
  ghost predicate NamedBy(m: Segment, part: seq<Segment>) {
    && part != [] && m.start == part[0].start && m.end == part[|part| - 1].end
    && (forall k :: 0 < k < |part| ==> part[k].end - part[k].start < 4)
    && (forall k: nat :: FirstNamed(part, k) ==> m.symbol == part[k].symbol && m.kind == part[k].kind)
    && ((forall k :: 0 <= k < |part| ==> part[k].symbol == "") ==> m.symbol == "" && m.kind == part[|part| - 1].kind)
  }

  lemma SomeNamed(part: seq<Segment>) returns (k: nat)
    requires exists j :: 0 <= j < |part| && part[j].symbol != ""
    ensures FirstNamed(part, k)
  {
    k := 0;
    while part[k].symbol == ""
      invariant k < |part| && forall j :: 0 <= j < k ==> part[j].symbol == ""
      decreases |part| - k
    {
      var j :| 0 <= j < |part| && part[j].symbol != "";
      k := k + 1;
    }
  }

  lemma FoldNamed(prev: Segment, part: seq<Segment>, seg: Segment)
    requires NamedBy(prev, part) && Folds(prev, seg)
    ensures NamedBy(Fold(prev, seg), part + [seg])
  {
    var more, m := part + [seg], Fold(prev, seg);
    assert forall j :: 0 <= j < |part| ==> more[j] == part[j];
    if exists j :: 0 <= j < |part| && part[j].symbol != "" {
      var k := SomeNamed(part);
      assert m.symbol == part[k].symbol && m.kind == part[k].kind;
      forall x: nat | FirstNamed(more, x) ensures x == k {
        if x < |part| { assert FirstNamed(part, x); }
        OneFirst(more, x, k);
      }
    }
  }

  lemma OneFirst(part: seq<Segment>, a: nat, b: nat)
    requires FirstNamed(part, a) && FirstNamed(part, b)
    ensures a == b
  {
    assert part[a].symbol != "" && part[b].symbol != "";
  }

  lemma OneNamed(seg: Segment)
    ensures NamedBy(seg, [seg])
  {
    assert seg.symbol != "" ==> FirstNamed([seg], 0);
    assert [seg][0].symbol == seg.symbol;
  }

  ghost predicate NamedInside(m: Segment, all: seq<Segment>) {
    exists a, b :: 0 <= a <= b <= |all| && NamedBy(m, all[a..b])
  }

  lemma Stretch(m: Segment, done: seq<Segment>, part: seq<Segment>, rest: seq<Segment>)
    requires NamedBy(m, part)
    ensures NamedInside(m, done + part + rest)
  {
    assert (done + part + rest)[|done|..|done| + |part|] == part;
  }

  lemma Shifted(done: seq<Segment>, part: seq<Segment>, segs: seq<Segment>)
    requires segs != []
    ensures done + (part + [segs[0]]) + segs[1..] == done + part + segs == (done + part) + [segs[0]] + segs[1..]
  {
    assert segs == [segs[0]] + segs[1..];
  }

  /** Whose symbol survives a merge: each merged segment is a stretch of the segments given,
      and is called as the first of them that has a symbol. */
  lemma {:induction false} MergeNames(prev: Segment, done: seq<Segment>, part: seq<Segment>, segs: seq<Segment>)
    requires NamedBy(prev, part)
    ensures forall m :: m in MergeAfter(prev, segs) ==> NamedInside(m, done + part + segs)
    decreases |segs|
  {
    Stretch(prev, done, part, segs);
    if segs != [] {
      Shifted(done, part, segs);
      if Folds(prev, segs[0]) {
        FoldNamed(prev, part, segs[0]);
        MergeNames(Fold(prev, segs[0]), done, part + [segs[0]], segs[1..]);
      } else {
        OneNamed(segs[0]);
        MergeNames(segs[0], done + part, [segs[0]], segs[1..]);
      }
    }
  }

  lemma MergedNames(segs: seq<Segment>)
    ensures forall m :: m in Merged(segs) ==> NamedInside(m, segs)
  {
    if segs != [] {
      OneNamed(segs[0]);
      MergeNames(segs[0], [], [segs[0]], segs[1..]);
      assert [] + [segs[0]] + segs[1..] == segs;
    }
  }

  /** Whatever the segments, the merge neither gains nor loses a line. */
  lemma {:induction false} MergeCovers(prev: Segment, segs: seq<Segment>, l: int)
    requires prev.start <= prev.end && forall i :: 0 <= i < |segs| ==> segs[i].start <= segs[i].end
    ensures Covers(MergeAfter(prev, segs), l) <==> prev.start <= l < prev.end || Covers(segs, l)
    decreases |segs|
  {
    CoversOne(prev, l);
    if segs != [] {
      assert segs == [segs[0]] + segs[1..];
      CoversAppend([segs[0]], segs[1..], l);
      CoversOne(segs[0], l);
      if Folds(prev, segs[0]) {
        MergeCovers(Fold(prev, segs[0]), segs[1..], l);
      } else {
        MergeCovers(segs[0], segs[1..], l);
        CoversAppend([prev], MergeAfter(segs[0], segs[1..]), l);
      }
    } else {
      assert !Covers(segs, l);
    }
  }

  /** Every merged segment is a real, non-empty range of the file. */
  lemma {:induction false} MergeInRange(prev: Segment, segs: seq<Segment>, hi: int)
    requires 0 <= prev.start < prev.end <= hi
    requires forall i :: 0 <= i < |segs| ==> 0 <= segs[i].start < segs[i].end <= hi
    ensures forall s :: s in MergeAfter(prev, segs) ==> 0 <= s.start < s.end <= hi
    decreases |segs|
  {
    if segs != [] {
      if Folds(prev, segs[0]) {
        MergeInRange(Fold(prev, segs[0]), segs[1..], hi);
      } else {
        MergeInRange(segs[0], segs[1..], hi);
      }
    }
  }

  /** mergeTinySegments: the write index stays behind the read index of the same
      array, so the fold reads only segments that are still unwritten. */
  method MergeTinySegments(a: array<Segment>) returns (n: nat)
    modifies a
    ensures n <= a.Length
    ensures a[..n] == Merged(old(a[..]))
  {
    n := 0;
    ghost var input := a[..];
    for r := 0 to a.Length
      invariant n <= r && (n == 0 <==> r == 0)
      invariant a[r..] == input[r..]
      invariant r > 0 ==> Merged(input) == a[..n - 1] + MergeAfter(a[n - 1], input[r..])
    {
      var seg := a[r];
      assert seg == a[r..][0] == input[r..][0] && input[r..][1..] == input[r + 1..];
      assert a[r + 1..] == a[r..][1..];
      if n > 0 && seg.end - seg.start < MIN_CHUNK_LINES && a[n - 1].end == seg.start {
        ghost var head := a[..n - 1];
        if a[n - 1].symbol == "" {
          a[n - 1] := Segment(a[n - 1].start, seg.end, seg.symbol, seg.kind);
        } else {
          a[n - 1] := a[n - 1].(end := seg.end);
        }
        assert a[..n - 1] == head;
      } else {
        ghost var head := a[..n];
        assert n > 0 ==> head == a[..n - 1] + [a[n - 1]];
        a[n] := seg;
        n := n + 1;
        assert a[..n - 1] == head;
      }
      assert a[r + 1..] == input[r + 1..];
    }
    assert input[a.Length..] == [];
    if n > 0 { assert a[..n] == a[..n - 1] + [a[n - 1]]; }
  }

  // ------------------------------------------------------------------ chunks

  /** The line ranges that become chunks: a segment, or its windows. */
  function Ranges(segs: seq<Segment>): seq<Segment>
    requires forall i :: 0 <= i < |segs| ==> segs[i].start < segs[i].end
  {
    if segs == [] then [] else RangesOf(segs[0]) + Ranges(segs[1..])
  }

  function RangesOf(s: Segment): seq<Segment>
    requires s.start < s.end
  {
    if s.end - s.start <= MAX_CHUNK_LINES then [s] else Windows(s.start, s.end, s.symbol, s.kind)
  }

  /** Cutting into ranges keeps every line, inside the file, at most a chunk long. */
  lemma {:induction false} RangesCover(segs: seq<Segment>, hi: int)
    requires forall i :: 0 <= i < |segs| ==> 0 <= segs[i].start < segs[i].end <= hi
    ensures forall l :: Covers(Ranges(segs), l) <==> Covers(segs, l)
    ensures forall i :: 0 <= i < |Ranges(segs)| ==>
              0 <= Ranges(segs)[i].start < Ranges(segs)[i].end <= hi &&
              Ranges(segs)[i].end - Ranges(segs)[i].start <= MAX_CHUNK_LINES
  {
    if segs != [] {
      var s := segs[0];
      RangesCover(segs[1..], hi);
      WindowsCover(s.start, s.end, s.symbol, s.kind);
      assert segs == [s] + segs[1..];
      forall l ensures Covers(Ranges(segs), l) <==> Covers(segs, l) {
        CoversOne(s, l);
        CoversAppend([s], segs[1..], l);
        CoversAppend(RangesOf(s), Ranges(segs[1..]), l);
      }
    }
  }

  /** Every line of the range is white space. */
  predicate AllBlank(t: LineTests, lines: seq<string>, lo: int, hi: int)
    requires 0 <= lo <= hi <= |lines|
  {
    forall l :: lo <= l < hi ==> t.blank(lines[l])
  }

  ghost predicate InFile(ranges: seq<Segment>, n: nat) {
    forall i :: 0 <= i < |ranges| ==> 0 <= ranges[i].start < ranges[i].end <= n
  }

  function ChunkID(blobName: string, ordinal: nat): string {
    blobName + ":" + Itoa(ordinal)
  }

  function MakeChunk(blobName: string, lang: string, ordinal: nat, r: Segment): Chunk {
    Chunk(ChunkID(blobName, ordinal), blobName, ordinal, r.symbol, KindName(r.kind), r.start + 1, r.end, lang, 0, "")
  }

  function KindName(k: Kind): string {
    match k
    case NoKind => ""
    case Preamble => "preamble"
    case Window => "window"
    case Block => "block"
    case Declared(name) => name
  }

  /** The chunks of the ranges: blank ranges are skipped, the others numbered
      from `ordinal` on. */
  function Emit(t: LineTests, lines: seq<string>, blobName: string, lang: string, ranges: seq<Segment>, ordinal: nat)
    : (r: seq<Chunk>)
    requires InFile(ranges, |lines|)
    ensures forall i :: 0 <= i < |r| ==> r[i].ordinal == ordinal + i && r[i].id == ChunkID(blobName, ordinal + i)
    ensures forall i :: 0 <= i < |r| ==> r[i].blobName == blobName && r[i].tokenCount == 0 && r[i].contentHash == ""
    decreases |ranges|
  {
    if ranges == [] then []
    else if AllBlank(t, lines, ranges[0].start, ranges[0].end) then Emit(t, lines, blobName, lang, ranges[1..], ordinal)
    else [MakeChunk(blobName, lang, ordinal, ranges[0])]
         + Emit(t, lines, blobName, lang, ranges[1..], ordinal + 1)
  }

  /** Chunk c holds 0-based line l; its bounds are 1-based and inclusive. */
  ghost predicate Holds(c: Chunk, l: int) {
    c.startLine - 1 <= l < c.endLine
  }

  ghost predicate Held(cs: seq<Chunk>, l: int) {
    exists i :: 0 <= i < |cs| && Holds(cs[i], l)
  }

  /** Every line with text that lies in a range is in a chunk. */
  lemma {:induction false} EmitKeepsLine(t: LineTests, lines: seq<string>, blobName: string, lang: string,
                                         ranges: seq<Segment>, ordinal: nat, l: int)
    requires InFile(ranges, |lines|) && 0 <= l < |lines| && Covers(ranges, l) && !t.blank(lines[l])
    ensures Held(Emit(t, lines, blobName, lang, ranges, ordinal), l)
    decreases |ranges|
  {
    var r, cs := ranges[0], Emit(t, lines, blobName, lang, ranges, ordinal);
    assert ranges == [r] + ranges[1..];
    CoversAppend([r], ranges[1..], l);
    CoversOne(r, l);
    if r.start <= l < r.end {
      assert Holds(cs[0], l);
    } else if AllBlank(t, lines, r.start, r.end) {
      EmitKeepsLine(t, lines, blobName, lang, ranges[1..], ordinal, l);
    } else {
      EmitKeepsLine(t, lines, blobName, lang, ranges[1..], ordinal + 1, l);
      var i :| 0 <= i < |cs| - 1 && Holds(cs[1..][i], l);
      assert cs[i + 1] == cs[1..][i];
    }
  }

  /** Every chunk is one of the ranges, and that range has text in it. */
  lemma {:induction false} EmitSource(t: LineTests, lines: seq<string>, blobName: string, lang: string,
                                      ranges: seq<Segment>, ordinal: nat, i: nat) returns (k: nat)
    requires InFile(ranges, |lines|) && i < |Emit(t, lines, blobName, lang, ranges, ordinal)|
    ensures k < |ranges| && !AllBlank(t, lines, ranges[k].start, ranges[k].end)
    ensures Emit(t, lines, blobName, lang, ranges, ordinal)[i] == MakeChunk(blobName, lang, ordinal + i, ranges[k])
    decreases |ranges|
  {
    if AllBlank(t, lines, ranges[0].start, ranges[0].end) {
      k := EmitSource(t, lines, blobName, lang, ranges[1..], ordinal, i);
      k := k + 1;
    } else if i == 0 {
      k := 0;
    } else {
      k := EmitSource(t, lines, blobName, lang, ranges[1..], ordinal + 1, i - 1);
      k := k + 1;
    }
  }

  /** Distinct blobs and distinct ordinals give distinct chunk ids. */
  lemma ChunkIDInjective(a: string, i: nat, b: string, j: nat)
    requires ':' !in a && ':' !in b
    requires ChunkID(a, i) == ChunkID(b, j)
    ensures a == b && i == j
  {
    CutUnique(a, Itoa(i), b, Itoa(j), ':');
    ItoaInjective(i, j);
  }

  // ---------------------------------------------------------------- ChunkBlob

  /** How a language is split: the parser, the fallback patterns, and the two
      facts about the path and content that choose the splitter. */
  datatype Splitter = Splitter(parse: Parser, matcher: Matcher, lang: string, exempt: bool, vue: bool)

  /** The segments before merging: Vue blocks, the syntax tree, or the patterns. */
  function SegmentsOf(t: LineTests, sp: Splitter, content: string): (r: seq<Segment>)
    ensures InFile(r, |Split(content)|)
    ensures forall l :: 0 <= l < |Split(content)| ==> Covers(r, l)
  {
    var lines := Split(content);
    var primary := if sp.exempt then None
                   else if sp.vue then VueSpec(t, sp.parse, lines)
                   else AstSegments(t, sp.parse, sp.lang, content);
    if primary.Some? then
      AstSegmentsTile(t, sp.parse, sp.lang, content);
      TilesCover(primary.value, |lines|);
      primary.value
    else
      var r := HeuristicSpec(t, lines, sp.matcher);
      HeuristicCovers(t, lines, sp.matcher);
      r
  }

  lemma TilesCover(segs: seq<Segment>, n: nat)
    requires Tiles(segs, 0, n)
    ensures InFile(segs, n)
    ensures forall l :: 0 <= l < n ==> Covers(segs, l)
  {
    TilesBounds(segs, 0, n);
    forall l | 0 <= l < n ensures Covers(segs, l) { TilesOnce(segs, 0, n, l); }
  }

  lemma HeuristicCovers(t: LineTests, lines: seq<string>, matcher: Matcher)
    requires lines != []
    ensures InFile(HeuristicSpec(t, lines, matcher), |lines|)
    ensures forall l :: 0 <= l < |lines| ==> Covers(HeuristicSpec(t, lines, matcher), l)
  {
    if l :| 0 <= l < |lines| && matcher(lines[l]).Some? {
      TilesCover(HeuristicSpec(t, lines, matcher), |lines|);
    } else {
      WindowsCover(0, |lines|, "", Window);
    }
  }

  lemma MergedCovers(segs: seq<Segment>, n: nat)
    requires InFile(segs, n)
    ensures InFile(Merged(segs), n)
    ensures forall l :: Covers(Merged(segs), l) <==> Covers(segs, l)
  {
    if segs != [] {
      MergeInRange(segs[0], segs[1..], n);
      assert segs == [segs[0]] + segs[1..];
      forall l ensures Covers(Merged(segs), l) <==> Covers(segs, l) {
        MergeCovers(segs[0], segs[1..], l);
        CoversAppend([segs[0]], segs[1..], l);
        CoversOne(segs[0], l);
      }
    } else {
      assert Merged(segs) == segs;
    }
  }

  function Chunks(t: LineTests, sp: Splitter, blobName: string, content: string): seq<Chunk> {
    var lines := Split(content);
    var merged := Merged(SegmentsOf(t, sp, content));
    MergedCovers(SegmentsOf(t, sp, content), |lines|);
    RangesCover(merged, |lines|);
    Emit(t, lines, blobName, sp.lang, Ranges(merged), 0)
  }

  /** ChunkBlob loses nothing: a line with text lies in a chunk. */
  lemma ChunksKeepLine(t: LineTests, sp: Splitter, blobName: string, content: string, l: int)
    requires 0 <= l < |Split(content)| && !t.blank(Split(content)[l])
    ensures Held(Chunks(t, sp, blobName, content), l)
  {
    var lines, merged := Split(content), Merged(SegmentsOf(t, sp, content));
    MergedCovers(SegmentsOf(t, sp, content), |lines|);
    RangesCover(merged, |lines|);
    EmitKeepsLine(t, lines, blobName, sp.lang, Ranges(merged), 0, l);
  }

  /** Chunk c is a range of the file, no longer than a chunk may be, with text. */
  ghost predicate SoundChunk(t: LineTests, lines: seq<string>, c: Chunk) {
    && 1 <= c.startLine <= c.endLine <= |lines| && c.endLine - c.startLine + 1 <= MAX_CHUNK_LINES
    && !AllBlank(t, lines, c.startLine - 1, c.endLine)
  }

  /** Every chunk is a sound range of the file, and chunks are numbered
      consecutively, so their ids are distinct. */
  lemma ChunksSound(t: LineTests, sp: Splitter, blobName: string, content: string)
    ensures var cs := Chunks(t, sp, blobName, content);
            && (forall i :: 0 <= i < |cs| ==> SoundChunk(t, Split(content), cs[i]))
            && (forall i :: 0 <= i < |cs| ==> cs[i].ordinal == i && cs[i].id == ChunkID(blobName, i))
            && (forall i, j :: 0 <= i < j < |cs| ==> cs[i].id != cs[j].id)
  {
    var cs, lines := Chunks(t, sp, blobName, content), Split(content);
    forall i | 0 <= i < |cs| ensures SoundChunk(t, lines, cs[i]) {
      ChunkSound(t, sp, blobName, content, i);
    }
    forall i, j | 0 <= i < j < |cs| ensures cs[i].id != cs[j].id {
      if ChunkID(blobName, i) == ChunkID(blobName, j) { SameBlobOrdinals(blobName, i, j); }
    }
  }

  lemma ChunkSound(t: LineTests, sp: Splitter, blobName: string, content: string, i: nat)
    requires i < |Chunks(t, sp, blobName, content)|
    ensures SoundChunk(t, Split(content), Chunks(t, sp, blobName, content)[i])
  {
    var lines, merged := Split(content), Merged(SegmentsOf(t, sp, content));
    MergedCovers(SegmentsOf(t, sp, content), |lines|);
    RangesCover(merged, |lines|);
    var k := EmitSource(t, lines, blobName, sp.lang, Ranges(merged), 0, i);
  }

  lemma {:induction false} RangesFrom(segs: seq<Segment>, i: nat) returns (k: nat)
    requires (forall j :: 0 <= j < |segs| ==> segs[j].start < segs[j].end) && i < |Ranges(segs)|
    ensures k < |segs| && segs[k].start <= Ranges(segs)[i].start < Ranges(segs)[i].end <= segs[k].end
    ensures Ranges(segs)[i].symbol == segs[k].symbol && Ranges(segs)[i].kind == segs[k].kind
  {
    var own := RangesOf(segs[0]);
    WindowsCover(segs[0].start, segs[0].end, segs[0].symbol, segs[0].kind);
    if i < |own| {
      k := 0;
      WindowsNamed(segs[0].start, segs[0].end, segs[0].symbol, segs[0].kind);
    } else {
      k := RangesFrom(segs[1..], i - |own|);
      assert Ranges(segs)[i] == Ranges(segs[1..])[i - |own|];
      k := k + 1;
    }
  }

  lemma {:induction false} WindowsNamed(lo: int, hi: int, symbol: string, kind: Kind)
    requires lo < hi
    ensures forall w :: w in Windows(lo, hi, symbol, kind) ==> w.symbol == symbol && w.kind == kind
    decreases hi - lo
  {
    if hi - lo > WINDOW_SIZE { WindowsNamed(lo + WINDOW_STEP, hi, symbol, kind); }
  }

  /** What a chunk is called: the symbol and kind of a merged segment that holds all its
      lines, in the language of the file, under the file's blob. */
  lemma ChunkIsNamed(t: LineTests, sp: Splitter, blobName: string, content: string, i: nat) returns (m: Segment)
    requires i < |Chunks(t, sp, blobName, content)|
    ensures m in Merged(SegmentsOf(t, sp, content)) && NamedInside(m, SegmentsOf(t, sp, content))
    ensures var c := Chunks(t, sp, blobName, content)[i];
            && m.start < c.startLine && c.endLine <= m.end
            && c.symbol == m.symbol && c.symbolKind == KindName(m.kind) && c.language == sp.lang && c.blobName == blobName
  {
    var lines, segs := Split(content), SegmentsOf(t, sp, content);
    var merged := Merged(segs);
    MergedCovers(segs, |lines|);
    MergedNames(segs);
    RangesCover(merged, |lines|);
    var k := EmitSource(t, lines, blobName, sp.lang, Ranges(merged), 0, i);
    var j := RangesFrom(merged, k);
    m := merged[j];
  }

  lemma {:induction false} RangeKept(segs: seq<Segment>, m: Segment)
    requires (forall j :: 0 <= j < |segs| ==> segs[j].start < segs[j].end) && m in segs && m.end - m.start <= 120
    ensures m in Ranges(segs)
  {
    if m != segs[0] {
      assert m in segs[1..];
      RangeKept(segs[1..], m);
    }
  }

  lemma {:induction false} RangeIsChunk(t: LineTests, lines: seq<string>, blobName: string, lang: string,
                                        ranges: seq<Segment>, ordinal: nat, r: Segment) returns (i: nat)
    requires InFile(ranges, |lines|) && r in ranges && !AllBlank(t, lines, r.start, r.end)
    ensures i < |Emit(t, lines, blobName, lang, ranges, ordinal)|
    ensures Emit(t, lines, blobName, lang, ranges, ordinal)[i] == MakeChunk(blobName, lang, ordinal + i, r)
    decreases |ranges|
  {
    if r == ranges[0] {
      i := 0;
    } else if AllBlank(t, lines, ranges[0].start, ranges[0].end) {
      i := RangeIsChunk(t, lines, blobName, lang, ranges[1..], ordinal, r);
    } else {
      i := RangeIsChunk(t, lines, blobName, lang, ranges[1..], ordinal + 1, r);
      i := i + 1;
    }
  }

  /** A merged segment that is not too long and has text is one chunk, line for line and
      under its symbol. */
  lemma SegmentIsChunk(t: LineTests, sp: Splitter, blobName: string, content: string, m: Segment, l: int) returns (i: nat)
    requires m in Merged(SegmentsOf(t, sp, content)) && m.end - m.start <= 120
    requires m.start <= l < m.end && 0 <= l < |Split(content)| && !t.blank(Split(content)[l])
    ensures i < |Chunks(t, sp, blobName, content)|
    ensures var c := Chunks(t, sp, blobName, content)[i];
            c.startLine == m.start + 1 && c.endLine == m.end && c.symbol == m.symbol && c.symbolKind == KindName(m.kind)
  {
    var lines, segs := Split(content), SegmentsOf(t, sp, content);
    var merged := Merged(segs);
    MergedCovers(segs, |lines|);
    RangesCover(merged, |lines|);
    RangeKept(merged, m);
    assert InFile(Ranges(merged), |lines|);
    i := RangeIsChunk(t, lines, blobName, sp.lang, Ranges(merged), 0, m);
  }

  lemma SameBlobOrdinals(blobName: string, i: nat, j: nat)
    requires ChunkID(blobName, i) == ChunkID(blobName, j)
    ensures i == j
  {
    var p := blobName + ":";
    assert (p + Itoa(i))[|p|..] == Itoa(i) && (p + Itoa(j))[|p|..] == Itoa(j);
    ItoaInjective(i, j);
  }

  /** ChunkBlob's emit closure: append a chunk unless the range is blank. */
  function EmitOne(t: LineTests, lines: seq<string>, blobName: string, lang: string, before: seq<Chunk>, r: Segment)
    : seq<Chunk>
    requires 0 <= r.start < r.end <= |lines|
  {
    if AllBlank(t, lines, r.start, r.end) then before else before + [MakeChunk(blobName, lang, |before|, r)]
  }

  function EmitOnto(t: LineTests, lines: seq<string>, blobName: string, lang: string, before: seq<Chunk>,
                    ranges: seq<Segment>): seq<Chunk>
    requires InFile(ranges, |lines|)
    decreases |ranges|
  {
    if ranges == [] then before
    else EmitOnto(t, lines, blobName, lang, EmitOne(t, lines, blobName, lang, before, ranges[0]), ranges[1..])
  }

  lemma {:induction false} EmitOntoIsEmit(t: LineTests, lines: seq<string>, blobName: string, lang: string,
                                          before: seq<Chunk>, ranges: seq<Segment>)
    requires InFile(ranges, |lines|)
    ensures EmitOnto(t, lines, blobName, lang, before, ranges) ==
            before + Emit(t, lines, blobName, lang, ranges, |before|)
    decreases |ranges|
  {
    if ranges != [] {
      var next := EmitOne(t, lines, blobName, lang, before, ranges[0]);
      EmitOntoIsEmit(t, lines, blobName, lang, next, ranges[1..]);
      EmitFirstRange(t, lines, blobName, lang, before, ranges);
    }
  }

  lemma EmitFirstRange(t: LineTests, lines: seq<string>, blobName: string, lang: string, before: seq<Chunk>, ranges: seq<Segment>)
    requires InFile(ranges, |lines|) && ranges != []
    ensures var next := EmitOne(t, lines, blobName, lang, before, ranges[0]);
            before + Emit(t, lines, blobName, lang, ranges, |before|) ==
            next + Emit(t, lines, blobName, lang, ranges[1..], |next|)
  {
    if !AllBlank(t, lines, ranges[0].start, ranges[0].end) {
      var c := MakeChunk(blobName, lang, |before|, ranges[0]);
      var rest := Emit(t, lines, blobName, lang, ranges[1..], |before| + 1);
      assert before + ([c] + rest) == (before + [c]) + rest;
    }
  }

  lemma {:induction false} EmitOntoAppend(t: LineTests, lines: seq<string>, blobName: string, lang: string,
                                          before: seq<Chunk>, a: seq<Segment>, b: seq<Segment>)
    requires InFile(a, |lines|) && InFile(b, |lines|) && InFile(a + b, |lines|)
    ensures EmitOnto(t, lines, blobName, lang, before, a + b) ==
            EmitOnto(t, lines, blobName, lang, EmitOnto(t, lines, blobName, lang, before, a), b)
    decreases |a|
  {
    if a == [] {
      assert a + b == b;
    } else {
      assert (a + b)[0] == a[0] && (a + b)[1..] == a[1..] + b;
      EmitOntoAppend(t, lines, blobName, lang, EmitOne(t, lines, blobName, lang, before, a[0]), a[1..], b);
    }
  }

  method EmitRange(t: LineTests, lines: seq<string>, blobName: string, lang: string, r: Segment, before: seq<Chunk>)
    returns (chunks: seq<Chunk>)
    requires 0 <= r.start < r.end <= |lines|
    ensures chunks == EmitOne(t, lines, blobName, lang, before, r)
  {
    for l := r.start to r.end
      invariant AllBlank(t, lines, r.start, l)
    {
      if !t.blank(lines[l]) {
        return before + [MakeChunk(blobName, lang, |before|, r)];
      }
    }
    return before;
  }

  /** ChunkBlob. */
  method ChunkBlob(t: LineTests, sp: Splitter, blobName: string, content: string) returns (chunks: seq<Chunk>)
    ensures chunks == Chunks(t, sp, blobName, content)
  {
    var lines := Split(content);
    var segments: Option<seq<Segment>> := None;
    if sp.exempt {
    } else if sp.vue {
      segments := VueSegments(t, sp.parse, lines);
    } else {
      segments := AstSegments(t, sp.parse, sp.lang, content);
    }
    var segs: seq<Segment>;
    if segments.None? {
      segs := HeuristicSegments(t, lines, sp.matcher);
    } else {
      segs := segments.value;
    }
    assert segs == SegmentsOf(t, sp, content);
    var a := new Segment[|segs|](i requires 0 <= i < |segs| => segs[i]);
    assert a[..] == segs;
    var n := MergeTinySegments(a);
    var merged := a[..n];
    MergedCovers(segs, |lines|);
    RangesCover(merged, |lines|);
    chunks := EmitMerged(t, lines, blobName, sp.lang, merged);
  }

  /** Emitting the ranges of the first segment leaves those of the others. */
  lemma EmitFirst(t: LineTests, lines: seq<string>, blobName: string, lang: string, segs: seq<Segment>, before: seq<Chunk>)
    requires segs != [] && InFile(segs, |lines|) && InFile(Ranges(segs), |lines|)
    ensures InFile(RangesOf(segs[0]), |lines|) && InFile(segs[1..], |lines|) && InFile(Ranges(segs[1..]), |lines|)
    ensures EmitOnto(t, lines, blobName, lang, before, Ranges(segs)) ==
            EmitOnto(t, lines, blobName, lang, EmitOnto(t, lines, blobName, lang, before, RangesOf(segs[0])), Ranges(segs[1..]))
  {
    var s := segs[0];
    WindowsCover(s.start, s.end, s.symbol, s.kind);
    RangesCover(segs[1..], |lines|);
    EmitOntoAppend(t, lines, blobName, lang, before, RangesOf(s), Ranges(segs[1..]));
  }

  method EmitMerged(t: LineTests, lines: seq<string>, blobName: string, lang: string, merged: seq<Segment>)
    returns (chunks: seq<Chunk>)
    requires InFile(merged, |lines|) && InFile(Ranges(merged), |lines|)
    ensures chunks == Emit(t, lines, blobName, lang, Ranges(merged), 0)
  {
    chunks := [];
    EmitOntoIsEmit(t, lines, blobName, lang, [], Ranges(merged));
    ghost var goal := EmitOnto(t, lines, blobName, lang, [], Ranges(merged));
    assert merged[0..] == merged;
    for i := 0 to |merged|
      invariant InFile(merged[i..], |lines|) && InFile(Ranges(merged[i..]), |lines|)
      invariant goal == EmitOnto(t, lines, blobName, lang, chunks, Ranges(merged[i..]))
    {
      assert merged[i..][0] == merged[i] && merged[i..][1..] == merged[i + 1..];
      EmitFirst(t, lines, blobName, lang, merged[i..], chunks);
      chunks := EmitSegment(t, lines, blobName, lang, merged[i], chunks);
    }
  }

  /** One segment: emitted whole, or in overlapping windows. */
  method EmitSegment(t: LineTests, lines: seq<string>, blobName: string, lang: string, seg: Segment, before: seq<Chunk>)
    returns (chunks: seq<Chunk>)
    requires 0 <= seg.start < seg.end <= |lines|
    ensures InFile(RangesOf(seg), |lines|)
    ensures chunks == EmitOnto(t, lines, blobName, lang, before, RangesOf(seg))
  {
    WindowsCover(seg.start, seg.end, seg.symbol, seg.kind);
    if seg.end - seg.start <= MAX_CHUNK_LINES {
      chunks := EmitRange(t, lines, blobName, lang, seg, before);
      return;
    }
    chunks := before;
    var start := seg.start;
    ghost var rest := RangesOf(seg);
    ghost var goal := EmitOnto(t, lines, blobName, lang, before, rest);
    while start < seg.end
      invariant seg.start <= start < seg.end && rest == Windows(start, seg.end, seg.symbol, seg.kind)
      invariant InFile(rest, |lines|) && goal == EmitOnto(t, lines, blobName, lang, chunks, rest)
      decreases seg.end - start
    {
      var end := start + WINDOW_SIZE;
      if end > seg.end { end := seg.end; }
      EmitWindow(t, lines, blobName, lang, start, end, seg, chunks);
      chunks := EmitRange(t, lines, blobName, lang, Segment(start, end, seg.symbol, seg.kind), chunks);
      if end == seg.end { break; }
      start := start + WINDOW_STEP;
      rest := Windows(start, seg.end, seg.symbol, seg.kind);
    }
  }

  /** Emitting one window leaves the windows after it to emit. */
  lemma EmitWindow(t: LineTests, lines: seq<string>, blobName: string, lang: string, start: int, end: int, seg: Segment,
                   before: seq<Chunk>)
    requires 0 <= start < seg.end <= |lines| && end == Min(start + WINDOW_SIZE, seg.end)
    ensures var w, r := Windows(start, seg.end, seg.symbol, seg.kind), Segment(start, end, seg.symbol, seg.kind);
            && InFile(w, |lines|)
            && var done := EmitOne(t, lines, blobName, lang, before, r);
               if end == seg.end then EmitOnto(t, lines, blobName, lang, before, w) == done
               else var rest := Windows(start + WINDOW_STEP, seg.end, seg.symbol, seg.kind);
                    InFile(rest, |lines|) &&
                    EmitOnto(t, lines, blobName, lang, before, w) == EmitOnto(t, lines, blobName, lang, done, rest)
  {
    var w := Windows(start, seg.end, seg.symbol, seg.kind);
    WindowsCover(start, seg.end, seg.symbol, seg.kind);
    if end == seg.end {
      assert w[1..] == [];
    } else {
      WindowsCover(start + WINDOW_STEP, seg.end, seg.symbol, seg.kind);
      assert w[1..] == Windows(start + WINDOW_STEP, seg.end, seg.symbol, seg.kind);
    }
  }
}
