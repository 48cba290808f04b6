/** Segments, and the syntax-tree layout of a file into declaration-bounded
    segments (internal/indexer/astchunker.go). */
module Layout {
  import opened Domain
  import opened Text

  const MAX_CHUNK_LINES := 120
  const MAX_AST_DEPTH := 6

  /** What a segment is: the kinds the splitters assign themselves, or the kind
      of a declaration. */
  datatype Kind = NoKind | Preamble | Window | Block | Declared(name: string)

  /** A half-open range of 0-based lines destined to become one chunk. */
  datatype Segment = Segment(start: int, end: int, symbol: string, kind: Kind)

  /** The segments lie end to end from lo to hi, each holding a line. */
  ghost predicate Tiles(segs: seq<Segment>, lo: int, hi: int) {
    if segs == [] then lo == hi
    else segs[0].start == lo < segs[0].end && Tiles(segs[1..], segs[0].end, hi)
  }

  lemma {:induction false} TilesAppend(a: seq<Segment>, b: seq<Segment>, lo: int, mid: int, hi: int)
    requires Tiles(a, lo, mid) && Tiles(b, mid, hi)
    ensures Tiles(a + b, lo, hi)
  {
    if a == [] {
      assert a + b == b;
    } else {
      TilesAppend(a[1..], b, a[0].end, mid, hi);
      assert (a + b)[1..] == a[1..] + b;
    }
  }

  lemma Regroup(a: seq<Segment>, b: seq<Segment>, c: seq<Segment>, d: seq<Segment>)
    ensures a + (b + c + d) == a + b + c + d
    ensures b == [] ==> a + b == a
  {
  }

  lemma TilesThree(a: seq<Segment>, b: seq<Segment>, c: seq<Segment>, lo: int, m: int, n: int, hi: int)
    requires Tiles(a, lo, m) && Tiles(b, m, n) && Tiles(c, n, hi)
    ensures Tiles(a + b + c, lo, hi)
  {
    TilesAppend(a, b, lo, m, n);
    TilesAppend(a + b, c, lo, n, hi);
  }

  lemma TilesOne(s: Segment)
    requires s.start < s.end
    ensures Tiles([s], s.start, s.end)
  {
    assert [s][1..] == [];
  }

  lemma {:induction false} TilesBounds(segs: seq<Segment>, lo: int, hi: int)
    requires Tiles(segs, lo, hi)
    ensures lo <= hi
    ensures forall s :: s in segs ==> lo <= s.start < s.end <= hi
    ensures segs != [] ==> segs[0].start == lo && segs[|segs| - 1].end == hi
  {
    if segs != [] {
      TilesBounds(segs[1..], segs[0].end, hi);
      assert segs == [segs[0]] + segs[1..];
    }
  }

  /** The recursive form of tiling says what it should: consecutive segments
      meet, so every line lies in exactly one of them. */
  lemma {:induction false} TilesOnce(segs: seq<Segment>, lo: int, hi: int, line: int)
    requires Tiles(segs, lo, hi) && lo <= line < hi
    ensures exists i :: 0 <= i < |segs| && segs[i].start <= line < segs[i].end
    ensures forall i, j :: 0 <= i < j < |segs| ==> segs[i].end <= segs[j].start
  {
    TilesOrdered(segs, lo, hi);
    if line >= segs[0].end {
      TilesOnce(segs[1..], segs[0].end, hi, line);
      var i :| 0 <= i < |segs[1..]| && segs[1..][i].start <= line < segs[1..][i].end;
      assert segs[i + 1] == segs[1..][i];
    } else {
      assert segs[0].start <= line < segs[0].end;
    }
  }

  lemma {:induction false} TilesOrdered(segs: seq<Segment>, lo: int, hi: int)
    requires Tiles(segs, lo, hi)
    ensures forall i, j :: 0 <= i < j < |segs| ==> segs[i].end <= segs[j].start
  {
    if segs != [] {
      TilesOrdered(segs[1..], segs[0].end, hi);
      TilesBounds(segs[1..], segs[0].end, hi);
      forall i, j | 0 <= i < j < |segs| ensures segs[i].end <= segs[j].start {
        assert segs[j] == segs[1..][j - 1];
        if i > 0 { assert segs[i] == segs[1..][i - 1]; }
      }
    }
  }

  /** The tests the splitters make on single lines. Nothing below depends on
      what they say; SourceLines.SOURCE_TESTS are the ones in use. */
  datatype LineTests = LineTests(
    comment: string -> bool,           // isCommentLine
    attachable: string -> bool,        // a comment, annotation or attribute line
    blank: string -> bool,             // only white space
    opens: string -> Tag,              // opens a top-level block of a Vue file
    closes: (string, Tag) -> bool,     // closes such a block
    typescript: string -> bool)        // a script tag that names TypeScript

  datatype Tag = NoTag | Script | Template | Style

  // ------------------------------------------------------------ declarations

  /** A syntax node: its 0-based span, whether its kind is a declaration kind of
      the grammar, the symbol and kind declInfo reads off it, and its named
      children. Nothing relates a child's span to its parent's or its sibling's. */
  datatype Node = Node(row: nat, endRow: nat, endCol: nat, decl: bool, symbol: string, kind: Kind,
                       children: seq<Node>)
  {
    function Start(): int { row }

    /** nodeRows: the exclusive end line. */
    function End(): int { if endCol > 0 || endRow == row then endRow + 1 else endRow }
  }

  /** Column c of line l lies in a node that starts at column col of its first line. */
  predicate Spans(n: Node, col: nat, l: nat, c: nat) {
    (n.row < l || (n.row == l && col <= c)) && (l < n.endRow || (l == n.endRow && c < n.endCol))
  }

  /** The lines of a node that is not empty are those it has a column on; so not the last
      one when it ends before its first column. */
  lemma NodeLines(n: Node, col: nat, l: nat)
    requires n.row < n.endRow || (n.row == n.endRow && col < n.endCol)
    ensures n.Start() <= l < n.End() <==> exists c: nat :: Spans(n, col, l, c)
  {
    if n.Start() <= l < n.End() { assert Spans(n, col, l, if n.row == l then col else 0); }
  }

  function Decls(n: Node, depth: nat): seq<Node>
    decreases n
  {
    if depth > MAX_AST_DEPTH then [] else DeclsAmong(n.children, depth)
  }

  function DeclsAmong(cs: seq<Node>, depth: nat): seq<Node>
    decreases cs
  {
    if cs == [] then []
    else (if cs[0].decl then [cs[0]] else Decls(cs[0], depth + 1)) + DeclsAmong(cs[1..], depth)
  }

  lemma {:induction false} DeclsAmongAppend(a: seq<Node>, c: Node, depth: nat)
    ensures DeclsAmong(a + [c], depth) ==
            DeclsAmong(a, depth) + if c.decl then [c] else Decls(c, depth + 1)
  {
    if a == [] {
      assert a + [c] == [c];
    } else {
      assert (a + [c])[1..] == a[1..] + [c];
      DeclsAmongAppend(a[1..], c, depth);
    }
  }

  /** d sits below n through at most `levels` containers that are not
      declarations themselves. */
  ghost predicate Surfaces(n: Node, d: Node, levels: nat)
    decreases levels
  {
    exists i :: 0 <= i < |n.children| &&
      ((n.children[i].decl && d == n.children[i]) ||
       (!n.children[i].decl && levels > 0 && Surfaces(n.children[i], d, levels - 1)))
  }

  /** The descent finds exactly the outermost declarations that lie within its
      depth guard. */
  lemma {:induction false} DeclsAreOutermost(n: Node, depth: nat, d: Node)
    requires depth <= MAX_AST_DEPTH
    ensures d in Decls(n, depth) <==> d.decl && Surfaces(n, d, MAX_AST_DEPTH - depth)
    decreases MAX_AST_DEPTH - depth
  {
    forall i | 0 <= i < |n.children| && !n.children[i].decl && depth < MAX_AST_DEPTH
      ensures d in Decls(n.children[i], depth + 1) <==>
              d.decl && Surfaces(n.children[i], d, MAX_AST_DEPTH - depth - 1)
    {
      DeclsAreOutermost(n.children[i], depth + 1, d);
    }
    DeclsAmongMember(n.children, depth, d);
  }

  lemma {:induction false} DeclsAmongMember(cs: seq<Node>, depth: nat, d: Node)
    ensures d in DeclsAmong(cs, depth) <==>
            exists i :: 0 <= i < |cs| && if cs[i].decl then d == cs[i] else d in Decls(cs[i], depth + 1)
  {
    if cs != [] {
      DeclsAmongMember(cs[1..], depth, d);
      assert forall i :: 0 <= i < |cs[1..]| ==> cs[1..][i] == cs[i + 1];
      if i :| 0 <= i < |cs| && if cs[i].decl then d == cs[i] else d in Decls(cs[i], depth + 1) {
        if i > 0 { assert cs[1..][i - 1] == cs[i]; }
      }
    }
  }

  /** collectDecls. */
  method CollectDecls(n: Node, depth: nat) returns (out: seq<Node>)
    ensures out == Decls(n, depth)
    decreases n
  {
    out := [];
    if depth > MAX_AST_DEPTH { return; }
    for i := 0 to |n.children|
      invariant out == DeclsAmong(n.children[..i], depth)
    {
      var child := n.children[i];
      assert n.children[..i + 1] == n.children[..i] + [child];
      DeclsAmongAppend(n.children[..i], child, depth);
      if child.decl {
        out := out + [child];
      } else {
        var inner := CollectDecls(child, depth + 1);
        out := out + inner;
      }
    }
    assert n.children[..|n.children|] == n.children;
  }

  // ------------------------------------------------------------------ layout

  /** The first line of the run of attachable lines that ends just above ds,
      never above floor. */
  function AttachUp(t: LineTests, lines: seq<string>, ds: int, floor: int): (r: int)
    requires 0 <= floor <= ds <= |lines|
    ensures floor <= r <= ds
    ensures forall l :: r <= l < ds ==> t.attachable(lines[l])
    ensures r == floor || !t.attachable(lines[r - 1])
  {
    if ds > floor && t.attachable(lines[ds - 1]) then AttachUp(t, lines, ds - 1, floor) else ds
  }

  function Max(a: int, b: int): int { if a < b then b else a }
  function Min(a: int, b: int): int { if a < b then a else b }

  function Filler(lo: int, hi: int, sym: string, kind: Kind): seq<Segment> {
    if lo < hi then [Segment(lo, hi, sym, kind)] else []
  }

  lemma FillerTiles(lo: int, hi: int, sym: string, kind: Kind)
    requires lo <= hi
    ensures Tiles(Filler(lo, hi, sym, kind), lo, hi)
  {
    if lo < hi { TilesOne(Segment(lo, hi, sym, kind)); }
  }

  /** What layoutSegments makes of the declarations still to come, from cursor on. */
  function LayoutFrom(decls: seq<Node>, cursor: int, end: int, sym: string, kind: Kind, depth: nat,
                      t: LineTests, lines: seq<string>): seq<Segment>
    requires 0 <= cursor <= end <= |lines| && depth <= MAX_AST_DEPTH
    decreases MAX_AST_DEPTH - depth, |decls|
  {
    if decls == [] then Filler(cursor, end, sym, kind)
    else
      var d := decls[0];
      var de, ds := Min(d.End(), end), Max(d.Start(), cursor);
      if de <= ds then LayoutFrom(decls[1..], cursor, end, sym, kind, depth, t, lines)
      else
        var at := AttachUp(t, lines, ds, cursor);
        Filler(cursor, at, sym, kind) + DeclSegments(d, at, de, depth, t, lines)
        + LayoutFrom(decls[1..], de, end, sym, kind, depth, t, lines)
  }

  /** One declaration's part: itself, or the layout of its inner declarations
      when it is oversized. */
  function DeclSegments(d: Node, at: int, de: int, depth: nat, t: LineTests, lines: seq<string>): seq<Segment>
    requires 0 <= at < de <= |lines| && depth <= MAX_AST_DEPTH
    decreases MAX_AST_DEPTH - depth, 0
  {
    if de - at > MAX_CHUNK_LINES && depth < MAX_AST_DEPTH && Decls(d, 0) != []
    then LayoutFrom(Decls(d, 0), at, de, d.symbol, d.kind, depth + 1, t, lines)
    else [Segment(at, de, d.symbol, d.kind)]
  }

  lemma LayoutStep(decls: seq<Node>, cursor: int, end: int, sym: string, kind: Kind, depth: nat,
                   t: LineTests, lines: seq<string>)
    requires 0 <= cursor <= end <= |lines| && depth <= MAX_AST_DEPTH && decls != []
    ensures var d := decls[0];
            var de, ds := Min(d.End(), end), Max(d.Start(), cursor);
            LayoutFrom(decls, cursor, end, sym, kind, depth, t, lines) ==
            if de <= ds then LayoutFrom(decls[1..], cursor, end, sym, kind, depth, t, lines)
            else var at := AttachUp(t, lines, ds, cursor);
                 Filler(cursor, at, sym, kind) + DeclSegments(d, at, de, depth, t, lines)
                 + LayoutFrom(decls[1..], de, end, sym, kind, depth, t, lines)
  {
  }

  /** The layout covers its range without gap or overlap, however the
      declarations' spans overlap, run past the range or come out of order. */
  lemma {:induction false} LayoutTiles(decls: seq<Node>, cursor: int, end: int, sym: string, kind: Kind,
                                       depth: nat, t: LineTests, lines: seq<string>)
    requires 0 <= cursor <= end <= |lines| && depth <= MAX_AST_DEPTH
    ensures Tiles(LayoutFrom(decls, cursor, end, sym, kind, depth, t, lines), cursor, end)
    decreases MAX_AST_DEPTH - depth, |decls|
  {
    if decls == [] {
      FillerTiles(cursor, end, sym, kind);
    } else {
      var d := decls[0];
      var de, ds := Min(d.End(), end), Max(d.Start(), cursor);
      if de <= ds {
        LayoutTiles(decls[1..], cursor, end, sym, kind, depth, t, lines);
      } else {
        var at := AttachUp(t, lines, ds, cursor);
        FillerTiles(cursor, at, sym, kind);
        DeclTiles(d, at, de, depth, t, lines);
        LayoutTiles(decls[1..], de, end, sym, kind, depth, t, lines);
        TilesThree(Filler(cursor, at, sym, kind), DeclSegments(d, at, de, depth, t, lines),
                   LayoutFrom(decls[1..], de, end, sym, kind, depth, t, lines), cursor, at, de, end);
      }
    }
  }

  lemma {:induction false} DeclTiles(d: Node, at: int, de: int, depth: nat, t: LineTests, lines: seq<string>)
    requires 0 <= at < de <= |lines| && depth <= MAX_AST_DEPTH
    ensures Tiles(DeclSegments(d, at, de, depth, t, lines), at, de)
    decreases MAX_AST_DEPTH - depth, 0
  {
    if de - at > MAX_CHUNK_LINES && depth < MAX_AST_DEPTH && Decls(d, 0) != [] {
      LayoutTiles(Decls(d, 0), at, de, d.symbol, d.kind, depth + 1, t, lines);
    } else {
      TilesOne(Segment(at, de, d.symbol, d.kind));
    }
  }

  /** Declarations in document order, disjoint and inside [lo, hi). */
  ghost predicate Ordered(decls: seq<Node>, lo: int, hi: int) {
    forall i :: 0 <= i < |decls| ==>
      lo <= decls[i].Start() < decls[i].End() <= hi &&
      forall j :: i < j < |decls| ==> decls[i].End() <= decls[j].Start()
  }

  /** d with the comment and annotation lines that touch it from above, down
      to floor. */
  function Whole(d: Node, floor: int, t: LineTests, lines: seq<string>): (s: Segment)
    requires 0 <= floor <= d.Start() < d.End() <= |lines|
    ensures floor <= s.start <= d.Start() && s.end == d.End() && s.symbol == d.symbol && s.kind == d.kind
    ensures forall l :: s.start <= l < d.Start() ==> t.attachable(lines[l])
    ensures s.start == floor || !t.attachable(lines[s.start - 1])
  {
    Segment(AttachUp(t, lines, d.Start(), floor), d.End(), d.symbol, d.kind)
  }

  function FloorOf(decls: seq<Node>, cursor: int, k: nat): int
    requires k < |decls|
  {
    if k == 0 then cursor else decls[k - 1].End()
  }

  /** A declaration short enough to be one chunk is never cut: it is one segment
      under its own symbol, together with its attached comments, which stop
      where the previous declaration ends. */
  lemma {:induction false} DeclarationKeptWhole(decls: seq<Node>, cursor: int, end: int, sym: string, kind: Kind,
                                                depth: nat, t: LineTests, lines: seq<string>, k: nat)
    requires 0 <= cursor <= end <= |lines| && depth <= MAX_AST_DEPTH
    requires Ordered(decls, cursor, end) && k < |decls|
    requires var s := Whole(decls[k], FloorOf(decls, cursor, k), t, lines);
             s.end - s.start <= MAX_CHUNK_LINES || depth == MAX_AST_DEPTH || Decls(decls[k], 0) == []
    ensures Whole(decls[k], FloorOf(decls, cursor, k), t, lines) in
            LayoutFrom(decls, cursor, end, sym, kind, depth, t, lines)
    decreases |decls|
  {
    var d, w := decls[0], Whole(decls[k], FloorOf(decls, cursor, k), t, lines);
    var at := AttachUp(t, lines, d.Start(), cursor);
    if k == 0 {
      assert DeclSegments(d, at, d.End(), depth, t, lines) == [w];
    } else {
      assert decls[1..][k - 1] == decls[k] && FloorOf(decls[1..], d.End(), k - 1) == FloorOf(decls, cursor, k);
      OrderedTail(decls, cursor, end);
      DeclarationKeptWhole(decls[1..], d.End(), end, sym, kind, depth, t, lines, k - 1);
    }
    StepContains(decls, cursor, end, sym, kind, depth, t, lines, w);
  }

  /** What a declaration is laid out to is in the layout. */
  lemma {:induction false} PartIsLaidOut(decls: seq<Node>, cursor: int, end: int, sym: string, kind: Kind, depth: nat,
                                         t: LineTests, lines: seq<string>, k: nat, v: Segment)
    requires 0 <= cursor <= end <= |lines| && depth <= MAX_AST_DEPTH && Ordered(decls, cursor, end) && k < |decls|
    requires var w := Whole(decls[k], FloorOf(decls, cursor, k), t, lines);
             v in DeclSegments(decls[k], w.start, w.end, depth, t, lines)
    ensures v in LayoutFrom(decls, cursor, end, sym, kind, depth, t, lines)
    decreases |decls|
  {
    if k > 0 {
      var d := decls[0];
      assert decls[1..][k - 1] == decls[k] && FloorOf(decls[1..], d.End(), k - 1) == FloorOf(decls, cursor, k);
      OrderedTail(decls, cursor, end);
      PartIsLaidOut(decls[1..], d.End(), end, sym, kind, depth, t, lines, k - 1, v);
    }
    StepContains(decls, cursor, end, sym, kind, depth, t, lines, v);
  }

  /** A declaration d that is too long for one chunk is laid out by the declarations in it:
      those of them that fit are whole, with their comments down to d's own start. */
  lemma InnerKeptWhole(decls: seq<Node>, cursor: int, end: int, sym: string, kind: Kind, depth: nat,
                       t: LineTests, lines: seq<string>, k: nat, w: Segment, inner: seq<Node>, j: nat, s: Segment)
    requires 0 <= cursor <= end <= |lines| && depth < MAX_AST_DEPTH
    requires Ordered(decls, cursor, end) && k < |decls| && w == Whole(decls[k], FloorOf(decls, cursor, k), t, lines)
    requires w.end - w.start > MAX_CHUNK_LINES && inner == Decls(decls[k], 0)
    requires Ordered(inner, w.start, w.end) && j < |inner| && s == Whole(inner[j], FloorOf(inner, w.start, j), t, lines)
    requires s.end - s.start <= MAX_CHUNK_LINES || depth + 1 == MAX_AST_DEPTH || Decls(inner[j], 0) == []
    ensures s in LayoutFrom(decls, cursor, end, sym, kind, depth, t, lines)
  {
    DeclarationKeptWhole(inner, w.start, w.end, decls[k].symbol, decls[k].kind, depth + 1, t, lines, j);
    PartIsLaidOut(decls, cursor, end, sym, kind, depth, t, lines, k, s);
  }

  lemma StepContains(decls: seq<Node>, cursor: int, end: int, sym: string, kind: Kind, depth: nat,
                     t: LineTests, lines: seq<string>, w: Segment)
    requires 0 <= cursor <= end <= |lines| && depth <= MAX_AST_DEPTH
    requires decls != [] && cursor <= decls[0].Start() < decls[0].End() <= end
    requires w in DeclSegments(decls[0], AttachUp(t, lines, decls[0].Start(), cursor), decls[0].End(), depth, t, lines) ||
             w in LayoutFrom(decls[1..], decls[0].End(), end, sym, kind, depth, t, lines)
    ensures w in LayoutFrom(decls, cursor, end, sym, kind, depth, t, lines)
  {
    LayoutStep(decls, cursor, end, sym, kind, depth, t, lines);
    var at := AttachUp(t, lines, decls[0].Start(), cursor);
    InConcat(Filler(cursor, at, sym, kind), DeclSegments(decls[0], at, decls[0].End(), depth, t, lines),
             LayoutFrom(decls[1..], decls[0].End(), end, sym, kind, depth, t, lines), w);
  }

  lemma InConcat(a: seq<Segment>, b: seq<Segment>, c: seq<Segment>, s: Segment)
    ensures s in a + b + c <==> s in a || s in b || s in c
  {
  }

  lemma OrderedTail(decls: seq<Node>, lo: int, hi: int)
    requires Ordered(decls, lo, hi) && decls != []
    ensures Ordered(decls[1..], decls[0].End(), hi)
  {
    forall i | 0 <= i < |decls[1..]|
      ensures decls[0].End() <= decls[1..][i].Start() < decls[1..][i].End() <= hi
      ensures forall j :: i < j < |decls[1..]| ==> decls[1..][i].End() <= decls[1..][j].Start()
    {
      assert decls[1..][i] == decls[i + 1];
      forall j | i < j < |decls[1..]| ensures decls[1..][i].End() <= decls[1..][j].Start() {
        assert decls[1..][j] == decls[j + 1];
      }
    }
  }

  /** A line that no declaration covers and that cannot be attached to one is in
      a filler segment, which carries the enclosing symbol. */
  lemma {:induction false} FillerCarriesParent(decls: seq<Node>, cursor: int, end: int, sym: string, kind: Kind,
                                               depth: nat, t: LineTests, lines: seq<string>, line: int, s: Segment)
    requires 0 <= cursor <= end <= |lines| && depth <= MAX_AST_DEPTH
    requires cursor <= line < end && !t.attachable(lines[line])
    requires forall i :: 0 <= i < |decls| ==> !(decls[i].Start() <= line < decls[i].End())
    requires s in LayoutFrom(decls, cursor, end, sym, kind, depth, t, lines) && s.start <= line < s.end
    ensures s.symbol == sym && s.kind == kind
    decreases |decls|
  {
    if decls != [] {
      var d := decls[0];
      var de, ds := Min(d.End(), end), Max(d.Start(), cursor);
      if de <= ds {
        FillerCarriesParent(decls[1..], cursor, end, sym, kind, depth, t, lines, line, s);
      } else {
        var at := AttachUp(t, lines, ds, cursor);
        var f, b := Filler(cursor, at, sym, kind), DeclSegments(d, at, de, depth, t, lines);
        var rest := LayoutFrom(decls[1..], de, end, sym, kind, depth, t, lines);
        assert s in f + b + rest;
        DeclTiles(d, at, de, depth, t, lines);
        TilesBounds(b, at, de);
        LayoutTiles(decls[1..], de, end, sym, kind, depth, t, lines);
        TilesBounds(rest, de, end);
        assert !(at <= line < de);
        if s in rest {
          FillerCarriesParent(decls[1..], de, end, sym, kind, depth, t, lines, line, s);
        }
      }
    }
  }

  method AttachComments(t: LineTests, lines: seq<string>, from: int, floor: int) returns (ds: int)
    requires 0 <= floor <= from <= |lines|
    ensures ds == AttachUp(t, lines, from, floor)
  {
    ds := from;
    while ds > floor && t.attachable(lines[ds - 1])
      invariant floor <= ds <= from
      invariant AttachUp(t, lines, ds, floor) == AttachUp(t, lines, from, floor)
    {
      ds := ds - 1;
    }
  }

  method LayoutDecl(d: Node, at: int, de: int, depth: nat, t: LineTests, lines: seq<string>) returns (segs: seq<Segment>)
    requires 0 <= at < de <= |lines| && depth <= MAX_AST_DEPTH
    ensures segs == DeclSegments(d, at, de, depth, t, lines)
    decreases MAX_AST_DEPTH - depth, 0
  {
    if de - at > MAX_CHUNK_LINES && depth < MAX_AST_DEPTH {
      var inner := CollectDecls(d, 0);
      if |inner| > 0 {
        segs := LayoutSegments(inner, at, de, d.symbol, d.kind, depth + 1, t, lines);
        return;
      }
    }
    segs := [Segment(at, de, d.symbol, d.kind)];
  }

  /** layoutSegments. */
  method LayoutSegments(decls: seq<Node>, start: int, end: int, sym: string, kind: Kind, depth: nat,
                        t: LineTests, lines: seq<string>) returns (segs: seq<Segment>)
    requires 0 <= start <= end <= |lines| && depth <= MAX_AST_DEPTH
    ensures segs == LayoutFrom(decls, start, end, sym, kind, depth, t, lines)
    ensures Tiles(segs, start, end)
    decreases MAX_AST_DEPTH - depth, 1
  {
    segs := [];
    var cursor := start;
    ghost var goal := LayoutFrom(decls, start, end, sym, kind, depth, t, lines);
    LayoutTiles(decls, start, end, sym, kind, depth, t, lines);
    assert decls[0..] == decls;
    for i := 0 to |decls|
      invariant start <= cursor <= end
      invariant goal == segs + LayoutFrom(decls[i..], cursor, end, sym, kind, depth, t, lines)
    {
      var d := decls[i];
      assert decls[i..][0] == d && decls[i..][1..] == decls[i + 1..];
      var ds, de := d.Start(), d.End();
      if de > end { de := end; }
      if ds < cursor { ds := cursor; }
      ghost var before := segs;
      LayoutStep(decls[i..], cursor, end, sym, kind, depth, t, lines);
      if de <= ds { continue; }
      ds := AttachComments(t, lines, ds, cursor);
      if ds > cursor { segs := segs + [Segment(cursor, ds, sym, kind)]; }
      var parts := LayoutDecl(d, ds, de, depth, t, lines);
      segs := segs + parts;
      Regroup(before, Filler(cursor, ds, sym, kind), parts,
              LayoutFrom(decls[i + 1..], de, end, sym, kind, depth, t, lines));
      cursor := de;
    }
    if cursor < end { segs := segs + [Segment(cursor, end, sym, kind)]; }
  }

  // --------------------------------------------------------- parsed languages

  /** tree-sitter: the root of the parse of a text in a language, or nothing
      when there is no grammar or no usable tree. */
  type Parser = (string, string) -> Option<Node>

  /** astSegments: nothing when there is no tree or the tree has no declaration. */
  function AstSegments(t: LineTests, parse: Parser, lang: string, content: string): Option<seq<Segment>> {
    var root := parse(lang, content);
    if content == "" || root.None? || Decls(root.value, 0) == [] then None
    else Some(LayoutFrom(Decls(root.value, 0), 0, |Split(content)|, "", NoKind, 0, t, Split(content)))
  }

  lemma AstSegmentsTile(t: LineTests, parse: Parser, lang: string, content: string)
    ensures var r := AstSegments(t, parse, lang, content);
            r.Some? ==> Tiles(r.value, 0, |Split(content)|)
  {
    var root := parse(lang, content);
    if root.Some? { LayoutTiles(Decls(root.value, 0), 0, |Split(content)|, "", NoKind, 0, t, Split(content)); }
  }
}
