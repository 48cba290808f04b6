/** What the splitters do with the line tests in use (internal/indexer/chunker.go
    and internal/indexer/astchunker.go). */
module SourceChunks {
  import opened Text
  import opened Layout
  import opened SourceLines
  import opened Chunker
  import opened Chunking

  // -------------------------------------------------------------- blank lines

  lemma {:induction false} TrimLeftExactly(s: string)
    ensures TrimLeft(s) == [] <==> forall k :: 0 <= k < |s| ==> IsSpace(s[k])
  {
    if s != [] && IsSpace(s[0]) {
      TrimLeftExactly(s[1..]);
      assert forall k :: 0 < k < |s| ==> s[k] == s[1..][k - 1];
    }
  }

  /** Every character that is not white space is on a line that some chunk holds. */
  lemma TextIsChunked(sp: Splitter, blobName: string, content: string, l: nat, k: nat)
    requires l < |Split(content)| && k < |Split(content)[l]| && !IsSpace(Split(content)[l][k])
    ensures Held(Chunks(SOURCE_TESTS, sp, blobName, content), l)
  {
    TrimLeftExactly(Split(content)[l]);
    ChunksKeepLine(SOURCE_TESTS, sp, blobName, content, l);
  }

  /** Line l has a character at k that is not white space. */
  ghost predicate TextAt(lines: seq<string>, l: int, k: int) {
    0 <= l < |lines| && 0 <= k < |lines[l]| && !IsSpace(lines[l][k])
  }

  /** No chunk is white space only. */
  lemma ChunksHoldText(sp: Splitter, blobName: string, content: string, i: nat) returns (l: int, k: int)
    requires i < |Chunks(SOURCE_TESTS, sp, blobName, content)|
    ensures Holds(Chunks(SOURCE_TESTS, sp, blobName, content)[i], l) && TextAt(Split(content), l, k)
  {
    var lines, t := Split(content), SOURCE_TESTS;
    ChunksSound(t, sp, blobName, content);
    var c := Chunks(t, sp, blobName, content)[i];
    assert SoundChunk(t, lines, c);
    l, k := SomeText(lines, c.startLine - 1, c.endLine);
  }

  lemma SomeText(lines: seq<string>, lo: int, hi: int) returns (l: int, k: int)
    requires 0 <= lo <= hi <= |lines| && !AllBlank(SOURCE_TESTS, lines, lo, hi)
    ensures lo <= l < hi && TextAt(lines, l, k)
  {
    l :| lo <= l < hi && !Blank(lines[l]);
    TrimLeftExactly(lines[l]);
    k :| 0 <= k < |lines[l]| && !IsSpace(lines[l][k]);
  }

  // ------------------------------------------------- what travels with a declaration

  const MARKS := ["//", "#", "/*", "*", "--", "'''", "\"\"\"", "@"]

  predicate Marked(line: string) {
    exists i :: 0 <= i < |MARKS| && MARKS[i] <= TrimLeft(line)
  }

  /** A line is attached by what it starts with, and blank lines never are. */
  lemma AttachableExactly(line: string)
    ensures Attachable(line) <==> Marked(line)
  {
    var t := TrimLeft(line);
    assert MARKS[0] == "//" && MARKS[1] == "#" && MARKS[2] == "/*" && MARKS[3] == "*";
    assert MARKS[4] == "--" && MARKS[5] == "'''" && MARKS[6] == "\"\"\"" && MARKS[7] == "@";
    assert "///" <= t ==> "//" <= t;
    assert "#[" <= t ==> "#" <= t;
  }

  lemma {:induction false} AttachedThrough(lines: seq<string>, a: int, ds: int, floor: int)
    requires 0 <= floor <= a <= ds <= |lines| && forall l :: a <= l < ds ==> Marked(lines[l])
    ensures AttachUp(SOURCE_TESTS, lines, ds, floor) <= a
    decreases ds
  {
    if a < ds {
      AttachableExactly(lines[ds - 1]);
      AttachedThrough(lines, a, ds - 1, floor);
    }
  }

  /** A declaration is never cut from the comments, annotations and attributes
      stacked on it: those lines and the declaration are within one segment. */
  lemma AnnotationsStay(decls: seq<Node>, end: int, sym: string, kind: Kind, lines: seq<string>, k: nat, a: int)
    returns (s: Segment)
    requires 0 <= end <= |lines| && Ordered(decls, 0, end) && k < |decls|
    requires FloorOf(decls, 0, k) <= a <= decls[k].Start() && forall l :: a <= l < decls[k].Start() ==> Marked(lines[l])
    requires var w := Whole(decls[k], FloorOf(decls, 0, k), SOURCE_TESTS, lines); w.end - w.start <= MAX_CHUNK_LINES
    ensures s in LayoutFrom(decls, 0, end, sym, kind, 0, SOURCE_TESTS, lines)
    ensures s.start <= a && s.end == decls[k].End() && s.symbol == decls[k].symbol
  {
    var floor := FloorOf(decls, 0, k);
    s := Whole(decls[k], floor, SOURCE_TESTS, lines);
    AttachedThrough(lines, a, decls[k].Start(), floor);
    DeclarationKeptWhole(decls, 0, end, sym, kind, 0, SOURCE_TESTS, lines, k);
  }

  // ------------------------------------------------------------------ Vue files

  const TAGS := ["script", "template", "style"]

  /** A line that starts with the tag and a later one that starts with its end. */
  predicate HasBlock(lines: seq<string>, tag: string) {
    exists i, j :: 0 <= i < j < |lines| && "<" + tag <= lines[i] && "</" + tag <= lines[j]
  }

  lemma OpensExactly(line: string, tag: Tag)
    requires tag != NoTag
    ensures Opens(line) == tag <==> "<" + TagName(tag) <= line
    ensures Closes(line, tag) <==> "</" + TagName(tag) <= line
  {
    assert "<script"[1] == 's' && "<script"[2] == 'c' && "<template"[1] == 't' && "<style"[1] == 's' && "<style"[2] == 't';
    assert "<" + "script" == "<script" && "<" + "template" == "<template" && "<" + "style" == "<style";
    assert "</" + "script" == "</script" && "</" + "template" == "</template" && "</" + "style" == "</style";
  }

  predicate OpensTag(lines: seq<string>, tag: Tag) {
    exists i :: 0 <= i < |lines| && Opens(lines[i]) == tag && OpensBlock(SOURCE_TESTS, lines, i)
  }

  lemma BlockExactly(lines: seq<string>, tag: Tag)
    requires tag != NoTag
    ensures HasBlock(lines, TagName(tag)) <==> OpensTag(lines, tag)
  {
    if i, j :| 0 <= i < j < |lines| && "<" + TagName(tag) <= lines[i] && "</" + TagName(tag) <= lines[j] {
      OpensExactly(lines[i], tag);
      OpensExactly(lines[j], tag);
      assert SOURCE_TESTS.closes(lines[j], tag);
      assert OpensBlock(SOURCE_TESTS, lines, i);
    }
    if i :| 0 <= i < |lines| && Opens(lines[i]) == tag && OpensBlock(SOURCE_TESTS, lines, i) {
      var j := Closing(SOURCE_TESTS, lines, tag, i + 1);
      OpensExactly(lines[i], tag);
      OpensExactly(lines[j], tag);
    }
  }

  /** A Vue file is laid out by its blocks exactly when some script, template or
      style tag at the start of a line has its end tag at the start of a later one. */
  lemma VueSplitExactly(parse: Parser, lines: seq<string>)
    requires Lines(lines)
    ensures VueSpec(SOURCE_TESTS, parse, lines).Some? <==> exists k :: 0 <= k < |TAGS| && HasBlock(lines, TAGS[k])
  {
    assert TAGS[0] == TagName(Script) && TAGS[1] == TagName(Template) && TAGS[2] == TagName(Style);
    BlockExactly(lines, Script);
    BlockExactly(lines, Template);
    BlockExactly(lines, Style);
    OpensSome(lines);
  }

  /** A line with an opening tag whose end tag comes before line k. */
  lemma EarlierCloses(lines: seq<string>, l: nat, k: nat)
    requires l < k <= |lines| && OpensBlock(SOURCE_TESTS, lines, l)
    requires forall o :: o in TAGS && "<" + o <= lines[l] ==> exists e :: l < e < k && "</" + o <= lines[e]
    ensures Closing(SOURCE_TESTS, lines, SOURCE_TESTS.opens(lines[l]), l + 1) < k
  {
    assert TAGS[0] == TagName(Script) && TAGS[1] == TagName(Template) && TAGS[2] == TagName(Style);
    var tag := SOURCE_TESTS.opens(lines[l]);
    OpensExactly(lines[l], tag);
    assert TagName(tag) in TAGS;
    var e :| l < e < k && "</" + TagName(tag) <= lines[e];
    OpensExactly(lines[e], tag);
    assert SOURCE_TESTS.closes(lines[e], tag);
  }

  lemma ClosesFirst(lines: seq<string>, tag: Tag, k: nat, j: nat)
    requires tag != NoTag && k < j < |lines| && "<" + TagName(tag) <= lines[k] && "</" + TagName(tag) <= lines[j]
    requires forall l :: k < l < j ==> !("</" + TagName(tag) <= lines[l])
    ensures SOURCE_TESTS.opens(lines[k]) == tag && Closing(SOURCE_TESTS, lines, tag, k + 1) == j
  {
    OpensExactly(lines[k], tag);
    var c := Closing(SOURCE_TESTS, lines, tag, k + 1);
    OpensExactly(lines[j], tag);
    assert SOURCE_TESTS.closes(lines[j], tag);
    OpensExactly(lines[c], tag);
  }

  lemma VueIsLaidOut(t: LineTests, sp: Splitter, content: string, lines: seq<string>, k: nat)
    requires !sp.exempt && sp.vue && lines == Split(content) && k < |lines| && OpensBlock(t, lines, k)
    ensures SegmentsOf(t, sp, content) == VueFrom(t, sp.parse, lines, 0, 0)
  {
    assert !NoneOpens(t, lines, |lines|);
  }

  lemma BlockIsSegment(t: LineTests, sp: Splitter, content: string, lines: seq<string>, tag: Tag, k: nat, j: nat)
    requires !sp.exempt && sp.vue && lines == Split(content) && k < j < |lines|
    requires ClosedBefore(t, lines, 0, k)
    requires tag != NoTag && tag != Script && t.opens(lines[k]) == tag && Closing(t, lines, tag, k + 1) == j
    ensures Segment(k, j + 1, TagName(tag), Block) in SegmentsOf(t, sp, content)
  {
    BlockStands(t, sp.parse, lines, 0, 0, k, tag, j);
    VueIsLaidOut(t, sp, content, lines, k);
  }

  /** In a Vue file a template or style block is one segment from its tag to its end tag,
      whatever the other splitters would make of the file, when every block that is opened
      before it is closed before it. */
  lemma VueBlockStands(sp: Splitter, content: string, lines: seq<string>, tag: Tag, k: nat, j: nat)
    requires !sp.exempt && sp.vue && lines == Split(content) && tag in {Template, Style} && k < j < |lines|
    requires "<" + TagName(tag) <= lines[k] && "</" + TagName(tag) <= lines[j]
    requires forall l :: k < l < j ==> !("</" + TagName(tag) <= lines[l])
    requires forall l, o :: 0 <= l < k && o in TAGS && "<" + o <= lines[l] ==> exists e :: l < e < k && "</" + o <= lines[e]
    ensures Segment(k, j + 1, TagName(tag), Block) in SegmentsOf(SOURCE_TESTS, sp, content)
  {
    forall l: nat | l < k && OpensBlock(SOURCE_TESTS, lines, l)
      ensures Closing(SOURCE_TESTS, lines, SOURCE_TESTS.opens(lines[l]), l + 1) < k
    {
      EarlierCloses(lines, l, k);
    }
    ClosesFirst(lines, tag, k, j);
    BlockIsSegment(SOURCE_TESTS, sp, content, lines, tag, k, j);
  }

  /** A file of an exempt language without boundaries is cut in windows, tree or no tree. */
  lemma ExemptIsWindowed(sp: Splitter, content: string)
    requires sp.exempt && forall l :: l in Split(content) ==> sp.matcher(l).None?
    ensures SegmentsOf(SOURCE_TESTS, sp, content) == Windows(0, |Split(content)|, "", Window)
  {
  }

  lemma OpensSome(lines: seq<string>)
    ensures NoneOpens(SOURCE_TESTS, lines, |lines|) <==>
            forall tag :: tag in {Script, Template, Style} ==> !OpensTag(lines, tag)
  {
    forall i: nat | i < |lines| && OpensBlock(SOURCE_TESTS, lines, i) ensures OpensTag(lines, Opens(lines[i])) {}
  }
}
