/** buildPseudoIndex (internal/indexer/curate.go): which split files are
    complete, where their parts start, and their rejoined text. */
module PseudoIndex {
  import opened Domain
  import opened Text
  import opened Pseudo

  datatype Span = Span(base: string, offset: int)

  /** The part table of one base path, and whether its parts agree so far. A slot
      holds the index of its file. */
  datatype Table = Table(slots: seq<Option<nat>>, consistent: bool)

  /** File i is a part of base. */
  predicate PartOf(files: seq<File>, i: nat, base: string)
    requires i < |files|
  {
    files[i].part.Some? && files[i].part.value.base == base
  }

  /** A filled slot holds the part it should. */
  ghost predicate Filled(files: seq<File>, upto: nat, base: string, slots: seq<Option<nat>>)
    requires upto <= |files|
  {
    forall k :: 0 <= k < |slots| && slots[k].Some? ==>
      slots[k].value < upto && files[slots[k].value].part == Some(Part(base, k + 1, |slots|))
  }

  /** The table has the size some part seen announces. */
  ghost predicate Sized(files: seq<File>, upto: nat, base: string, slots: seq<Option<nat>>)
    requires upto <= |files|
  {
    exists j :: 0 <= j < upto && PartOf(files, j, base) && files[j].part.value.m == |slots|
  }

  /** Every part seen sits in its slot. */
  ghost predicate Seated(files: seq<File>, upto: nat, base: string, slots: seq<Option<nat>>)
    requires upto <= |files|
  {
    forall j :: 0 <= j < upto && PartOf(files, j, base) ==>
      files[j].part.value.m == |slots| && slots[files[j].part.value.n - 1] == Some(j)
  }

  /** What the table of base says of the first `upto` files. */
  ghost predicate Sound(files: seq<File>, upto: nat, base: string, t: Table)
    requires upto <= |files|
  {
    && Filled(files, upto, base, t.slots) && Sized(files, upto, base, t.slots)
    && if t.consistent then Seated(files, upto, base, t.slots) else !HasParts(files, base)
  }

  ghost predicate Tabled(files: seq<File>, upto: nat, parts: map<string, Table>)
    requires upto <= |files|
  {
    && (forall j :: 0 <= j < upto && files[j].part.Some? ==> files[j].part.value.base in parts)
    && (forall b :: b in parts ==> Sound(files, upto, b, parts[b]))
  }

  function Empty(m: nat): (r: seq<Option<nat>>)
    ensures |r| == m && forall k :: 0 <= k < m ==> r[k] == None
  {
    seq(m, i => None)
  }

  /** Two parts that disagree on the part count, or claim one slot, rule out a
      complete set. */
  lemma ConflictRulesOut(files: seq<File>, i: nat, j: nat, base: string)
    requires i < |files| && j < |files| && i != j && PartOf(files, i, base) && PartOf(files, j, base)
    requires files[i].part.value.m != files[j].part.value.m || files[i].part.value.n == files[j].part.value.n
    ensures !HasParts(files, base)
  {
  }

  /** What the loop body does with a part of the table's base. */
  function Seat(t: Table, i: nat, n: int, m: int): Table
    requires 1 <= n <= m
  {
    if |t.slots| != m || t.slots[n - 1].Some? then t.(consistent := false)
    else t.(slots := t.slots[n - 1 := Some(i)])
  }

  lemma SeatSound(files: seq<File>, i: nat, base: string, t: Table)
    requires i < |files| && PartOf(files, i, base)
    requires Sound(files, i, base, t) || t == Table(Empty(files[i].part.value.m), true)
    requires !Sound(files, i, base, t) ==> forall j :: 0 <= j < i ==> !PartOf(files, j, base)
    ensures Sound(files, i + 1, base, Seat(t, i, files[i].part.value.n, files[i].part.value.m))
  {
    var n, m := files[i].part.value.n, files[i].part.value.m;
    var s := Seat(t, i, n, m);
    if |t.slots| != m {
      var j :| 0 <= j < i && PartOf(files, j, base) && files[j].part.value.m == |t.slots|;
      ConflictRulesOut(files, i, j, base);
      assert Sized(files, i + 1, base, s.slots);
    } else {
      assert Sized(files, i + 1, base, s.slots) by { assert files[i].part.value.m == |s.slots|; }
      if t.slots[n - 1].Some? { ConflictRulesOut(files, i, t.slots[n - 1].value, base); }
    }
  }

  lemma OtherBaseSound(files: seq<File>, i: nat, base: string, t: Table)
    requires i < |files| && !PartOf(files, i, base) && Sound(files, i, base, t)
    ensures Sound(files, i + 1, base, t)
  {
    var j :| 0 <= j < i && PartOf(files, j, base) && files[j].part.value.m == |t.slots|;
    assert Sized(files, i + 1, base, t.slots);
  }

  /** The table of a base before file i is placed. */
  function Before(parts: map<string, Table>, p: PartNumber): Table {
    if p.base in parts then parts[p.base] else Table(Empty(p.m), true)
  }

  lemma TabledStep(files: seq<File>, i: nat, parts: map<string, Table>)
    requires i < |files| && Tabled(files, i, parts)
    ensures files[i].part.None? ==> Tabled(files, i + 1, parts)
    ensures files[i].part.Some? ==>
            var p := files[i].part.value;
            Tabled(files, i + 1, parts[p.base := Seat(Before(parts, p), i, p.n, p.m)])
  {
    forall b | b in parts && !PartOf(files, i, b) ensures Sound(files, i + 1, b, parts[b]) {
      OtherBaseSound(files, i, b, parts[b]);
    }
    if files[i].part.Some? {
      var p := files[i].part.value;
      SeatSound(files, i, p.base, Before(parts, p));
    }
  }

  /** The first loop, over the files with their paths parsed. */
  method TableParts(files: seq<File>) returns (parts: map<string, Table>)
    ensures Tabled(files, |files|, parts)
  {
    parts := map[];
    for i := 0 to |files|
      invariant Tabled(files, i, parts)
    {
      TabledStep(files, i, parts);
      if files[i].part.None? { continue; }
      var p := files[i].part.value;
      var t := if p.base in parts then parts[p.base] else Table(Empty(p.m), true);
      parts := parts[p.base := Seat(t, i, p.n, p.m)];
    }
  }

  function Complete(slots: seq<Option<nat>>): bool {
    forall k :: 0 <= k < |slots| ==> slots[k].Some?
  }

  function Indices(slots: seq<Option<nat>>): (r: seq<nat>)
    requires Complete(slots)
    ensures |r| == |slots| && forall k :: 0 <= k < |r| ==> r[k] == slots[k].value
  {
    seq(|slots|, k requires 0 <= k < |slots| => slots[k].value)
  }

  /** A consistent table without a gap is the complete set, and a complete set
      leaves such a table. */
  lemma TableDecides(files: seq<File>, base: string, t: Table)
    requires Sound(files, |files|, base, t)
    ensures t.consistent && Complete(t.slots) ==> IsParts(files, base, Indices(t.slots))
    ensures HasParts(files, base) ==> t.consistent && Complete(t.slots)
  {
    if t.consistent && Complete(t.slots) {
      var j :| 0 <= j < |files| && PartOf(files, j, base) && files[j].part.value.m == |t.slots|;
      assert IsParts(files, base, Indices(t.slots));
    }
    if idx :| IsParts(files, base, idx) {
      assert HasParts(files, base);
      forall k | 0 <= k < |t.slots| ensures t.slots[k].Some? {
        assert |t.slots| == |idx|;
        assert PartOf(files, idx[k], base);
      }
    }
  }

  lemma PartsUnique(files: seq<File>, base: string, a: seq<nat>, b: seq<nat>)
    requires IsParts(files, base, a) && IsParts(files, base, b)
    ensures a == b
  {
    assert files[a[0]].part == Some(Part(base, 1, |a|));
    forall k | 0 <= k < |a| ensures a[k] == b[k] {
      assert files[a[k]].part == Some(Part(base, k + 1, |a|));
    }
  }

  function BlobsOf(files: seq<File>, idx: seq<nat>): (r: seq<string>)
    requires forall k :: 0 <= k < |idx| ==> idx[k] < |files|
    ensures |r| == |idx| && forall k :: 0 <= k < |idx| ==> r[k] == files[idx[k]].blobName
  {
    seq(|idx|, k requires 0 <= k < |idx| => files[idx[k]].blobName)
  }

  ghost predicate DistinctBlobs(files: seq<File>) {
    forall i, j :: 0 <= i < j < |files| ==> files[i].blobName != files[j].blobName
  }

  lemma PartBlobsDistinct(files: seq<File>, base: string, idx: seq<nat>)
    requires IsParts(files, base, idx) && DistinctBlobs(files)
    ensures NoDuplicates(BlobsOf(files, idx))
  {
    forall j, k | 0 <= j < k < |idx| ensures files[idx[j]].blobName != files[idx[k]].blobName {
      assert files[idx[j]].part == Some(Part(base, j + 1, |idx|)) && files[idx[k]].part == Some(Part(base, k + 1, |idx|));
      assert idx[j] != idx[k];
    }
  }

  /** Each part's blob maps to its offset. */
  ghost predicate Placed(base: string, blobs: seq<string>, cs: seq<string>, spans: map<string, Span>, upto: nat)
    requires |blobs| == |cs| && upto <= |cs|
  {
    forall k :: 0 <= k < upto ==> blobs[k] in spans && spans[blobs[k]] == Span(base, Offset(cs, k))
  }

  /** The inner loop: offsets by running line count, and the parts joined. */
  method PlaceParts(base: string, blobs: seq<string>, cs: seq<string>, spans: map<string, Span>)
    returns (r: map<string, Span>, content: string)
    requires |blobs| == |cs| && NoDuplicates(blobs)
    ensures content == Join(cs) && Placed(base, blobs, cs, r, |cs|)
    ensures r.Keys == spans.Keys + Elements(blobs)
    ensures forall b :: b in spans && b !in blobs ==> r[b] == spans[b]
  {
    r := spans;
    var offset := 0;
    for k := 0 to |cs|
      invariant offset == Offset(cs, k) && Placed(base, blobs, cs, r, k)
      invariant r.Keys == spans.Keys + Elements(blobs[..k])
      invariant forall b :: b in spans && b !in blobs[..k] ==> r[b] == spans[b]
    {
      assert blobs[..k + 1] == blobs[..k] + [blobs[k]];
      r := r[blobs[k] := Span(base, offset)];
      offset := offset + LineCount(cs[k]);
    }
    assert blobs[..|cs|] == blobs;
    content := Join(cs);
  }

  /** The complete set idx of base is remapped: parts to offsets, text rejoined. */
  ghost predicate IsRemapped(files: seq<File>, base: string, idx: seq<nat>, spans: map<string, Span>,
                             logical: map<string, string>)
    requires IsParts(files, base, idx)
  {
    && base in logical && logical[base] == Join(Contents(files, idx))
    && Placed(base, BlobsOf(files, idx), Contents(files, idx), spans, |idx|)
  }

  /** A blob that is a part of a complete set of one of the bases. */
  ghost predicate PartBlob(files: seq<File>, bases: set<string>, blob: string) {
    exists i, idx :: 0 <= i < |files| && files[i].blobName == blob && files[i].part.Some? &&
      files[i].part.value.base in bases && IsParts(files, files[i].part.value.base, idx)
  }

  /** Of the bases seen, those with a complete set are remapped and no others. */
  ghost predicate Remapped(files: seq<File>, done: set<string>, spans: map<string, Span>, logical: map<string, string>) {
    && (forall b :: b in logical <==> b in done && HasParts(files, b))
    && AllRemapped(files, done, spans, logical)
    && OnlyParts(files, done, spans)
  }

  ghost predicate AllRemapped(files: seq<File>, done: set<string>, spans: map<string, Span>, logical: map<string, string>) {
    forall b, idx :: b in done && IsParts(files, b, idx) ==> IsRemapped(files, b, idx, spans, logical)
  }

  ghost predicate OnlyParts(files: seq<File>, done: set<string>, spans: map<string, Span>) {
    forall n :: n in spans ==> PartBlob(files, done, n)
  }

  lemma SkipKeepsRemapped(files: seq<File>, done: set<string>, base: string, spans: map<string, Span>,
                          logical: map<string, string>)
    requires Remapped(files, done, spans, logical) && !HasParts(files, base)
    ensures Remapped(files, done + {base}, spans, logical)
  {
    assert forall idx :: !IsParts(files, base, idx);
    forall n | n in spans ensures PartBlob(files, done + {base}, n) { assert PartBlob(files, done, n); }
  }

  lemma OtherPartsElsewhere(files: seq<File>, a: string, ia: seq<nat>, b: string, ib: seq<nat>)
    requires DistinctBlobs(files) && IsParts(files, a, ia) && IsParts(files, b, ib) && a != b
    ensures forall k :: 0 <= k < |ia| ==> BlobsOf(files, ia)[k] !in BlobsOf(files, ib)
  {
    forall k, j | 0 <= k < |ia| && 0 <= j < |ib| ensures BlobsOf(files, ia)[k] != BlobsOf(files, ib)[j] {
      assert files[ia[k]].part == Some(Part(a, k + 1, |ia|)) && files[ib[j]].part == Some(Part(b, j + 1, |ib|));
      assert ia[k] != ib[j];
    }
  }

  /** r is spans with the parts of one more base placed. */
  ghost predicate Extends(files: seq<File>, base: string, idx: seq<nat>, spans: map<string, Span>, r: map<string, Span>)
    requires IsParts(files, base, idx)
  {
    var blobs, cs := BlobsOf(files, idx), Contents(files, idx);
    && Placed(base, blobs, cs, r, |cs|) && r.Keys == spans.Keys + Elements(blobs)
    && forall b :: b in spans && b !in blobs ==> r[b] == spans[b]
  }

  lemma OtherStaysRemapped(files: seq<File>, base: string, idx: seq<nat>, spans: map<string, Span>, r: map<string, Span>,
                           logical: map<string, string>, content: string, b: string, ib: seq<nat>)
    requires DistinctBlobs(files) && IsParts(files, base, idx) && IsParts(files, b, ib) && b != base
    requires Extends(files, base, idx, spans, r) && IsRemapped(files, b, ib, spans, logical)
    ensures IsRemapped(files, b, ib, r, logical[base := content])
  {
    OtherPartsElsewhere(files, b, ib, base, idx);
  }

  lemma PlacedArePartBlobs(files: seq<File>, done: set<string>, base: string, idx: seq<nat>, n: string)
    requires IsParts(files, base, idx) && base in done && n in BlobsOf(files, idx)
    ensures PartBlob(files, done, n)
  {
    var k :| 0 <= k < |idx| && BlobsOf(files, idx)[k] == n;
    assert files[idx[k]].part == Some(Part(base, k + 1, |idx|));
  }

  lemma PlaceRemapsAll(files: seq<File>, done: set<string>, base: string, idx: seq<nat>, spans: map<string, Span>,
                       logical: map<string, string>, r: map<string, Span>)
    requires DistinctBlobs(files) && AllRemapped(files, done, spans, logical) && IsParts(files, base, idx)
    requires Extends(files, base, idx, spans, r)
    ensures AllRemapped(files, done + {base}, r, logical[base := Join(Contents(files, idx))])
  {
    var content := Join(Contents(files, idx));
    forall b, ib | b in done + {base} && IsParts(files, b, ib)
      ensures IsRemapped(files, b, ib, r, logical[base := content])
    {
      if b == base {
        PartsUnique(files, base, idx, ib);
      } else {
        assert IsRemapped(files, b, ib, spans, logical);
        OtherStaysRemapped(files, base, idx, spans, r, logical, content, b, ib);
      }
    }
  }

  lemma PlaceKeepsOnlyParts(files: seq<File>, done: set<string>, base: string, idx: seq<nat>, spans: map<string, Span>,
                            r: map<string, Span>)
    requires OnlyParts(files, done, spans) && IsParts(files, base, idx) && Extends(files, base, idx, spans, r)
    ensures OnlyParts(files, done + {base}, r)
  {
    forall n | n in r ensures PartBlob(files, done + {base}, n) {
      if n in spans { assert PartBlob(files, done, n); } else { PlacedArePartBlobs(files, done + {base}, base, idx, n); }
    }
  }

  lemma PlaceKeepsRemapped(files: seq<File>, done: set<string>, base: string, idx: seq<nat>, spans: map<string, Span>,
                           logical: map<string, string>, r: map<string, Span>)
    requires DistinctBlobs(files) && Remapped(files, done, spans, logical) && IsParts(files, base, idx) && base !in done
    requires Extends(files, base, idx, spans, r)
    ensures Remapped(files, done + {base}, r, logical[base := Join(Contents(files, idx))])
  {
    assert HasParts(files, base);
    PlaceRemapsAll(files, done, base, idx, spans, logical, r);
    PlaceKeepsOnlyParts(files, done, base, idx, spans, r);
  }

  /** A split file is remapped exactly when all its parts are present and agree,
      and nothing but parts of such files has an offset. */
  ghost predicate IsPseudoIndex(files: seq<File>, spans: map<string, Span>, logical: map<string, string>) {
    && (forall b :: b in logical <==> HasParts(files, b))
    && (forall b, idx :: IsParts(files, b, idx) ==> IsRemapped(files, b, idx, spans, logical))
    && (forall n :: n in spans ==> exists i :: 0 <= i < |files| && files[i].blobName == n &&
                                                files[i].part.Some? && HasParts(files, files[i].part.value.base))
  }

  lemma RemappedIsIndex(files: seq<File>, parts: map<string, Table>, spans: map<string, Span>, logical: map<string, string>)
    requires Tabled(files, |files|, parts) && Remapped(files, parts.Keys, spans, logical)
    ensures IsPseudoIndex(files, spans, logical)
  {
    AllBasesSeen(files, parts);
    forall n | n in spans ensures exists i :: 0 <= i < |files| && files[i].blobName == n && files[i].part.Some? &&
                                              HasParts(files, files[i].part.value.base)
    {
      assert PartBlob(files, parts.Keys, n);
    }
  }

  /** buildPseudoIndex: whatever order the parts arrive in. */
  method BuildPseudoIndex(repo: seq<RepositoryFile>) returns (spans: map<string, Span>, logical: map<string, string>)
    requires DistinctBlobs(ReadAll(repo))
    ensures IsPseudoIndex(ReadAll(repo), spans, logical)
  {
    var files := ReadAll(repo);
    spans, logical := IndexFiles(files);
  }

  method IndexFiles(files: seq<File>) returns (spans: map<string, Span>, logical: map<string, string>)
    requires DistinctBlobs(files)
    ensures IsPseudoIndex(files, spans, logical)
  {
    var parts := TableParts(files);
    spans, logical := map[], map[];
    var rest, done := parts.Keys, {};
    while rest != {}
      invariant rest !! done && rest + done == parts.Keys
      invariant Remapped(files, done, spans, logical)
    {
      var base :| base in rest;
      spans, logical := RemapBase(files, base, parts[base], done, spans, logical);
      rest, done := rest - {base}, done + {base};
    }
    assert done == parts.Keys;
    RemappedIsIndex(files, parts, spans, logical);
  }

  /** One base: remapped when its table is consistent and has no gap. */
  method RemapBase(files: seq<File>, base: string, t: Table, ghost done: set<string>, spans0: map<string, Span>,
                   logical0: map<string, string>)
    returns (spans: map<string, Span>, logical: map<string, string>)
    requires DistinctBlobs(files) && Sound(files, |files|, base, t) && base !in done
    requires Remapped(files, done, spans0, logical0)
    ensures Remapped(files, done + {base}, spans, logical)
  {
    TableDecides(files, base, t);
    if !t.consistent || !Complete(t.slots) {
      SkipKeepsRemapped(files, done, base, spans0, logical0);
      return spans0, logical0;
    }
    var idx := Indices(t.slots);
    PartBlobsDistinct(files, base, idx);
    var content;
    spans, content := PlaceParts(base, BlobsOf(files, idx), Contents(files, idx), spans0);
    PlaceKeepsRemapped(files, done, base, idx, spans0, logical0, spans);
    logical := logical0[base := content];
  }

  lemma AllBasesSeen(files: seq<File>, parts: map<string, Table>)
    requires Tabled(files, |files|, parts)
    ensures forall b, idx :: IsParts(files, b, idx) ==> b in parts
  {
    forall b, idx | IsParts(files, b, idx) ensures b in parts {
      assert files[idx[0]].part == Some(Part(b, 1, |idx|));
    }
  }

  // ------------------------------------------------- a file split by a client

  /** A text's lines cut into groups, one a part, none empty. */
  ghost predicate IsCut(groups: seq<seq<string>>) {
    groups != [] && forall k :: 0 <= k < |groups| ==> groups[k] != [] && Lines(groups[k])
  }

  function Flatten(groups: seq<seq<string>>): seq<string> {
    if groups == [] then [] else Flatten(groups[..|groups| - 1]) + groups[|groups| - 1]
  }

  function Joined(groups: seq<seq<string>>): (cs: seq<string>)
    ensures |cs| == |groups| && forall k :: 0 <= k < |groups| ==> cs[k] == Join(groups[k])
  {
    seq(|groups|, k requires 0 <= k < |groups| => Join(groups[k]))
  }

  /** Group k is stored under the path of part k + 1, at place at[k], and no other
      path names a part of base. */
  ghost predicate Uploaded(repo: seq<RepositoryFile>, base: string, groups: seq<seq<string>>, at: seq<nat>) {
    && |at| == |groups|
    && (forall k :: 0 <= k < |at| ==> at[k] < |repo| && IsPartFile(repo[at[k]], base, k, groups))
    && (forall i :: 0 <= i < |repo| && i !in at ==> !NamesPartOf(repo[i], base))
  }

  ghost predicate IsPartFile(f: RepositoryFile, base: string, k: nat, groups: seq<seq<string>>)
    requires k < |groups|
  {
    f.path == PseudoPath(base, k + 1, |groups|) && f.content == Join(groups[k])
  }

  predicate NamesPartOf(f: RepositoryFile, base: string) {
    var p := Read(f).part;
    p.Some? && p.value.base == base
  }

  lemma UploadedPart(repo: seq<RepositoryFile>, base: string, groups: seq<seq<string>>, at: seq<nat>, k: nat)
    requires |groups| <= MAX_INT && Uploaded(repo, base, groups, at) && k < |groups|
    ensures at[k] < |repo| && Read(repo[at[k]]).part == Some(Part(base, k + 1, |groups|))
    ensures repo[at[k]].content == Join(groups[k])
  {
    assert IsPartFile(repo[at[k]], base, k, groups);
    ParseInvertsPrint(base, k + 1, |groups|);
  }

  /** Files that name each part once, and no others of the base, are its parts. */
  lemma OnceEachAreParts(files: seq<File>, base: string, at: seq<nat>)
    requires at != [] && forall k :: 0 <= k < |at| ==> at[k] < |files| && files[at[k]].part == Some(Part(base, k + 1, |at|))
    requires forall i :: 0 <= i < |files| && i !in at ==> !PartOf(files, i, base)
    ensures IsParts(files, base, at)
  {
    forall i | 0 <= i < |files| && PartOf(files, i, base)
      ensures files[i].part.value.m == |at| && at[files[i].part.value.n - 1] == i
    {
      var k :| 0 <= k < |at| && at[k] == i;
      assert files[at[k]].part == Some(Part(base, k + 1, |at|));
    }
  }

  lemma UploadedAreParts(repo: seq<RepositoryFile>, base: string, groups: seq<seq<string>>, at: seq<nat>)
    requires IsCut(groups) && |groups| <= MAX_INT && Uploaded(repo, base, groups, at)
    ensures IsParts(ReadAll(repo), base, at) && Contents(ReadAll(repo), at) == Joined(groups)
  {
    var files := ReadAll(repo);
    forall k | 0 <= k < |at|
      ensures at[k] < |files| && files[at[k]].part == Some(Part(base, k + 1, |at|)) && files[at[k]].content == Join(groups[k])
    {
      UploadedPart(repo, base, groups, at, k);
    }
    forall i | 0 <= i < |files| && i !in at ensures !PartOf(files, i, base) { assert !NamesPartOf(repo[i], base); }
    OnceEachAreParts(files, base, at);
  }

  lemma {:induction false} JoinedLines(groups: seq<seq<string>>)
    requires forall k :: 0 <= k < |groups| ==> groups[k] != [] && Lines(groups[k])
    ensures AllLines(Joined(groups)) == Flatten(groups)
  {
    if groups != [] {
      var init := groups[..|groups| - 1];
      JoinedLines(init);
      assert Joined(groups)[..|groups| - 1] == Joined(init);
      SplitJoin(groups[|groups| - 1]);
    }
  }

  /** However a client cuts a text at its line ends, and in whatever order the parts
      are listed: the index rejoins exactly the text. */
  lemma SplitFileRejoined(repo: seq<RepositoryFile>, base: string, groups: seq<seq<string>>, at: seq<nat>,
                          spans: map<string, Span>, logical: map<string, string>)
    requires IsCut(groups) && |groups| <= MAX_INT && Uploaded(repo, base, groups, at)
    requires IsPseudoIndex(ReadAll(repo), spans, logical)
    ensures base in logical && logical[base] == Join(Flatten(groups))
  {
    var cs := Joined(groups);
    UploadedAreParts(repo, base, groups, at);
    assert IsRemapped(ReadAll(repo), base, at, spans, logical);
    RejoinedLines(cs);
    JoinedLines(groups);
    JoinSplit(Join(cs));
  }

  /** Line j of the blob, shifted by the blob's offset, is that line of the file. */
  ghost predicate FoundAt(spans: map<string, Span>, logical: map<string, string>, base: string, blob: string, j: nat,
                          text: string)
  {
    && blob in spans && base in logical
    && 0 <= spans[blob].offset + j < |Split(logical[base])| && Split(logical[base])[spans[blob].offset + j] == text
  }

  /** And every line of a part is found again at its place in that text, when no part
      but the last is one empty line. */
  lemma SplitFileLines(repo: seq<RepositoryFile>, base: string, groups: seq<seq<string>>, at: seq<nat>,
                       spans: map<string, Span>, logical: map<string, string>, k: nat, j: nat)
    requires IsCut(groups) && |groups| <= MAX_INT && Uploaded(repo, base, groups, at)
    requires IsPseudoIndex(ReadAll(repo), spans, logical)
    requires forall i :: 0 <= i < |groups| - 1 ==> groups[i] != [""]
    requires k < |groups| && j < |groups[k]|
    ensures at[k] < |repo| && FoundAt(spans, logical, base, repo[at[k]].blobName, j, groups[k][j])
  {
    SplitFileSpan(repo, base, groups, at, spans, logical, k);
    NoPartEmpty(groups);
    SplitJoin(groups[k]);
    PlacedLineFound(Joined(groups), spans, logical, base, repo[at[k]].blobName, k, j);
  }

  lemma FoundShifted(spans: map<string, Span>, logical: map<string, string>, base: string, blob: string, j: nat,
                     text: string, offset: nat, lines: seq<string>, line: nat)
    requires blob in spans && spans[blob].offset == offset && base in logical && Split(logical[base]) == lines
    requires line == offset + j && line < |lines| && lines[line] == text
    ensures FoundAt(spans, logical, base, blob, j, text)
  {
  }

  lemma ShiftedLine(cs: seq<string>, k: nat, j: nat, file: string, line: nat)
    requires (forall i :: 0 <= i < |cs| - 1 ==> cs[i] != "") && k < |cs| && j < |Split(cs[k])|
    requires file == Join(cs) && line == Offset(cs, k) + j
    ensures line < |Split(file)| && Split(file)[line] == Split(cs[k])[j]
  {
    ShiftedLineIsOwnLine(cs, k, j);
  }

  lemma PlacedLineFound(cs: seq<string>, spans: map<string, Span>, logical: map<string, string>, base: string,
                        blob: string, k: nat, j: nat)
    requires (forall i :: 0 <= i < |cs| - 1 ==> cs[i] != "") && k < |cs| && j < |Split(cs[k])|
    requires blob in spans && spans[blob] == Span(base, Offset(cs, k)) && base in logical && logical[base] == Join(cs)
    ensures FoundAt(spans, logical, base, blob, j, Split(cs[k])[j])
  {
    var offset, file := Offset(cs, k), logical[base];
    var line := offset + j;
    ShiftedLine(cs, k, j, file, line);
    FoundShifted(spans, logical, base, blob, j, Split(cs[k])[j], offset, Split(file), line);
  }

  lemma NoPartEmpty(groups: seq<seq<string>>)
    requires IsCut(groups) && forall i :: 0 <= i < |groups| - 1 ==> groups[i] != [""]
    ensures forall i :: 0 <= i < |groups| - 1 ==> Joined(groups)[i] != ""
  {
    forall i | 0 <= i < |groups| - 1 ensures Joined(groups)[i] != "" { OnlyEmptyLineJoinsEmpty(groups[i]); }
  }

  lemma SplitFileSpan(repo: seq<RepositoryFile>, base: string, groups: seq<seq<string>>, at: seq<nat>,
                      spans: map<string, Span>, logical: map<string, string>, k: nat)
    requires IsCut(groups) && |groups| <= MAX_INT && Uploaded(repo, base, groups, at)
    requires IsPseudoIndex(ReadAll(repo), spans, logical) && k < |groups|
    ensures at[k] < |repo| && repo[at[k]].blobName in spans && base in logical
    ensures spans[repo[at[k]].blobName] == Span(base, Offset(Joined(groups), k))
    ensures logical[base] == Join(Joined(groups))
  {
    UploadedAreParts(repo, base, groups, at);
    assert IsRemapped(ReadAll(repo), base, at, spans, logical);
    assert BlobsOf(ReadAll(repo), at)[k] == repo[at[k]].blobName;
  }

  lemma OnlyEmptyLineJoinsEmpty(ls: seq<string>)
    requires ls != []
    ensures Join(ls) == "" <==> ls == [""]
  {
  }
}
