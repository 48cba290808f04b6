/** Split oversized files: the pseudo paths of their parts and their reassembly
    (internal/indexer/curate.go). */
module Pseudo {
  import opened Domain
  import opened Text

  // -------------------------------------------------------------- pseudo paths

  /** strings.LastIndexByte(s, c). */
  function LastIndex(s: string, c: char): (r: int)
    ensures r == -1 || (0 <= r < |s| && s[r] == c)
    ensures forall k :: r < k < |s| ==> s[k] != c
  {
    if s == [] then -1 else if s[|s| - 1] == c then |s| - 1 else LastIndex(s[..|s| - 1], c)
  }

  /** strings.Index(s, "of"). */
  function IndexOf(s: string): int {
    if s == [] then -1
    else if "of" <= s then 0
    else if IndexOf(s[1..]) < 0 then -1 else IndexOf(s[1..]) + 1
  }

  lemma {:induction false} IndexOfBounds(s: string)
    ensures IndexOf(s) == -1 || 0 <= IndexOf(s) <= |s| - 2
  {
    if s != [] { IndexOfBounds(s[1..]); }
  }

  const MAX_INT := 0x7FFF_FFFF_FFFF_FFFF

  /** strconv.Atoi: an optional sign and decimal digits, within 64 bits. */
  function Atoi(s: string): Option<int> {
    var signed := s != [] && (s[0] == '-' || s[0] == '+');
    var digits := if signed then s[1..] else s;
    if !IsDigits(digits) then None
    else
      var v: int := if signed && s[0] == '-' then 0 - Value(digits) else Value(digits);
      if -MAX_INT - 1 <= v <= MAX_INT then Some(v) else None
  }

  /** A part of a split file: part n of m of the file at base. */
  datatype Part = Part(base: string, n: int, m: int)

  const MARK := "chunk"

  /** The part of parsePseudoPath behind the "#chunk" mark. */
  function ParseCounts(base: string, rest: string): (r: Option<Part>)
    ensures r.Some? ==> 1 <= r.value.n <= r.value.m
  {
    IndexOfBounds(rest);
    var j := IndexOf(rest);
    if j <= 0 then None
    else
      var n, m := Atoi(rest[..j]), Atoi(rest[j + 2..]);
      if n.None? || m.None? || n.value < 1 || m.value < 1 || n.value > m.value then None
      else Some(Part(base, n.value, m.value))
  }

  /** parsePseudoPath. */
  function ParsePseudoPath(path: string): (r: Option<Part>)
    ensures r.Some? ==> 1 <= r.value.n <= r.value.m
  {
    var i := LastIndex(path, '#');
    if i < 0 || !(MARK <= path[i + 1..]) then None else ParseCounts(path[..i], path[i + 6..])
  }

  /** The path an ACE client prints for part n of m. */
  function PseudoPath(base: string, n: nat, m: nat): string {
    base + "#chunk" + Itoa(n) + "of" + Itoa(m)
  }

  /** logicalPath. */
  function LogicalPath(path: string): string {
    var p := ParsePseudoPath(path);
    if p.Some? then p.value.base else path
  }

  /** The second of three parts, as it is written. */
  lemma SecondOfThree(base: string)
    ensures PseudoPath(base, 2, 3) == base + "#chunk2of3"
    ensures ParsePseudoPath(base + "#chunk2of3") == Some(Part(base, 2, 3)) && LogicalPath(base + "#chunk2of3") == base
  {
    assert Itoa(2) == "2" && Itoa(3) == "3";
    assert base + "#chunk" + "2" + "of" + "3" == base + "#chunk2of3";
    ParseInvertsPrint(base, 2, 3);
  }

  lemma {:induction false} IndexAfterDigits(d: string, rest: string)
    requires forall k :: 0 <= k < |d| ==> '0' <= d[k] <= '9'
    ensures IndexOf(d + "of" + rest) == |d|
    decreases |d|
  {
    var s := d + "of" + rest;
    if d == [] {
      assert s[0] == 'o' && s[1] == 'f';
    } else {
      assert s[0] == d[0];
      assert s[1..] == d[1..] + "of" + rest;
      IndexAfterDigits(d[1..], rest);
    }
  }

  lemma AtoiItoa(n: nat)
    requires n <= MAX_INT
    ensures Atoi(Itoa(n)) == Some(n)
  {
    ValueItoa(n);
    assert '0' <= Itoa(n)[0] <= '9';
  }

  lemma {:induction false} LastIndexOf(a: string, c: char, b: string)
    requires c !in b
    ensures LastIndex(a + [c] + b, c) == |a|
    decreases |b|
  {
    var s := a + [c] + b;
    if b != [] {
      var last := b[|b| - 1];
      assert last in b && s[|s| - 1] == last;
      assert s[..|s| - 1] == a + [c] + b[..|b| - 1];
      forall x | x in b[..|b| - 1] ensures x in b {}
      LastIndexOf(a, c, b[..|b| - 1]);
    }
  }

  /** Parsing inverts printing, whatever the base path, '#' included. */
  lemma ParseInvertsPrint(base: string, n: nat, m: nat)
    requires 1 <= n <= m <= MAX_INT
    ensures ParsePseudoPath(PseudoPath(base, n, m)) == Some(Part(base, n, m))
    ensures LogicalPath(PseudoPath(base, n, m)) == base
  {
    var rest := Itoa(n) + "of" + Itoa(m);
    PrintedForm(base, n, m);
    ParsesRest(base, rest);
    CountsParse(base, n, m);
  }

  lemma PrintedForm(base: string, n: nat, m: nat)
    ensures var rest := Itoa(n) + "of" + Itoa(m);
            && PseudoPath(base, n, m) == base + ['#'] + (MARK + rest)
            && LastIndex(base + ['#'] + (MARK + rest), '#') == |base|
  {
    TailHasNoHash(n, m);
    LastIndexOf(base, '#', MARK + (Itoa(n) + "of" + Itoa(m)));
    Regrouped(base, Itoa(n), Itoa(m));
  }

  lemma Regrouped(base: string, dn: string, dm: string)
    ensures base + "#chunk" + dn + "of" + dm == base + ['#'] + (MARK + (dn + "of" + dm))
  {
    assert "#chunk" == ['#'] + MARK;
  }

  lemma CountsParse(base: string, n: nat, m: nat)
    requires 1 <= n <= m <= MAX_INT
    ensures ParseCounts(base, Itoa(n) + "of" + Itoa(m)) == Some(Part(base, n, m))
  {
    ValueItoa(n);
    IndexAfterDigits(Itoa(n), Itoa(m));
    RestSlices(Itoa(n), Itoa(m));
    AtoiItoa(n);
    AtoiItoa(m);
  }

  lemma ParsesRest(base: string, rest: string)
    requires LastIndex(base + ['#'] + (MARK + rest), '#') == |base|
    ensures ParsePseudoPath(base + ['#'] + (MARK + rest)) == ParseCounts(base, rest)
  {
    PathSlices(base, rest);
  }

  lemma PathSlices(base: string, rest: string)
    ensures var path := base + ['#'] + (MARK + rest);
            |path| >= |base| + 6 && path[..|base|] == base && MARK <= path[|base| + 1..] && path[|base| + 6..] == rest
  {
    var path := base + ['#'] + (MARK + rest);
    assert path[|base| + 1..] == MARK + rest;
  }

  lemma RestSlices(dn: string, dm: string)
    ensures var rest := dn + "of" + dm;
            |rest| >= |dn| + 2 && rest[..|dn|] == dn && rest[|dn| + 2..] == dm
  {
  }

  lemma TailHasNoHash(n: nat, m: nat)
    ensures '#' !in MARK + (Itoa(n) + "of" + Itoa(m))
  {
    ValueItoa(n);
    ValueItoa(m);
    assert '#' !in Itoa(n) && '#' !in Itoa(m) && '#' !in MARK && '#' !in "of";
  }

  // --------------------------------------------------------------- reassembly

  /** A file of what is searched. */
  datatype RepositoryFile = RepositoryFile(path: string, blobName: string, content: string)

  type PartNumber = p: Part | 1 <= p.n <= p.m witness Part("", 1, 1)

  /** The file with the part its path names. */
  datatype File = File(blobName: string, content: string, part: Option<PartNumber>)

  function Read(f: RepositoryFile): File {
    File(f.blobName, f.content, ParsePseudoPath(f.path))
  }

  function ReadAll(fs: seq<RepositoryFile>): (r: seq<File>)
    ensures |r| == |fs| && forall i :: 0 <= i < |fs| ==> r[i] == Read(fs[i])
  {
    seq(|fs|, i requires 0 <= i < |fs| => Read(fs[i]))
  }

  /** The indices idx list the parts of base in order: the k-th is part k+1 of
      |idx|, and every file of that base is one of them. */
  ghost predicate IsParts(files: seq<File>, base: string, idx: seq<nat>) {
    && idx != []
    && (forall k :: 0 <= k < |idx| ==>
          idx[k] < |files| && files[idx[k]].part == Some(Part(base, k + 1, |idx|)))
    && (forall i :: 0 <= i < |files| ==>
          var p := files[i].part;
          p.Some? && p.value.base == base ==> p.value.m == |idx| && idx[p.value.n - 1] == i)
  }

  ghost predicate HasParts(files: seq<File>, base: string) {
    exists idx :: IsParts(files, base, idx)
  }

  function Contents(files: seq<File>, idx: seq<nat>): (r: seq<string>)
    requires forall k :: 0 <= k < |idx| ==> idx[k] < |files|
    ensures |r| == |idx| && forall k :: 0 <= k < |idx| ==> r[k] == files[idx[k]].content
  {
    seq(|idx|, k requires 0 <= k < |idx| => files[idx[k]].content)
  }

  /** The offset buildPseudoIndex gives part k: line counts of the parts before. */
  function Offset(cs: seq<string>, k: nat): nat
    requires k <= |cs|
  {
    if k == 0 then 0 else Offset(cs, k - 1) + LineCount(cs[k - 1])
  }

  /** Where the lines of part k start in the rejoined text. */
  function LinesBefore(cs: seq<string>, k: nat): nat
    requires k <= |cs|
  {
    if k == 0 then 0 else LinesBefore(cs, k - 1) + |Split(cs[k - 1])|
  }

  function AllLines(cs: seq<string>): seq<string> {
    if cs == [] then [] else AllLines(cs[..|cs| - 1]) + Split(cs[|cs| - 1])
  }

  lemma {:induction false} JoinAppend(cs: seq<string>, c: string)
    requires cs != []
    ensures Join(cs + [c]) == Join(cs) + "\n" + c
    decreases |cs|
  {
    assert (cs + [c])[1..] == cs[1..] + [c];
    if |cs| > 1 {
      JoinAppend(cs[1..], c);
      assert cs[0] + "\n" + (Join(cs[1..]) + "\n" + c) == cs[0] + "\n" + Join(cs[1..]) + "\n" + c;
    } else {
      assert cs[1..] + [c] == [c];
    }
  }

  /** The lines of the rejoined text are the lines of the parts, in order. */
  lemma {:induction false} RejoinedLines(cs: seq<string>)
    requires cs != []
    ensures Split(Join(cs)) == AllLines(cs)
    decreases |cs|
  {
    var init, last := cs[..|cs| - 1], cs[|cs| - 1];
    if init == [] {
      assert cs == [last];
      assert AllLines(init) == [];
    } else {
      RejoinedLines(init);
      JoinAppend(init, last);
      assert cs == init + [last];
      SplitAtNewline(Join(init), last);
    }
  }

  /** The parts tile the rejoined file: part k's line j is line LinesBefore + j. */
  lemma {:induction false} PartLines(cs: seq<string>, k: nat)
    requires k < |cs|
    ensures LinesBefore(cs, |cs|) == |AllLines(cs)|
    ensures LinesBefore(cs, k) + |Split(cs[k])| <= |AllLines(cs)|
    ensures forall j :: 0 <= j < |Split(cs[k])| ==> AllLines(cs)[LinesBefore(cs, k) + j] == Split(cs[k])[j]
    decreases |cs|
  {
    var init := cs[..|cs| - 1];
    LinesBeforePrefix(cs, |cs| - 1);
    if k < |init| {
      PartLines(init, k);
      LinesBeforePrefix(cs, k);
    } else if init != [] {
      PartLines(init, 0);
    }
  }

  lemma {:induction false} LinesBeforePrefix(cs: seq<string>, k: nat)
    requires k <= |cs| - 1
    ensures LinesBefore(cs[..|cs| - 1], k) == LinesBefore(cs, k)
  {
    if k > 0 { LinesBeforePrefix(cs, k - 1); }
  }

  /** The offsets are the true ones for every part exactly when no part but the
      last is empty: an empty part counts no line but holds one. */
  lemma OffsetsExact(cs: seq<string>)
    requires cs != []
    ensures (forall k :: 0 <= k < |cs| ==> Offset(cs, k) == LinesBefore(cs, k)) <==>
            (forall k :: 0 <= k < |cs| - 1 ==> cs[k] != "")
  {
    if forall k :: 0 <= k < |cs| - 1 ==> cs[k] != "" {
      forall k | 0 <= k < |cs| ensures Offset(cs, k) == LinesBefore(cs, k) { OffsetUpTo(cs, k); }
    } else {
      var k :| 0 <= k < |cs| - 1 && cs[k] == "";
      LineCountIsSplitLength(cs[k]);
      assert Offset(cs, k + 1) == Offset(cs, k);
      assert LinesBefore(cs, k + 1) == LinesBefore(cs, k) + 1;
    }
  }

  lemma {:induction false} OffsetUpTo(cs: seq<string>, k: nat)
    requires k <= |cs| && forall i :: 0 <= i < k ==> cs[i] != ""
    ensures Offset(cs, k) == LinesBefore(cs, k)
  {
    if k > 0 {
      OffsetUpTo(cs, k - 1);
      LineCountIsSplitLength(cs[k - 1]);
    }
  }

  /** Line j of part k, shifted by the part's offset, is the same line of the
      rejoined file: a hit on a part cites true line numbers. */
  lemma ShiftedLineIsOwnLine(cs: seq<string>, k: nat, j: nat)
    requires k < |cs| && forall i :: 0 <= i < |cs| - 1 ==> cs[i] != ""
    requires j < |Split(cs[k])|
    ensures Offset(cs, k) + j < |Split(Join(cs))|
    ensures Split(Join(cs))[Offset(cs, k) + j] == Split(cs[k])[j]
  {
    OffsetUpTo(cs, k);
    RejoinedLines(cs);
    PartLineAt(cs, k, j);
  }

  lemma PartLineAt(cs: seq<string>, k: nat, j: nat)
    requires k < |cs| && j < |Split(cs[k])|
    ensures LinesBefore(cs, k) + j < |AllLines(cs)| && AllLines(cs)[LinesBefore(cs, k) + j] == Split(cs[k])[j]
  {
    PartLines(cs, k);
  }
}
