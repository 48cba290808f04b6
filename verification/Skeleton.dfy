/** Elision of long excerpts for broad queries (internal/indexer/broad.go). */
module Skeleton {
  import opened Text

  const MIN_LINES := 28
  const HEAD_LINES: nat := 12
  const TERM_KEEPS: nat := 10

  // ------------------------------------------------------------ which lines stay

  predicate Contains(s: string, sub: string) {
    exists i :: 0 <= i <= |s| && sub <= s[i..]
  }

  /** The lowered line has one of the query's terms. */
  predicate Mentions(lower: string -> string, terms: seq<string>, line: string) {
    exists k :: 0 <= k < |terms| && terms[k] != "" && Contains(lower(line), terms[k])
  }

  /** How many lines after the head and before line i mention a term. */
  function Mentioned(lower: string -> string, terms: seq<string>, lines: seq<string>, i: nat): nat
    requires i <= |lines|
  {
    if i <= HEAD_LINES then 0
    else Mentioned(lower, terms, lines, i - 1) + if Mentions(lower, terms, lines[i - 1]) then 1 else 0
  }

  predicate Keeps(lower: string -> string, terms: seq<string>, lines: seq<string>, i: nat)
    requires i < |lines|
  {
    i < HEAD_LINES || (Mentions(lower, terms, lines[i]) && Mentioned(lower, terms, lines, i) < TERM_KEEPS)
  }

  function KeepsOf(lower: string -> string, terms: seq<string>, lines: seq<string>): (keep: seq<bool>)
    ensures |keep| == |lines|
    ensures forall i :: 0 <= i < |lines| ==> keep[i] == Keeps(lower, terms, lines, i)
  {
    seq(|lines|, i requires 0 <= i < |lines| => Keeps(lower, terms, lines, i))
  }

  /** A non-empty term stands somewhere in the lowered line. */
  ghost predicate Has(lower: string -> string, terms: seq<string>, line: string) {
    exists k, a, b :: 0 <= k < |terms| && terms[k] != "" && lower(line) == a + terms[k] + b
  }

  lemma MentionsExactly(lower: string -> string, terms: seq<string>, line: string)
    ensures Mentions(lower, terms, line) <==> Has(lower, terms, line)
  {
    var s := lower(line);
    if k :| 0 <= k < |terms| && terms[k] != "" && Contains(s, terms[k]) {
      var i :| 0 <= i <= |s| && terms[k] <= s[i..];
      assert s == s[..i] + terms[k] + s[i..][|terms[k]|..];
    }
    if k, a, b :| 0 <= k < |terms| && terms[k] != "" && s == a + terms[k] + b {
      assert s[|a|..] == terms[k] + b;
      assert Contains(s, terms[k]);
    }
  }

  /** The lines from the thirteenth on and before line i that have a term. */
  ghost function Having(lower: string -> string, terms: seq<string>, lines: seq<string>, i: nat): set<nat>
    requires i <= |lines|
  {
    set j: nat | 12 <= j < i && Has(lower, terms, lines[j])
  }

  lemma HavingStep(lower: string -> string, terms: seq<string>, lines: seq<string>, i: nat)
    requires 12 < i <= |lines|
    ensures var before, now := Having(lower, terms, lines, i - 1), Having(lower, terms, lines, i);
            i - 1 !in before && now == before + if Has(lower, terms, lines[i - 1]) then {i - 1} else {}
  {
  }

  lemma {:induction false} MentionedIs(lower: string -> string, terms: seq<string>, lines: seq<string>, i: nat)
    requires i <= |lines|
    ensures Mentioned(lower, terms, lines, i) == |Having(lower, terms, lines, i)|
  {
    if i > HEAD_LINES {
      MentionedIs(lower, terms, lines, i - 1);
      MentionsExactly(lower, terms, lines[i - 1]);
      HavingStep(lower, terms, lines, i);
    } else {
      assert Having(lower, terms, lines, i) == {};
    }
  }

  /** Which lines stay: the first twelve, and of the later ones with a term the first ten. */
  lemma KeptExactly(lower: string -> string, terms: seq<string>, lines: seq<string>, i: nat)
    requires i < |lines|
    ensures Keeps(lower, terms, lines, i) <==>
            i < 12 || (Has(lower, terms, lines[i]) && |Having(lower, terms, lines, i)| < 10)
  {
    MentionsExactly(lower, terms, lines[i]);
    MentionedIs(lower, terms, lines, i);
  }

  // ------------------------------------------------------------------ the pieces

  /** A line shown, or lines from..to (exclusive) elided. */
  datatype Piece = Shown(line: nat) | Elided(from: nat, to: nat)

  /** The end of the run of dropped lines at i. */
  function RunEnd(keep: seq<bool>, i: nat): (j: nat)
    requires i <= |keep|
    ensures i <= j <= |keep| && (j < |keep| ==> keep[j])
    ensures forall k :: i <= k < j ==> !keep[k]
    decreases |keep| - i
  {
    if i == |keep| || keep[i] then i else RunEnd(keep, i + 1)
  }

  function ShownFrom(i: nat, j: nat): (ps: seq<Piece>)
    requires i <= j
    ensures |ps| == j - i && forall k :: 0 <= k < j - i ==> ps[k] == Shown(i + k)
  {
    seq(j - i, k requires 0 <= k < j - i => Shown(i + k))
  }

  /** The walk from line i: kept lines and runs of at most two are shown, longer runs
      elided. */
  function PiecesFrom(keep: seq<bool>, i: nat): seq<Piece>
    requires i <= |keep|
    decreases |keep| - i
  {
    if i == |keep| then []
    else if keep[i] then [Shown(i)] + PiecesFrom(keep, i + 1)
    else
      var j := RunEnd(keep, i);
      if j - i <= 2 then ShownFrom(i, j) + PiecesFrom(keep, j) else [Elided(i, j)] + PiecesFrom(keep, j)
  }

  function First(p: Piece): nat { if p.Shown? then p.line else p.from }
  function Next(p: Piece): nat { if p.Shown? then p.line + 1 else p.to }

  /** The pieces run from line i to line n without gap or overlap. */
  ghost predicate Runs(ps: seq<Piece>, i: nat, n: nat) {
    if ps == [] then i == n else First(ps[0]) == i && i < Next(ps[0]) && Runs(ps[1..], Next(ps[0]), n)
  }

  /** An elided run has at least three lines, none of them kept, and is as long as
      it can be. */
  ghost predicate Warranted(keep: seq<bool>, p: Piece) {
    p.Elided? ==>
      && p.from + 3 <= p.to <= |keep|
      && (forall k :: p.from <= k < p.to ==> !keep[k])
      && (p.to < |keep| ==> keep[p.to]) && (p.from > 0 ==> keep[p.from - 1])
  }

  lemma {:induction false} RunsAfterShown(i: nat, j: nat, rest: seq<Piece>, n: nat)
    requires i <= j && Runs(rest, j, n)
    ensures Runs(ShownFrom(i, j) + rest, i, n)
    decreases j - i
  {
    if i == j {
      assert ShownFrom(i, j) + rest == rest;
    } else {
      RunsAfterShown(i + 1, j, rest, n);
      assert (ShownFrom(i, j) + rest)[1..] == ShownFrom(i + 1, j) + rest;
    }
  }

  lemma {:induction false} PiecesRun(keep: seq<bool>, i: nat)
    requires i <= |keep|
    ensures Runs(PiecesFrom(keep, i), i, |keep|)
    decreases |keep| - i
  {
    if i < |keep| {
      if keep[i] {
        PiecesRun(keep, i + 1);
        assert ([Shown(i)] + PiecesFrom(keep, i + 1))[1..] == PiecesFrom(keep, i + 1);
      } else {
        var j := RunEnd(keep, i);
        PiecesRun(keep, j);
        RunsAfterShown(i, j, PiecesFrom(keep, j), |keep|);
        assert ([Elided(i, j)] + PiecesFrom(keep, j))[1..] == PiecesFrom(keep, j);
      }
    }
  }

  lemma {:induction false} PiecesWarranted(keep: seq<bool>, i: nat, p: Piece)
    requires i <= |keep| && (i == 0 || keep[i - 1] || (i < |keep| && keep[i]) || i == |keep|)
    requires p in PiecesFrom(keep, i)
    ensures Warranted(keep, p)
    decreases |keep| - i
  {
    if keep[i] {
      if p in PiecesFrom(keep, i + 1) { PiecesWarranted(keep, i + 1, p); }
    } else {
      var j := RunEnd(keep, i);
      if p in PiecesFrom(keep, j) { PiecesWarranted(keep, j, p); }
    }
  }

  /** A kept line is shown. */
  lemma {:induction false} KeptIsShown(keep: seq<bool>, i: nat, k: nat)
    requires i <= k < |keep| && keep[k]
    ensures Shown(k) in PiecesFrom(keep, i)
    decreases |keep| - i
  {
    if keep[i] {
      if i < k { KeptIsShown(keep, i + 1, k); }
    } else {
      KeptIsShown(keep, RunEnd(keep, i), k);
    }
  }

  // ------------------------------------------------------------------- lossless

  /** The file lines a piece stands for: the line shown, or the cited ones read from
      the file, in the citation's numbers. */
  function Reading(lines: seq<string>, file: seq<string>, startLine: nat, p: Piece): seq<string>
    requires startLine >= 1 && startLine - 1 + |lines| <= |file| && First(p) < Next(p) <= |lines|
  {
    if p.Shown? then [lines[p.line]] else Cited(file, CitedFrom(startLine, p), CitedTo(startLine, p))
  }

  function CitedFrom(startLine: nat, p: Piece): nat
    requires p.Elided?
  {
    startLine + p.from
  }

  function CitedTo(startLine: nat, p: Piece): int
    requires p.Elided?
  {
    startLine + p.to - 1
  }

  /** Lines a to b of a file, counted from 1, both included. */
  function Cited(file: seq<string>, a: int, b: int): seq<string>
    requires 1 <= a <= b + 1 <= |file| + 1
  {
    file[a - 1..b]
  }

  ghost predicate Within(ps: seq<Piece>, n: nat) {
    forall k :: 0 <= k < |ps| ==> First(ps[k]) < Next(ps[k]) <= n
  }

  lemma {:induction false} RunsWithin(ps: seq<Piece>, i: nat, n: nat)
    requires Runs(ps, i, n)
    ensures i <= n && Within(ps, n)
  {
    if ps != [] {
      RunsWithin(ps[1..], Next(ps[0]), n);
      assert forall k :: 0 < k < |ps| ==> ps[k] == ps[1..][k - 1];
    }
  }

  function ReadAll(lines: seq<string>, file: seq<string>, startLine: nat, ps: seq<Piece>): seq<string>
    requires startLine >= 1 && startLine - 1 + |lines| <= |file| && Within(ps, |lines|)
  {
    if ps == [] then []
    else
      assert forall k :: 0 < k < |ps| ==> ps[k] == ps[1..][k - 1];
      Reading(lines, file, startLine, ps[0]) + ReadAll(lines, file, startLine, ps[1..])
  }

  /** Reading each shown line where it stands and each citation in the file gives the
      excerpt back, line for line. */
  lemma {:induction false} ReadsBack(lines: seq<string>, file: seq<string>, startLine: nat, ps: seq<Piece>, i: nat)
    requires startLine >= 1 && startLine - 1 + |lines| <= |file|
    requires forall k :: 0 <= k < |lines| ==> file[startLine - 1 + k] == lines[k]
    requires Runs(ps, i, |lines|)
    ensures i <= |lines| && Within(ps, |lines|)
    ensures ReadAll(lines, file, startLine, ps) == lines[i..]
  {
    RunsWithin(ps, i, |lines|);
    if ps != [] {
      ReadsBack(lines, file, startLine, ps[1..], Next(ps[0]));
      PieceReads(lines, file, startLine, ps[0]);
      Spliced(lines, i, Next(ps[0]));
    }
  }

  lemma PieceReads(lines: seq<string>, file: seq<string>, startLine: nat, p: Piece)
    requires startLine >= 1 && startLine - 1 + |lines| <= |file| && First(p) < Next(p) <= |lines|
    requires forall k :: 0 <= k < |lines| ==> file[startLine - 1 + k] == lines[k]
    ensures Reading(lines, file, startLine, p) == lines[First(p)..Next(p)]
  {
  }

  lemma Spliced(lines: seq<string>, i: nat, j: nat)
    requires i <= j <= |lines|
    ensures lines[i..j] + lines[j..] == lines[i..]
  {
  }

  // ------------------------------------------------------------------- the text

  function Render(path: string, startLine: nat, lines: seq<string>, p: Piece): string
    requires First(p) < Next(p) <= |lines|
  {
    if p.Shown? then lines[p.line] + "\n"
    else "... (" + Itoa(p.to - p.from) + " lines omitted, read " + path + ":" + Itoa(CitedFrom(startLine, p)) + "-" +
         Itoa(CitedTo(startLine, p)) + ")\n"
  }

  function RenderAll(path: string, startLine: nat, lines: seq<string>, ps: seq<Piece>): string
    requires Within(ps, |lines|)
  {
    if ps == [] then ""
    else RenderAll(path, startLine, lines, ps[..|ps| - 1]) + Render(path, startLine, lines, ps[|ps| - 1])
  }

  function TrimNewlines(s: string): string {
    if s != "" && s[|s| - 1] == '\n' then TrimNewlines(s[..|s| - 1]) else s
  }

  /** Elision, and what it stands for: a short excerpt is untouched; of a long one
      the head and the first ten lines after it that mention a term are shown, every
      elided run cites at least three lines, and the pieces read back as the excerpt. */
  lemma ElisionIsLossless(lower: string -> string, terms: seq<string>, lines: seq<string>, file: seq<string>, startLine: nat)
    requires startLine >= 1 && startLine - 1 + |lines| <= |file|
    requires forall k :: 0 <= k < |lines| ==> file[startLine - 1 + k] == lines[k]
    ensures var keep := KeepsOf(lower, terms, lines);
            var ps := PiecesFrom(keep, 0);
            && Runs(ps, 0, |lines|) && Within(ps, |lines|)
            && ReadAll(lines, file, startLine, ps) == lines
            && (forall p :: p in ps ==> Warranted(keep, p))
            && (forall k :: 0 <= k < |lines| && Keeps(lower, terms, lines, k) ==> Shown(k) in ps)
  {
    var keep := KeepsOf(lower, terms, lines);
    var ps := PiecesFrom(keep, 0);
    PiecesRun(keep, 0);
    ReadsBack(lines, file, startLine, ps, 0);
    assert lines[0..] == lines;
    forall p | p in ps ensures Warranted(keep, p) { PiecesWarranted(keep, 0, p); }
    forall k | 0 <= k < |lines| && Keeps(lower, terms, lines, k) ensures Shown(k) in ps { KeptIsShown(keep, 0, k); }
  }

  // ----------------------------------------------------------- reading the text

  /** A line that tells the reader to read lines a to b of the path, and that these are
      all the lines left out. */
  function Pointer(path: string, a: nat, b: nat): string
    requires a <= b
  {
    "... (" + Itoa(b - a + 1) + " lines omitted, read " + path + ":" + Itoa(a) + "-" + Itoa(b) + ")"
  }

  ghost predicate Points(path: string, l: string, a: nat, b: nat) {
    a <= b && l == Pointer(path, a, b)
  }

  lemma PointerPieces(path: string, a: nat, b: nat)
    requires a <= b
    ensures Pointer(path, a, b) ==
            "... (" + (Itoa(b - a + 1) + [' '] + (("lines omitted, read " + path + ":") + (Itoa(a) + ['-'] + (Itoa(b) + [')'] + []))))
  {
    var x, y, z := Itoa(b - a + 1), Itoa(a), Itoa(b);
    assert " lines omitted, read " == [' '] + "lines omitted, read ";
    assert "... (" + x + " lines omitted, read " + path + ":" + y + "-" + z + ")" ==
           "... (" + (x + [' '] + (("lines omitted, read " + path + ":") + (y + ['-'] + (z + [')'] + []))));
  }

  lemma SameTail(p: string, x: string, y: string)
    requires p + x == p + y
    ensures x == y
  {
    assert (p + x)[|p|..] == x && (p + y)[|p|..] == y;
  }

  lemma NotInDigits(n: nat, c: char)
    requires c < '0'
    ensures c !in Itoa(n)
  {
    ValueItoa(n);
  }

  /** A line points at one range at most. */
  lemma PointsOnce(path: string, l: string, a: nat, b: nat, c: nat, d: nat)
    requires Points(path, l, a, b) && Points(path, l, c, d)
    ensures a == c && b == d
  {
    PointerPieces(path, a, b);
    PointerPieces(path, c, d);
    var s, t := Itoa(b) + [')'] + [], Itoa(d) + [')'] + [];
    var u, v := Itoa(a) + ['-'] + s, Itoa(c) + ['-'] + t;
    var p := "lines omitted, read " + path + ":";
    SameTail("... (", Itoa(b - a + 1) + [' '] + (p + u), Itoa(d - c + 1) + [' '] + (p + v));
    NotInDigits(b - a + 1, ' ');
    NotInDigits(d - c + 1, ' ');
    CutUnique(Itoa(b - a + 1), p + u, Itoa(d - c + 1), p + v, ' ');
    SameTail(p, u, v);
    NotInDigits(a, '-');
    NotInDigits(c, '-');
    CutUnique(Itoa(a), s, Itoa(c), t, '-');
    NotInDigits(b, ')');
    NotInDigits(d, ')');
    CutUnique(Itoa(b), [], Itoa(d), [], ')');
    ItoaInjective(a, c);
    ItoaInjective(b, d);
  }

  /** What a reader takes from one line of the text: the lines it points at, or itself. */
  ghost function LineMeans(path: string, file: seq<string>, l: string): seq<string> {
    if exists a: nat, b: nat :: Points(path, l, a, b) && 1 <= a && b <= |file| then
      var a: nat, b: nat :| Points(path, l, a, b) && 1 <= a && b <= |file|;
      file[a - 1..b]
    else [l]
  }

  ghost function LinesMean(path: string, file: seq<string>, ls: seq<string>): seq<string> {
    if ls == [] then [] else LinesMean(path, file, ls[..|ls| - 1]) + LineMeans(path, file, ls[|ls| - 1])
  }

  /** The line of the text that a piece becomes. */
  function LineOf(path: string, startLine: nat, lines: seq<string>, p: Piece): string
    requires First(p) < Next(p) <= |lines|
  {
    if p.Shown? then lines[p.line] else Pointer(path, startLine + p.from, startLine + p.to - 1)
  }

  lemma RenderIsLine(path: string, startLine: nat, lines: seq<string>, p: Piece)
    requires First(p) < Next(p) <= |lines|
    ensures Render(path, startLine, lines, p) == LineOf(path, startLine, lines, p) + "\n"
  {
    if p.Elided? {
      var a, b := startLine + p.from, startLine + p.to - 1;
      assert b - a + 1 == p.to - p.from && CitedFrom(startLine, p) == a && CitedTo(startLine, p) == b;
      assert ")\n" == ")" + "\n";
    }
  }

  lemma LineHasNoNewline(path: string, startLine: nat, lines: seq<string>, p: Piece)
    requires First(p) < Next(p) <= |lines| && Lines(lines) && '\n' !in path
    ensures '\n' !in LineOf(path, startLine, lines, p)
  {
    if p.Elided? {
      var a, b := startLine + p.from, startLine + p.to - 1;
      NotInDigits(a, '\n');
      NotInDigits(b, '\n');
      NotInDigits(b - a + 1, '\n');
    }
  }

  lemma SameHead(x: seq<string>, y: seq<string>, l: string)
    requires x + [l] == y + [l]
    ensures x == y
  {
    assert (x + [l])[..|x|] == x && (y + [l])[..|y|] == y;
  }

  /** A line put behind a text of whole lines. */
  lemma SplitOneMore(text: string, before: seq<string>, l: string)
    requires '\n' !in l && Split(text) == before + [""]
    ensures Split(text + (l + "\n")) == before + [l] + [""]
  {
    SplitLine(l);
    SplitBehind(text, before, l);
    assert text + (l + "\n") == (text + l) + "\n" + "";
    SplitAtNewline(text + l, "");
    assert Split("") == [""];
  }

  lemma {:induction false} SplitBehind(text: string, before: seq<string>, l: string)
    requires '\n' !in l && Split(text) == before + [""]
    ensures Split(text + l) == before + [l]
    decreases |text|
  {
    if text == "" {
      assert Split(text) == [""] && before == [];
      assert text + l == l;
      SplitLine(l);
    } else {
      LastBreak(text, before);
      var head := text[..|text| - 1];
      assert text + l == head + "\n" + l && text == head + "\n" + "";
      SplitAtNewline(head, l);
      SplitAtNewline(head, "");
      SplitLine(l);
      SameHead(Split(head), before, "");
    }
  }

  /** A text whose last line is empty ends with a newline. */
  lemma {:induction false} LastBreak(text: string, before: seq<string>)
    requires text != "" && Split(text) == before + [""]
    ensures text[|text| - 1] == '\n'
  {
    JoinSplit(text);
    if before != [] { JoinTail(before); }
  }

  lemma {:induction false} JoinTail(before: seq<string>)
    requires before != []
    ensures Join(before + [""]) != "" && Join(before + [""])[|Join(before + [""])| - 1] == '\n'
  {
    var ls := before + [""];
    if |before| == 1 {
      assert ls[1..] == [""] && Join(ls) == before[0] + "\n" + "";
    } else {
      assert ls[1..] == before[1..] + [""];
      JoinTail(before[1..]);
    }
  }

  /** The text consists of the pieces' lines. */
  function LinesOfPieces(path: string, startLine: nat, lines: seq<string>, ps: seq<Piece>): (r: seq<string>)
    requires Within(ps, |lines|)
    ensures |r| == |ps| && forall k :: 0 <= k < |ps| ==> r[k] == LineOf(path, startLine, lines, ps[k])
  {
    seq(|ps|, k requires 0 <= k < |ps| => LineOf(path, startLine, lines, ps[k]))
  }

  lemma OneLineMore(path: string, startLine: nat, lines: seq<string>, ps: seq<Piece>)
    requires Within(ps, |lines|) && ps != []
    ensures LinesOfPieces(path, startLine, lines, ps) ==
            LinesOfPieces(path, startLine, lines, ps[..|ps| - 1]) + [LineOf(path, startLine, lines, ps[|ps| - 1])]
  {
  }

  lemma {:induction false} TextIsLines(path: string, startLine: nat, lines: seq<string>, ps: seq<Piece>)
    requires Within(ps, |lines|) && Lines(lines) && '\n' !in path
    ensures Split(RenderAll(path, startLine, lines, ps)) == LinesOfPieces(path, startLine, lines, ps) + [""]
  {
    if ps != [] {
      var init, last := ps[..|ps| - 1], ps[|ps| - 1];
      TextIsLines(path, startLine, lines, init);
      RenderIsLine(path, startLine, lines, last);
      LineHasNoNewline(path, startLine, lines, last);
      SplitOneMore(RenderAll(path, startLine, lines, init), LinesOfPieces(path, startLine, lines, init),
                   LineOf(path, startLine, lines, last));
      OneLineMore(path, startLine, lines, ps);
    }
  }

  /** A shown line means itself unless it looks like a pointer, and a pointer means what
      was left out. */
  lemma LineReads(path: string, startLine: nat, lines: seq<string>, file: seq<string>, p: Piece)
    requires startLine >= 1 && startLine - 1 + |lines| <= |file| && First(p) < Next(p) <= |lines|
    requires p.Shown? ==> forall a, b :: !Points(path, lines[p.line], a, b)
    ensures LineMeans(path, file, LineOf(path, startLine, lines, p)) == Reading(lines, file, startLine, p)
  {
    if p.Elided? {
      var l, a, b := LineOf(path, startLine, lines, p), startLine + p.from, startLine + p.to - 1;
      assert Points(path, l, a, b);
      forall c: nat, d: nat | Points(path, l, c, d) ensures c == a && d == b { PointsOnce(path, l, a, b, c, d); }
    }
  }

  lemma {:induction false} LinesRead(path: string, startLine: nat, lines: seq<string>, file: seq<string>, ps: seq<Piece>)
    requires startLine >= 1 && startLine - 1 + |lines| <= |file| && Within(ps, |lines|)
    requires forall k :: 0 <= k < |lines| ==> forall a, b :: !Points(path, lines[k], a, b)
    ensures LinesMean(path, file, LinesOfPieces(path, startLine, lines, ps)) == ReadAll(lines, file, startLine, ps)
  {
    if ps != [] {
      var init, last := ps[..|ps| - 1], ps[|ps| - 1];
      LinesRead(path, startLine, lines, file, init);
      LineReads(path, startLine, lines, file, last);
      var all := LinesOfPieces(path, startLine, lines, ps);
      assert all[..|ps| - 1] == LinesOfPieces(path, startLine, lines, init);
      ReadAllLast(lines, file, startLine, ps);
    }
  }

  lemma {:induction false} ReadAllLast(lines: seq<string>, file: seq<string>, startLine: nat, ps: seq<Piece>)
    requires startLine >= 1 && startLine - 1 + |lines| <= |file| && Within(ps, |lines|) && ps != []
    ensures ReadAll(lines, file, startLine, ps) ==
            ReadAll(lines, file, startLine, ps[..|ps| - 1]) + Reading(lines, file, startLine, ps[|ps| - 1])
  {
    var init, tail, last := ps[..|ps| - 1], ps[1..], ps[|ps| - 1];
    if |ps| > 1 {
      ReadAllLast(lines, file, startLine, tail);
      assert tail[..|tail| - 1] == init[1..] && tail[|tail| - 1] == last;
      ReadAllFirst(lines, file, startLine, ps);
      ReadAllFirst(lines, file, startLine, init);
      Regroup(Reading(lines, file, startLine, ps[0]), ReadAll(lines, file, startLine, init[1..]), Reading(lines, file, startLine, last));
    } else {
      ReadAllFirst(lines, file, startLine, ps);
      assert tail == [] && init == [];
    }
  }

  lemma ReadAllFirst(lines: seq<string>, file: seq<string>, startLine: nat, ps: seq<Piece>)
    requires startLine >= 1 && startLine - 1 + |lines| <= |file| && Within(ps, |lines|) && ps != []
    ensures Within(ps[1..], |lines|)
    ensures ReadAll(lines, file, startLine, ps) == Reading(lines, file, startLine, ps[0]) + ReadAll(lines, file, startLine, ps[1..])
  {
    forall k | 0 <= k < |ps[1..]| ensures First(ps[1..][k]) < Next(ps[1..][k]) <= |lines| { assert ps[1..][k] == ps[k + 1]; }
  }

  lemma Regroup(a: seq<string>, b: seq<string>, c: seq<string>)
    ensures a + (b + c) == (a + b) + c
  {
  }

  /** The rendered text reads back. A reader who takes every line as it stands, and for a
      line that points at a range of the path reads that range of the file, has the
      excerpt, line for line; unless a line of the excerpt itself looks like a pointer. */
  lemma TextReadsBack(lower: string -> string, terms: seq<string>, path: string, startLine: nat, lines: seq<string>,
                      file: seq<string>)
    requires startLine >= 1 && startLine - 1 + |lines| <= |file| && Lines(lines) && '\n' !in path
    requires forall k :: 0 <= k < |lines| ==> file[startLine - 1 + k] == lines[k]
    requires forall k :: 0 <= k < |lines| ==> forall a, b :: !Points(path, lines[k], a, b)
    ensures var ls := Split(Rendered(path, startLine, lines, KeepsOf(lower, terms, lines)));
            ls[|ls| - 1] == "" && LinesMean(path, file, ls[..|ls| - 1]) == lines
  {
    var ps := PiecesFrom(KeepsOf(lower, terms, lines), 0);
    ElisionIsLossless(lower, terms, lines, file, startLine);
    TextIsLines(path, startLine, lines, ps);
    LinesRead(path, startLine, lines, file, ps);
    var ls := Split(Rendered(path, startLine, lines, KeepsOf(lower, terms, lines)));
    assert ls[..|ls| - 1] == LinesOfPieces(path, startLine, lines, ps);
  }

  /** Trimming takes newlines off the end and nothing else. */
  lemma {:induction false} TrimNewlinesIs(s: string) returns (k: nat)
    ensures k <= |s| && TrimNewlines(s) == s[..k] && (forall i :: k <= i < |s| ==> s[i] == '\n') && (k > 0 ==> s[k - 1] != '\n')
  {
    k := |s|;
    if s != "" && s[|s| - 1] == '\n' {
      var init := s[..|s| - 1];
      k := TrimNewlinesIs(init);
      assert init[..k] == s[..k];
      assert forall i :: 0 <= i < |init| ==> init[i] == s[i];
    }
  }

  // -------------------------------------------------------------- the algorithm

  method LineMentions(lower: string -> string, terms: seq<string>, line: string) returns (found: bool)
    ensures found == Mentions(lower, terms, line)
  {
    found := false;
    var lowered := lower(line);
    for k := 0 to |terms|
      invariant forall j :: 0 <= j < k ==> !(terms[j] != "" && Contains(lowered, terms[j]))
    {
      if terms[k] != "" && Contains(lowered, terms[k]) { return true; }
    }
  }

  /** The first lines, whatever they say. */
  method MarkHead(n: nat) returns (keep: array<bool>)
    ensures fresh(keep) && keep.Length == n && forall k :: 0 <= k < n ==> keep[k] == (k < HEAD_LINES)
  {
    keep := new bool[n](i => false);
    var i := 0;
    while i < HEAD_LINES && i < n
      invariant 0 <= i <= n && i <= HEAD_LINES
      invariant forall k :: 0 <= k < n ==> keep[k] == (k < i)
    {
      keep[i] := true;
      i := i + 1;
    }
  }

  /** The marks of the first i lines are made, and none after them. */
  ghost predicate MarkedTo(lower: string -> string, terms: seq<string>, lines: seq<string>, i: nat, keep: seq<bool>)
    requires |keep| == |lines|
  {
    && (forall k :: 0 <= k < |lines| && k < i ==> keep[k] == Keeps(lower, terms, lines, k))
    && (forall k :: i <= k < |lines| ==> !keep[k])
  }

  lemma MarkNext(lower: string -> string, terms: seq<string>, lines: seq<string>, i: nat, before: seq<bool>, after: seq<bool>)
    requires |before| == |after| == |lines| && i < |lines| && MarkedTo(lower, terms, lines, i, before)
    requires after == before[i := Keeps(lower, terms, lines, i)]
    ensures MarkedTo(lower, terms, lines, i + 1, after)
  {
  }

  lemma MarksDone(lower: string -> string, terms: seq<string>, lines: seq<string>, i: nat, keep: seq<bool>)
    requires |keep| == |lines| && MarkedTo(lower, terms, lines, i, keep)
    requires i >= HEAD_LINES && (i < |lines| ==> Mentioned(lower, terms, lines, i) >= TERM_KEEPS)
    ensures keep == KeepsOf(lower, terms, lines)
  {
    forall k | i <= k < |lines| ensures !Keeps(lower, terms, lines, k) { MentionedGrows(lower, terms, lines, i, k); }
  }

  method MarkKept(lower: string -> string, terms: seq<string>, lines: seq<string>) returns (keep: array<bool>)
    ensures fresh(keep) && keep[..] == KeepsOf(lower, terms, lines)
  {
    keep := MarkHead(|lines|);
    var kept, i := 0, HEAD_LINES;
    while i < |lines| && kept < TERM_KEEPS
      invariant HEAD_LINES <= i && (i <= |lines| || i == HEAD_LINES)
      invariant i <= |lines| ==> kept == Mentioned(lower, terms, lines, i) && kept <= TERM_KEEPS
      invariant MarkedTo(lower, terms, lines, i, keep[..])
    {
      ghost var before := keep[..];
      var found := LineMentions(lower, terms, lines[i]);
      if found {
        keep[i] := true;
        kept := kept + 1;
      }
      assert keep[..] == before[i := found];
      MarkNext(lower, terms, lines, i, before, keep[..]);
      i := i + 1;
    }
    MarksDone(lower, terms, lines, i, keep[..]);
  }

  lemma {:induction false} MentionedGrows(lower: string -> string, terms: seq<string>, lines: seq<string>, i: nat, k: nat)
    requires i <= k <= |lines|
    ensures Mentioned(lower, terms, lines, i) <= Mentioned(lower, terms, lines, k)
    decreases k
  {
    if i < k { MentionedGrows(lower, terms, lines, i, k - 1); }
  }

  /** The pieces of the marks, rendered. */
  function Rendered(path: string, startLine: nat, lines: seq<string>, keep: seq<bool>): string
    requires |keep| == |lines|
  {
    PiecesRun(keep, 0);
    RunsWithin(PiecesFrom(keep, 0), 0, |lines|);
    RenderAll(path, startLine, lines, PiecesFrom(keep, 0))
  }

  /** skeletonize. */
  method Skeletonize(lower: string -> string, path: string, startLine: nat, content: string, terms: seq<string>)
    returns (text: string)
    ensures var lines := Split(content);
            text == if |lines| <= MIN_LINES then content
                    else TrimNewlines(Rendered(path, startLine, lines, KeepsOf(lower, terms, lines)))
  {
    var lines := Split(content);
    if |lines| <= MIN_LINES { return content; }
    var keep := MarkKept(lower, terms, lines);
    var b := WriteSkeleton(path, startLine, lines, keep);
    text := TrimNewlines(b);
  }

  /** One more piece rendered. */
  lemma RenderOneMore(path: string, startLine: nat, lines: seq<string>, done: seq<Piece>, p: Piece, rest: seq<Piece>)
    requires Within(done, |lines|) && First(p) < Next(p) <= |lines|
    ensures Within(done + [p], |lines|) && (done + [p]) + rest == done + ([p] + rest)
    ensures RenderAll(path, startLine, lines, done + [p]) ==
            RenderAll(path, startLine, lines, done) + Render(path, startLine, lines, p)
  {
    assert (done + [p])[..|done|] == done;
  }

  lemma NextShown(i: nat, j: nat, rest: seq<Piece>)
    requires i < j
    ensures ShownFrom(i, j) + rest == [Shown(i)] + (ShownFrom(i + 1, j) + rest)
  {
  }

  /** A run too short to elide, line by line. */
  method WriteShown(path: string, startLine: nat, lines: seq<string>, from: nat, to: nat, text: string,
                    ghost before: seq<Piece>, ghost after: seq<Piece>)
    returns (b: string, ghost done: seq<Piece>)
    requires from <= to <= |lines| && Within(before, |lines|) && text == RenderAll(path, startLine, lines, before)
    ensures Within(done, |lines|) && b == RenderAll(path, startLine, lines, done)
    ensures done + after == before + (ShownFrom(from, to) + after)
  {
    b, done := text, before;
    ghost var rest := ShownFrom(from, to) + after;
    ghost var goal := before + rest;
    for i := from to to
      invariant Within(done, |lines|) && b == RenderAll(path, startLine, lines, done)
      invariant rest == ShownFrom(i, to) + after && done + rest == goal
    {
      b := b + (lines[i] + "\n");
      NextShown(i, to, after);
      rest := ShownFrom(i + 1, to) + after;
      RenderOneMore(path, startLine, lines, done, Shown(i), rest);
      done := done + [Shown(i)];
    }
    assert rest == after;
  }

  /** The run of dropped lines from i. */
  method FindRun(keep: array<bool>, i: nat) returns (j: nat)
    requires i <= keep.Length
    ensures j == RunEnd(keep[..], i)
  {
    j := i;
    while j < keep.Length && !keep[j]
      invariant i <= j <= keep.Length && RunEnd(keep[..], i) == RunEnd(keep[..], j)
    {
      j := j + 1;
    }
  }

  /** A run of dropped lines: shown when too short to elide. */
  function RunPieces(i: nat, j: nat): seq<Piece>
    requires i <= j
  {
    if j - i <= 2 then ShownFrom(i, j) else [Elided(i, j)]
  }

  lemma PiecesStep(keep: seq<bool>, i: nat)
    requires i < |keep|
    ensures keep[i] ==> PiecesFrom(keep, i) == [Shown(i)] + PiecesFrom(keep, i + 1)
    ensures !keep[i] ==> i < RunEnd(keep, i)
    ensures var j := RunEnd(keep, i);
            !keep[i] ==> PiecesFrom(keep, i) == RunPieces(i, j) + PiecesFrom(keep, j)
  {
  }

  method WriteRun(path: string, startLine: nat, lines: seq<string>, from: nat, to: nat, text: string,
                  ghost before: seq<Piece>, ghost after: seq<Piece>)
    returns (b: string, ghost done: seq<Piece>)
    requires from < to <= |lines| && Within(before, |lines|) && text == RenderAll(path, startLine, lines, before)
    ensures Within(done, |lines|) && b == RenderAll(path, startLine, lines, done)
    ensures done + after == before + (RunPieces(from, to) + after)
  {
    if to - from <= 2 {
      b, done := WriteShown(path, startLine, lines, from, to, text, before, after);
    } else {
      b := text + Render(path, startLine, lines, Elided(from, to));
      RenderOneMore(path, startLine, lines, before, Elided(from, to), after);
      done := before + [Elided(from, to)];
    }
  }

  method WriteLine(path: string, startLine: nat, lines: seq<string>, i: nat, text: string, ghost before: seq<Piece>,
                   ghost after: seq<Piece>)
    returns (b: string, ghost done: seq<Piece>)
    requires i < |lines| && Within(before, |lines|) && text == RenderAll(path, startLine, lines, before)
    ensures Within(done, |lines|) && b == RenderAll(path, startLine, lines, done)
    ensures done + after == before + ([Shown(i)] + after)
  {
    b := text + (lines[i] + "\n");
    RenderOneMore(path, startLine, lines, before, Shown(i), after);
    done := before + [Shown(i)];
  }

  method WriteMarks(path: string, startLine: nat, lines: seq<string>, keep: array<bool>)
    returns (b: string, ghost done: seq<Piece>)
    requires keep.Length == |lines|
    ensures done == PiecesFrom(keep[..], 0) && Within(done, |lines|)
    ensures b == RenderAll(path, startLine, lines, done)
  {
    b, done := "", [];
    var i := 0;
    ghost var goal, rest := PiecesFrom(keep[..], 0), PiecesFrom(keep[..], 0);
    while i < |lines|
      invariant 0 <= i <= |lines| && rest == PiecesFrom(keep[..], i)
      invariant done + rest == goal && Within(done, |lines|) && b == RenderAll(path, startLine, lines, done)
    {
      PiecesStep(keep[..], i);
      var j := i + 1;
      if keep[i] {
        rest := PiecesFrom(keep[..], j);
        b, done := WriteLine(path, startLine, lines, i, b, done, rest);
      } else {
        j := FindRun(keep, i);
        rest := PiecesFrom(keep[..], j);
        b, done := WriteRun(path, startLine, lines, i, j, b, done, rest);
      }
      i := j;
    }
  }

  /** The walk over the kept marks, into the builder. */
  method WriteSkeleton(path: string, startLine: nat, lines: seq<string>, keep: array<bool>) returns (b: string)
    requires keep.Length == |lines|
    ensures b == Rendered(path, startLine, lines, keep[..])
  {
    ghost var done;
    b, done := WriteMarks(path, startLine, lines, keep);
  }
}
