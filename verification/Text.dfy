/** Strings as the server handles them: the byte order of sort.Strings, line
    splitting and joining, and decimal numerals. */
module Text {

  // ---------------------------------------------------------------- ordering

  /** The strict lexicographic order sort.Strings uses. */
  predicate Less(a: string, b: string) {
    b != [] && (a == [] || a[0] < b[0] || (a[0] == b[0] && Less(a[1..], b[1..])))
  }

  /** a comes before b exactly when at some place they agree before it and there a has
      ended and b has not, or a has the smaller character. */
  lemma {:induction false} LessIs(a: string, b: string)
    ensures Less(a, b) <==> exists k: nat :: Differs(a, b, k)
  {
    if a != [] && b != [] && a[0] == b[0] {
      LessIs(a[1..], b[1..]);
      if k: nat :| Differs(a[1..], b[1..], k) {
        assert a == [a[0]] + a[1..] && b == [b[0]] + b[1..];
        assert a[..k + 1] == [a[0]] + a[1..][..k] == b[..k + 1];
        assert Differs(a, b, k + 1);
      }
      if k: nat :| Differs(a, b, k) {
        assert k > 0;
        assert a[1..][..k - 1] == a[..k][1..] == b[1..][..k - 1];
        assert Differs(a[1..], b[1..], k - 1);
      }
    } else {
      if Less(a, b) { assert Differs(a, b, 0); }
    }
  }

  ghost predicate Differs(a: string, b: string, k: nat) {
    k <= |a| && k < |b| && a[..k] == b[..k] && (k == |a| || a[k] < b[k])
  }

  lemma {:induction false} LessIrreflexive(a: string)
    ensures !Less(a, a)
  {
    if a != [] { LessIrreflexive(a[1..]); }
  }

  lemma {:induction false} LessTransitive(a: string, b: string, c: string)
    requires Less(a, b) && Less(b, c)
    ensures Less(a, c)
  {
    if a != [] && a[0] == b[0] == c[0] { LessTransitive(a[1..], b[1..], c[1..]); }
  }

  lemma {:induction false} LessTotal(a: string, b: string)
    ensures a == b || Less(a, b) || Less(b, a)
  {
    if a != [] && b != [] && a[0] == b[0] {
      LessTotal(a[1..], b[1..]);
      assert a == [a[0]] + a[1..] && b == [b[0]] + b[1..];
    }
  }

  lemma LessAsymmetric(a: string, b: string)
    requires Less(a, b)
    ensures !Less(b, a)
  {
    if Less(b, a) { LessTransitive(a, b, a); LessIrreflexive(a); }
  }

  /** Ascending without repeats: what sort.Strings leaves of a set's elements. */
  ghost predicate StrictlySorted(xs: seq<string>) {
    forall i, j :: 0 <= i < j < |xs| ==> Less(xs[i], xs[j])
  }

  ghost predicate NoDuplicates<T>(xs: seq<T>) {
    forall i, j :: 0 <= i < j < |xs| ==> xs[i] != xs[j]
  }

  function Elements<T(==,!new)>(xs: seq<T>): (r: set<T>)
    ensures forall x :: x in r <==> x in xs
  {
    set x | x in xs
  }

  lemma ElementsEmpty<T(!new)>(xs: seq<T>)
    ensures Elements(xs) == {} <==> xs == []
  {
    if xs != [] { assert xs[0] in Elements(xs); }
  }

  lemma StrictlySortedNoDuplicates(xs: seq<string>)
    requires StrictlySorted(xs)
    ensures NoDuplicates(xs)
  {
    forall i, j | 0 <= i < j < |xs| ensures xs[i] != xs[j] { LessIrreflexive(xs[i]); }
  }

  /** A set of strings has one ascending listing, so anything computed from the
      listing is a function of the set. */
  lemma {:induction false} SortedListingUnique(xs: seq<string>, ys: seq<string>)
    requires StrictlySorted(xs) && StrictlySorted(ys)
    requires Elements(xs) == Elements(ys)
    ensures xs == ys
  {
    ElementsEmpty(xs);
    ElementsEmpty(ys);
    if xs == [] || ys == [] {
    } else {
      assert xs[0] in Elements(ys) && ys[0] in Elements(xs);
      var i :| 0 <= i < |ys| && ys[i] == xs[0];
      var j :| 0 <= j < |xs| && xs[j] == ys[0];
      if i != 0 && j != 0 { LessAsymmetric(xs[0], ys[0]); }
      assert xs[0] == ys[0];
      forall x ensures x in Elements(xs[1..]) <==> x in Elements(xs) && x != xs[0] {
        StrictlySortedNoDuplicates(xs);
        assert xs == [xs[0]] + xs[1..];
      }
      forall y ensures y in Elements(ys[1..]) <==> y in Elements(ys) && y != ys[0] {
        StrictlySortedNoDuplicates(ys);
        assert ys == [ys[0]] + ys[1..];
      }
      SortedListingUnique(xs[1..], ys[1..]);
      assert xs == [xs[0]] + xs[1..] && ys == [ys[0]] + ys[1..];
    }
  }

  function Insert(x: string, xs: seq<string>): seq<string> {
    if xs == [] || Less(x, xs[0]) then [x] + xs else [xs[0]] + Insert(x, xs[1..])
  }

  /** sort.Strings. */
  function Sort(xs: seq<string>): seq<string> {
    if xs == [] then [] else Insert(xs[0], Sort(xs[1..]))
  }

  lemma {:induction false} InsertSorted(x: string, xs: seq<string>)
    requires StrictlySorted(xs) && x !in xs
    ensures StrictlySorted(Insert(x, xs))
    ensures forall y :: y in Insert(x, xs) <==> y == x || y in xs
  {
    var r := Insert(x, xs);
    if xs == [] {
    } else if Less(x, xs[0]) {
      forall i, j | 0 <= i < j < |r| ensures Less(r[i], r[j]) {
        if i == 0 && j > 1 { LessTransitive(x, xs[0], xs[j - 1]); }
      }
    } else {
      LessTotal(x, xs[0]);
      InsertSorted(x, xs[1..]);
      var t := Insert(x, xs[1..]);
      assert xs == [xs[0]] + xs[1..];
      forall i, j | 0 <= i < j < |r| ensures Less(r[i], r[j]) {
        if i == 0 {
          assert t[j - 1] in t;
          assert t[j - 1] == x || t[j - 1] in xs[1..];
        } else {
          assert r[i] == t[i - 1] && r[j] == t[j - 1];
        }
      }
    }
  }

  /** Sorting a list without repeats gives the ascending listing of its set. */
  lemma {:induction false} SortSorted(xs: seq<string>)
    requires NoDuplicates(xs)
    ensures StrictlySorted(Sort(xs))
    ensures Elements(Sort(xs)) == Elements(xs)
  {
    if xs != [] {
      assert xs == [xs[0]] + xs[1..];
      SortSorted(xs[1..]);
      assert xs[0] !in Elements(xs[1..]);
      assert xs[0] !in Sort(xs[1..]);
      InsertSorted(xs[0], Sort(xs[1..]));
    }
  }

  lemma {:induction false} SortElements(xs: seq<string>)
    ensures Elements(Sort(xs)) == Elements(xs)
  {
    if xs != [] {
      assert xs == [xs[0]] + xs[1..];
      SortElements(xs[1..]);
      InsertElements(xs[0], Sort(xs[1..]));
    }
  }

  lemma {:induction false} InsertElements(x: string, xs: seq<string>)
    ensures Elements(Insert(x, xs)) == Elements(xs) + {x}
  {
    if xs != [] && !Less(x, xs[0]) {
      InsertElements(x, xs[1..]);
      assert xs == [xs[0]] + xs[1..];
    }
  }

  /** The ascending listing of a set. */
  ghost function Listing(s: set<string>): (r: seq<string>)
    ensures StrictlySorted(r) && Elements(r) == s
  {
    ListingExists(s);
    var r :| StrictlySorted(r) && Elements(r) == s;
    r
  }

  lemma {:induction false} ListingExists(s: set<string>)
    ensures exists r :: StrictlySorted(r) && Elements(r) == s
    decreases |s|
  {
    if s == {} {
      assert StrictlySorted([]) && Elements([]) == s;
    } else {
      var x :| x in s;
      ListingExists(s - {x});
      var r :| StrictlySorted(r) && Elements(r) == s - {x};
      assert x !in Elements(r);
      InsertSorted(x, r);
      assert Elements(Insert(x, r)) == s;
    }
  }

  // ------------------------------------------------------------------- lines

  /** strings.Split(s, "\n"): at least one line, none holding a newline. */
  function Split(s: string): (r: seq<string>)
    ensures |r| >= 1
    ensures forall i :: 0 <= i < |r| ==> '\n' !in r[i]
  {
    if s == [] then [[]] else Prepend(s[0], Split(s[1..]))
  }

  function Prepend(c: char, ls: seq<string>): (r: seq<string>)
    requires ls != []
    ensures r != []
    ensures (forall i :: 0 <= i < |ls| ==> '\n' !in ls[i]) ==> forall i :: 0 <= i < |r| ==> '\n' !in r[i]
  {
    if c == '\n' then [[]] + ls else [[c] + ls[0]] + ls[1..]
  }

  lemma PrependAppend(c: char, a: seq<string>, b: seq<string>)
    requires a != []
    ensures Prepend(c, a) + b == Prepend(c, a + b)
  {
    assert c != '\n' ==> (a + b)[1..] == a[1..] + b;
  }

  /** strings.Join(ls, "\n"). */
  function Join(ls: seq<string>): string {
    if ls == [] then [] else if |ls| == 1 then ls[0] else ls[0] + "\n" + Join(ls[1..])
  }

  /** Splitting cuts exactly at the newlines: a newline between two texts
      separates their lines. */
  lemma {:induction false} SplitAtNewline(a: string, b: string)
    ensures Split(a + "\n" + b) == Split(a) + Split(b)
  {
    if a == [] {
      assert a + "\n" + b == "\n" + b;
      assert ("\n" + b)[1..] == b;
    } else {
      var t := a + "\n" + b;
      assert t[0] == a[0] && t[1..] == a[1..] + "\n" + b;
      SplitAtNewline(a[1..], b);
      PrependAppend(a[0], Split(a[1..]), Split(b));
    }
  }

  lemma {:induction false} SplitLine(l: string)
    requires '\n' !in l
    ensures Split(l) == [l]
  {
    if l != [] {
      assert l[0] in l;
      forall c | c in l[1..] ensures c in l {}
      SplitLine(l[1..]);
      assert l == [l[0]] + l[1..];
    }
  }

  ghost predicate Lines(ls: seq<string>) {
    forall i :: 0 <= i < |ls| ==> '\n' !in ls[i]
  }

  lemma {:induction false} SplitJoin(ls: seq<string>)
    requires ls != [] && Lines(ls)
    ensures Split(Join(ls)) == ls
  {
    SplitLine(ls[0]);
    if |ls| > 1 {
      SplitJoin(ls[1..]);
      SplitAtNewline(ls[0], Join(ls[1..]));
      assert ls == [ls[0]] + ls[1..];
    }
  }

  lemma JoinHead(c: char, ls: seq<string>)
    requires ls != []
    ensures Join([[c] + ls[0]] + ls[1..]) == [c] + Join(ls)
  {
    var r := [[c] + ls[0]] + ls[1..];
    assert r[1..] == ls[1..];
    if |ls| > 1 {
      assert [c] + (ls[0] + "\n" + Join(ls[1..])) == [c] + ls[0] + "\n" + Join(ls[1..]);
    }
  }

  lemma {:induction false} JoinSplit(s: string)
    ensures Join(Split(s)) == s
  {
    if s != [] {
      JoinSplit(s[1..]);
      var rest := Split(s[1..]);
      assert s == [s[0]] + s[1..];
      if s[0] == '\n' {
        assert ([[]] + rest)[1..] == rest;
        assert [] + "\n" == "\n";
      } else {
        JoinHead(s[0], rest);
      }
    }
  }

  function Newlines(s: string): nat {
    if s == [] then 0 else (if s[0] == '\n' then 1 else 0) + Newlines(s[1..])
  }

  /** lineCount (internal/indexer/service.go): 0 for the empty text. */
  function LineCount(s: string): nat {
    if s == [] then 0 else Newlines(s) + 1
  }

  lemma {:induction false} SplitLength(s: string)
    ensures |Split(s)| == Newlines(s) + 1
  {
    if s != [] { SplitLength(s[1..]); }
  }

  /** lineCount agrees with the number of split lines except on the empty text. */
  lemma LineCountIsSplitLength(s: string)
    ensures LineCount(s) == |Split(s)| <==> s != []
  {
    SplitLength(s);
  }

  // ---------------------------------------------------------------- numerals

  function Digit(d: nat): char
    requires d < 10
  {
    '0' + d as char
  }

  /** Decimal numeral of n, as %d and strconv.Itoa print it. */
  function Itoa(n: nat): string {
    if n < 10 then [Digit(n)] else Itoa(n / 10) + [Digit(n % 10)]
  }

  predicate IsDigits(s: string) {
    s != [] && forall i :: 0 <= i < |s| ==> '0' <= s[i] <= '9'
  }

  function Value(s: string): nat
    requires IsDigits(s)
  {
    var d := (s[|s| - 1] - '0') as nat;
    if |s| == 1 then d else 10 * Value(s[..|s| - 1]) + d
  }

  lemma {:induction false} ValueItoa(n: nat)
    ensures IsDigits(Itoa(n)) && Value(Itoa(n)) == n
  {
    if n >= 10 {
      ValueItoa(n / 10);
      var s := Itoa(n);
      assert s[..|s| - 1] == Itoa(n / 10);
    }
  }

  lemma ItoaInjective(a: nat, b: nat)
    requires Itoa(a) == Itoa(b)
    ensures a == b
  {
    ValueItoa(a);
    ValueItoa(b);
  }

  // -------------------------------------------------------------- separators

  lemma CutStart(a: string, b: string, sep: char)
    requires sep !in a
    ensures (a + [sep] + b)[0] == sep <==> a == []
  {
    if a != [] { assert (a + [sep] + b)[0] == a[0]; }
  }

  /** Two texts cut at the first occurrence of a character neither prefix holds
      have equal halves. */
  lemma {:induction false} CutUnique(a: string, b: string, c: string, d: string, sep: char)
    requires sep !in a && sep !in c
    requires a + [sep] + b == c + [sep] + d
    ensures a == c && b == d
  {
    var t, u := a + [sep] + b, c + [sep] + d;
    CutStart(a, b, sep);
    CutStart(c, d, sep);
    if a == [] {
      assert t[1..] == b && u[1..] == d;
    } else {
      assert t[0] == a[0] && u[0] == c[0];
      assert t[1..] == a[1..] + [sep] + b && u[1..] == c[1..] + [sep] + d;
      forall x | x in a[1..] ensures x in a {}
      forall x | x in c[1..] ensures x in c {}
      CutUnique(a[1..], b, c[1..], d, sep);
      assert a == [a[0]] + a[1..] && c == [c[0]] + c[1..];
    }
  }

  // -------------------------------------------------------- checkpoint encoding

  /** What checkpointName hashes: every name followed by a newline. */
  function Encode(names: seq<string>): string {
    if names == [] then "" else names[0] + "\n" + Encode(names[1..])
  }

  /** Names without newlines can be read back from their encoding. */
  lemma {:induction false} EncodeInjective(a: seq<string>, b: seq<string>)
    requires Lines(a) && Lines(b) && Encode(a) == Encode(b)
    ensures a == b
  {
    if a != [] && b != [] {
      CutUnique(a[0], Encode(a[1..]), b[0], Encode(b[1..]), '\n');
      EncodeInjective(a[1..], b[1..]);
      assert a == [a[0]] + a[1..] && b == [b[0]] + b[1..];
    } else {
      EncodeNonEmpty(a);
      EncodeNonEmpty(b);
    }
  }

  lemma EncodeNonEmpty(a: seq<string>)
    ensures |Encode(a)| == 0 <==> a == []
  {
  }
}
