/** The retrieval answer's file list (internal/indexer/service.go) and its reading back:
    CDATA sections by section 2.7 of XML 1.0, each ended by its first "]]>". */
module Output {
  import opened Domain
  import opened Text

  const OPEN := "<![CDATA["
  const END := "]]>"
  /** What strings.ReplaceAll puts in the place of "]]>". */
  const SPLICE := "]]" + (END + (OPEN + ">"))

  predicate EndsHere(s: string) { |s| >= 3 && s[0] == ']' && s[1] == ']' && s[2] == '>' }

  /** strings.ReplaceAll of "]]>": left to right, without overlap. */
  function Escape(s: string): string {
    if s == "" then ""
    else if EndsHere(s) then SPLICE + Escape(s[3..])
    else [s[0]] + Escape(s[1..])
  }

  // ------------------------------------------------------------ reading CDATA

  /** Where the first "]]>" starts. */
  function FirstEnd(s: string): (r: Option<nat>)
    ensures r.Some? ==> r.value + 3 <= |s| && EndsHere(s[r.value..]) && forall k :: 0 <= k < r.value ==> !(EndsHere(s[k..]))
    ensures r.None? ==> forall k :: 0 <= k <= |s| ==> !(EndsHere(s[k..]))
  {
    if s == "" then None
    else if EndsHere(s) then Some(0)
    else
      var r := FirstEnd(s[1..]);
      assert forall k :: 0 < k <= |s| ==> s[k..] == s[1..][k - 1..];
      if r.None? then None else Some(r.value + 1)
  }

  /** What was read, with more text before it. */
  function With(text: string, read: Option<(string, string)>): Option<(string, string)> {
    if read.None? then None else Some((text + read.value.0, read.value.1))
  }

  lemma WithTwice(a: string, b: string, read: Option<(string, string)>)
    ensures With(a, With(b, read)) == With(a + b, read)
    ensures With("", read) == read
  {
    if read.Some? {
      assert a + (b + read.value.0) == a + b + read.value.0;
      assert "" + read.value.0 == read.value.0;
    }
  }

  /** Consecutive CDATA sections and what follows them: a section is the text up to
      the first "]]>", and sections are concatenated. */
  function ReadSections(s: string): (r: Option<(string, string)>)
    ensures r.Some? ==> |r.value.1| <= |s|
    decreases |s|
  {
    if !(OPEN <= s) then Some(("", s))
    else
      var body := s[|OPEN|..];
      var k := FirstEnd(body);
      if k.None? then None
      else
        With(body[..k.value], ReadSections(body[k.value + 3..]))
  }

  /** The reader inside a section. */
  function ReadBody(s: string): Option<(string, string)> {
    var k := FirstEnd(s);
    if k.None? then None
    else
      With(s[..k.value], ReadSections(s[k.value + 3..]))
  }

  lemma ReadOpen(s: string)
    ensures ReadSections(OPEN + s) == ReadBody(s)
  {
    assert (OPEN + s)[|OPEN|..] == s;
  }

  lemma ReadEnd(s: string)
    ensures ReadBody(END + s) == ReadSections(s)
  {
    assert (END + s)[3..] == s && (END + s)[..0] == "";
    assert FirstEnd(END + s) == Some(0);
    WithTwice("", "", ReadSections(s));
  }

  lemma EndAfter(c: char, s: string)
    requires !EndsHere([c] + s)
    ensures var t, k := [c] + s, FirstEnd(s);
            && (k.None? ==> FirstEnd(t).None?)
            && (k.Some? ==> FirstEnd(t) == Some(k.value + 1) &&
                            t[k.value + 4..] == s[k.value + 3..] && t[..k.value + 1] == [c] + s[..k.value])
  {
    assert ([c] + s)[1..] == s;
  }

  /** A character that starts no "]]>" belongs to the section. */
  lemma ReadChar(c: char, s: string)
    requires !EndsHere([c] + s)
    ensures ReadBody([c] + s) == With([c], ReadBody(s))
  {
    EndAfter(c, s);
    var k := FirstEnd(s);
    if k.Some? {
      WithTwice([c], s[..k.value], ReadSections(s[k.value + 3..]));
    }
  }

  // --------------------------------------------------------------- round trip

  lemma EscapeHead(s: string)
    requires s != ""
    ensures Escape(s) != "" && Escape(s)[0] == s[0]
  {
  }

  /** Escaping opens no "]]>" where the text has none, whatever follows the text. */
  lemma NoNewEnd(s: string, tail: string)
    requires s != "" && !EndsHere(s)
    ensures !EndsHere(Escape(s) + (END + tail))
  {
    var t := s[1..];
    assert Escape(s) == [s[0]] + Escape(t);
    if t != "" {
      EscapeHead(t);
      if !EndsHere(t) && |t| > 1 {
        assert Escape(t) == [t[0]] + Escape(t[1..]);
        EscapeHead(t[1..]);
        assert s[2] == t[1] && Escape(s)[2] == Escape(t[1..])[0];
      } else if EndsHere(t) {
        assert Escape(t) == SPLICE + Escape(t[3..]);
        assert Escape(s)[2] == SPLICE[1];
      }
    }
  }

  /** The section that ends inside a splice, and the one that begins there. */
  lemma ReadAcross(s: string)
    ensures ReadBody(END + (OPEN + (['>'] + s))) == With(['>'], ReadBody(s))
  {
    ReadEnd(OPEN + (['>'] + s));
    ReadOpen(['>'] + s);
    ReadChar('>', s);
  }

  lemma ReadBrackets(s: string)
    requires END <= s
    ensures ReadBody([']'] + ([']'] + s)) == With([']'], With([']'], ReadBody(s)))
  {
    ReadChar(']', s);
    ReadChar(']', [']'] + s);
  }

  lemma WithEnd(read: Option<(string, string)>)
    ensures With([']'], With([']'], With(['>'], read))) == With(END, read)
  {
    WithTwice([']'], ['>'], read);
    WithTwice([']'], [']', '>'], read);
    assert [']'] + ['>'] == [']', '>'] && [']'] + [']', '>'] == END;
  }

  /** A splice reads as the "]]>" it stands for, across the section it ends. */
  lemma ReadSplice(s: string)
    ensures ReadBody(SPLICE + s) == With(END, ReadBody(s))
  {
    SplicePieces(s);
    ReadBrackets(END + (OPEN + (['>'] + s)));
    ReadAcross(s);
    WithEnd(ReadBody(s));
  }

  lemma SplicePieces(s: string)
    ensures SPLICE + s == [']'] + ([']'] + (END + (OPEN + (['>'] + s))))
  {
  }

  lemma Regroup(a: string, b: string, c: string)
    ensures (a + b) + c == a + (b + c)
  {
  }

  lemma EscapeUnfolds(s: string)
    requires s != ""
    ensures Escape(s) == if EndsHere(s) then SPLICE + Escape(s[3..]) else [s[0]] + Escape(s[1..])
  {
  }

  lemma Halves(s: string)
    requires s != ""
    ensures [s[0]] + s[1..] == s
    ensures EndsHere(s) ==> END + s[3..] == s
  {
  }

  lemma EscapedEnd(s: string, tail: string)
    requires EndsHere(s)
    ensures Escape(s) + tail == SPLICE + (Escape(s[3..]) + tail) && END + s[3..] == s
  {
    EscapeUnfolds(s);
    Regroup(SPLICE, Escape(s[3..]), tail);
    Halves(s);
  }

  lemma EscapedChar(s: string, tail: string)
    requires s != "" && !EndsHere(s)
    ensures Escape(s) + tail == [s[0]] + (Escape(s[1..]) + tail) && [s[0]] + s[1..] == s
  {
    EscapeUnfolds(s);
    Regroup([s[0]], Escape(s[1..]), tail);
    Halves(s);
  }

  lemma {:induction false} ReadEscaped(s: string, tail: string)
    requires !(OPEN <= tail)
    ensures ReadBody(Escape(s) + (END + tail)) == Some((s, tail))
  {
    if s == "" {
      ReadEnd(tail);
      assert Escape(s) + (END + tail) == END + tail;
    } else {
      if EndsHere(s) {
        EscapedEnd(s, END + tail);
        ReadEscaped(s[3..], tail);
        ReadSplice(Escape(s[3..]) + (END + tail));
      } else {
        ReadEscaped(s[1..], tail);
        NoNewEnd(s, tail);
        EscapedChar(s, END + tail);
        ReadChar(s[0], Escape(s[1..]) + (END + tail));
      }
    }
  }

  /** The body of a hit. */
  function Cdata(content: string, tail: string): string {
    OPEN + (Escape(content) + (END + tail))
  }

  /** Whatever the content, reading its sections gives it back, and leaves what
      follows. */
  lemma CdataRoundTrip(content: string, tail: string)
    requires !(OPEN <= tail)
    ensures ReadSections(Cdata(content, tail)) == Some((content, tail))
  {
    ReadOpen(Escape(content) + (END + tail));
    ReadEscaped(content, tail);
  }

  // ------------------------------------------------------------- the file list

  datatype Entry = Entry(path: string, startLine: nat, endLine: nat, content: string)

  /** html.EscapeString, character by character. */
  function EscapeChar(c: char): string {
    if c == '&' then "&amp;"
    else if c == '<' then "&lt;"
    else if c == '>' then "&gt;"
    else if c == '\'' then "&#39;"
    else if c == '"' then "&#34;"
    else [c]
  }

  function EscapeHTML(s: string): string {
    if s == "" then "" else EscapeChar(s[0]) + EscapeHTML(s[1..])
  }

  lemma {:induction false} NoQuote(s: string)
    ensures '"' !in EscapeHTML(s)
  {
    if s != "" { NoQuote(s[1..]); }
  }

  lemma CharsDiffer(c: char, x: string, d: char, y: string)
    requires EscapeChar(c) + x == EscapeChar(d) + y
    ensures c == d && x == y
  {
    var s, t := EscapeChar(c) + x, EscapeChar(d) + y;
    assert s[0] == t[0];
    if s[0] == '&' {
      assert s[1] == t[1];
      if s[1] == '#' { assert s[3] == t[3]; }
    }
    assert s[|EscapeChar(c)|..] == x && t[|EscapeChar(d)|..] == y;
  }

  lemma {:induction false} EscapeHTMLInjective(a: string, b: string)
    requires EscapeHTML(a) == EscapeHTML(b)
    ensures a == b
  {
    if a != "" && b != "" {
      CharsDiffer(a[0], EscapeHTML(a[1..]), b[0], EscapeHTML(b[1..]));
      EscapeHTMLInjective(a[1..], b[1..]);
      assert a == [a[0]] + a[1..] && b == [b[0]] + b[1..];
    }
  }

  const HEAD := "<codebase_context>\n"
  const FOOT := "</codebase_context>"
  const PATH_ATTR := "  <file path=\""
  const START_ATTR := "\" start_line=\""
  const END_ATTR := "\" end_line=\""
  const BODY_OPEN := "\">\n    "
  const FILE_CLOSE := "\n  </file>\n"

  /** A hit's element, and what is written after it. */
  function Element(e: Entry, tail: string): string {
    PATH_ATTR + (EscapeHTML(e.path) + (START_ATTR + (Itoa(e.startLine) + (END_ATTR + (Itoa(e.endLine) +
    (BODY_OPEN + Cdata(e.content, FILE_CLOSE + tail)))))))
  }

  function ElementsOnto(es: seq<Entry>, tail: string): string {
    if es == [] then tail else Element(es[0], ElementsOnto(es[1..], tail))
  }

  /** What a reader takes from an element: the attributes as written, and the text. */
  datatype Record = Record(path: string, startLine: string, endLine: string, content: string)

  function RecordOf(e: Entry): Record { Record(EscapeHTML(e.path), Itoa(e.startLine), Itoa(e.endLine), e.content) }

  function Records(es: seq<Entry>): seq<Record> {
    if es == [] then [] else [RecordOf(es[0])] + Records(es[1..])
  }

  function Strip(lit: string, s: string): (r: Option<string>)
    ensures r.Some? ==> |r.value| == |s| - |lit|
  {
    if lit <= s then Some(s[|lit|..]) else None
  }

  function UpToQuote(s: string): (r: Option<(string, string)>)
    ensures r.Some? ==> |r.value.1| <= |s|
  {
    if s == "" then None
    else if s[0] == '"' then Some(("", s))
    else With([s[0]], UpToQuote(s[1..]))
  }

  /** An attribute value: the text from the literal to the next quote. */
  function ReadField(lit: string, s: string): (r: Option<(string, string)>)
    ensures r.Some? ==> |r.value.1| <= |s|
  {
    var t := Strip(lit, s);
    if t.None? then None else UpToQuote(t.value)
  }

  /** The body of an element, to its end. */
  function ReadContent(s: string): (r: Option<(string, string)>)
    ensures r.Some? ==> |r.value.1| < |s|
  {
    var body := Strip(BODY_OPEN, s);
    if body.None? then None
    else
      var text := ReadSections(body.value);
      if text.None? then None
      else
        var rest := Strip(FILE_CLOSE, text.value.1);
        if rest.None? then None else Some((text.value.0, rest.value))
  }

  /** The line attributes and the body. */
  function ReadLines(s: string): (r: Option<(string, string, string, string)>)
    ensures r.Some? ==> |r.value.3| < |s|
  {
    var start := ReadField(START_ATTR, s);
    if start.None? then None
    else
      var end := ReadField(END_ATTR, start.value.1);
      if end.None? then None
      else
        var body := ReadContent(end.value.1);
        if body.None? then None else Some((start.value.0, end.value.0, body.value.0, body.value.1))
  }

  function ReadElement(s: string): (r: Option<(Record, string)>)
    ensures r.Some? ==> |r.value.1| < |s|
  {
    var path := ReadField(PATH_ATTR, s);
    if path.None? then None
    else
      var t := ReadLines(path.value.1);
      if t.None? then None else Some((Record(path.value.0, t.value.0, t.value.1, t.value.2), t.value.3))
  }

  function ReadElements(s: string): Option<seq<Record>>
    decreases |s|
  {
    if FOOT <= s then Some([])
    else
      var e := ReadElement(s);
      if e.None? then None
      else
        var rest := ReadElements(e.value.1);
        if rest.None? then None else Some([e.value.0] + rest.value)
  }

  lemma Stripped(lit: string, s: string)
    ensures Strip(lit, lit + s) == Some(s)
  {
  }

  lemma {:induction false} ReadsToQuote(text: string, rest: string)
    requires '"' !in text && rest != "" && rest[0] == '"'
    ensures UpToQuote(text + rest) == Some((text, rest))
  {
    if text == "" {
      assert text + rest == rest;
    } else {
      ReadsToQuote(text[1..], rest);
      assert (text + rest)[1..] == text[1..] + rest && [text[0]] + text[1..] == text;
    }
  }

  lemma FieldRead(lit: string, text: string, rest: string)
    requires '"' !in text && rest != "" && rest[0] == '"'
    ensures ReadField(lit, lit + (text + rest)) == Some((text, rest))
  {
    Stripped(lit, text + rest);
    ReadsToQuote(text, rest);
  }

  lemma ContentRead(content: string, tail: string)
    ensures ReadContent(BODY_OPEN + Cdata(content, FILE_CLOSE + tail)) == Some((content, tail))
  {
    Stripped(BODY_OPEN, Cdata(content, FILE_CLOSE + tail));
    assert (FILE_CLOSE + tail)[0] == '\n' && OPEN[0] == '<';
    CdataRoundTrip(content, FILE_CLOSE + tail);
    Stripped(FILE_CLOSE, tail);
  }

  lemma NoQuoteDigits(n: nat)
    ensures '"' !in Itoa(n)
  {
    ValueItoa(n);
  }

  lemma LinesRead(e: Entry, tail: string)
    ensures ReadLines(START_ATTR + (Itoa(e.startLine) + (END_ATTR + (Itoa(e.endLine) +
              (BODY_OPEN + Cdata(e.content, FILE_CLOSE + tail)))))) ==
            Some((Itoa(e.startLine), Itoa(e.endLine), e.content, tail))
  {
    var body := BODY_OPEN + Cdata(e.content, FILE_CLOSE + tail);
    var end := END_ATTR + (Itoa(e.endLine) + body);
    NoQuoteDigits(e.startLine);
    NoQuoteDigits(e.endLine);
    assert body[0] == BODY_OPEN[0] == '"' && end[0] == END_ATTR[0] == '"';
    FieldRead(START_ATTR, Itoa(e.startLine), end);
    FieldRead(END_ATTR, Itoa(e.endLine), body);
    ContentRead(e.content, tail);
  }

  lemma ElementRead(e: Entry, tail: string)
    ensures ReadElement(Element(e, tail)) == Some((RecordOf(e), tail)) && !(FOOT <= Element(e, tail))
  {
    var start := START_ATTR + (Itoa(e.startLine) + (END_ATTR + (Itoa(e.endLine) +
                 (BODY_OPEN + Cdata(e.content, FILE_CLOSE + tail)))));
    NoQuote(e.path);
    assert start[0] == START_ATTR[0] == '"';
    FieldRead(PATH_ATTR, EscapeHTML(e.path), start);
    LinesRead(e, tail);
    assert Element(e, tail)[0] == PATH_ATTR[0] == ' ' && FOOT[0] == '<';
  }

  /** The answer reads back as the hits it was written from, whatever follows it. */
  lemma {:induction false} AnswerRoundTrip(es: seq<Entry>, tail: string)
    ensures ReadElements(ElementsOnto(es, FOOT + tail)) == Some(Records(es))
  {
    if es != [] {
      AnswerRoundTrip(es[1..], tail);
      ElementRead(es[0], ElementsOnto(es[1..], FOOT + tail));
    }
  }

  // ------------------------------------------------------- what the attributes mean

  /** The character that an entity at the start of s stands for, and how long it is: the
      predefined entities of section 4.6 of XML 1.0 and the two character references. */
  function Entity(s: string): Option<(char, nat)> {
    if "&amp;" <= s then Some(('&', 5))
    else if "&lt;" <= s then Some(('<', 4))
    else if "&gt;" <= s then Some(('>', 4))
    else if "&#39;" <= s then Some(('\'', 5))
    else if "&#34;" <= s then Some(('"', 5))
    else None
  }

  /** An attribute value with its entities replaced. */
  function Unescape(s: string): string
    decreases |s|
  {
    if s == "" then ""
    else
      var e := Entity(s);
      if e.Some? && e.value.1 <= |s| then [e.value.0] + Unescape(s[e.value.1..]) else [s[0]] + Unescape(s[1..])
  }

  /** An escaped character reads as itself. */
  lemma CharReads(c: char, rest: string)
    ensures Unescape(EscapeChar(c) + rest) == [c] + Unescape(rest)
  {
    var x := EscapeChar(c);
    var s := x + rest;
    assert s[|x|..] == rest && x <= s;
    if c == '&' || c == '<' || c == '>' || c == '\'' || c == '"' {
      EntityReads(c, rest);
    } else {
      NoEntity(s);
      assert s[0] == c && s[1..] == rest;
    }
  }

  lemma NoEntity(s: string)
    requires s != "" && s[0] != '&'
    ensures Entity(s) == None
  {
    assert "&amp;"[0] == "&lt;"[0] == "&gt;"[0] == "&#39;"[0] == "&#34;"[0] == '&';
  }

  lemma EntityReads(c: char, rest: string)
    requires c == '&' || c == '<' || c == '>' || c == '\'' || c == '"'
    ensures Entity(EscapeChar(c) + rest) == Some((c, |EscapeChar(c)|))
  {
    var s := EscapeChar(c) + rest;
    assert EscapeChar(c) <= s;
    if c == '&' { assert s[1] == 'a'; }
    if c == '<' { assert s[1] == 'l' && "&amp;"[1] == 'a'; }
    if c == '>' { assert s[1] == 'g' && "&amp;"[1] == 'a' && "&lt;"[1] == 'l'; }
    if c == '\'' { assert s[1] == '#' && "&amp;"[1] == 'a' && "&lt;"[1] == 'l' && "&gt;"[1] == 'g'; }
    if c == '"' { assert s[1] == '#' && s[3] == '4' && "&amp;"[1] == 'a' && "&lt;"[1] == 'l' && "&gt;"[1] == 'g' && "&#39;"[3] == '9'; }
  }

  /** The path attribute means the path. */
  lemma {:induction false} PathReadsBack(path: string)
    ensures Unescape(EscapeHTML(path)) == path
  {
    if path != "" {
      PathReadsBack(path[1..]);
      CharReads(path[0], EscapeHTML(path[1..]));
      assert [path[0]] + path[1..] == path;
    }
  }

  /** The hit a record means: its path unescaped, its line numbers as numbers. */
  function Meant(r: Record): Option<Entry> {
    if IsDigits(r.startLine) && IsDigits(r.endLine)
    then Some(Entry(Unescape(r.path), Value(r.startLine), Value(r.endLine), r.content)) else None
  }

  lemma RecordMeansEntry(e: Entry)
    ensures Meant(RecordOf(e)) == Some(e)
  {
    PathReadsBack(e.path);
    ValueItoa(e.startLine);
    ValueItoa(e.endLine);
  }

  lemma {:induction false} RecordsAre(es: seq<Entry>)
    ensures |Records(es)| == |es| && forall i :: 0 <= i < |es| ==> Records(es)[i] == RecordOf(es[i])
  {
    if es != [] { RecordsAre(es[1..]); }
  }

  /** The answer's file list, read and understood, is the list of hits: every path, line
      number and content, in order, whatever they are and whatever follows. */
  lemma AnswerMeansHits(es: seq<Entry>, tail: string)
    ensures var r := ReadElements(ElementsOnto(es, FOOT + tail));
            r.Some? && |r.value| == |es| && forall i :: 0 <= i < |es| ==> Meant(r.value[i]) == Some(es[i])
  {
    AnswerRoundTrip(es, tail);
    RecordsAre(es);
    forall i | 0 <= i < |es| ensures Meant(Records(es)[i]) == Some(es[i]) { RecordMeansEntry(es[i]); }
  }

  lemma {:induction false} RecordsInjective(a: seq<Entry>, b: seq<Entry>)
    requires Records(a) == Records(b)
    ensures a == b
  {
    if a != [] && b != [] {
      assert Records(a)[0] == Records(b)[0] && Records(a)[1..] == Records(b)[1..];
      EscapeHTMLInjective(a[0].path, b[0].path);
      ItoaInjective(a[0].startLine, b[0].startLine);
      ItoaInjective(a[0].endLine, b[0].endLine);
      RecordsInjective(a[1..], b[1..]);
      assert a == [a[0]] + a[1..] && b == [b[0]] + b[1..];
    }
  }

  /** Different hits give different answers. */
  lemma AnswersDiffer(a: seq<Entry>, b: seq<Entry>, s: string, t: string)
    requires HEAD + ElementsOnto(a, FOOT + s) == HEAD + ElementsOnto(b, FOOT + t)
    ensures a == b
  {
    Stripped(HEAD, ElementsOnto(a, FOOT + s));
    Stripped(HEAD, ElementsOnto(b, FOOT + t));
    AnswerRoundTrip(a, s);
    AnswerRoundTrip(b, t);
    RecordsInjective(a, b);
  }

  // ---------------------------------------------------------------- writing it

  lemma Onto(a: string, b: string, tail: string)
    ensures a + b + tail == a + (b + tail)
  {
  }

  lemma ElementOnto(e: Entry, tail: string)
    ensures Element(e, "") + tail == Element(e, tail)
  {
    var p, q, r := EscapeHTML(e.path), Itoa(e.startLine), Itoa(e.endLine);
    CdataOnto(e.content, tail);
    var body := Cdata(e.content, FILE_CLOSE + "");
    var f6 := BODY_OPEN + body;
    var f5 := r + f6;
    var f4 := END_ATTR + f5;
    var f3 := q + f4;
    var f2 := START_ATTR + f3;
    var f1 := p + f2;
    Onto(BODY_OPEN, body, tail);
    Onto(r, f6, tail);
    Onto(END_ATTR, f5, tail);
    Onto(q, f4, tail);
    Onto(START_ATTR, f3, tail);
    Onto(p, f2, tail);
    Onto(PATH_ATTR, f1, tail);
  }

  lemma CdataOnto(content: string, tail: string)
    ensures Cdata(content, FILE_CLOSE + "") + tail == Cdata(content, FILE_CLOSE + tail)
  {
    Onto(FILE_CLOSE, "", tail);
    assert "" + tail == tail;
    Onto(END, FILE_CLOSE + "", tail);
    Onto(Escape(content), END + (FILE_CLOSE + ""), tail);
    Onto(OPEN, Escape(content) + (END + (FILE_CLOSE + "")), tail);
  }

  /** format's builder loop over the hits. */
  method WriteContext(es: seq<Entry>) returns (b: string)
    ensures b == HEAD + ElementsOnto(es, FOOT)
  {
    b := HEAD;
    assert es[0..] == es;
    for i := 0 to |es|
      invariant b + ElementsOnto(es[i..], FOOT) == HEAD + ElementsOnto(es, FOOT)
    {
      assert es[i..][1..] == es[i + 1..];
      ghost var rest := ElementsOnto(es[i + 1..], FOOT);
      ElementOnto(es[i], rest);
      Onto(b, Element(es[i], ""), rest);
      b := b + Element(es[i], "");
    }
    b := b + FOOT;
  }
}
