/** The line tests of internal/indexer/chunker.go and
    internal/indexer/astchunker.go. */
module SourceLines {
  import opened Layout

  /** unicode.IsSpace. */
  predicate IsSpace(c: char) {
    '\t' <= c <= '\r' || c == ' ' || c == '\U{85}' || c == '\U{A0}' || c == '\U{1680}' ||
    '\U{2000}' <= c <= '\U{200A}' || c == '\U{2028}' || c == '\U{2029}' || c == '\U{202F}' ||
    c == '\U{205F}' || c == '\U{3000}'
  }

  function TrimLeft(s: string): string {
    if s != [] && IsSpace(s[0]) then TrimLeft(s[1..]) else s
  }

  predicate Blank(line: string) {
    TrimLeft(line) == []
  }

  predicate HasPrefix(s: string, p: string) {
    p <= s
  }

  predicate IsCommentLine(line: string) {
    var t := TrimLeft(line);
    HasPrefix(t, "//") || HasPrefix(t, "#") || HasPrefix(t, "/*") || HasPrefix(t, "*") ||
    HasPrefix(t, "--") || HasPrefix(t, "'''") || HasPrefix(t, "\"\"\"") || HasPrefix(t, "///")
  }

  /** A comment, annotation or attribute line, which belongs to the declaration
      below it. */
  predicate Attachable(line: string) {
    !Blank(line) && (IsCommentLine(line) || HasPrefix(TrimLeft(line), "@") || HasPrefix(TrimLeft(line), "#["))
  }

  predicate Contains(s: string, sub: string) {
    HasPrefix(s, sub) || (s != [] && Contains(s[1..], sub))
  }

  function Opens(line: string): Tag {
    if HasPrefix(line, "<script") then Script
    else if HasPrefix(line, "<template") then Template
    else if HasPrefix(line, "<style") then Style
    else NoTag
  }

  predicate Closes(line: string, tag: Tag) {
    match tag
    case NoTag => HasPrefix(line, "</")
    case Script => HasPrefix(line, "</script")
    case Template => HasPrefix(line, "</template")
    case Style => HasPrefix(line, "</style")
  }

  predicate NamesTypeScript(line: string) {
    Contains(line, "lang=\"ts") || Contains(line, "lang='ts")
  }

  const SOURCE_TESTS :=
    LineTests(l => IsCommentLine(l), l => Attachable(l), l => Blank(l), l => Opens(l), (l, g) => Closes(l, g),
              l => NamesTypeScript(l))
}
