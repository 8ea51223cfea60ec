/**
  The regular expressions of the tag resolvers, written out as matchers.

  Each resolver compiles one pattern from the delimiters:

  - variable:   open \s* ([\w.]+) \s* close
  - partial:    open \s* > \s* ([\w.]+) \s* close
  - section:    open \s* # \s* ([\w.]+) \s* close (.+?) open \s* / \s* \1 \s* close   (dot matches newlines)
  - inverted:   the same with ^ in place of #
  - balance guard of variables: open [#^] \s* [\w.]+ \s* close  and  open / \s* [\w.]+ \s* close
  - nested-tag test of section bodies:  .* open .* close .*

  With delimiters made only of characters that are neither name characters,
  whitespace nor sigils (Indicate.Valid), every `\s*` and the name group can
  only match their longest run at a given position, so a pattern matches at
  a position in at most one way: the matchers below compute that way
  directly.  The back-reference `\1` then holds exactly when the closing
  tag's longest name run equals the opening name.  A search (Java's
  `Matcher.find`) returns the leftmost match at or after its starting point.
 */
module Patterns {
  import opened Wrappers
  import opened Indicate

  /** The literal `lit` occurs in `s` at position `i`. */
  predicate LiteralAt(s: string, i: nat, lit: string) {
    i + |lit| <= |s| && forall j :: 0 <= j < |lit| ==> s[i + j] == lit[j]
  }

  /** The end of the longest run of whitespace starting at `k` (just `k` past the end of `s`). */
  function SkipBlank(s: string, k: nat): (r: nat)
    ensures k <= r && (k <= |s| ==> r <= |s|)
    decreases |s| - k
  {
    if k < |s| && IsWhitespace(s[k]) then SkipBlank(s, k + 1) else k
  }

  /** The end of the longest run of name characters starting at `k` (just `k` past the end of `s`). */
  function NameEnd(s: string, k: nat): (r: nat)
    ensures k <= r && (k <= |s| ==> r <= |s|)
    decreases |s| - k
  {
    if k < |s| && IsNameChar(s[k]) then NameEnd(s, k + 1) else k
  }

  /** The sigils a tag may start with: none, or one of two characters. */
  datatype Sigils = NoSigil | Either(first: char, second: char)

  predicate Admits(g: Sigils, c: char) {
    g.Either? && (c == g.first || c == g.second)
  }

  /**
    The fixed part of a single tag: the opening delimiter, whitespace if
    `lead`, a sigil followed by whitespace (unless `sigils` is NoSigil), the
    name, whitespace and the closing delimiter.
   */
  datatype Shape = Shape(sigils: Sigils, lead: bool)

  /** A tag found in a text: its name and the position just after it. */
  datatype Head = Head(name: string, end: nat)

  /** The tag of shape `sh` starting exactly at position `i` of `s`, if there is one. */
  function TagHead(d: TagIndicate, sh: Shape, s: string, i: nat): (r: Option<Head>)
    ensures r.Some? ==> LiteralAt(s, i, d.open) && i < r.value.end <= |s|
  {
    var a := i + |d.open|;
    var b := if sh.lead then SkipBlank(s, a) else a;
    var c := if sh.sigils.NoSigil? then b else SkipBlank(s, b + 1);
    var e := NameEnd(s, c);
    var f := SkipBlank(s, e);
    if LiteralAt(s, i, d.open) && (sh.sigils.NoSigil? || (b < |s| && Admits(sh.sigils, s[b])))
       && c < e && LiteralAt(s, f, d.close)
    then Some(Head(s[c..e], f + |d.close|))
    else None
  }

  datatype Pattern =
    | VariableRe(d: TagIndicate)
    | PartialRe(d: TagIndicate)
    | BlockRe(d: TagIndicate, sigil: char)
    | OpeningRe(d: TagIndicate)
    | ClosingRe(d: TagIndicate)

  /** The shape of a pattern's (first) tag. */
  function ShapeOf(p: Pattern): Shape {
    match p
    case VariableRe(_) => Shape(NoSigil, true)
    case PartialRe(_) => Shape(Either('>', '>'), true)
    case BlockRe(_, sigil) => Shape(Either(sigil, sigil), true)
    case OpeningRe(_) => Shape(Either('#', '^'), false)
    case ClosingRe(_) => Shape(Either('/', '/'), false)
  }

  /** The shape of the tag that closes a section or an inverted section. */
  const EndShape := Shape(Either('/', '/'), true)

  /**
    A match: where it starts and ends, group 1 (the name) and, for the block
    patterns, group 2 (the body).
   */
  datatype Match = Match(start: nat, end: nat, name: string, body: string)

  /** The end of the closing tag for `name` starting at position `k` of `s`, if one is there. */
  function CloseAt(d: TagIndicate, name: string, s: string, k: nat): (r: Option<nat>)
    requires k <= |s|
    ensures r.Some? ==> k < r.value <= |s|
  {
    match TagHead(d, EndShape, s, k)
    case Some(h) => if h.name == name then Some(h.end) else None
    case None => None
  }

  /** No closing tag for `name` starts at a position in [lo, hi) of `s`. */
  predicate NoCloseWithin(d: TagIndicate, name: string, s: string, lo: nat, hi: nat)
    requires hi <= |s|
    decreases hi - lo
  {
    lo >= hi || (CloseAt(d, name, s, lo).None? && NoCloseWithin(d, name, s, lo + 1, hi))
  }

  /**
    The nearest closing tag for `name` starting at or after `j`: its start
    and its end.  This is the lazy `(.+?)` followed by the closing tag.
   */
  function FirstClose(d: TagIndicate, name: string, s: string, j: nat): (r: Option<(nat, nat)>)
    requires j <= |s|
    ensures r.Some? ==> j <= r.value.0 < r.value.1 <= |s|
    ensures r.Some? ==> CloseAt(d, name, s, r.value.0) == Some(r.value.1)
    ensures r.Some? ==> NoCloseWithin(d, name, s, j, r.value.0)
    ensures r.None? ==> NoCloseWithin(d, name, s, j, |s|) && CloseAt(d, name, s, |s|).None?
    decreases |s| - j
  {
    match CloseAt(d, name, s, j)
    case Some(l) => Some((j, l))
    case None => if j == |s| then None else FirstClose(d, name, s, j + 1)
  }

  /** The match of `p` that starts exactly at position `i` of `s`. */
  function MatchAt(p: Pattern, s: string, i: nat): (r: Option<Match>)
    requires i <= |s|
    ensures r.Some? ==> r.value.start == i < r.value.end <= |s|
    ensures r.Some? ==> LiteralAt(s, i, p.d.open)
  {
    match TagHead(p.d, ShapeOf(p), s, i)
    case None => None
    case Some(h) =>
      if !p.BlockRe? then Some(Match(i, h.end, h.name, ""))
      else if h.end + 1 > |s| then None
      else
        match FirstClose(p.d, h.name, s, h.end + 1)
        case None => None
        case Some(c) => Some(Match(i, c.1, h.name, s[h.end..c.0]))
  }

  /** No match of `p` starts at a position in [lo, hi) of `s`. */
  predicate NoMatchWithin(p: Pattern, s: string, lo: nat, hi: nat)
    requires hi <= |s| + 1
    decreases hi - lo
  {
    lo >= hi || (MatchAt(p, s, lo).None? && NoMatchWithin(p, s, lo + 1, hi))
  }

  /** `Matcher.find` from position `from`: the leftmost match starting there or later. */
  function FindFrom(p: Pattern, s: string, from: nat): (r: Option<Match>)
    requires from <= |s|
    ensures r.Some? ==> from <= r.value.start < r.value.end <= |s| && MatchAt(p, s, r.value.start) == r
    ensures r.Some? ==> NoMatchWithin(p, s, from, r.value.start)
    ensures r.None? ==> NoMatchWithin(p, s, from, |s| + 1)
    decreases |s| - from
  {
    if MatchAt(p, s, from).Some? then MatchAt(p, s, from)
    else if from == |s| then None
    else FindFrom(p, s, from + 1)
  }

  /** The first occurrence of `lit` in `s` at or after `from`. */
  function IndexOf(s: string, lit: string, from: nat): (r: Option<nat>)
    requires from <= |s|
    ensures r.Some? ==> from <= r.value <= |s| && LiteralAt(s, r.value, lit)
    ensures r.Some? ==> forall k :: from <= k < r.value ==> !LiteralAt(s, k, lit)
    ensures r.None? ==> forall k :: from <= k <= |s| ==> !LiteralAt(s, k, lit)
    decreases |s| - from
  {
    if LiteralAt(s, from, lit) then Some(from)
    else if from == |s| then None
    else IndexOf(s, lit, from + 1)
  }

  /** The nested-tag test `.*open.*close.*` of section bodies. */
  predicate Nested(d: TagIndicate, s: string) {
    match IndexOf(s, d.open, 0)
    case None => false
    case Some(i) => i + |d.open| <= |s| && IndexOf(s, d.close, i + |d.open|).Some?
  }
}
