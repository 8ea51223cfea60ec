/**
  The tag delimiters ("tag indicate"): the literal text that opens and the
  literal text that closes every tag, `{{` and `}}` by default, `[[` and `]]`
  in the repository's own tests.  The character classes of the tag grammar
  live here as well.
 */
module Indicate {

  datatype TagIndicate = TagIndicate(open: string, close: string)

  /** The default delimiters. */
  const Braces := TagIndicate("{{", "}}")

  /** The delimiters used throughout the repository's tests. */
  const Squares := TagIndicate("[[", "]]")

  /** The default delimiters and those of the repository's tests are within the model's domain. */
  lemma KnownDelimitersValid()
    ensures Valid(Braces) && Valid(Squares)
  {
    assert AllPlain("{{") && AllPlain("}}") && AllPlain("[[") && AllPlain("]]");
  }

  /** The regex class `\s`: space, tab, newline, vertical tab, form feed, carriage return. */
  predicate IsWhitespace(c: char) {
    c == ' ' || c == '\t' || c == '\n' || c == '\U{000B}' || c == '\U{000C}' || c == '\r'
  }

  /** The regex class `[\w\.]` of tag names: ASCII letters, digits, underscore and dot. */
  predicate IsNameChar(c: char) {
    ('a' <= c <= 'z') || ('A' <= c <= 'Z') || ('0' <= c <= '9') || c == '_' || c == '.'
  }

  /** The characters that mark a tag's kind right after the opening delimiter. */
  predicate IsSigil(c: char) {
    c == '#' || c == '^' || c == '/' || c == '>'
  }

  /** A character that may appear in a delimiter. */
  predicate IsPlain(c: char) {
    !IsNameChar(c) && !IsWhitespace(c) && !IsSigil(c)
  }

  predicate AllPlain(s: string) {
    forall k :: 0 <= k < |s| ==> IsPlain(s[k])
  }

  /**
    Delimiters this model covers: non-empty, and made of characters that can
    never be part of a name, of the whitespace around it, or a sigil.  Under
    this condition each of the repository's regular expressions matches at a
    given position in at most one way, which is what the hand-written
    matcher in module Patterns relies on.
   */
  predicate Valid(d: TagIndicate) {
    |d.open| > 0 && |d.close| > 0 && AllPlain(d.open) && AllPlain(d.close)
  }

  predicate AllWhitespace(s: string) {
    forall k :: 0 <= k < |s| ==> IsWhitespace(s[k])
  }

  predicate IsName(s: string) {
    |s| > 0 && forall k :: 0 <= k < |s| ==> IsNameChar(s[k])
  }
}
