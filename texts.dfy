/** Facts about concatenating text that the resolvers' output buffers rely on. */
module Texts {

  /** Appending a piece and then the rest is appending the piece followed by the rest. */
  lemma Associative(a: string, b: string, c: string)
    ensures (a + b) + c == a + (b + c)
  {
  }

  /** Appending nothing leaves the text as it is. */
  lemma AppendEmpty(a: string)
    ensures a + "" == a
  {
  }
}
