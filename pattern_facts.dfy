/**
  What the hand-written matchers of module Patterns recognise: text that
  follows the tag grammar is matched with its name and end, a tag whose
  first character after the opening delimiter is a sigil is never a
  variable, a block match is an opening tag, a body and the nearest closing
  tag of the same name, the searches return the first hit, and a text
  without the opening delimiter has no match at all.
 */
module PatternFacts {
  import opened Wrappers
  import opened Indicate
  import opened Patterns

  /** A whitespace run of length `n` at `k`, followed by something else, is skipped entirely. */
  lemma {:induction false} SkipOver(s: string, k: nat, n: nat)
    requires k + n <= |s|
    requires forall j :: k <= j < k + n ==> IsWhitespace(s[j])
    requires k + n == |s| || !IsWhitespace(s[k + n])
    ensures SkipBlank(s, k) == k + n
    decreases n
  {
    if n > 0 {
      SkipOver(s, k + 1, n - 1);
    }
  }

  /** A name run of length `n` at `k`, followed by something else, is taken entirely. */
  lemma {:induction false} NameOver(s: string, k: nat, n: nat)
    requires k + n <= |s|
    requires forall j :: k <= j < k + n ==> IsNameChar(s[j])
    requires k + n == |s| || !IsNameChar(s[k + n])
    ensures NameEnd(s, k) == k + n
    decreases n
  {
    if n > 0 {
      NameOver(s, k + 1, n - 1);
    }
  }

  /** The positions TagHead computes, for a text that follows the tag grammar. */
  lemma TagScan(d: TagIndicate, sh: Shape, s: string, i: nat, p1: nat, p3: nat, p4: nat, p5: nat)
    requires Valid(d) && LiteralAt(s, p5, d.close)
    requires i + |d.open| <= p1 <= p3 < p4 <= p5
    requires sh.lead || p1 == i + |d.open|
    requires forall j :: i + |d.open| <= j < p1 ==> IsWhitespace(s[j])
    requires sh.sigils.NoSigil? ==> p1 == p3
    requires sh.sigils.Either? ==> p1 < p3 && Admits(sh.sigils, s[p1])
    requires sh.sigils.Either? ==> IsSigil(sh.sigils.first) && IsSigil(sh.sigils.second)
    requires forall j :: p1 < j < p3 ==> IsWhitespace(s[j])
    requires forall j :: p3 <= j < p4 ==> IsNameChar(s[j])
    requires forall j :: p4 <= j < p5 ==> IsWhitespace(s[j])
    ensures p1 == if sh.lead then SkipBlank(s, i + |d.open|) else i + |d.open|
    ensures sh.sigils.Either? ==> SkipBlank(s, p1 + 1) == p3
    ensures NameEnd(s, p3) == p4 && SkipBlank(s, p4) == p5
  {
    assert IsPlain(d.close[0]) && s[p5] == d.close[0];
    NameOver(s, p3, p4 - p3);
    SkipOver(s, p4, p5 - p4);
    if sh.lead {
      assert !IsWhitespace(s[p1]) by {
        if sh.sigils.NoSigil? {
          assert IsNameChar(s[p3]);
        }
      }
      SkipOver(s, i + |d.open|, p1 - i - |d.open|);
    }
    if sh.sigils.Either? {
      assert !IsWhitespace(s[p3]) by {
        assert IsNameChar(s[p3]);
      }
      SkipOver(s, p1 + 1, p3 - p1 - 1);
    }
  }

  /** The steps of TagHead at position `i`, given their outcomes. */
  lemma TagHeadBy(d: TagIndicate, sh: Shape, s: string, i: nat, b: nat, c: nat, e: nat, f: nat)
    requires LiteralAt(s, i, d.open)
    requires b == if sh.lead then SkipBlank(s, i + |d.open|) else i + |d.open|
    requires sh.sigils.Either? ==> b < |s| && Admits(sh.sigils, s[b])
    requires c == if sh.sigils.NoSigil? then b else SkipBlank(s, b + 1)
    requires c < e == NameEnd(s, c)
    requires f == SkipBlank(s, e) && LiteralAt(s, f, d.close)
    ensures TagHead(d, sh, s, i) == Some(Head(s[c..e], f + |d.close|))
  {
  }

  /**
    The tag grammar, position by position: at `i`, the opening delimiter;
    then whitespace up to `p1` if the shape allows it; then, for shapes with
    sigils, an admitted sigil at `p1` and whitespace up to `p3`; a name run
    from `p3` to `p4`; whitespace up to `p5`; the closing delimiter.  Such a
    text is the tag of that shape at `i`, named by the run and ending after
    the closing delimiter.
   */
  lemma TagRecognized(d: TagIndicate, sh: Shape, s: string, i: nat, p1: nat, p3: nat, p4: nat, p5: nat)
    requires Valid(d) && LiteralAt(s, i, d.open) && LiteralAt(s, p5, d.close)
    requires i + |d.open| <= p1 <= p3 < p4 <= p5
    requires sh.lead || p1 == i + |d.open|
    requires forall j :: i + |d.open| <= j < p1 ==> IsWhitespace(s[j])
    requires sh.sigils.NoSigil? ==> p1 == p3
    requires sh.sigils.Either? ==> p1 < p3 && Admits(sh.sigils, s[p1])
    requires sh.sigils.Either? ==> IsSigil(sh.sigils.first) && IsSigil(sh.sigils.second)
    requires forall j :: p1 < j < p3 ==> IsWhitespace(s[j])
    requires forall j :: p3 <= j < p4 ==> IsNameChar(s[j])
    requires forall j :: p4 <= j < p5 ==> IsWhitespace(s[j])
    ensures TagHead(d, sh, s, i) == Some(Head(s[p3..p4], p5 + |d.close|))
  {
    TagScan(d, sh, s, i, p1, p3, p4, p5);
    TagHeadBy(d, sh, s, i, p1, p3, p4, p5);
  }

  /** A whitespace character right after the opening delimiter defeats the balance guard's patterns. */
  lemma GuardSigilAdjacent(d: TagIndicate, ws: char, rest: string)
    requires Valid(d) && IsWhitespace(ws)
    ensures MatchAt(OpeningRe(d), d.open + [ws] + rest, 0).None?
    ensures MatchAt(ClosingRe(d), d.open + [ws] + rest, 0).None?
  {
    var s := d.open + [ws] + rest;
    assert s[|d.open|] == ws;
  }

  /**
    A tag whose first non-blank character after the opening delimiter is a
    sigil (`>`, `#`, `^`, `/`) is not a variable tag.
   */
  lemma SigilTagIsNotVariable(d: TagIndicate, lead: string, sigil: char, rest: string)
    requires Valid(d) && AllWhitespace(lead) && IsSigil(sigil)
    ensures MatchAt(VariableRe(d), d.open + lead + [sigil] + rest, 0).None?
  {
    var s := d.open + lead + [sigil] + rest;
    var o := |d.open|;
    assert forall j :: o <= j < o + |lead| ==> s[j] == lead[j - o];
    assert s[o + |lead|] == sigil;
    SkipOver(s, o, |lead|);
  }

  /** Every character of a name run is a name character. */
  lemma {:induction false} NameRun(s: string, k: nat)
    requires k <= |s|
    ensures forall j :: k <= j < NameEnd(s, k) ==> IsNameChar(s[j])
    decreases |s| - k
  {
    if k < |s| && IsNameChar(s[k]) {
      NameRun(s, k + 1);
    }
  }

  /** The name a pattern captures is a non-empty run of name characters. */
  lemma MatchName(p: Pattern, s: string, i: nat)
    requires i <= |s| && MatchAt(p, s, i).Some?
    ensures IsName(MatchAt(p, s, i).value.name)
  {
    var h := TagHead(p.d, ShapeOf(p), s, i).value;
    var a := i + |p.d.open|;
    var sh := ShapeOf(p);
    var b := if sh.lead then SkipBlank(s, a) else a;
    var c := if sh.sigils.NoSigil? then b else SkipBlank(s, b + 1);
    NameRun(s, c);
    assert h.name == s[c..NameEnd(s, c)];
  }

  // Reading the search predicates.

  /** The lazy body ends at the first closing tag: when that is at `k`, the search finds `k`. */
  lemma {:induction false} FirstCloseIs(d: TagIndicate, name: string, s: string, j: nat, k: nat, l: nat)
    requires j <= k <= |s| && NoCloseWithin(d, name, s, j, k)
    requires CloseAt(d, name, s, k) == Some(l)
    ensures FirstClose(d, name, s, j) == Some((k, l))
    decreases k - j
  {
    if j < k {
      FirstCloseIs(d, name, s, j + 1, k, l);
    }
  }

  /** The search returns the first position that matches. */
  lemma {:induction false} FindIs(p: Pattern, s: string, from: nat, k: nat)
    requires from <= k <= |s| && NoMatchWithin(p, s, from, k) && MatchAt(p, s, k).Some?
    ensures FindFrom(p, s, from) == MatchAt(p, s, k)
    decreases k - from
  {
    if from < k {
      FindIs(p, s, from + 1, k);
    }
  }

  /** Every pattern starts with the opening delimiter: without it, there is nothing to find. */
  lemma {:induction false} NoOpenNoMatch(p: Pattern, s: string, from: nat)
    requires from <= |s| && IndexOf(s, p.d.open, 0).None?
    ensures FindFrom(p, s, from).None?
    decreases |s| - from
  {
    assert !LiteralAt(s, from, p.d.open);
    if from < |s| {
      NoOpenNoMatch(p, s, from + 1);
    }
  }

  /**
    The nested-tag test holds exactly when an opening delimiter is followed,
    somewhere after its end, by a closing delimiter.
   */
  lemma NestedIff(d: TagIndicate, s: string)
    ensures Nested(d, s) <==> exists i: nat, j: nat :: i + |d.open| <= j <= |s| && LiteralAt(s, i, d.open) && LiteralAt(s, j, d.close)
  {
    match IndexOf(s, d.open, 0)
    case None =>
    case Some(i0) =>
      if exists i: nat, j: nat :: i + |d.open| <= j <= |s| && LiteralAt(s, i, d.open) && LiteralAt(s, j, d.close) {
        var i: nat, j: nat :| i + |d.open| <= j <= |s| && LiteralAt(s, i, d.open) && LiteralAt(s, j, d.close);
        assert i0 <= i;
        assert IndexOf(s, d.close, i0 + |d.open|).Some?;
      }
  }

  /**
    What the section and inverted-section patterns demand of a match at
    `i`: the opening tag is there, a body of at least one character follows
    it (any characters, newlines included), and right after the body stands
    the nearest closing tag with the same name.
   */
  predicate IsBlockAt(d: TagIndicate, c: char, s: string, i: nat, m: Match)
    requires i <= |s|
  {
    m.start == i
    && TagHead(d, Shape(Either(c, c), true), s, i).Some?
    && TagHead(d, Shape(Either(c, c), true), s, i).value.name == m.name
    && var k := TagHead(d, Shape(Either(c, c), true), s, i).value.end;
       |m.body| > 0 && k + |m.body| <= |s| && m.body == s[k..k + |m.body|]
       && NoCloseWithin(d, m.name, s, k + 1, k + |m.body|)
       && CloseAt(d, m.name, s, k + |m.body|) == Some(m.end)
  }

  /** A block match has the form IsBlockAt describes. */
  lemma BlockMatchIsBlock(d: TagIndicate, c: char, s: string, i: nat)
    requires i <= |s| && MatchAt(BlockRe(d, c), s, i).Some?
    ensures IsBlockAt(d, c, s, i, MatchAt(BlockRe(d, c), s, i).value)
  {
  }
}
