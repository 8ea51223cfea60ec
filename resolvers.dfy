/**
  The resolvers as the source runs them: each scans the template with a
  matcher, appends the text before every match and the match's output to a
  buffer, and resumes after the match; `Tags` feeds each resolver's output
  to the next.  Each is proved to produce what module Pipeline specifies.
 */
module Resolvers {
  import opened Wrappers
  import opened Indicate
  import opened Values
  import opened Patterns
  import opened Matching
  import opened Texts
  import opened Variable
  import opened Iteration
  import opened Pipeline

  /** Appending the text before a block and the block's output to the buffer keeps the buffer's promise. */
  lemma Advance(result: string, before: string, piece: string, rest: Option<string>)
    ensures Prepend(result, Splice(before, Some(piece), rest)) == Prepend(result + before + piece, rest)
  {
    if rest.Some? {
      Associative(result, before, piece);
      Associative(result + before, piece, rest.value);
      Associative(result, before + piece, rest.value);
      Associative(before, piece, rest.value);
    }
  }

  /** An empty buffer adds nothing. */
  lemma PrependNothing(r: Option<string>)
    ensures Prepend("", r) == r
  {
    if r.Some? {
      assert "" + r.value == r.value;
    }
  }

  /** `Tags.render`. */
  method RenderTags(g: seq<Tag>, fuel: nat, ctx: Context, s: string) returns (r: Option<string>)
    ensures r == RenderAll(g, fuel, ctx, s)
    decreases fuel, 4, |g|
  {
    var rendered := s;
    var i := 0;
    while i < |g|
      invariant i <= |g|
      invariant RenderAll(g[i..], fuel, ctx, rendered) == RenderAll(g, fuel, ctx, s)
    {
      assert g[i..][1..] == g[i + 1..];
      var next := RenderTag(g[i], fuel, ctx, rendered);
      if next.None? {
        return None;
      }
      rendered := next.value;
      i := i + 1;
    }
    r := Some(rendered);
  }

  /** `Tag.render` of one resolver. */
  method RenderTag(t: Tag, fuel: nat, ctx: Context, s: string) returns (r: Option<string>)
    ensures r == RenderOne(t, fuel, ctx, s)
    decreases fuel, 3, 0
  {
    match t
    case PartialTag(d) => r := RenderPartial(d, fuel, ctx, s);
    case SectionTag(d) => r := RenderSection(d, fuel, ctx, s);
    case InvSectionTag(d) => r := RenderInverted(d, fuel, ctx, s);
    case VariableTag(d) =>
      var text := Variable.Render(d, ctx, s);
      r := Some(text);
  }

  /** `Section.render`. */
  method RenderSection(d: TagIndicate, fuel: nat, ctx: Context, s: string) returns (r: Option<string>)
    ensures r == SectionFrom(d, fuel, ctx, s, 0)
    decreases fuel, 2, 0
  {
    var result := "";
    var start := 0;
    var matcher := new Matcher(BlockRe(d, '#'), s);
    PrependNothing(SectionFrom(d, fuel, ctx, s, 0));
    while true
      invariant matcher.Valid() && fresh(matcher)
      invariant matcher.pattern == BlockRe(d, '#') && matcher.input == s
      invariant start == matcher.cursor <= |s|
      invariant Prepend(result, SectionFrom(d, fuel, ctx, s, start)) == SectionFrom(d, fuel, ctx, s, 0)
      decreases |s| - start
    {
      var found := matcher.Find();
      if !found {
        break;
      }
      var m := matcher.current.value;
      var piece := SectionPiece(d, fuel, ctx, m.name, m.body);
      if piece.None? {
        return None;
      }
      Advance(result, s[start..m.start], piece.value, SectionFrom(d, fuel, ctx, s, m.end));
      result := result + s[start..m.start] + piece.value;
      start := m.end;
    }
    r := Some(result + s[start..]);
  }

  /** The output of one section block, as `Section.render` appends it. */
  method SectionPiece(d: TagIndicate, fuel: nat, ctx: Context, name: string, content: string) returns (piece: Option<string>)
    ensures piece == SectionBody(d, fuel, ctx, name, content)
    decreases fuel, 1, 0
  {
    var contains := name in ctx;
    var value := if contains then ctx[name] else Str("");
    var nested := Nested(d, content);
    var maps := CollectMaps(value);
    var out := "";
    var k := 0;
    if contains && nested {
      PrependNothing(Repeated(d, fuel, ctx, content, maps));
      while k < |maps|
        invariant k <= |maps|
        invariant Prepend(out, Repeated(d, fuel, ctx, content, maps[k..])) == Repeated(d, fuel, ctx, content, maps)
      {
        assert maps[k..][1..] == maps[k + 1..];
        if fuel == 0 {
          return None;
        }
        var merged := MergeInto(ctx, maps[k]);
        var rendered := RenderTags(FullGroup(d), fuel - 1, merged, content);
        if rendered.None? {
          return None;
        }
        Advance(out, "", rendered.value, Repeated(d, fuel, ctx, content, maps[k + 1..]));
        AppendEmpty(out);
        out := out + rendered.value;
        k := k + 1;
      }
      assert maps[k..] == [];
      AppendEmpty(out);
    } else if contains {
      while k < |maps|
        invariant k <= |maps| && out == Repeat(content, k)
      {
        out := out + content;
        k := k + 1;
      }
    }
    piece := Some(out);
  }

  /** `InvSection.render`. */
  method RenderInverted(d: TagIndicate, fuel: nat, ctx: Context, s: string) returns (r: Option<string>)
    ensures r == InvertedFrom(d, fuel, ctx, s, 0)
    decreases fuel, 2, 0
  {
    var result := "";
    var start := 0;
    var matcher := new Matcher(BlockRe(d, '^'), s);
    PrependNothing(InvertedFrom(d, fuel, ctx, s, 0));
    while true
      invariant matcher.Valid() && fresh(matcher)
      invariant matcher.pattern == BlockRe(d, '^') && matcher.input == s
      invariant start == matcher.cursor <= |s|
      invariant Prepend(result, InvertedFrom(d, fuel, ctx, s, start)) == InvertedFrom(d, fuel, ctx, s, 0)
      decreases |s| - start
    {
      var found := matcher.Find();
      if !found {
        break;
      }
      var m := matcher.current.value;
      var piece := InvertedPiece(d, fuel, ctx, m.name, m.body);
      if piece.None? {
        return None;
      }
      Advance(result, s[start..m.start], piece.value, InvertedFrom(d, fuel, ctx, s, m.end));
      result := result + s[start..m.start] + piece.value;
      start := m.end;
    }
    r := Some(result + s[start..]);
  }

  /** The output of one inverted block, as `InvSection.render` appends it. */
  method InvertedPiece(d: TagIndicate, fuel: nat, ctx: Context, name: string, content: string) returns (piece: Option<string>)
    ensures piece == InvertedBody(d, fuel, ctx, name, content)
    decreases fuel, 1, 0
  {
    var contains := name in ctx;
    var value := if contains then ctx[name] else Str("");
    var nested := Nested(d, content);
    var allowed := Allowed(value);
    if contains && allowed && nested {
      if fuel == 0 {
        return None;
      }
      piece := RenderTags(FullGroup(d), fuel - 1, ctx, content);
    } else if contains && allowed {
      piece := Some(content);
    } else {
      piece := Some("");
    }
  }

  /** `Partial.render`: a text that cannot be read contributes nothing and the scan goes on. */
  method RenderPartial(d: TagIndicate, fuel: nat, ctx: Context, s: string) returns (r: Option<string>)
    ensures r == PartialFrom(d, fuel, ctx, s, 0)
    decreases fuel, 2, 0
  {
    var result := "";
    var start := 0;
    var matcher := new Matcher(PartialRe(d), s);
    PrependNothing(PartialFrom(d, fuel, ctx, s, 0));
    while true
      invariant matcher.Valid() && fresh(matcher)
      invariant matcher.pattern == PartialRe(d) && matcher.input == s
      invariant start == matcher.cursor <= |s|
      invariant Prepend(result, PartialFrom(d, fuel, ctx, s, start)) == PartialFrom(d, fuel, ctx, s, 0)
      decreases |s| - start
    {
      var found := matcher.Find();
      if !found {
        break;
      }
      var m := matcher.current.value;
      var piece := PartialPiece(d, fuel, ctx, m.name);
      if piece.None? {
        return None;
      }
      Advance(result, s[start..m.start], piece.value, PartialFrom(d, fuel, ctx, s, m.end));
      result := result + s[start..m.start] + piece.value;
      start := m.end;
    }
    r := Some(result + s[start..]);
  }

  /**
    The output of one partial tag, as `Partial.render` appends it: a text
    that cannot be read contributes nothing.
   */
  method PartialPiece(d: TagIndicate, fuel: nat, ctx: Context, name: string) returns (piece: Option<string>)
    ensures piece == PartialBody(d, fuel, ctx, name)
    decreases fuel, 1, 0
  {
    piece := Some("");
    if name in ctx {
      var contents := Fetch(ctx[name]);
      if contents.Some? {
        if fuel == 0 {
          return None;
        }
        piece := RenderTags(PartialGroup(d), fuel - 1, ctx, contents.value);
      }
    }
  }
}
