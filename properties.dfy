/**
  What the pipeline guarantees as a whole: `Tags` composes, fuel only
  bounds the depth (more of it never changes a finished rendering), a text
  without the opening delimiter passes through every resolver unchanged,
  and what each kind of block contributes.
 */
module Properties {
  import opened Wrappers
  import opened Indicate
  import opened Values
  import opened Patterns
  import opened PatternFacts
  import opened Texts
  import opened Variable
  import opened Iteration
  import opened Pipeline

  /** An empty group returns the text unchanged. */
  lemma EmptyGroup(fuel: nat, ctx: Context, s: string)
    ensures RenderAll([], fuel, ctx, s) == Some(s)
  {
  }

  /** Rendering with `g1 + g2` is rendering with `g2` the output of `g1`. */
  lemma {:induction false} GroupComposition(g1: seq<Tag>, g2: seq<Tag>, fuel: nat, ctx: Context, s: string)
    ensures RenderAll(g1 + g2, fuel, ctx, s)
      == match RenderAll(g1, fuel, ctx, s) case None => None case Some(t) => RenderAll(g2, fuel, ctx, t)
    decreases |g1|
  {
    if |g1| > 0 {
      assert (g1 + g2)[0] == g1[0];
      assert (g1 + g2)[1..] == g1[1..] + g2;
      match RenderOne(g1[0], fuel, ctx, s)
      case None =>
      case Some(t) => GroupComposition(g1[1..], g2, fuel, ctx, t);
    } else {
      assert g1 + g2 == g2;
    }
  }

  // More fuel never changes a rendering that finished.

  lemma {:induction false} AllMore(g: seq<Tag>, fuel: nat, ctx: Context, s: string)
    requires RenderAll(g, fuel, ctx, s).Some?
    ensures RenderAll(g, fuel + 1, ctx, s) == RenderAll(g, fuel, ctx, s)
    decreases fuel, 4, |g|
  {
    if |g| > 0 {
      OneMore(g[0], fuel, ctx, s);
      AllMore(g[1..], fuel, ctx, RenderOne(g[0], fuel, ctx, s).value);
    }
  }

  lemma {:induction false} OneMore(t: Tag, fuel: nat, ctx: Context, s: string)
    requires RenderOne(t, fuel, ctx, s).Some?
    ensures RenderOne(t, fuel + 1, ctx, s) == RenderOne(t, fuel, ctx, s)
    decreases fuel, 3, 0
  {
    match t
    case PartialTag(d) => PartialMore(d, fuel, ctx, s, 0);
    case SectionTag(d) => SectionMore(d, fuel, ctx, s, 0);
    case InvSectionTag(d) => InvertedMore(d, fuel, ctx, s, 0);
    case VariableTag(d) =>
  }

  lemma {:induction false} SectionMore(d: TagIndicate, fuel: nat, ctx: Context, s: string, start: nat)
    requires start <= |s| && SectionFrom(d, fuel, ctx, s, start).Some?
    ensures SectionFrom(d, fuel + 1, ctx, s, start) == SectionFrom(d, fuel, ctx, s, start)
    decreases fuel, 2, |s| - start
  {
    match FindFrom(BlockRe(d, '#'), s, start)
    case None =>
    case Some(m) =>
      SectionBodyMore(d, fuel, ctx, m.name, m.body);
      SectionMore(d, fuel, ctx, s, m.end);
  }

  lemma {:induction false} SectionBodyMore(d: TagIndicate, fuel: nat, ctx: Context, name: string, body: string)
    requires SectionBody(d, fuel, ctx, name, body).Some?
    ensures SectionBody(d, fuel + 1, ctx, name, body) == SectionBody(d, fuel, ctx, name, body)
    decreases fuel, 1, 0
  {
    if name in ctx && Nested(d, body) {
      RepeatedMore(d, fuel, ctx, body, Maps(ctx[name]));
    }
  }

  lemma {:induction false} RepeatedMore(d: TagIndicate, fuel: nat, ctx: Context, body: string, maps: seq<map<string, Value>>)
    requires Repeated(d, fuel, ctx, body, maps).Some?
    ensures Repeated(d, fuel + 1, ctx, body, maps) == Repeated(d, fuel, ctx, body, maps)
    decreases fuel, 0, |maps|
  {
    if |maps| > 0 {
      AllMore(FullGroup(d), fuel - 1, Merge(ctx, maps[0]), body);
      RepeatedMore(d, fuel, ctx, body, maps[1..]);
    }
  }

  lemma {:induction false} InvertedMore(d: TagIndicate, fuel: nat, ctx: Context, s: string, start: nat)
    requires start <= |s| && InvertedFrom(d, fuel, ctx, s, start).Some?
    ensures InvertedFrom(d, fuel + 1, ctx, s, start) == InvertedFrom(d, fuel, ctx, s, start)
    decreases fuel, 2, |s| - start
  {
    match FindFrom(BlockRe(d, '^'), s, start)
    case None =>
    case Some(m) =>
      InvertedBodyMore(d, fuel, ctx, m.name, m.body);
      InvertedMore(d, fuel, ctx, s, m.end);
  }

  lemma {:induction false} InvertedBodyMore(d: TagIndicate, fuel: nat, ctx: Context, name: string, body: string)
    requires InvertedBody(d, fuel, ctx, name, body).Some?
    ensures InvertedBody(d, fuel + 1, ctx, name, body) == InvertedBody(d, fuel, ctx, name, body)
    decreases fuel, 1, 0
  {
    if name in ctx && Allowed(ctx[name]) && Nested(d, body) {
      AllMore(FullGroup(d), fuel - 1, ctx, body);
    }
  }

  lemma {:induction false} PartialMore(d: TagIndicate, fuel: nat, ctx: Context, s: string, start: nat)
    requires start <= |s| && PartialFrom(d, fuel, ctx, s, start).Some?
    ensures PartialFrom(d, fuel + 1, ctx, s, start) == PartialFrom(d, fuel, ctx, s, start)
    decreases fuel, 2, |s| - start
  {
    match FindFrom(PartialRe(d), s, start)
    case None =>
    case Some(m) =>
      PartialBodyMore(d, fuel, ctx, m.name);
      PartialMore(d, fuel, ctx, s, m.end);
  }

  lemma {:induction false} PartialBodyMore(d: TagIndicate, fuel: nat, ctx: Context, name: string)
    requires PartialBody(d, fuel, ctx, name).Some?
    ensures PartialBody(d, fuel + 1, ctx, name) == PartialBody(d, fuel, ctx, name)
    decreases fuel, 1, 0
  {
    if name in ctx && Fetch(ctx[name]).Some? {
      AllMore(PartialGroup(d), fuel - 1, ctx, Fetch(ctx[name]).value);
    }
  }

  /** Whatever fuel suffices, any larger fuel gives the same output. */
  lemma {:induction false} EnoughFuel(g: seq<Tag>, fuel: nat, more: nat, ctx: Context, s: string)
    requires fuel <= more && RenderAll(g, fuel, ctx, s).Some?
    ensures RenderAll(g, more, ctx, s) == RenderAll(g, fuel, ctx, s)
    decreases more - fuel
  {
    if fuel < more {
      AllMore(g, fuel, ctx, s);
      EnoughFuel(g, fuel + 1, more, ctx, s);
    }
  }

  /** All resolvers of a group work with the delimiters `d`. */
  predicate Uses(g: seq<Tag>, d: TagIndicate) {
    forall k :: 0 <= k < |g| ==> g[k].d == d
  }

  /** A text without the opening delimiter passes through any group of resolvers unchanged, at any fuel. */
  lemma {:induction false} NoDelimiterPassesThrough(g: seq<Tag>, d: TagIndicate, fuel: nat, ctx: Context, s: string)
    requires Uses(g, d) && IndexOf(s, d.open, 0).None?
    ensures RenderAll(g, fuel, ctx, s) == Some(s)
    decreases |g|
  {
    if |g| > 0 {
      assert s[0..] == s;
      match g[0] {
        case PartialTag(_) => NoOpenNoMatch(PartialRe(d), s, 0);
        case SectionTag(_) => NoOpenNoMatch(BlockRe(d, '#'), s, 0);
        case InvSectionTag(_) => NoOpenNoMatch(BlockRe(d, '^'), s, 0);
        case VariableTag(_) => Variable.NoDelimiterUnchanged(d, ctx, s);
      }
      assert RenderOne(g[0], fuel, ctx, s) == Some(s);
      NoDelimiterPassesThrough(g[1..], d, fuel, ctx, s);
    }
  }

  /**
    A resolver whose pattern matches nowhere returns the text unchanged, so
    tags of other kinds (a bare variable, for the block resolvers) stay as
    they are.
   */
  lemma NoMatchUnchanged(d: TagIndicate, fuel: nat, ctx: Context, s: string)
    ensures FindFrom(BlockRe(d, '#'), s, 0).None? ==> RenderOne(SectionTag(d), fuel, ctx, s) == Some(s)
    ensures FindFrom(BlockRe(d, '^'), s, 0).None? ==> RenderOne(InvSectionTag(d), fuel, ctx, s) == Some(s)
    ensures FindFrom(PartialRe(d), s, 0).None? ==> RenderOne(PartialTag(d), fuel, ctx, s) == Some(s)
  {
    assert s[0..] == s;
  }

  /**
    A section block whose name is not in the context disappears whole, its
    opening tag, body and closing tag; the text before it is kept.
   */
  lemma SectionAbsent(d: TagIndicate, fuel: nat, ctx: Context, s: string, start: nat, m: Match)
    requires start <= |s| && FindFrom(BlockRe(d, '#'), s, start) == Some(m) && m.name !in ctx
    ensures IsBlockAt(d, '#', s, m.start, m)
    ensures SectionFrom(d, fuel, ctx, s, start) == Prepend(s[start..m.start], SectionFrom(d, fuel, ctx, s, m.end))
  {
    BlockMatchIsBlock(d, '#', s, m.start);
    AppendEmpty(s[start..m.start]);
  }

  /**
    A section block whose body holds no tag is replaced by its body, once
    per repetition the value calls for, without any substitution.
   */
  lemma SectionVerbatim(d: TagIndicate, fuel: nat, ctx: Context, s: string, start: nat, m: Match)
    requires start <= |s| && FindFrom(BlockRe(d, '#'), s, start) == Some(m)
    requires m.name in ctx && !Nested(d, m.body)
    ensures SectionFrom(d, fuel, ctx, s, start)
      == Prepend(s[start..m.start] + Repeat(m.body, |Maps(ctx[m.name])|), SectionFrom(d, fuel, ctx, s, m.end))
  {
  }

  /** The concatenation of a sequence of texts, in order. */
  function Concat(parts: seq<string>): string {
    if |parts| == 0 then "" else parts[0] + Concat(parts[1..])
  }

  /**
    A section body holding tags is rendered once per overlay with the full
    group, in the context overlaid by that overlay, and the renderings are
    concatenated in order.
   */
  lemma {:induction false} RepeatedRenderings(d: TagIndicate, fuel: nat, ctx: Context, body: string, maps: seq<map<string, Value>>)
    requires fuel > 0
    requires forall k :: 0 <= k < |maps| ==> RenderAll(FullGroup(d), fuel - 1, Merge(ctx, maps[k]), body).Some?
    ensures Repeated(d, fuel, ctx, body, maps)
      == Some(Concat(seq(|maps|, k requires 0 <= k < |maps| => RenderAll(FullGroup(d), fuel - 1, Merge(ctx, maps[k]), body).value)))
    decreases |maps|
  {
    var parts := seq(|maps|, k requires 0 <= k < |maps| => RenderAll(FullGroup(d), fuel - 1, Merge(ctx, maps[k]), body).value);
    if |maps| > 0 {
      RepeatedRenderings(d, fuel, ctx, body, maps[1..]);
      var tail := seq(|maps| - 1, k requires 0 <= k < |maps| - 1 => RenderAll(FullGroup(d), fuel - 1, Merge(ctx, maps[1..][k]), body).value);
      assert parts[1..] == tail;
      assert parts[0] == RenderAll(FullGroup(d), fuel - 1, Merge(ctx, maps[0]), body).value;
      assert "" + parts[0] == parts[0];
    }
  }

  /**
    For a boolean or a collection, of a section block and an inverted block
    with the same name and the same body, exactly one writes the body: when
    the value is false or empty the section writes nothing and the inverted
    block writes the body (rendered with the full group when it holds a tag);
    otherwise the inverted block writes nothing and the section writes the
    body once per repetition, at least once.  For a tag-free, non-empty body
    this reads: the inverted block writes its body exactly when the section
    writes nothing.
   */
  lemma ExactlyOneRenders(d: TagIndicate, fuel: nat, ctx: Context, name: string, body: string)
    requires name in ctx && (ctx[name].Bool? || ctx[name].List?)
    ensures Allowed(ctx[name]) <==> |Maps(ctx[name])| == 0
    ensures Allowed(ctx[name]) ==> SectionBody(d, fuel, ctx, name, body) == Some("")
    ensures Allowed(ctx[name]) && !Nested(d, body) ==> InvertedBody(d, fuel, ctx, name, body) == Some(body)
    ensures Allowed(ctx[name]) && Nested(d, body) && fuel > 0 ==>
      InvertedBody(d, fuel, ctx, name, body) == RenderAll(FullGroup(d), fuel - 1, ctx, body)
    ensures !Allowed(ctx[name]) ==> InvertedBody(d, fuel, ctx, name, body) == Some("")
    ensures !Allowed(ctx[name]) && !Nested(d, body) ==> SectionBody(d, fuel, ctx, name, body) == Some(Repeat(body, |Maps(ctx[name])|))
    ensures !Allowed(ctx[name]) && Nested(d, body) ==> SectionBody(d, fuel, ctx, name, body) == Repeated(d, fuel, ctx, body, Maps(ctx[name]))
    ensures !Nested(d, body) && |body| > 0 ==>
      (SectionBody(d, fuel, ctx, name, body) == Some("") <==> InvertedBody(d, fuel, ctx, name, body) == Some(body))
  {
    SectionOrInverted(ctx[name]);
    var n := |Maps(ctx[name])|;
    assert |Repeat(body, n)| == n * |body|;
    if n > 0 {
      assert n * |body| >= |body|;
    }
  }

  /**
    A partial tag whose name is not in the context, or whose text cannot be
    read, is removed and the rendering goes on after it.
   */
  lemma PartialDropped(d: TagIndicate, fuel: nat, ctx: Context, s: string, start: nat, m: Match)
    requires start <= |s| && FindFrom(PartialRe(d), s, start) == Some(m)
    requires m.name !in ctx || Fetch(ctx[m.name]).None?
    ensures PartialFrom(d, fuel, ctx, s, start) == Prepend(s[start..m.start], PartialFrom(d, fuel, ctx, s, m.end))
  {
    AppendEmpty(s[start..m.start]);
  }

  /** A partial whose value is a plain string without tags is replaced by that string as it stands. */
  lemma PartialPlainText(d: TagIndicate, fuel: nat, ctx: Context, name: string, text: string)
    requires fuel > 0 && name in ctx && ctx[name] == Str(text) && IndexOf(text, d.open, 0).None?
    ensures PartialBody(d, fuel, ctx, name) == Some(text)
  {
    NoDelimiterPassesThrough(PartialGroup(d), d, fuel - 1, ctx, text);
  }

  /**
    Fetched text is rendered with the full group minus the partial
    resolver, so partial tags inside it are not expanded.
   */
  lemma PartialsNotExpanded(d: TagIndicate)
    ensures PartialGroup(d) == FullGroup(d)[1..]
    ensures forall k :: 0 <= k < |PartialGroup(d)| ==> !PartialGroup(d)[k].PartialTag?
  {
  }
}
