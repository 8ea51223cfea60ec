/**
  The rendering pipeline as functions: each resolver, and `Tags`, which
  runs a group of resolvers one after the other over the text.

  Sections and inverted sections render the bodies that contain tags with
  the full group (partial, section, inverted section, variable), and
  partials render the text they fetch with the group without partials, so
  the resolvers are mutually recursive and nothing bounds the depth (a
  partial's text can hold a section whose body holds the same partial).
  Every nested rendering therefore spends one unit of `fuel`, and an
  output of None means the rendering needed more nested renderings than the
  fuel allowed.
 */
module Pipeline {
  import opened Wrappers
  import opened Indicate
  import opened Values
  import opened Patterns
  import opened Variable
  import opened Iteration

  /** The resolvers, each with the delimiters it was built with. */
  datatype Tag =
    | PartialTag(d: TagIndicate)
    | SectionTag(d: TagIndicate)
    | InvSectionTag(d: TagIndicate)
    | VariableTag(d: TagIndicate)

  /** The group a section or an inverted section renders a body with. */
  function FullGroup(d: TagIndicate): seq<Tag> {
    [PartialTag(d), SectionTag(d), InvSectionTag(d), VariableTag(d)]
  }

  /** The group a partial renders its fetched text with: no partials. */
  function PartialGroup(d: TagIndicate): seq<Tag> {
    [SectionTag(d), InvSectionTag(d), VariableTag(d)]
  }

  /** The text before a block, the block's output and the output of the rest, when both outputs exist. */
  function Splice(before: string, piece: Option<string>, rest: Option<string>): (r: Option<string>)
    ensures r.Some? <==> piece.Some? && rest.Some?
    ensures r.Some? ==> r.value == before + piece.value + rest.value
  {
    if piece.Some? && rest.Some? then Some(before + piece.value + rest.value) else None
  }

  /** A text followed by an output that may be missing. */
  function Prepend(prefix: string, r: Option<string>): (o: Option<string>)
    ensures o.Some? <==> r.Some?
    ensures o.Some? ==> o.value == prefix + r.value
  {
    if r.Some? then Some(prefix + r.value) else None
  }

  /** `body` written `n` times. */
  function Repeat(body: string, n: nat): (r: string)
    ensures |r| == n * |body|
  {
    if n == 0 then "" else Repeat(body, n - 1) + body
  }

  /** `Tags.render`: each resolver of the group, in order, over the previous one's output. */
  function RenderAll(g: seq<Tag>, fuel: nat, ctx: Context, s: string): Option<string>
    decreases fuel, 4, |g|
  {
    if |g| == 0 then Some(s)
    else
      match RenderOne(g[0], fuel, ctx, s)
      case None => None
      case Some(t) => RenderAll(g[1..], fuel, ctx, t)
  }

  /** One resolver over the text. */
  function RenderOne(t: Tag, fuel: nat, ctx: Context, s: string): Option<string>
    decreases fuel, 3, 0
  {
    match t
    case PartialTag(d) => PartialFrom(d, fuel, ctx, s, 0)
    case SectionTag(d) => SectionFrom(d, fuel, ctx, s, 0)
    case InvSectionTag(d) => InvertedFrom(d, fuel, ctx, s, 0)
    case VariableTag(d) => Some(Substitute(d, ctx, s))
  }

  /** `Section.render` from `start` on: each section block replaced by its output, the text between copied. */
  function SectionFrom(d: TagIndicate, fuel: nat, ctx: Context, s: string, start: nat): Option<string>
    requires start <= |s|
    decreases fuel, 2, |s| - start
  {
    match FindFrom(BlockRe(d, '#'), s, start)
    case None => Some(s[start..])
    case Some(m) => Splice(s[start..m.start], SectionBody(d, fuel, ctx, m.name, m.body), SectionFrom(d, fuel, ctx, s, m.end))
  }

  /**
    The output of one section block: nothing when the name is not in the
    context; otherwise, per overlay of the value, the body rendered with the
    full group in the context overlaid by it when the body holds a tag, the
    body itself when it does not.
   */
  function SectionBody(d: TagIndicate, fuel: nat, ctx: Context, name: string, body: string): Option<string>
    decreases fuel, 1, 0
  {
    if name !in ctx then Some("")
    else if Nested(d, body) then Repeated(d, fuel, ctx, body, Maps(ctx[name]))
    else Some(Repeat(body, |Maps(ctx[name])|))
  }

  /** The body rendered once per overlay, in order. */
  function Repeated(d: TagIndicate, fuel: nat, ctx: Context, body: string, maps: seq<map<string, Value>>): Option<string>
    decreases fuel, 0, |maps|
  {
    if |maps| == 0 then Some("")
    else if fuel == 0 then None
    else Splice("", RenderAll(FullGroup(d), fuel - 1, Merge(ctx, maps[0]), body), Repeated(d, fuel, ctx, body, maps[1..]))
  }

  /** `InvSection.render` from `start` on. */
  function InvertedFrom(d: TagIndicate, fuel: nat, ctx: Context, s: string, start: nat): Option<string>
    requires start <= |s|
    decreases fuel, 2, |s| - start
  {
    match FindFrom(BlockRe(d, '^'), s, start)
    case None => Some(s[start..])
    case Some(m) => Splice(s[start..m.start], InvertedBody(d, fuel, ctx, m.name, m.body), InvertedFrom(d, fuel, ctx, s, m.end))
  }

  /**
    The output of one inverted block: when the name is in the context and
    its value passes `Allowed`, the body, rendered with the full group in the
    same context if it holds a tag; nothing otherwise.
   */
  function InvertedBody(d: TagIndicate, fuel: nat, ctx: Context, name: string, body: string): Option<string>
    decreases fuel, 1, 0
  {
    if !(name in ctx && Allowed(ctx[name])) then Some("")
    else if !Nested(d, body) then Some(body)
    else if fuel == 0 then None
    else RenderAll(FullGroup(d), fuel - 1, ctx, body)
  }

  /** `Partial.render` from `start` on. */
  function PartialFrom(d: TagIndicate, fuel: nat, ctx: Context, s: string, start: nat): Option<string>
    requires start <= |s|
    decreases fuel, 2, |s| - start
  {
    match FindFrom(PartialRe(d), s, start)
    case None => Some(s[start..])
    case Some(m) => Splice(s[start..m.start], PartialBody(d, fuel, ctx, m.name), PartialFrom(d, fuel, ctx, s, m.end))
  }

  /**
    The output of one partial tag: nothing when the name is not in the
    context or its text cannot be read; otherwise the text rendered with the
    group without partials, in the same context.
   */
  function PartialBody(d: TagIndicate, fuel: nat, ctx: Context, name: string): Option<string>
    decreases fuel, 1, 0
  {
    if name !in ctx then Some("")
    else
      match Fetch(ctx[name])
      case None => Some("")
      case Some(text) => if fuel == 0 then None else RenderAll(PartialGroup(d), fuel - 1, ctx, text)
  }
}
