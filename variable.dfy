/**
  The variable resolver: every variable tag the balance guard lets through
  is replaced by the string form of its value, or deleted when the name is
  not in the context; the first tag the guard rejects ends the scan.
 */
module Variable {
  import opened Wrappers
  import opened Indicate
  import opened Values
  import opened Patterns
  import opened Matching
  import opened Texts
  import opened PatternFacts

  /** The number of successive matches of `p` in `s` found from `from` on, as `PatternCount.count` counts them. */
  function CountFrom(p: Pattern, s: string, from: nat): nat
    requires from <= |s|
    decreases |s| - from
  {
    match FindFrom(p, s, from)
    case None => 0
    case Some(m) => 1 + CountFrom(p, s, m.end)
  }

  /**
    The balance guard of a variable match ending at `end`: the rest of the
    template holds as many opening tags of sections (`#` or `^`) as closing
    tags.
   */
  predicate Balanced(d: TagIndicate, s: string, end: nat)
    requires end <= |s|
  {
    CountFrom(OpeningRe(d), s[end..], 0) == CountFrom(ClosingRe(d), s[end..], 0)
  }

  /** The guard as the predicate of an `EasyMatch`. */
  function Guard(d: TagIndicate): MatchContext -> bool {
    (c: MatchContext) => c.end <= |c.input| && Balanced(d, c.input, c.end)
  }

  /** The text a variable contributes: its value's string form, nothing for a name not in the context. */
  function Lookup(ctx: Context, name: string): (r: string)
    ensures name !in ctx ==> r == ""
    ensures name in ctx && ctx[name].Str? ==> r == ctx[name].s
    ensures name in ctx && ctx[name].Bool? ==> (r == "true" <==> ctx[name].b) && (r == "false" <==> !ctx[name].b)
    ensures name in ctx && ctx[name].Int? ==> r == IntToString(ctx[name].i)
    ensures name in ctx && ctx[name].List? ==> |r| >= 2 && r[0] == '[' && r[|r| - 1] == ']'
    ensures name in ctx && ctx[name].Obj? ==> r == "{" + ctx[name].entries + "}"
  {
    if name in ctx then Display(ctx[name]) else ""
  }

  /** The output of the variable resolver for the template from `start` on, the scan resuming at `start`. */
  function SubstituteFrom(d: TagIndicate, ctx: Context, s: string, start: nat): string
    requires start <= |s|
    decreases |s| - start
  {
    match FindFrom(VariableRe(d), s, start)
    case None => s[start..]
    case Some(m) =>
      if Balanced(d, s, m.end) then s[start..m.start] + Lookup(ctx, m.name) + SubstituteFrom(d, ctx, s, m.end)
      else s[start..]
  }

  /** `Variable.render`. */
  function Substitute(d: TagIndicate, ctx: Context, s: string): string {
    SubstituteFrom(d, ctx, s, 0)
  }

  /**
    An accepted variable tag is replaced by its value's string form, or
    deleted when its name is not in the context; the text before it is
    copied and the scan resumes right after it, so the inserted text is
    never scanned again.
   */
  lemma Substituted(d: TagIndicate, ctx: Context, s: string, start: nat, m: Match)
    requires start <= |s| && FindFrom(VariableRe(d), s, start) == Some(m) && Balanced(d, s, m.end)
    ensures SubstituteFrom(d, ctx, s, start)
      == (s[start..m.start] + Lookup(ctx, m.name)) + SubstituteFrom(d, ctx, s, m.end)
  {
  }

  /**
    The scan stops at the first variable tag the guard rejects, or when no
    tag is left: the rest of the template is copied as it stands.
   */
  lemma Stopped(d: TagIndicate, ctx: Context, s: string, start: nat)
    requires start <= |s|
    requires FindFrom(VariableRe(d), s, start).Some? ==> !Balanced(d, s, FindFrom(VariableRe(d), s, start).value.end)
    ensures SubstituteFrom(d, ctx, s, start) == s[start..]
  {
  }

  /** Matches never overlap and are never empty, so there are at most as many as characters left. */
  lemma {:induction false} CountBound(p: Pattern, s: string, from: nat)
    requires from <= |s|
    ensures CountFrom(p, s, from) <= |s| - from
    decreases |s| - from
  {
    match FindFrom(p, s, from)
    case None =>
    case Some(m) => CountBound(p, s, m.end);
  }

  /** A text after the match without any opening delimiter holds no section tags, so the guard accepts. */
  lemma PlainTailBalanced(d: TagIndicate, s: string, end: nat)
    requires end <= |s| && IndexOf(s[end..], d.open, 0).None?
    ensures Balanced(d, s, end)
  {
    NoOpenNoMatch(OpeningRe(d), s[end..], 0);
    NoOpenNoMatch(ClosingRe(d), s[end..], 0);
  }

  /** A template without any opening delimiter comes back unchanged. */
  lemma NoDelimiterUnchanged(d: TagIndicate, ctx: Context, s: string)
    requires IndexOf(s, d.open, 0).None?
    ensures Substitute(d, ctx, s) == s
  {
    NoOpenNoMatch(VariableRe(d), s, 0);
  }

  /** `PatternCount.count`: counts the matches left to the matcher. */
  method Count(m: Matcher) returns (count: nat)
    requires m.Valid()
    modifies m
    ensures count == CountFrom(m.pattern, m.input, old(m.cursor))
    ensures m.Valid() && m.current == None && FindFrom(m.pattern, m.input, m.cursor).None?
  {
    count := 0;
    while true
      invariant m.Valid()
      invariant count + CountFrom(m.pattern, m.input, m.cursor) == CountFrom(m.pattern, m.input, old(m.cursor))
      decreases |m.input| - m.cursor
    {
      var found := m.Find();
      if !found {
        break;
      }
      count := count + 1;
    }
  }

  /** The guard as the source computes it: two counts over the text after the match. */
  method CheckBalance(d: TagIndicate, input: string, end: nat) returns (ok: bool)
    requires end <= |input|
    ensures ok == Balanced(d, input, end)
  {
    var after := input[end..];
    var opening := new Matcher(OpeningRe(d), after);
    var closing := new Matcher(ClosingRe(d), after);
    var openings := Count(opening);
    var closings := Count(closing);
    ok := openings == closings;
  }

  /** `Variable.render`: the scan over the template with an `EasyMatch` guarded by the balance test. */
  method Render(d: TagIndicate, ctx: Context, s: string) returns (r: string)
    ensures r == Substitute(d, ctx, s)
  {
    var result := "";
    var start := 0;
    var matcher := new EasyMatch(VariableRe(d), s, Guard(d));
    while true
      invariant matcher.Valid() && fresh(matcher.matcher)
      invariant matcher.matcher.pattern == VariableRe(d) && matcher.input == s && matcher.accepts == Guard(d)
      invariant start == matcher.matcher.cursor <= |s|
      invariant result + SubstituteFrom(d, ctx, s, start) == Substitute(d, ctx, s)
      decreases |s| - start
    {
      var found := matcher.Find();
      if !found {
        break;
      }
      var m := matcher.matcher.current.value;
      Substituted(d, ctx, s, start, m);
      var piece := s[start..matcher.Start()];
      var name := matcher.Group(1);
      if name in ctx {
        piece := piece + Display(ctx[name]);
      } else {
        AppendEmpty(piece);
      }
      Associative(result, piece, SubstituteFrom(d, ctx, s, m.end));
      result := result + piece;
      start := matcher.End();
    }
    result := result + s[start..];
    r := result;
  }
}
