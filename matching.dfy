/**
  The two stateful matchers the resolvers drive: `java.util.regex.Matcher`,
  reduced to the successive `find` calls and the match accessors the
  repository uses, and `EasyMatch`, which pairs a matcher with a predicate
  every match must also satisfy.
 */
module Matching {
  import opened Wrappers
  import opened Patterns

  /** The number of groups of a pattern: the name, and for blocks the body and the back-referenced name. */
  function GroupCount(p: Pattern): nat {
    match p
    case VariableRe(_) => 1
    case PartialRe(_) => 1
    case BlockRe(_, _) => 3
    case OpeningRe(_) => 0
    case ClosingRe(_) => 0
  }

  /**
    A matcher over one input.  Each `Find` searches from the end of the
    previous match (from the start of the input at first) and makes the
    leftmost match found there the current one; a failed search leaves no
    current match and the search position where it was.
   */
  class Matcher {
    const pattern: Pattern
    const input: string
    /** Where the next search starts. */
    var cursor: nat
    /** The match of the last successful `Find`. */
    var current: Option<Match>

    ghost predicate Valid()
      reads this
    {
      cursor <= |input|
      && (current.Some? ==> current.value.start < current.value.end == cursor)
    }

    constructor(p: Pattern, s: string)
      ensures Valid()
      ensures pattern == p && input == s && cursor == 0 && current == None
    {
      pattern := p;
      input := s;
      cursor := 0;
      current := None;
    }

    /** `Matcher.find`: the next match, if any, becomes the current one. */
    method Find() returns (found: bool)
      requires Valid()
      modifies this
      ensures Valid()
      ensures current == FindFrom(pattern, input, old(cursor))
      ensures found == current.Some?
      ensures cursor == if found then current.value.end else old(cursor)
    {
      current := FindFrom(pattern, input, cursor);
      found := current.Some?;
      if found {
        cursor := current.value.end;
      }
    }
  }

  /** What the predicate of an `EasyMatch` sees: the whole input and the bounds of the candidate match. */
  datatype MatchContext = MatchContext(input: string, start: nat, end: nat)

  /**
    `EasyMatch`: a matcher whose `Find` succeeds only when the underlying
    matcher finds a match and the predicate accepts it.  The accessors
    report the underlying matcher's current match, whether the predicate
    accepted it or not.
   */
  class EasyMatch {
    const matcher: Matcher
    const input: string
    const accepts: MatchContext -> bool

    ghost predicate Valid()
      reads this, matcher
    {
      matcher.Valid() && matcher.input == input
    }

    constructor(p: Pattern, s: string, f: MatchContext -> bool)
      ensures Valid() && fresh(matcher)
      ensures matcher.pattern == p && input == s && accepts == f
      ensures matcher.cursor == 0 && matcher.current == None
    {
      matcher := new Matcher(p, s);
      input := s;
      accepts := f;
    }

    /**
      The next match that the predicate accepts.  The predicate is consulted
      only when there is a match, on the full input and that match's bounds.
     */
    method Find() returns (found: bool)
      requires Valid()
      modifies matcher
      ensures Valid()
      ensures matcher.current == FindFrom(matcher.pattern, input, old(matcher.cursor))
      ensures matcher.cursor == if matcher.current.Some? then matcher.current.value.end else old(matcher.cursor)
      ensures found <==> (matcher.current.Some?
        && accepts(MatchContext(input, matcher.current.value.start, matcher.current.value.end)))
    {
      var hit := matcher.Find();
      if hit {
        found := accepts(MatchContext(input, matcher.current.value.start, matcher.current.value.end));
      } else {
        found := false;
      }
    }

    /** `start()`: where the current match begins. */
    function Start(): (r: nat)
      reads this, matcher
      requires Valid() && matcher.current.Some?
      ensures r == matcher.current.value.start && r < matcher.cursor <= |input|
    {
      matcher.current.value.start
    }

    /** `end()`: the position just after the current match. */
    function End(): (r: nat)
      reads this, matcher
      requires Valid() && matcher.current.Some?
      ensures r == matcher.current.value.end == matcher.cursor && r <= |input|
    {
      matcher.current.value.end
    }

    /**
      `group(g)`: the whole match for 0, the name for 1, the body of a
      block for 2 and the closing tag's name, equal to the opening one, for 3.
     */
    function Group(g: nat): (r: string)
      reads this, matcher
      requires Valid() && matcher.current.Some? && g <= GroupCount(matcher.pattern)
      ensures g == 0 ==> r == input[Start()..End()]
      ensures g == 1 || g == 3 ==> r == matcher.current.value.name
      ensures g == 2 ==> r == matcher.current.value.body
    {
      var m := matcher.current.value;
      if g == 0 then input[m.start..m.end]
      else if g == 2 then m.body
      else m.name
    }
  }
}
