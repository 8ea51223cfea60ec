# simple-mustache tag resolvers in Dafny

This project models the tag resolvers of simple-mustache, a small Java
template engine. Each resolver makes one left-to-right pass over a template
and replaces one kind of tag with text taken from a context that maps names
to values:

- **Variable** (`{{name}}`) replaces the tag with its value's string form.
  A balance guard rejects a tag when the text after it has unequal numbers
  of section openers and closers, and the first rejected tag ends the scan.
- **Section** (`{{#name}}…{{/name}}`) writes the block body zero, one or
  many times, depending on the value.
- **Inverted section** (`{{^name}}…{{/name}}`) writes the body at most once:
  only when the value is an empty collection or reads `false`.
- **Partial** (`{{>name}}`) splices in the text fetched from the value,
  after running the section, inverted-section and variable resolvers over it.
- **Tags** runs a group of resolvers one after the other. Each resolver
  reads the previous one's output, and every resolver gets the same context.
- **EasyMatch** is a regex matcher whose `find` also requires a predicate to
  accept the match. The variable resolver uses it for the balance guard.

The modules follow the source:

- `Indicate` holds the delimiters and the character classes of the tag
  grammar.
- `Values` holds the context values and their string forms.
- `Patterns` hand-writes the repository's regular expressions as matchers.
  Delimiters must be free of name characters, whitespace and sigils. Under
  that condition each pattern matches at a position in at most one way.
- `PatternFacts` states what those matchers recognise.
- `Matching` has the `Matcher` and `EasyMatch` classes.
- `Variable` has the variable resolver, its guard and `PatternCount.count`.
- `Iteration` has `Section.maps`, `Section.merge` and the inverted-section
  test.
- `Pipeline` specifies every resolver and `Tags` as functions.
- `Resolvers` holds the resolvers as the source runs them: a matcher loop
  appends to a buffer and moves a cursor. Each method is proved to return
  exactly what `Pipeline` specifies.
- `Properties` proves what the pipeline guarantees as a whole.

The resolvers call each other: section bodies are rendered with the full
group, and partial texts with the group minus partials. Nothing in the
source bounds the depth of these calls. So every nested rendering spends one
unit of fuel, and `None` means the fuel ran out.
`Properties.EnoughFuel` shows that fuel is only a bound: once a rendering
finishes, any larger fuel gives the same output.

Some consequences of the code that the model keeps:

- A variable whose name is not in the context is deleted, not left as
  literal text: only a present name appends anything
  (`tags/Variable.java:96-101`).
- Each resolver makes exactly one pass. The scan resumes after each
  replaced tag, so inserted text is not scanned again, and nothing re-runs
  the group to a fixed point (`tags/Variable.java:95-102`, `Tags.java:49-56`).
- A section whose value is a plain string or a number renders nothing. Only
  a string form that reads `true` (ignoring case) or a collection repeats
  the body (`tags/Section.java:139-153`).
- An inverted section whose name is missing renders nothing, because the
  block is written only when the name is present (`tags/InvSection.java:91-109`).

The balance guard counts only section tags with no whitespace between the
opening delimiter and the sigil (`PatternFacts.GuardSigilAdjacent`). The
section pattern itself accepts such whitespace.

## Model

| member | source | states |
|---|---|---|
| Indicate.KnownDelimitersValid | src/test/java/com/github/piotrkot/mustache/tags/SectionTest.java:254-263 | the tests' `[[`/`]]` delimiters and the default braces are within the delimiters the model covers |
| Values.IntToString | src/main/java/com/github/piotrkot/mustache/tags/Variable.java:99 | the string form of a number is its canonical decimal form: an optional minus sign, then digits without a leading zero (just "0" for zero) that read back as the number |
| Values.DigitsRoundTrip | src/main/java/com/github/piotrkot/mustache/tags/Variable.java:99 | reading back the decimal digits of n gives n |
| Values.Fetch | src/main/java/com/github/piotrkot/mustache/tags/Partial.java:84-91 | only a path or stream can fail to be read, and it yields its text otherwise; a string yields itself, a boolean "true" or "false", a number its decimal form |
| Values.DisplayOfNonText | src/main/java/com/github/piotrkot/mustache/tags/Section.java:141 | numbers, collections and maps never have `true` or `false` as their string form |
| Patterns.SkipBlank | src/main/java/com/github/piotrkot/mustache/tags/Variable.java:59 | a `\s*` run from k stays within the text and never moves backwards |
| Patterns.NameEnd | src/main/java/com/github/piotrkot/mustache/tags/Variable.java:59 | a `[\w.]+` run from k stays within the text and never moves backwards |
| Patterns.TagHead | src/main/java/com/github/piotrkot/mustache/tags/Variable.java:57-63 | a tag found at i starts with the opening delimiter and ends after i, within the text |
| Patterns.CloseAt | src/main/java/com/github/piotrkot/mustache/tags/Section.java:67 | a closing tag found at k ends after k, within the text |
| Patterns.FirstClose | src/main/java/com/github/piotrkot/mustache/tags/Section.java:67 | the lazy body ends at a closing tag with the same name, and no such tag starts earlier; without one there is no match |
| Patterns.MatchAt | src/main/java/com/github/piotrkot/mustache/tags/Section.java:65-72 | a match at i starts with the opening delimiter and ends after i, within the text |
| Patterns.FindFrom | src/main/java/com/github/piotrkot/mustache/tags/Section.java:90 | the search returns a match that starts at or after its starting point, with no match starting earlier; None means no match anywhere further on |
| Patterns.IndexOf | src/main/java/com/github/piotrkot/mustache/tags/Section.java:73-80 | the first occurrence of a literal at or after a position; None means none occurs |
| PatternFacts.TagRecognized | src/main/java/com/github/piotrkot/mustache/tags/Section.java:67 | any text of the form delimiter, whitespace, sigil, whitespace, name, whitespace, delimiter is recognised as that tag, with that name: whitespace around the sigil and the name is tolerated |
| PatternFacts.GuardSigilAdjacent | src/main/java/com/github/piotrkot/mustache/tags/Variable.java:78-91 | the guard's opening and closing patterns never match when whitespace follows the opening delimiter |
| PatternFacts.SigilTagIsNotVariable | src/main/java/com/github/piotrkot/mustache/tags/Variable.java:57-63 | a tag whose first non-blank character is `>`, `#`, `^` or `/` is never a variable match |
| PatternFacts.MatchName | src/main/java/com/github/piotrkot/mustache/tags/Section.java:67 | the name a pattern captures is a non-empty run over `[A-Za-z0-9_.]` |
| PatternFacts.FirstCloseIs | src/main/java/com/github/piotrkot/mustache/tags/Section.java:67 | when the nearest closing tag with the name is at k, the lazy body ends at k |
| PatternFacts.FindIs | src/main/java/com/github/piotrkot/mustache/tags/Section.java:90 | the search returns the first position at which the pattern matches |
| PatternFacts.NoOpenNoMatch | src/main/java/com/github/piotrkot/mustache/tags/Variable.java:57-63 | a text without the opening delimiter has no match of any pattern |
| PatternFacts.NestedIff | src/main/java/com/github/piotrkot/mustache/tags/Section.java:73-80 | the nested-tag test holds exactly when an opening delimiter is followed, after its end, by a closing delimiter |
| PatternFacts.BlockMatchIsBlock | src/main/java/com/github/piotrkot/mustache/tags/Section.java:65-72 | a block match is an opening tag, a body of at least one character (newlines allowed) and the nearest closing tag with the same name |
| Matching.Matcher.constructor | src/main/java/com/github/piotrkot/mustache/EasyMatch.java:59 | a new matcher searches from the start and has no current match |
| Matching.Matcher.Find | src/main/java/com/github/piotrkot/mustache/EasyMatch.java:72 | the leftmost match from the end of the last one becomes current; a failed search leaves no current match |
| Matching.EasyMatch.constructor | src/main/java/com/github/piotrkot/mustache/EasyMatch.java:57-62 | the matcher is over the input, with the given pattern and predicate |
| Matching.EasyMatch.Find | src/main/java/com/github/piotrkot/mustache/EasyMatch.java:71-74 | true exactly when the matcher finds a next match and the predicate accepts the whole input with that match's bounds; the match becomes current either way |
| Matching.EasyMatch.Start | src/main/java/com/github/piotrkot/mustache/EasyMatch.java:81-83 | the start of the most recent underlying match, accepted or not |
| Matching.EasyMatch.End | src/main/java/com/github/piotrkot/mustache/EasyMatch.java:90-92 | the end of the most recent underlying match, where the next search starts |
| Matching.EasyMatch.Group | src/main/java/com/github/piotrkot/mustache/EasyMatch.java:102-104 | group 0 is the matched text, group 1 the name, group 2 the block body, group 3 the repeated name |
| Variable.Lookup | src/main/java/com/github/piotrkot/mustache/tags/Variable.java:97-100 | an absent name contributes nothing; a string contributes itself, a boolean "true" exactly when true and "false" exactly when false, a number its decimal form, a collection a bracketed listing, a map its braced entries |
| Variable.Substituted | src/main/java/com/github/piotrkot/mustache/tags/Variable.java:95-102 | an accepted tag is replaced by its value (deleted when absent), the text before it is copied, and the scan resumes after the tag, so the inserted text is not scanned again |
| Variable.Stopped | src/main/java/com/github/piotrkot/mustache/tags/Variable.java:95-103 | when no tag is left, or the next one fails the guard, the rest of the template is copied verbatim |
| Variable.CountBound | src/main/java/com/github/piotrkot/mustache/tags/Variable.java:130-136 | there are at most as many counted matches as characters left |
| Variable.PlainTailBalanced | src/main/java/com/github/piotrkot/mustache/tags/Variable.java:74-93 | the guard accepts a match when no opening delimiter follows it |
| Variable.NoDelimiterUnchanged | src/main/java/com/github/piotrkot/mustache/tags/Variable.java:95-104 | a template with no opening delimiter comes back unchanged |
| Variable.Count | src/main/java/com/github/piotrkot/mustache/tags/Variable.java:130-136 | the counting loop returns the number of successive matches left to the matcher, and leaves the matcher exhausted: no current match and no match further on |
| Variable.CheckBalance | src/main/java/com/github/piotrkot/mustache/tags/Variable.java:74-93 | the two counts over the text after the match agree exactly when the match is balanced |
| Variable.Render | src/main/java/com/github/piotrkot/mustache/tags/Variable.java:66-105 | the scan loop over an EasyMatch produces the specified substitution |
| Iteration.Merge | src/main/java/com/github/piotrkot/mustache/tags/Section.java:124-131 | the merged context has the keys of both maps; the element's keys win; other keys keep the enclosing value |
| Iteration.CollectMaps | src/main/java/com/github/piotrkot/mustache/tags/Section.java:139-153 | the overlay-building loop yields `Maps` of the value |
| Iteration.MergeInto | src/main/java/com/github/piotrkot/mustache/tags/Section.java:124-131 | copying the context and putting each element entry yields `Merge` |
| Iteration.Repetitions | src/main/java/com/github/piotrkot/mustache/tags/Section.java:139-153 | true repeats once, false never; a collection repeats once per element, with its fields when the element is a map and nothing otherwise; a number or a map never repeats |
| Iteration.InvertedCases | src/main/java/com/github/piotrkot/mustache/tags/InvSection.java:95-97 | the inverted test holds for false, an empty collection or the exact string "false"; never for true, a non-empty collection, a number or a map |
| Iteration.SectionOrInverted | src/main/java/com/github/piotrkot/mustache/tags/InvSection.java:95-97 | for a boolean or a collection, the section repeats at least once exactly when the inverted test fails |
| Pipeline.Repeat | src/main/java/com/github/piotrkot/mustache/tags/Section.java:110 | the body written n times is n times as long as the body |
| Resolvers.RenderTags | src/main/java/com/github/piotrkot/mustache/Tags.java:49-56 | the loop over the group yields the left fold of the resolvers over the text |
| Resolvers.RenderTag | src/main/java/com/github/piotrkot/mustache/Tags.java:53 | one resolver yields its specified output |
| Resolvers.RenderSection | src/main/java/com/github/piotrkot/mustache/tags/Section.java:85-116 | the matcher loop yields the specified section rendering |
| Resolvers.SectionPiece | src/main/java/com/github/piotrkot/mustache/tags/Section.java:92-111 | one block's output is as specified: nothing when absent, per overlay the body rendered with the merged context when it holds tags, otherwise the body verbatim |
| Resolvers.RenderInverted | src/main/java/com/github/piotrkot/mustache/tags/InvSection.java:84-114 | the matcher loop yields the specified inverted-section rendering |
| Resolvers.InvertedPiece | src/main/java/com/github/piotrkot/mustache/tags/InvSection.java:91-109 | one inverted block's output is as specified |
| Resolvers.RenderPartial | src/main/java/com/github/piotrkot/mustache/tags/Partial.java:74-107 | the matcher loop yields the specified partial rendering |
| Resolvers.PartialPiece | src/main/java/com/github/piotrkot/mustache/tags/Partial.java:81-102 | one partial tag's output is as specified; an unreadable text contributes nothing |
| Properties.EmptyGroup | src/main/java/com/github/piotrkot/mustache/Tags.java:51-55 | an empty group returns the text unchanged |
| Properties.GroupComposition | src/main/java/com/github/piotrkot/mustache/Tags.java:52-54 | rendering with `g1 + g2` is rendering with `g2` over the output of `g1` |
| Properties.AllMore | src/main/java/com/github/piotrkot/mustache/Tags.java:49-56 | one more unit of fuel does not change a finished group rendering |
| Properties.OneMore | src/main/java/com/github/piotrkot/mustache/Tags.java:53 | one more unit of fuel does not change a finished resolver output |
| Properties.SectionMore | src/main/java/com/github/piotrkot/mustache/tags/Section.java:85-116 | the same, for the section resolver from any position |
| Properties.SectionBodyMore | src/main/java/com/github/piotrkot/mustache/tags/Section.java:98-111 | the same, for one section block |
| Properties.RepeatedMore | src/main/java/com/github/piotrkot/mustache/tags/Section.java:99-107 | the same, for the per-overlay renderings of a body |
| Properties.InvertedMore | src/main/java/com/github/piotrkot/mustache/tags/InvSection.java:84-114 | the same, for the inverted-section resolver |
| Properties.InvertedBodyMore | src/main/java/com/github/piotrkot/mustache/tags/InvSection.java:98-109 | the same, for one inverted block |
| Properties.PartialMore | src/main/java/com/github/piotrkot/mustache/tags/Partial.java:74-107 | the same, for the partial resolver |
| Properties.PartialBodyMore | src/main/java/com/github/piotrkot/mustache/tags/Partial.java:82-102 | the same, for one partial tag |
| Properties.EnoughFuel | src/main/java/com/github/piotrkot/mustache/tags/Section.java:101-106 | any fuel at least as large as one that finishes gives the same output |
| Properties.NoDelimiterPassesThrough | src/main/java/com/github/piotrkot/mustache/Tags.java:49-56 | a text without the opening delimiter passes through any group of resolvers unchanged |
| Properties.NoMatchUnchanged | src/main/java/com/github/piotrkot/mustache/tags/InvSection.java:88-112 | a section, inverted-section or partial resolver whose pattern matches nowhere returns the text unchanged, leaving other tags such as a bare variable in place |
| Properties.SectionAbsent | src/main/java/com/github/piotrkot/mustache/tags/Section.java:94-112 | a block whose name is absent disappears whole (opening tag, body, closing tag); the text before it is kept |
| Properties.SectionVerbatim | src/main/java/com/github/piotrkot/mustache/tags/Section.java:109-110 | a block whose body holds no tag is replaced by the body, unrendered, once per repetition |
| Properties.RepeatedRenderings | src/main/java/com/github/piotrkot/mustache/tags/Section.java:98-107 | a body holding tags is rendered once per overlay with the full group in the merged context, and the outputs are concatenated in order |
| Properties.ExactlyOneRenders | src/main/java/com/github/piotrkot/mustache/tags/InvSection.java:95-108 | for a boolean or a collection and any body: when the value is false or empty, the section block writes nothing and the inverted block writes the body (rendered with the full group when it holds a tag); otherwise the inverted block writes nothing and the section writes the body at least once; for a non-empty body without tags, the inverted block writes its body exactly when the section block writes nothing |
| Properties.PartialDropped | src/main/java/com/github/piotrkot/mustache/tags/Partial.java:81-103 | a partial tag whose name is absent or whose text cannot be read is removed, and rendering goes on after it |
| Properties.PartialPlainText | src/main/java/com/github/piotrkot/mustache/tags/Partial.java:89-98 | a plain string without tags is spliced in as it stands |
| Properties.PartialsNotExpanded | src/main/java/com/github/piotrkot/mustache/tags/Partial.java:93-97 | fetched text is rendered with the full group minus the partial resolver |

## Left out

- Reading paths and streams (`Contents`, `File`) is I/O. A `Resource` value carries the text it would yield, or `None` for a read failure.
- Values.Fetch: streams are treated as re-readable. In the source each partial tag wraps the same `InputStream` value in new `Contents`, so only the first read of a stream yields its text and later tags over the same stream (including those in a section repeated over a list) read it exhausted. A `Resource` here yields the same text every time.
- Values.Display, Values.DisplayOfNonText, Iteration.InvertedCases, Iteration.SectionOrInverted, Properties.ExactlyOneRenders: a `List` stands for the `java.util` collections, whose `toString` is the bracketed listing. An arbitrary `Iterable` may print anything, for instance "false", and then a non-empty one makes both the section and the inverted section render. These members do not cover such values.
- The log line written when a partial cannot be read is not modelled.
- The loading and wiring classes (`AbstractMustache`, `Mustache`) are not part of this model.
- The `TagIndicate` class is not part of this model. Delimiters are modelled as two literal strings. The model covers only delimiters without name characters, whitespace or sigils (`Indicate.Valid`), under which each pattern matches deterministically.
- Java regular expressions in general are not modelled, only the patterns these resolvers compile. Java string indices are plain naturals here (no 32-bit limit).
- Iteration.Maps and Iteration.Allowed: a `Path` is an `Iterable` of its name elements in Java, so a section over a path repeats once per element. The model treats resources as not iterable.
- Iteration.Merge: map keys are already strings, so two keys of an element map with the same `toString` cannot collide.
- `toString` of maps and arbitrary objects is not computed. An `Obj` carries its `k=v` listing and a `Resource` its shown form. `null` values are not modelled.
- Termination is not proved. The resolvers are mutually recursive and unbounded in the source, so the pipeline uses fuel (`Pipeline`, `Resolvers`).
- Resolvers.SectionPiece, Resolvers.InvertedPiece, Resolvers.PartialPiece: the per-block part of each loop body is its own method, not inline. The appends happen in the same order.
- PatternFacts.BlockMatchIsBlock: states only that every block match has the described form. The converse, that every such text is matched, is not proved.
- PatternFacts.TagRecognized: states recognition by positions in the text. It says nothing about a concatenated tag text.
- Matching.EasyMatch.Find: a pure predicate's evaluation cannot be observed, so "not evaluated when there is no match" is not a contract. The method's body consults the predicate only after a match.
- Exceptions other than a partial's read failure are not modelled.
