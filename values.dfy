/**
  The values a rendering context binds names to, and the two ways the
  resolvers read them: the value's string form (Java's `toString`, used by
  variable substitution and by the truth tests of sections) and the text
  a partial fetches from it.
 */
module Values {
  import opened Wrappers

  datatype Value =
    | Str(s: string)
    | Bool(b: bool)
    | Int(i: int)
      /** A `java.util` collection; its string form is the standard listing, `[a, b]`. */
    | List(items: seq<Value>)
      /** A `Map`; `entries` is its `k=v, ...` listing, in the map's own iteration order. */
    | Obj(fields: map<string, Value>, entries: string)
      /** A `Path` or an `InputStream`: its text (None when it cannot be read) and its string form. */
    | Resource(text: Option<string>, shown: string)

  /** The name-to-value pairs a template is rendered against. */
  type Context = map<string, Value>

  function DigitChar(n: nat): char
    requires n < 10
  {
    "0123456789"[n]
  }

  predicate IsDigit(c: char) {
    '0' <= c <= '9'
  }

  predicate AllDigits(s: string) {
    forall k :: 0 <= k < |s| ==> IsDigit(s[k])
  }

  /** The decimal digits of `n`, most significant first, without leading zeros. */
  function Digits(n: nat): (r: string)
    ensures |r| > 0 && AllDigits(r)
    ensures n == 0 <==> r == "0"
    ensures n > 0 ==> r[0] != '0'
  {
    if n < 10 then [DigitChar(n)] else Digits(n / 10) + [DigitChar(n % 10)]
  }

  /** The number a string of decimal digits denotes. */
  function DigitsValue(s: string): nat
    requires AllDigits(s)
  {
    if s == [] then 0
    else
      assert IsDigit(s[|s| - 1]);
      10 * DigitsValue(s[..|s| - 1]) + (s[|s| - 1] as int - '0' as int)
  }

  /** Reading back the digits of `n` gives `n`. */
  lemma {:induction false} DigitsRoundTrip(n: nat)
    ensures DigitsValue(Digits(n)) == n
  {
    var r := Digits(n);
    if n >= 10 {
      DigitsRoundTrip(n / 10);
      assert r[..|r| - 1] == Digits(n / 10);
      assert r[|r| - 1] == DigitChar(n % 10);
    } else {
      assert r == [DigitChar(n)];
    }
  }

  /** `Integer.toString`: an optional minus sign and the decimal digits. */
  function IntToString(i: int): (r: string)
    ensures |r| > 0 && (r[0] == '-' || IsDigit(r[0]))
    ensures i >= 0 ==> AllDigits(r) && DigitsValue(r) == i
    ensures i < 0 ==> r[0] == '-' && AllDigits(r[1..]) && DigitsValue(r[1..]) == -i
    ensures i == 0 <==> r == "0"
    ensures i > 0 ==> r[0] != '0'
    ensures i < 0 ==> |r| > 1 && r[1] != '0'
  {
    DigitsRoundTrip(if i < 0 then -i else i);
    if i < 0 then
      var r := "-" + Digits(-i);
      assert r[1..] == Digits(-i);
      r
    else Digits(i)
  }

  /** The `", "`-separated concatenation used by the standard collections' `toString`. */
  function JoinDisplays(parts: seq<string>): string
  {
    if |parts| == 0 then ""
    else if |parts| == 1 then parts[0]
    else parts[0] + ", " + JoinDisplays(parts[1..])
  }

  /** The string form of a value, what `toString` gives in the source. */
  function Display(v: Value): (r: string)
    decreases v
  {
    match v
    case Str(s) => s
    case Bool(b) => if b then "true" else "false"
    case Int(i) => IntToString(i)
    case List(items) => "[" + JoinDisplays(seq(|items|, k requires 0 <= k < |items| => Display(items[k]))) + "]"
    case Obj(_, entries) => "{" + entries + "}"
    case Resource(_, shown) => shown
  }

  function LowerAscii(c: char): char {
    if 'A' <= c <= 'Z' then (c as int + 32) as char else c
  }

  /**
    `Boolean.parseBoolean`: the string is "true" ignoring case.  Only ASCII
    letters fold here; no other character folds to one of the letters of
    "true" under `equalsIgnoreCase`.
   */
  predicate ParseBoolean(s: string) {
    |s| == 4 && LowerAscii(s[0]) == 't' && LowerAscii(s[1]) == 'r'
    && LowerAscii(s[2]) == 'u' && LowerAscii(s[3]) == 'e'
  }

  /**
    The text a partial draws from a value: a resource is read (and may fail),
    anything else contributes its string form.
   */
  function Fetch(v: Value): (r: Option<string>)
    ensures r.None? ==> v.Resource?
    ensures v.Str? ==> r == Some(v.s)
    ensures v.Bool? ==> r == Some(if v.b then "true" else "false")
    ensures v.Int? ==> r == Some(IntToString(v.i))
    ensures v.Resource? ==> r == v.text
  {
    match v
    case Resource(text, _) => text
    case _ => Some(Display(v))
  }

  /**
    Only strings and resources can have "true" or "false" as their string
    form: numbers start with a digit or a minus sign, collections with a
    bracket, maps with a brace.
   */
  lemma DisplayOfNonText(v: Value)
    requires v.Int? || v.List? || v.Obj?
    ensures !ParseBoolean(Display(v)) && Display(v) != "false" && Display(v) != "true"
  {
    var r := Display(v);
    assert |r| > 0 && (r[0] == '-' || IsDigit(r[0]) || r[0] == '[' || r[0] == '{');
    assert LowerAscii(r[0]) == r[0];
  }
}
