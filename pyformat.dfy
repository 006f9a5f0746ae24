/** The parts of Python's text formatting that reach the user: `str()` of a
    non-negative integer (inside a pandas error message) and `repr()` of a
    list of strings (inside the missing-features messages). */
module PyFormat {
  import opened Results

  predicate IsDigit(c: char) {
    '0' <= c <= '9'
  }

  function Digit(d: nat): (c: char)
    requires d < 10
    ensures IsDigit(c) && c as int - '0' as int == d
  {
    ('0' as int + d) as char
  }

  /** `str(n)` for a non-negative int: decimal digits, no sign, no leading zero. */
  function NatToString(n: nat): (s: string)
    ensures |s| > 0
    ensures forall i :: 0 <= i < |s| ==> IsDigit(s[i])
    ensures |s| > 1 ==> s[0] != '0'
  {
    if n < 10 then [Digit(n)] else NatToString(n / 10) + [Digit(n % 10)]
  }

  /** The value of a string of decimal digits; the reference `NatToString` is read back with. */
  function DigitsValue(s: string): nat
    requires forall i :: 0 <= i < |s| ==> IsDigit(s[i])
  {
    if |s| == 0 then 0
    else
      assert IsDigit(s[|s| - 1]);
      DigitsValue(s[..|s| - 1]) * 10 + (s[|s| - 1] as int - '0' as int)
  }

  /** Reading the digits back gives the number: `str` loses nothing. */
  lemma {:induction false} NatToStringRoundTrip(n: nat)
    ensures DigitsValue(NatToString(n)) == n
  {
    var s := NatToString(n);
    if n >= 10 {
      NatToStringRoundTrip(n / 10);
      assert s[..|s| - 1] == NatToString(n / 10);
    }
  }

  /** The run of decimal digits at the front of `s`. */
  function LeadingDigits(s: string): (d: string)
    ensures |d| <= |s|
    ensures forall i :: 0 <= i < |d| ==> IsDigit(d[i])
  {
    if |s| == 0 || !IsDigit(s[0]) then "" else [s[0]] + LeadingDigits(s[1..])
  }

  /** A digit string ends where a non-digit follows it. */
  lemma {:induction false} LeadingDigitsOf(d: string, rest: string)
    requires forall i :: 0 <= i < |d| ==> IsDigit(d[i])
    requires |rest| > 0 && !IsDigit(rest[0])
    ensures LeadingDigits(d + rest) == d
    ensures ReadNumber(d + rest) == (if |d| == 0 then None else Some((DigitsValue(d), rest)))
  {
    if |d| == 0 {
      assert d + rest == rest;
    } else {
      LeadingDigitsOf(d[1..], rest);
      assert (d + rest)[1..] == d[1..] + rest;
      assert [d[0]] + d[1..] == d;
    }
    assert (d + rest)[|d|..] == rest;
  }

  /** Reads the number written right after `prefix` at the front of `s`: its
      value and the text after its digits, or None when there is no digit. */
  function ReadNumberAfter(s: string, prefix: string): Option<(nat, string)> {
    if HasPrefix(s, prefix) then ReadNumber(s[|prefix|..]) else None
  }

  /** Reads the number at the front of `s`: its value and the text after its
      digits, or None when `s` does not start with a digit. */
  function ReadNumber(s: string): Option<(nat, string)> {
    var d := LeadingDigits(s);
    if |d| == 0 then None else Some((DigitsValue(d), s[|d|..]))
  }

  /** What follows a prefix is read as it was written. */
  lemma AfterPrefix(prefix: string, rest: string)
    ensures HasPrefix(prefix + rest, prefix) && (prefix + rest)[|prefix|..] == rest
  {
    assert (prefix + rest)[..|prefix|] == prefix;
  }

  /** Reading a number is decided by the text after the prefix. */
  lemma ReadNumberAfterRest(prefix: string, rest: string)
    ensures ReadNumberAfter(prefix + rest, prefix) == ReadNumber(rest)
  {
    AfterPrefix(prefix, rest);
  }

  /** A digit string written after a prefix and followed by a non-digit reads
      back as its value, and the text after it is what followed it. */
  lemma ReadNumberAfterDigits(prefix: string, d: string, stop: string)
    requires |d| > 0 && forall i :: 0 <= i < |d| ==> IsDigit(d[i])
    requires |stop| > 0 && !IsDigit(stop[0])
    ensures ReadNumberAfter(prefix + (d + stop), prefix) == Some((DigitsValue(d), stop))
  {
    ReadNumberAfterRest(prefix, d + stop);
    LeadingDigitsOf(d, stop);
  }

  /** The escape `repr()` writes for one character of a string quoted with `quote`. */
  function EscapeChar(c: char, quote: char): string {
    if c == '\\' then "\\\\"
    else if c == quote then ['\\', quote]
    else if c == '\n' then "\\n"
    else if c == '\r' then "\\r"
    else if c == '\t' then "\\t"
    else [c]
  }

  function Escape(s: string, quote: char): string {
    if |s| == 0 then "" else EscapeChar(s[0], quote) + Escape(s[1..], quote)
  }

  /** Reads an escaped string body back up to the closing `quote`: the text it
      stands for and what follows the quote, or None when no closing quote comes. */
  function Unescape(e: string, quote: char): (r: Option<(string, string)>)
    ensures r.Some? ==> |r.value.1| < |e|
  {
    if |e| == 0 then None
    else if e[0] == quote then Some(("", e[1..]))
    else if e[0] == '\\' && |e| >= 2 then
      var c := if e[1] == 'n' then '\n' else if e[1] == 'r' then '\r' else if e[1] == 't' then '\t' else e[1];
      match Unescape(e[2..], quote)
      case None => None
      case Some((s, rest)) => Some(([c] + s, rest))
    else
      match Unescape(e[1..], quote)
      case None => None
      case Some((s, rest)) => Some(([e[0]] + s, rest))
  }

  /** Reading back one escaped character in front of a readable body. */
  lemma UnescapeChar(c: char, quote: char, tail: string, s: string, rest: string)
    requires quote == '\'' || quote == '"'
    requires Unescape(tail, quote) == Some((s, rest))
    ensures Unescape(EscapeChar(c, quote) + tail, quote) == Some(([c] + s, rest))
  {
    var e := EscapeChar(c, quote) + tail;
    if |EscapeChar(c, quote)| == 2 {
      assert e[2..] == tail;
    } else {
      assert e[1..] == tail;
    }
  }

  /** Reading back stops at the closing quote. */
  lemma UnescapeClosing(quote: char, rest: string)
    ensures Unescape([quote] + rest, quote) == Some(("", rest))
  {
    assert ([quote] + rest)[1..] == rest;
  }

  /** The escaped body, its closing quote and any text after it read back as
      the original string and that text. */
  lemma {:induction false} UnescapeEscape(s: string, quote: char, rest: string)
    requires quote == '\'' || quote == '"'
    ensures Unescape(Escape(s, quote) + [quote] + rest, quote) == Some((s, rest))
  {
    if |s| == 0 {
      UnescapeClosing(quote, rest);
      assert Escape(s, quote) + [quote] + rest == [quote] + rest;
    } else {
      var tail := Escape(s[1..], quote) + [quote] + rest;
      UnescapeEscape(s[1..], quote, rest);
      UnescapeChar(s[0], quote, tail, s[1..], rest);
      assert Escape(s, quote) + [quote] + rest == EscapeChar(s[0], quote) + tail;
      assert [s[0]] + s[1..] == s;
    }
  }

  /** `repr(s)`: double quotes when `s` holds a single quote and no double quote,
      single quotes otherwise; the chosen quote never appears unescaped inside. */
  function Repr(s: string): (r: string)
    ensures |r| >= 2 && r[0] == r[|r| - 1] && (r[0] == '\'' || r[0] == '"')
    ensures r[0] == '"' <==> '\'' in s && '"' !in s
  {
    var quote := if '\'' in s && '"' !in s then '"' else '\'';
    [quote] + Escape(s, quote) + [quote]
  }

  /** Reads one quoted string back from the front of `r`: its text and what follows it. */
  function ParseRepr(r: string): (p: Option<(string, string)>)
    ensures p.Some? ==> |p.value.1| < |r|
  {
    if |r| > 0 && (r[0] == '\'' || r[0] == '"') then Unescape(r[1..], r[0]) else None
  }

  /** `repr` is read back by `ParseRepr`, whatever text follows it. */
  lemma ReprRoundTrip(s: string, rest: string)
    ensures ParseRepr(Repr(s) + rest) == Some((s, rest))
  {
    var quote := if '\'' in s && '"' !in s then '"' else '\'';
    assert Repr(s) + rest == [quote] + (Escape(s, quote) + [quote] + rest);
    UnescapeEscape(s, quote, rest);
  }

  function JoinReprs(xs: seq<string>): string {
    if |xs| == 0 then ""
    else if |xs| == 1 then Repr(xs[0])
    else Repr(xs[0]) + ", " + JoinReprs(xs[1..])
  }

  /** `repr(xs)` of a list of strings: `['A', 'B']`, `[]` when empty. */
  function ListRepr(xs: seq<string>): (r: string)
    ensures |r| >= 2 && r[0] == '[' && r[|r| - 1] == ']'
    ensures xs == [] <==> r == "[]"
  {
    "[" + JoinReprs(xs) + "]"
  }

  /** Reads `repr(x), ..., repr(y)]` back: the items up to the closing bracket. */
  function ParseItems(r: string): Option<seq<string>>
    decreases |r|
  {
    match ParseRepr(r)
    case None => None
    case Some((x, rest)) =>
      if rest == "]" then Some([x])
      else if |rest| >= 2 && rest[..2] == ", " then
        match ParseItems(rest[2..])
        case None => None
        case Some(ys) => Some([x] + ys)
      else None
  }

  /** Reads a list of strings back from its `repr`. */
  function ParseList(r: string): Option<seq<string>> {
    if r == "[]" then Some([])
    else if |r| > 0 && r[0] == '[' then ParseItems(r[1..])
    else None
  }

  /** Reading back the last item and the closing bracket. */
  lemma ParseLastItem(x: string)
    ensures ParseItems(Repr(x) + "]") == Some([x])
  {
    ReprRoundTrip(x, "]");
  }

  /** Reading back an item and its separator in front of readable items. */
  lemma ParseNextItem(x: string, more: string, ys: seq<string>)
    requires ParseItems(more) == Some(ys)
    ensures ParseItems(Repr(x) + (", " + more)) == Some([x] + ys)
  {
    var rest := ", " + more;
    ReprRoundTrip(x, rest);
    assert rest[..2] == ", " && rest[2..] == more;
  }

  lemma {:induction false} JoinReprsRoundTrip(xs: seq<string>)
    requires |xs| > 0
    ensures ParseItems(JoinReprs(xs) + "]") == Some(xs)
  {
    if |xs| == 1 {
      ParseLastItem(xs[0]);
      assert JoinReprs(xs) + "]" == Repr(xs[0]) + "]" && [xs[0]] == xs;
    } else {
      var more := JoinReprs(xs[1..]) + "]";
      JoinReprsRoundTrip(xs[1..]);
      ParseNextItem(xs[0], more, xs[1..]);
      assert JoinReprs(xs) + "]" == Repr(xs[0]) + (", " + more);
      assert [xs[0]] + xs[1..] == xs;
    }
  }

  /** The list `repr` loses nothing: `ParseList` reads the list back. */
  lemma ListReprRoundTrip(xs: seq<string>)
    ensures ParseList(ListRepr(xs)) == Some(xs)
  {
    if xs != [] {
      assert ListRepr(xs)[1..] == JoinReprs(xs) + "]";
      JoinReprsRoundTrip(xs);
    }
  }

  /** Different missing lists give different messages. */
  lemma ListReprInjective(xs: seq<string>, ys: seq<string>)
    ensures ListRepr(xs) == ListRepr(ys) ==> xs == ys
  {
    ListReprRoundTrip(xs);
    ListReprRoundTrip(ys);
  }

  predicate HasPrefix(s: string, prefix: string) {
    |prefix| <= |s| && s[..|prefix|] == prefix
  }

  /** Two strings that differ in their first character do not share a prefix. */
  lemma FirstCharRulesOutPrefix(s: string, prefix: string)
    requires |s| > 0 && |prefix| > 0 && s[0] != prefix[0]
    ensures !HasPrefix(s, prefix)
  {
    if |prefix| <= |s| {
      assert s[..|prefix|][0] != prefix[0];
    }
  }
}
