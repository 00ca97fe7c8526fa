/**
 * The string operations of Python's standard library that the chatbot relies on:
 * `str.strip()`, `"\n".join(...)` (with `str.split("\n")` as its inverse),
 * `os.path.basename` and the decimal rendering of an `int` in an f-string.
 */
module Text {

  /** Python's `str.isspace()` on one character. */
  predicate IsSpace(c: char) {
    c == ' ' || ('\t' <= c <= '\r') || ('\U{1C}' <= c <= '\U{1F}')
    || c == '\U{85}' || c == '\U{A0}' || c == '\U{1680}'
    || ('\U{2000}' <= c <= '\U{200A}') || c == '\U{2028}' || c == '\U{2029}'
    || c == '\U{202F}' || c == '\U{205F}' || c == '\U{3000}'
  }

  /** On ASCII, `IsSpace` holds of exactly the six characters of `string.whitespace` and the separators U+001C..U+001F. */
  lemma IsSpaceOnAscii(c: char)
    requires c as int < 128
    ensures IsSpace(c) <==> c in " \t\n\r\U{B}\U{C}\U{1C}\U{1D}\U{1E}\U{1F}"
  {
  }

  predicate AllSpace(s: string) {
    forall i :: 0 <= i < |s| ==> IsSpace(s[i])
  }

  /** The index of the first character of `s` at or after `i` that is not whitespace, or `|s|`. */
  function SkipSpaces(s: string, i: nat): (a: nat)
    requires i <= |s|
    ensures i <= a <= |s|
    ensures forall k :: i <= k < a ==> IsSpace(s[k])
    ensures a == |s| || !IsSpace(s[a])
    decreases |s| - i
  {
    if i < |s| && IsSpace(s[i]) then SkipSpaces(s, i + 1) else i
  }

  /** The end of `s[..j]` once the whitespace it ends with, down to index `lo`, is dropped. */
  function DropSpaces(s: string, lo: nat, j: nat): (b: nat)
    requires lo <= j <= |s|
    ensures lo <= b <= j
    ensures forall k :: b <= k < j ==> IsSpace(s[k])
    ensures b == lo || !IsSpace(s[b - 1])
    decreases j
  {
    if j > lo && IsSpace(s[j - 1]) then DropSpaces(s, lo, j - 1) else j
  }

  /**
   * `s.strip()`. The result is the piece of `s` between a whitespace prefix and a
   * whitespace suffix, and it neither starts nor ends with whitespace; these facts
   * determine it. It is empty exactly when `s` is all whitespace.
   */
  function Strip(s: string): (r: string)
    ensures var a := SkipSpaces(s, 0); a + |r| <= |s| && r == s[a..a + |r|]
    ensures forall k :: 0 <= k < |s| && !(SkipSpaces(s, 0) <= k < SkipSpaces(s, 0) + |r|) ==> IsSpace(s[k])
    ensures r == [] || (!IsSpace(r[0]) && !IsSpace(r[|r| - 1]))
    ensures r == [] <==> AllSpace(s)
  {
    var a := SkipSpaces(s, 0);
    var b := DropSpaces(s, a, |s|);
    s[a..b]
  }

  /** A string with no whitespace at either end is left as it is by `Strip`. */
  lemma StripUntrimmed(s: string)
    requires s == [] || (!IsSpace(s[0]) && !IsSpace(s[|s| - 1]))
    ensures Strip(s) == s
  {
    assert SkipSpaces(s, 0) == 0;
    assert DropSpaces(s, 0, |s|) == |s|;
  }

  /** Stripping twice is stripping once. */
  lemma StripIdempotent(s: string)
    ensures Strip(Strip(s)) == Strip(s)
  {
    StripUntrimmed(Strip(s));
  }

  /** The number of characters in all of `xs`. */
  function TotalLength(xs: seq<string>): nat {
    if xs == [] then 0 else |xs[0]| + TotalLength(xs[1..])
  }

  /** `"\n".join(xs)`: the strings in order, with one line break between neighbours. */
  function JoinLines(xs: seq<string>): (r: string)
    ensures xs == [] ==> r == ""
    ensures xs != [] ==> |r| + 1 == TotalLength(xs) + |xs| && r[..|xs[0]|] == xs[0]
    ensures |xs| > 1 ==> r[|xs[0]|] == '\n'
    decreases |xs|
  {
    if xs == [] then ""
    else if |xs| == 1 then xs[0]
    else xs[0] + "\n" + JoinLines(xs[1..])
  }

  /**
   * Where each string sits in `"\n".join(xs)`: `xs[i]` starts after the strings
   * before it and one line break per neighbour, and a line break follows it unless
   * it is the last. This holds whatever the strings contain.
   */
  lemma {:induction false} JoinLinesPlaces(xs: seq<string>, i: nat)
    requires i < |xs|
    ensures var j, at := JoinLines(xs), TotalLength(xs[..i]) + i;
      at + |xs[i]| <= |j| && j[at..at + |xs[i]|] == xs[i]
      && (i < |xs| - 1 ==> at + |xs[i]| < |j| && j[at + |xs[i]|] == '\n')
    decreases i
  {
    if i == 0 {
      assert xs[..0] == [];
    } else {
      var rest := xs[1..];
      JoinLinesPlaces(rest, i - 1);
      assert xs[..i][1..] == rest[..i - 1];
      assert TotalLength(xs[..i]) == |xs[0]| + TotalLength(rest[..i - 1]);
      var head := xs[0] + "\n";
      var j := JoinLines(xs);
      assert j == head + JoinLines(rest);
      var at' := TotalLength(rest[..i - 1]) + (i - 1);
      assert TotalLength(xs[..i]) + i == |head| + at';
      assert rest[i - 1] == xs[i];
    }
  }

  /** `s.split("\n")`: never empty, and `"".split("\n") == [""]`. */
  function SplitLines(s: string): (r: seq<string>)
    ensures |r| >= 1
    ensures forall i :: 0 <= i < |r| ==> '\n' !in r[i]
  {
    if s == [] then [""]
    else if s[0] == '\n' then [""] + SplitLines(s[1..])
    else
      var rest := SplitLines(s[1..]);
      [[s[0]] + rest[0]] + rest[1..]
  }

  lemma {:induction false} SplitLinesNoBreak(x: string, rest: string)
    requires '\n' !in x
    ensures SplitLines(x + "\n" + rest) == [x] + SplitLines(rest)
    ensures SplitLines(x) == [x]
  {
    if x == [] {
      assert x + "\n" + rest == "\n" + rest;
      assert ("\n" + rest)[1..] == rest;
    } else {
      assert (x + "\n" + rest)[0] == x[0];
      assert (x + "\n" + rest)[1..] == x[1..] + "\n" + rest;
      SplitLinesNoBreak(x[1..], rest);
      assert [x[0]] + x[1..] == x;
    }
  }

  /**
   * Joining is undone by splitting, as long as no line holds a line break itself:
   * `"\n".join` keeps every line and the order of the lines.
   */
  lemma {:induction false} SplitJoinLines(xs: seq<string>)
    requires xs != []
    requires forall i :: 0 <= i < |xs| ==> '\n' !in xs[i]
    ensures SplitLines(JoinLines(xs)) == xs
  {
    if |xs| == 1 {
      SplitLinesNoBreak(xs[0], "");
    } else {
      SplitJoinLines(xs[1..]);
      SplitLinesNoBreak(xs[0], JoinLines(xs[1..]));
    }
  }

  /** `os.path.basename(p)` on POSIX: the text after the last `/`, all of `p` when there is none. */
  function Basename(p: string): (r: string)
    ensures '/' !in r
    ensures |r| <= |p| && r == p[|p| - |r|..]
    ensures r == p || p[|p| - |r| - 1] == '/'
  {
    if p == [] then ""
    else if p[|p| - 1] == '/' then ""
    else Basename(p[..|p| - 1]) + [p[|p| - 1]]
  }

  predicate IsDigit(c: char) {
    '0' <= c <= '9'
  }

  function DigitChar(d: nat): (c: char)
    requires d < 10
    ensures IsDigit(c) && c as int - '0' as int == d
  {
    ['0', '1', '2', '3', '4', '5', '6', '7', '8', '9'][d]
  }

  function DigitValue(c: char): (d: nat)
    requires IsDigit(c)
    ensures d < 10
  {
    c as int - '0' as int
  }

  /** The decimal numeral of `n`, as `f"{n}"` renders a non-negative `int`. */
  function NatToString(n: nat): (r: string)
    ensures |r| >= 1
    ensures forall i :: 0 <= i < |r| ==> IsDigit(r[i])
    ensures |r| > 1 ==> r[0] != '0'
  {
    if n < 10 then [DigitChar(n)] else NatToString(n / 10) + [DigitChar(n % 10)]
  }

  /** The value of a numeral, the partner of `NatToString`. */
  function DecimalValue(s: string): nat
    requires forall i :: 0 <= i < |s| ==> IsDigit(s[i])
  {
    if s == [] then 0
    else DecimalValue(s[..|s| - 1]) * 10 + DigitValue(s[|s| - 1])
  }

  /** The count printed in a status message reads back as the count. */
  lemma {:induction false} DecimalValueNatToString(n: nat)
    ensures DecimalValue(NatToString(n)) == n
  {
    var r := NatToString(n);
    if n >= 10 {
      DecimalValueNatToString(n / 10);
      assert r[..|r| - 1] == NatToString(n / 10);
    }
  }
}
