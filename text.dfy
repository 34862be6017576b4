/** String operations of the JavaScript runtime that the page's handlers rely on:
    `String.prototype.trim`, number-to-decimal conversion inside template literals,
    `parseInt` on a decimal string, and `Array.prototype.join` / `String.prototype.split`
    with a one-character separator. */
module Text {

  /** The characters that `trim` removes and that the regular-expression class `\s`
      matches: the WhiteSpace and LineTerminator code points of ECMAScript. */
  predicate IsJsWhitespace(c: char) {
    || c == '\t' || c == '\n' || c == '\U{B}' || c == '\U{C}' || c == '\r' || c == ' '
    || c == '\U{A0}' || c == '\U{1680}' || ('\U{2000}' <= c <= '\U{200A}')
    || c == '\U{2028}' || c == '\U{2029}' || c == '\U{202F}' || c == '\U{205F}'
    || c == '\U{3000}' || c == '\U{FEFF}'
  }

  /** Every character of `s` is whitespace (vacuously true of the empty string). */
  predicate AllWhitespace(s: string) {
    forall i :: 0 <= i < |s| ==> IsJsWhitespace(s[i])
  }

  /** How many whitespace characters `s` starts with. */
  function LeadingWhitespace(s: string): (k: nat)
    ensures k <= |s| && AllWhitespace(s[..k])
    ensures k < |s| ==> !IsJsWhitespace(s[k])
  {
    if |s| > 0 && IsJsWhitespace(s[0]) then 1 + LeadingWhitespace(s[1..]) else 0
  }

  /** Where the whitespace that `s` ends with begins. */
  function TrailingWhitespace(s: string): (k: nat)
    ensures k <= |s| && AllWhitespace(s[k..])
    ensures k > 0 ==> !IsJsWhitespace(s[k - 1])
  {
    if |s| > 0 && IsJsWhitespace(s[|s| - 1]) then TrailingWhitespace(s[..|s| - 1]) else |s|
  }

  /** Leading whitespace removed. */
  function TrimStart(s: string): string {
    s[LeadingWhitespace(s)..]
  }

  /** Trailing whitespace removed. */
  function TrimEnd(s: string): string {
    s[..TrailingWhitespace(s)]
  }

  /** `s.trim()`. */
  function Trim(s: string): string {
    TrimEnd(TrimStart(s))
  }

  /** The trimmed string is a contiguous piece of `s` that neither starts nor ends with
      whitespace, and what was cut off on either side is whitespace. */
  lemma TrimIsCore(s: string)
    ensures exists k :: 0 <= k <= |s| - |Trim(s)| && Trim(s) == s[k..k + |Trim(s)|]
                        && AllWhitespace(s[..k]) && AllWhitespace(s[k + |Trim(s)|..])
    ensures Trim(s) == [] || (!IsJsWhitespace(Trim(s)[0]) && !IsJsWhitespace(Trim(s)[|Trim(s)| - 1]))
  {
    var k := LeadingWhitespace(s);
    var t := s[k..];
    var e := TrailingWhitespace(t);
    assert Trim(s) == s[k..k + e];
    assert s[k + e..] == t[e..];
    if e > 0 {
      assert Trim(s)[0] == t[0];
    }
  }

  /** `!s.trim()` in JavaScript: the trimmed string is empty exactly when every
      character is whitespace. */
  lemma TrimEmptyIffBlank(s: string)
    ensures Trim(s) == [] <==> AllWhitespace(s)
  {
    var k := LeadingWhitespace(s);
    if k == |s| {
      assert s[..k] == s;
    } else {
      var t := s[k..];
      assert !IsJsWhitespace(t[0]);
      assert TrailingWhitespace(t) > 0;
    }
  }

  /** Trimming twice is trimming once. */
  lemma TrimIdempotent(s: string)
    ensures Trim(Trim(s)) == Trim(s)
  {
    TrimIsCore(s);
    var r := Trim(s);
    assert LeadingWhitespace(r) == 0;
    assert TrailingWhitespace(r) == |r|;
  }

  // ---------------------------------------------------------------------------
  // Decimal numbers

  predicate IsDigit(c: char) {
    '0' <= c <= '9'
  }

  predicate AllDigits(s: string) {
    forall i :: 0 <= i < |s| ==> IsDigit(s[i])
  }

  function DigitChar(d: nat): (c: char)
    requires d < 10
    ensures IsDigit(c) && c as int - '0' as int == d
  {
    ['0', '1', '2', '3', '4', '5', '6', '7', '8', '9'][d]
  }

  /** `String(n)` (or `${n}` in a template literal) for a non-negative integer:
      decimal digits without leading zeros. */
  function NatToString(n: nat): (r: string)
    ensures |r| >= 1 && AllDigits(r)
    ensures |r| > 1 ==> r[0] != '0'
  {
    if n < 10 then [DigitChar(n)] else NatToString(n / 10) + [DigitChar(n % 10)]
  }

  /** `parseInt(s)` for a string of decimal digits. */
  function ParseDecimal(s: string): nat
    requires AllDigits(s)
  {
    if s == [] then 0
    else ParseDecimal(s[..|s| - 1]) * 10 + (s[|s| - 1] as int - '0' as int)
  }

  /** `parseInt(String(n)) == n`. */
  lemma {:induction false} ParseNatToString(n: nat)
    ensures ParseDecimal(NatToString(n)) == n
  {
    var r := NatToString(n);
    if n >= 10 {
      ParseNatToString(n / 10);
      assert r[..|r| - 1] == NatToString(n / 10);
    }
  }

  /** Distinct numbers print differently. */
  lemma NatToStringInjective(m: nat, n: nat)
    requires NatToString(m) == NatToString(n)
    ensures m == n
  {
    ParseNatToString(m);
    ParseNatToString(n);
  }

  // ---------------------------------------------------------------------------
  // Join and split with a one-character separator

  /** `xs.join(sep)`: the elements with `sep` between neighbours; "" for no elements. */
  function Join(xs: seq<string>, sep: char): string {
    if |xs| == 0 then ""
    else if |xs| == 1 then xs[0]
    else xs[0] + [sep] + Join(xs[1..], sep)
  }

  /** `s.split(sep)`: the pieces between occurrences of `sep`; always at least one. */
  function Split(s: string, sep: char): (r: seq<string>)
    ensures |r| >= 1
  {
    if |s| == 0 then [""]
    else
      var rest := Split(s[1..], sep);
      if s[0] == sep then [""] + rest
      else rest[0 := [s[0]] + rest[0]]
  }

  /** A string without the separator splits into itself alone. */
  lemma {:induction false} SplitSeparatorFree(s: string, sep: char)
    requires sep !in s
    ensures Split(s, sep) == [s]
  {
    if |s| > 0 {
      SplitSeparatorFree(s[1..], sep);
      assert [s[0]] + s[1..] == s;
    }
  }

  /** Splitting at a separator concatenates the splits of both sides. */
  lemma {:induction false} SplitAtSeparator(a: string, b: string, sep: char)
    ensures Split(a + [sep] + b, sep) == Split(a, sep) + Split(b, sep)
  {
    if |a| == 0 {
      assert a + [sep] + b == [sep] + b;
      assert ([sep] + b)[1..] == b;
    } else {
      assert (a + [sep] + b)[1..] == a[1..] + [sep] + b;
      SplitAtSeparator(a[1..], b, sep);
    }
  }

  /** The splits of the elements, one after the other. */
  function SplitEach(xs: seq<string>, sep: char): seq<string> {
    if |xs| == 0 then [] else Split(xs[0], sep) + SplitEach(xs[1..], sep)
  }

  /** Splitting a join yields the pieces of every element in order. */
  lemma {:induction false} SplitJoin(xs: seq<string>, sep: char)
    requires |xs| >= 1
    ensures Split(Join(xs, sep), sep) == SplitEach(xs, sep)
  {
    if |xs| == 1 {
      assert SplitEach(xs[1..], sep) == [];
    } else {
      SplitJoin(xs[1..], sep);
      SplitAtSeparator(xs[0], Join(xs[1..], sep), sep);
    }
  }

  /** Elements free of the separator split into themselves. */
  lemma {:induction false} SplitEachSeparatorFree(xs: seq<string>, sep: char)
    requires forall i :: 0 <= i < |xs| ==> sep !in xs[i]
    ensures SplitEach(xs, sep) == xs
  {
    if |xs| > 0 {
      SplitSeparatorFree(xs[0], sep);
      SplitEachSeparatorFree(xs[1..], sep);
    }
  }

  /** An element that is the separator itself leaves an empty piece. */
  lemma {:induction false} SplitEachOfSeparator(xs: seq<string>, sep: char, i: nat)
    requires i < |xs| && xs[i] == [sep]
    ensures "" in SplitEach(xs, sep)
  {
    if i == 0 {
      assert Split(xs[0], sep) == [""] + Split([], sep);
      assert SplitEach(xs, sep)[0] == "";
    } else {
      SplitEachOfSeparator(xs[1..], sep, i - 1);
    }
  }
}
