/**
 * Character classes and whitespace handling shared by the line scanners of
 * umd2.py: the `\s`, `\d`, `[A-Za-z]` and `\w` classes of its two regular
 * expressions, and `str.strip()` applied to every raw line.
 */
module Text {

  import opened Options

  /** The characters for which Python's `str.isspace()` holds; both `\s` in a
      `str` pattern and the argument-less `str.strip()` use exactly this set. */
  predicate IsSpace(c: char)
  {
    || ('\t' <= c <= '\r')
    || ('\U{1C}' <= c <= ' ')
    || c == '\U{85}' || c == '\U{A0}' || c == '\U{1680}'
    || ('\U{2000}' <= c <= '\U{200A}')
    || c == '\U{2028}' || c == '\U{2029}' || c == '\U{202F}' || c == '\U{205F}'
    || c == '\U{3000}'
  }

  /** `[0-9]`, and `\d` restricted to ASCII. */
  predicate IsDigit(c: char)
  {
    '0' <= c <= '9'
  }

  /** `[A-Za-z]`. */
  predicate IsLetter(c: char)
  {
    ('A' <= c <= 'Z') || ('a' <= c <= 'z')
  }

  /** `\w` restricted to ASCII: the characters that make a word boundary `\b`. */
  predicate IsWordChar(c: char)
  {
    IsLetter(c) || IsDigit(c) || c == '_'
  }

  predicate All(s: string, p: char -> bool)
  {
    forall i :: 0 <= i < |s| ==> p(s[i])
  }

  /** Length of the longest prefix of `s` whose characters all satisfy `p`
      (a greedy `p*` at the start of `s`). */
  function Span(s: string, p: char -> bool): (n: nat)
    ensures n <= |s|
    ensures All(s[..n], p)
    ensures n < |s| ==> !p(s[n])
  {
    if s == [] || !p(s[0]) then 0 else 1 + Span(s[1..], p)
  }

  /** A greedy span runs through a prefix made of `p`-characters and then on
      into the rest. */
  lemma {:induction false} SpanAppend(a: string, b: string, p: char -> bool)
    requires All(a, p)
    ensures Span(a + b, p) == |a| + Span(b, p)
  {
    if a != [] {
      assert (a + b)[0] == a[0] && p(a[0]);
      assert (a + b)[1..] == a[1..] + b;
      assert All(a[1..], p) by {
        forall i | 0 <= i < |a| - 1 ensures p(a[1..][i]) { assert a[1..][i] == a[i + 1]; }
      }
      SpanAppend(a[1..], b, p);
    } else {
      assert a + b == b;
    }
  }

  /** Length of the longest suffix of `s` made of whitespace. */
  function TrailingSpaces(s: string): (n: nat)
    ensures n <= |s|
    ensures All(s[|s| - n..], IsSpace)
    ensures n < |s| ==> !IsSpace(s[|s| - n - 1])
  {
    if s == [] || !IsSpace(s[|s| - 1]) then 0
    else
      var n := TrailingSpaces(s[..|s| - 1]);
      assert s[|s| - 1 - n..] == s[..|s| - 1][|s| - 1 - n..] + [s[|s| - 1]];
      1 + n
  }

  /** Where `str.strip()` cuts: everything before `i` and from `j` on is
      whitespace, and the kept slice starts and ends with a non-space. */
  function StripBounds(s: string): (b: (nat, nat))
    ensures b.0 <= b.1 <= |s|
    ensures All(s[..b.0], IsSpace) && All(s[b.1..], IsSpace)
    ensures b.0 < b.1 ==> !IsSpace(s[b.0]) && !IsSpace(s[b.1 - 1])
  {
    var i := Span(s, IsSpace);
    var t := s[i..];
    var n := TrailingSpaces(t);
    var j := |s| - n;
    assert s[j..] == t[|t| - n..];
    assert i < j ==> s[j - 1] == t[|t| - n - 1];
    (i, j)
  }

  /** Python's `str.strip()`: the result is the slice of `s` left once every
      leading and trailing whitespace character is removed, so it is empty or
      starts and ends with a non-space, and only spaces were dropped. */
  function Strip(s: string): (r: string)
    ensures exists i, j :: 0 <= i <= j <= |s| && r == s[i..j] && All(s[..i], IsSpace) && All(s[j..], IsSpace)
    ensures r != [] ==> !IsSpace(r[0]) && !IsSpace(r[|r| - 1])
  {
    var (i, j) := StripBounds(s);
    s[i..j]
  }

  /** An all-blank line strips to the empty string, and only such a line does. */
  lemma StripEmptyIff(s: string)
    ensures Strip(s) == [] <==> All(s, IsSpace)
  {
    var (i, j) := StripBounds(s);
    assert Strip(s) == s[i..j];
    if i == j {
      var parts := s[..i] + s[j..];
      assert parts == s;
      forall k | 0 <= k < |s| ensures IsSpace(s[k]) {
        assert s[k] == parts[k];
      }
    } else {
      assert !IsSpace(s[i]);
    }
  }

  /** A line that starts and ends with a non-space is left as it is. */
  lemma StripKeeps(s: string)
    requires s != [] && !IsSpace(s[0]) && !IsSpace(s[|s| - 1])
    ensures Strip(s) == s
  {
    var (i, j) := StripBounds(s);
    assert i == 0 && j == |s|;
  }

  /** Splits off the longest prefix made of `p`-characters. */
  function SplitSpan(s: string, p: char -> bool): (r: (string, string))
    ensures r.0 + r.1 == s && All(r.0, p)
    ensures r.1 != [] ==> !p(r.1[0])
  {
    var n := Span(s, p);
    assert s[..n] + s[n..] == s;
    (s[..n], s[n..])
  }

  /** Splitting a greedy span off `a + b` gives back `a` exactly when `a` is
      made of `p`-characters and `b` does not start with one. */
  lemma SplitSpanOf(a: string, b: string, p: char -> bool)
    requires All(a, p) && (b != [] ==> !p(b[0]))
    ensures SplitSpan(a + b, p) == (a, b)
  {
    SpanAppend(a, b, p);
    assert Span(b, p) == 0;
    assert (a + b)[..|a|] == a && (a + b)[|a|..] == b;
  }

  // ---- Decimal numerals (`[0-9]+(?:\.[0-9]+)?`) and their exact value ----

  function DigitValue(c: char): (v: nat)
    requires IsDigit(c)
    ensures v < 10
  {
    c as int - '0' as int
  }

  /** The value of a string of decimal digits, most significant first. */
  function DigitsValue(ds: string): (v: nat)
    requires All(ds, IsDigit)
    ensures v < Pow10(|ds|)
  {
    if ds == [] then 0
    else
      var init := ds[..|ds| - 1];
      assert All(init, IsDigit) by {
        forall i | 0 <= i < |init| ensures IsDigit(init[i]) { assert init[i] == ds[i]; }
      }
      DigitsValue(init) * 10 + DigitValue(ds[|ds| - 1])
  }

  function Pow10(n: nat): (p: nat)
    ensures p >= 1
  {
    if n == 0 then 1 else 10 * Pow10(n - 1)
  }

  /** The optional `.digits` part of a numeral, as written. */
  function FracText(frac: Option<string>): string
  {
    match frac
    case None => ""
    case Some(f) => "." + f
  }

  /** What Python's `float()` denotes for `int_digits` followed, when present,
      by `.` and `frac_digits`, computed exactly (no binary rounding). */
  function DecimalValue(intDigits: string, frac: Option<string>): (v: real)
    requires All(intDigits, IsDigit)
    requires frac.Some? ==> All(frac.value, IsDigit)
    ensures DigitsValue(intDigits) as real <= v < DigitsValue(intDigits) as real + 1.0
  {
    match frac
    case None => DigitsValue(intDigits) as real
    case Some(f) =>
      FractionBelowOne(DigitsValue(f), Pow10(|f|));
      DigitsValue(intDigits) as real + DigitsValue(f) as real / Pow10(|f|) as real
  }

  lemma FractionBelowOne(a: nat, b: nat)
    requires a < b
    ensures 0.0 <= a as real / b as real < 1.0
  {
    var q := a as real / b as real;
    assert q * b as real == a as real;
  }
}
