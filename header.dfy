/**
 * The sample-frequency announcement of umd2.py: the anchored, case-insensitive
 * pattern `^\s*Sample\s+Frequency\s*=\s*([0-9]+(?:\.[0-9]+)?)\s*Hz\s*$` and
 * `maybe_extract_fs`, which returns the announced number.
 *
 * Every choice in the pattern is between disjoint character classes, so a
 * greedy left-to-right scan without backtracking finds the only possible
 * match. `MatchHeader` returns the pieces the match consists of; its
 * contract and `MatchHeaderComplete` together show that it accepts exactly
 * the lines `Render` builds from well-formed pieces.
 */
module HeaderLine {

  import opened Options
  import opened Text

  /** Case-insensitive equality of a line character with a lower-case ASCII
      letter of the pattern; Python's matcher also equates `s` with U+017F
      (LATIN SMALL LETTER LONG S). */
  predicate CaseEq(c: char, lower: char)
  {
    c == lower || c as int + 32 == lower as int || (lower == 's' && c == '\U{17F}')
  }

  predicate WordIs(w: string, lower: string)
  {
    |w| == |lower| && forall i :: 0 <= i < |w| ==> CaseEq(w[i], lower[i])
  }

  /** The pieces of one match, in line order: `\s*Hz\s*` ... */
  datatype HzTail = HzTail(gap: string, hz: string, trail: string)

  /** ... `\s*=\s*([0-9]+(?:\.[0-9]+)?)` followed by the tail ... */
  datatype Reading = Reading(gap2: string, gap3: string, intDigits: string, frac: Option<string>, tail: HzTail)

  /** ... and the whole line: `\s*Sample\s+Frequency` followed by the reading. */
  datatype HeaderParts = HeaderParts(lead: string, sample: string, gap1: string, frequency: string, reading: Reading)

  function RenderTail(t: HzTail): string
  {
    t.gap + (t.hz + t.trail)
  }

  function RenderReading(r: Reading): string
  {
    r.gap2 + ("=" + (r.gap3 + (r.intDigits + (FracText(r.frac) + RenderTail(r.tail)))))
  }

  /** The line a match consists of: `lead Sample gap1 Frequency gap2 = gap3
      digits[.frac] gap Hz trail`. */
  function Render(h: HeaderParts): string
  {
    h.lead + (h.sample + (h.gap1 + (h.frequency + RenderReading(h.reading))))
  }

  predicate TailWellFormed(t: HzTail)
  {
    All(t.gap, IsSpace) && WordIs(t.hz, "hz") && All(t.trail, IsSpace)
  }

  predicate ReadingWellFormed(r: Reading)
  {
    && All(r.gap2, IsSpace)
    && All(r.gap3, IsSpace)
    && r.intDigits != [] && All(r.intDigits, IsDigit)
    && (r.frac.Some? ==> r.frac.value != [] && All(r.frac.value, IsDigit))
    && TailWellFormed(r.tail)
  }

  /** Each piece is what its part of the pattern admits. */
  predicate WellFormed(h: HeaderParts)
  {
    && All(h.lead, IsSpace)
    && WordIs(h.sample, "sample")
    && h.gap1 != [] && All(h.gap1, IsSpace)
    && WordIs(h.frequency, "frequency")
    && ReadingWellFormed(h.reading)
  }

  /** Splits a word matching `lower` case-insensitively off the front of `s`. */
  function SplitWord(s: string, lower: string): (r: Option<(string, string)>)
    ensures r.Some? ==> WordIs(r.value.0, lower) && r.value.0 + r.value.1 == s
  {
    if |s| >= |lower| && WordIs(s[..|lower|], lower) then
      assert s[..|lower|] + s[|lower|..] == s;
      Some((s[..|lower|], s[|lower|..]))
    else None
  }

  lemma SplitWordOf(a: string, b: string, lower: string)
    requires WordIs(a, lower)
    ensures SplitWord(a + b, lower) == Some((a, b))
  {
    assert (a + b)[..|lower|] == a && (a + b)[|lower|..] == b;
  }

  /** The optional `.digits` group, taken only when a digit follows the dot. */
  function SplitFrac(s: string): (r: (Option<string>, string))
    ensures FracText(r.0) + r.1 == s
    ensures r.0.Some? ==> r.0.value != [] && All(r.0.value, IsDigit)
  {
    if |s| >= 2 && s[0] == '.' && IsDigit(s[1]) then
      var (f, rest) := SplitSpan(s[1..], IsDigit);
      assert s == "." + s[1..];
      (Some(f), rest)
    else
      assert "" + s == s;
      (None, s)
  }

  lemma SplitFracOf(frac: Option<string>, b: string)
    requires frac.Some? ==> frac.value != [] && All(frac.value, IsDigit)
    requires b != [] ==> !IsDigit(b[0]) && b[0] != '.'
    ensures SplitFrac(FracText(frac) + b) == (frac, b)
  {
    match frac
    case None =>
      assert FracText(frac) + b == b;
    case Some(f) =>
      var s := FracText(frac) + b;
      assert s[0] == '.' && s[1] == f[0];
      assert s[1..] == f + b;
      SplitSpanOf(f, b, IsDigit);
  }

  /** `\s*Hz\s*$` at the front of `s`. */
  function MatchTail(s: string): (r: Option<HzTail>)
    ensures r.Some? ==> TailWellFormed(r.value) && RenderTail(r.value) == s
  {
    var (gap, s1) := SplitSpan(s, IsSpace);
    match SplitWord(s1, "hz")
    case None => None
    case Some((hz, trail)) =>
      if All(trail, IsSpace) then Some(HzTail(gap, hz, trail)) else None
  }

  lemma MatchTailComplete(t: HzTail)
    requires TailWellFormed(t)
    ensures MatchTail(RenderTail(t)) == Some(t)
  {
    assert CaseEq(t.hz[0], 'h');
    SplitSpanOf(t.gap, t.hz + t.trail, IsSpace);
    SplitWordOf(t.hz, t.trail, "hz");
  }

  /** `\s*=\s*([0-9]+(?:\.[0-9]+)?)\s*Hz\s*$` at the front of `s`. */
  function MatchReading(s: string): (r: Option<Reading>)
    ensures r.Some? ==> ReadingWellFormed(r.value) && RenderReading(r.value) == s
  {
    var (gap2, s1) := SplitSpan(s, IsSpace);
    if s1 == [] || s1[0] != '=' then None else
    assert s1 == "=" + s1[1..];
    var (gap3, s2) := SplitSpan(s1[1..], IsSpace);
    var (intDigits, s3) := SplitSpan(s2, IsDigit);
    if intDigits == [] then None else
    var (frac, s4) := SplitFrac(s3);
    match MatchTail(s4)
    case None => None
    case Some(t) => Some(Reading(gap2, gap3, intDigits, frac, t))
  }

  lemma MatchReadingComplete(r: Reading)
    requires ReadingWellFormed(r)
    ensures MatchReading(RenderReading(r)) == Some(r)
  {
    var t4 := RenderTail(r.tail);
    var t3 := FracText(r.frac) + t4;
    var t2 := r.intDigits + t3;
    var t1 := "=" + (r.gap3 + t2);
    assert CaseEq(r.tail.hz[0], 'h');
    assert t4 != [] && !IsDigit(t4[0]) && t4[0] != '.' && !IsSpace(t2[0]);
    SplitSpanOf(r.gap2, t1, IsSpace);
    assert t1[1..] == r.gap3 + t2;
    SplitSpanOf(r.gap3, t2, IsSpace);
    if r.frac.Some? { assert t3[0] == '.'; } else { assert t3 == t4; }
    SplitSpanOf(r.intDigits, t3, IsDigit);
    SplitFracOf(r.frac, t4);
    MatchTailComplete(r.tail);
  }

  /** Python's `HeaderFS_RE.match(line)`: the pieces of the match, if any.
      Whatever it accepts is a well-formed header line, and its pieces put
      back together are the line. */
  function MatchHeader(s: string): (r: Option<HeaderParts>)
    ensures r.Some? ==> WellFormed(r.value) && Render(r.value) == s
  {
    var (lead, s1) := SplitSpan(s, IsSpace);
    match SplitWord(s1, "sample")
    case None => None
    case Some((sample, s2)) =>
      var (gap1, s3) := SplitSpan(s2, IsSpace);
      if gap1 == [] then None else
      match SplitWord(s3, "frequency")
      case None => None
      case Some((frequency, s4)) =>
        match MatchReading(s4)
        case None => None
        case Some(reading) => Some(HeaderParts(lead, sample, gap1, frequency, reading))
  }

  /** Completeness: every well-formed header line is accepted, with exactly
      the pieces it was built from. Together with the contract of
      `MatchHeader`, the accepted lines are exactly the rendered ones. */
  lemma MatchHeaderComplete(h: HeaderParts)
    requires WellFormed(h)
    ensures MatchHeader(Render(h)) == Some(h)
  {
    var t3 := h.frequency + RenderReading(h.reading);
    var t2 := h.gap1 + t3;
    var t1 := h.sample + t2;
    assert CaseEq(h.sample[0], 's') && CaseEq(h.frequency[0], 'f');
    SplitSpanOf(h.lead, t1, IsSpace);
    SplitWordOf(h.sample, t2, "sample");
    SplitSpanOf(h.gap1, t3, IsSpace);
    SplitWordOf(h.frequency, RenderReading(h.reading), "frequency");
    MatchReadingComplete(h.reading);
  }

  /** A line that starts with neither whitespace nor an `s` is not an
      announcement. */
  lemma NotAnnouncement(s: string)
    requires s != [] && !IsSpace(s[0]) && !CaseEq(s[0], 's')
    ensures MatchHeader(s).None?
  {
    assert [] + s == s;
    SplitSpanOf([], s, IsSpace);
    assert SplitWord(s, "sample").None? by {
      if |s| >= 6 {
        assert s[..6][0] == s[0];
      }
    }
  }

  /** The number the announcement carries. */
  function HeaderValue(h: HeaderParts): real
    requires WellFormed(h)
  {
    DecimalValue(h.reading.intDigits, h.reading.frac)
  }

  /** `maybe_extract_fs`: the announced frequency when the line matches the
      pattern, `None` otherwise (its `except` branch cannot be taken: the
      captured group always converts). The value is never negative, since the
      pattern admits no sign. */
  function MaybeExtractFs(line: string): (r: Option<real>)
    ensures r.Some? <==> MatchHeader(line).Some?
    ensures r.Some? ==> r.value >= 0.0
  {
    match MatchHeader(line)
    case None => None
    case Some(h) => Some(HeaderValue(h))
  }

  /** A well-formed announcement line yields the frequency written in it. */
  lemma ExtractFsOfHeader(h: HeaderParts)
    requires WellFormed(h)
    ensures MaybeExtractFs(Render(h)) == Some(DecimalValue(h.reading.intDigits, h.reading.frac))
  {
    MatchHeaderComplete(h);
  }
}
