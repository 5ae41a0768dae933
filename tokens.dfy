/**
 * The token scanner of umd2.py: `Tok_RE.findall(line)` for the pattern
 * `([A-Za-z]+)\s*:\s*(-?\d+(?:\.\d+)?)\b`, `parse_line_tokens`, which folds
 * the hits into a dictionary keyed by the upper-cased name, and the `int()`
 * and `float()` conversions applied to the stored values.
 */
module Tokens {

  import opened Options
  import opened Text

  // ---- Numerals: `-?\d+(?:\.\d+)?` ----

  datatype Numeral = Numeral(neg: bool, intDigits: string, frac: Option<string>)

  predicate NumeralWellFormed(n: Numeral)
  {
    n.intDigits != [] && All(n.intDigits, IsDigit) &&
    (n.frac.Some? ==> n.frac.value != [] && All(n.frac.value, IsDigit))
  }


  /** A value stored in the dictionary: Python's `int` or `float`. */
  datatype Num = IntNum(i: int) | RealNum(r: real)

  /** The text of the second group. */
  function NumeralText(n: Numeral): string
  {
    NumeralThen(n, "")
  }

  /** `float(val) if '.' in val else int(val)`: a `float` exactly when the
      captured text holds a dot, and in either case the number the text
      denotes, the signed decimal value of its digits. */
  function NumValue(n: Numeral): (v: Num)
    requires NumeralWellFormed(n)
    ensures v.RealNum? <==> '.' in NumeralText(n)
    ensures ToReal(v) == (if n.neg then -1.0 else 1.0) * DecimalValue(n.intDigits, n.frac)
  {
    var sign := if n.neg then "-" else "";
    assert !('.' in sign + n.intDigits) by {
      assert forall i :: 0 <= i < |n.intDigits| ==> IsDigit(n.intDigits[i]);
    }
    if n.frac.Some? then
      assert NumeralText(n)[|sign| + |n.intDigits|] == '.';
      var m := DecimalValue(n.intDigits, n.frac);
      RealNum(if n.neg then -m else m)
    else
      assert NumeralText(n) == sign + n.intDigits;
      var m: int := DigitsValue(n.intDigits);
      IntNum(if n.neg then -m else m)
  }

  /** The longest digit string `int()` converts: the default
      `sys.int_info.default_max_str_digits` of CPython 3.11 and later and of
      the 3.10.7, 3.9.14, 3.8.14 and 3.7.14 security releases; older
      interpreters have no limit. A longer run of digits makes `int()` raise
      `ValueError`; `float()` has no such limit. */
  const MaxStrDigits: nat := 4300

  /** Whether the conversion in `parse_line_tokens` returns a value instead of
      raising `ValueError`. */
  predicate Converts(n: Numeral)
  {
    n.frac.Some? || |n.intDigits| <= MaxStrDigits
  }

  /** Python's `int(x)` on a float: truncation toward zero. */
  function Trunc(r: real): (t: int)
    ensures r >= 0.0 ==> 0.0 <= t as real <= r < t as real + 1.0
    ensures r < 0.0 ==> t as real - 1.0 < r <= t as real <= 0.0
  {
    if r >= 0.0 then r.Floor else -((-r).Floor)
  }

  /** Python's `int(v)` on a stored value. */
  function ToInt(v: Num): int
  {
    match v
    case IntNum(i) => i
    case RealNum(r) => Trunc(r)
  }

  /** Python's `float(v)` on a stored value. */
  function ToReal(v: Num): real
  {
    match v
    case IntNum(i) => i as real
    case RealNum(r) => r
  }

  /** A word boundary `\b` right after a digit: the next character, if any,
      is not a word character. */
  predicate Boundary(rest: string)
  {
    rest == [] || !IsWordChar(rest[0])
  }

  /** The optional fraction written in front of `rest`. */
  function FracThen(frac: Option<string>, rest: string): (r: string)
    ensures |r| >= |rest|
  {
    match frac
    case None => rest
    case Some(f) => "." + (f + rest)
  }

  /** A numeral written in front of `rest`. */
  function NumeralThen(n: Numeral, rest: string): (r: string)
    ensures |r| >= |rest|
  {
    (if n.neg then "-" else "") + (n.intDigits + FracThen(n.frac, rest))
  }

  /** What may follow the digits of a numeral: `(?:\.\d+)?\b`. The fraction
      is taken when a word boundary follows it; otherwise the match ends
      before the dot, where a boundary always lies; with no usable fraction
      the digits themselves must be followed by a boundary. The result is the
      fraction taken and the rest of the line, `None` when the pattern fails
      here. */
  function MatchFracEnd(t: string): (r: Option<(Option<string>, string)>)
    ensures r.Some? ==> t == FracThen(r.value.0, r.value.1) && Boundary(r.value.1)
    ensures r.Some? && r.value.0.Some? ==> r.value.0.value != [] && All(r.value.0.value, IsDigit)
  {
    if |t| >= 2 && t[0] == '.' && IsDigit(t[1]) then
      var (fp, u) := SplitSpan(t[1..], IsDigit);
      assert t == "." + t[1..];
      if Boundary(u) then Some((Some(fp), u)) else Some((None, t))
    else if Boundary(t) then Some((None, t))
    else None
  }

  lemma MatchFracEndOf(frac: Option<string>, rest: string)
    requires frac.Some? ==> frac.value != [] && All(frac.value, IsDigit)
    requires Boundary(rest) && (rest != [] ==> rest[0] != '.')
    ensures MatchFracEnd(FracThen(frac, rest)) == Some((frac, rest))
  {
    if frac.Some? {
      var f := frac.value;
      var t := FracThen(frac, rest);
      assert t[0] == '.' && t[1] == f[0] && t[1..] == f + rest;
      SplitSpanOf(f, rest, IsDigit);
    }
  }

  /** Tries `-?\d+(?:\.\d+)?\b` at the start of `s`, backtracking as Python's
      matcher does (only the fraction can be given back). The result is the
      numeral matched and the rest of the line. */
  function MatchNumber(s: string): (r: Option<(Numeral, string)>)
    ensures r.Some? ==> NumeralWellFormed(r.value.0) && s == NumeralThen(r.value.0, r.value.1) && Boundary(r.value.1)
  {
    var neg := s != [] && s[0] == '-';
    var sign := if neg then "-" else "";
    var body := s[|sign|..];
    assert s == sign + body;
    var (ip, t) := SplitSpan(body, IsDigit);
    if ip == [] then None
    else match MatchFracEnd(t)
      case None => None
      case Some((frac, rest)) => Some((Numeral(neg, ip, frac), rest))
  }

  lemma MatchNumberOf(n: Numeral, rest: string)
    requires NumeralWellFormed(n)
    requires Boundary(rest) && (rest != [] ==> rest[0] != '.')
    ensures MatchNumber(NumeralThen(n, rest)) == Some((n, rest))
  {
    var s := NumeralThen(n, rest);
    var sign := if n.neg then "-" else "";
    var t := FracThen(n.frac, rest);
    assert IsDigit(n.intDigits[0]);
    assert s[|sign|..] == n.intDigits + t;
    assert t != [] ==> !IsDigit(t[0]);
    SplitSpanOf(n.intDigits, t, IsDigit);
    MatchFracEndOf(n.frac, rest);
  }

  // ---- One hit of the whole pattern ----

  /** The characters one match spans: the name, the spaces around the colon
      and the numeral. `findall` reports the name and the numeral's text. */
  datatype Hit = Hit(key: string, gapBefore: string, gapAfter: string, num: Numeral)

  /** A hit written in front of `rest`. */
  function HitThen(h: Hit, rest: string): (r: string)
    ensures |r| > |rest|
  {
    h.key + (h.gapBefore + (":" + (h.gapAfter + NumeralThen(h.num, rest))))
  }

  predicate HitWellFormed(h: Hit)
  {
    h.key != [] && All(h.key, IsLetter) && All(h.gapBefore, IsSpace) &&
    All(h.gapAfter, IsSpace) && NumeralWellFormed(h.num)
  }

  /** `Tok_RE.match(s)`: the pattern tried at the start of `s`. The greedy
      `[A-Za-z]+` and `\s*` never need to give characters back (a shorter run
      leaves a letter or a space where `:` is needed). A hit is a well-formed
      prefix of `s` followed by a word boundary; the rest of the line comes
      with it. */
  function MatchAt(s: string): (r: Option<(Hit, string)>)
    ensures r.Some? ==> HitWellFormed(r.value.0) && s == HitThen(r.value.0, r.value.1) && Boundary(r.value.1)
  {
    var (key, s1) := SplitSpan(s, IsLetter);
    if key == [] then None else
    var (gapBefore, s2) := SplitSpan(s1, IsSpace);
    if s2 == [] || s2[0] != ':' then None else
    assert s2 == ":" + s2[1..];
    var (gapAfter, s3) := SplitSpan(s2[1..], IsSpace);
    match MatchNumber(s3)
    case None => None
    case Some((num, rest)) => Some((Hit(key, gapBefore, gapAfter, num), rest))
  }

  lemma MatchAtOf(h: Hit, rest: string)
    requires HitWellFormed(h)
    requires Boundary(rest) && (rest != [] ==> rest[0] != '.')
    ensures MatchAt(HitThen(h, rest)) == Some((h, rest))
  {
    var t3 := NumeralThen(h.num, rest);
    var t2 := ":" + (h.gapAfter + t3);
    var t1 := h.gapBefore + t2;
    assert IsDigit(h.num.intDigits[0]);
    assert t3[0] == '-' || IsDigit(t3[0]);
    SplitSpanOf(h.key, t1, IsLetter);
    SplitSpanOf(h.gapBefore, t2, IsSpace);
    assert t2[1..] == h.gapAfter + t3;
    SplitSpanOf(h.gapAfter, t3, IsSpace);
    MatchNumberOf(h.num, rest);
  }

  /** `Tok_RE.findall(line)`: scan left to right; after a hit resume where it
      ends, otherwise try the next position. */
  function FindAll(s: string): seq<Hit>
    decreases |s|
  {
    if s == [] then []
    else match MatchAt(s)
      case Some((h, rest)) => [h] + FindAll(rest)
      case None => FindAll(s[1..])
  }

  lemma ConsWellFormed(h: Hit, tail: seq<Hit>)
    requires HitWellFormed(h)
    requires forall i :: 0 <= i < |tail| ==> HitWellFormed(tail[i])
    ensures forall i :: 0 <= i < |[h] + tail| ==> HitWellFormed(([h] + tail)[i])
  {
    assert forall i :: 0 < i < |tail| + 1 ==> ([h] + tail)[i] == tail[i - 1];
  }

  /** Every hit the scan reports is a well-formed match. */
  lemma {:induction false} FindAllWellFormed(s: string)
    ensures forall i :: 0 <= i < |FindAll(s)| ==> HitWellFormed(FindAll(s)[i])
    decreases |s|
  {
    if s != [] {
      match MatchAt(s)
      case Some((h, rest)) =>
        FindAllWellFormed(rest);
        ConsWellFormed(h, FindAll(rest));
      case None =>
        FindAllWellFormed(s[1..]);
    }
  }

  // ---- Round trip: rendering hits and scanning them back ----

  /** Hits written one after another, separated by single spaces. */
  function RenderHits(hs: seq<Hit>): string
  {
    if hs == [] then ""
    else HitThen(hs[0], if |hs| == 1 then "" else " " + RenderHits(hs[1..]))
  }

  /** The scan takes a hit written at the front of the line and then goes on
      from where the hit ends. */
  lemma FindAllAfterHit(h: Hit, rest: string)
    requires HitWellFormed(h)
    requires Boundary(rest) && (rest != [] ==> rest[0] != '.')
    ensures FindAll(HitThen(h, rest)) == [h] + FindAll(rest)
  {
    MatchAtOf(h, rest);
  }

  /** No hit starts at a space, so the scan steps over it. */
  lemma FindAllSkipSpace(s: string)
    ensures FindAll(" " + s) == FindAll(s)
  {
    var t := " " + s;
    assert t[0] == ' ' && t[1..] == s;
    assert [] + t == t;
    SplitSpanOf([], t, IsLetter);
    assert MatchAt(t) == None;
  }

  /** Scanning a line of well-formed hits separated by spaces finds exactly
      those hits, in order. */
  lemma {:induction false} FindAllRenderHits(hs: seq<Hit>)
    requires forall i :: 0 <= i < |hs| ==> HitWellFormed(hs[i])
    ensures FindAll(RenderHits(hs)) == hs
  {
    if |hs| == 1 {
      FindAllRenderOne(hs[0]);
      assert hs == [hs[0]];
    } else if |hs| > 1 {
      FindAllRenderHits(hs[1..]);
      FindAllRenderCons(hs[0], RenderHits(hs[1..]), hs[1..]);
      assert [hs[0]] + hs[1..] == hs;
    }
  }

  lemma FindAllRenderOne(h: Hit)
    requires HitWellFormed(h)
    ensures FindAll(RenderHits([h])) == [h]
  {
    assert RenderHits([h]) == HitThen(h, "");
    FindAllAfterHit(h, "");
  }

  lemma FindAllRenderCons(h: Hit, r: string, tail: seq<Hit>)
    requires HitWellFormed(h)
    requires FindAll(r) == tail
    ensures FindAll(HitThen(h, " " + r)) == [h] + tail
  {
    var rest := " " + r;
    assert rest[0] == ' ';
    FindAllAfterHit(h, rest);
    FindAllSkipSpace(r);
  }

  // ---- The dictionary: `parse_line_tokens` ----

  function UpperChar(c: char): char
  {
    if 'a' <= c <= 'z' then (c as int - 32) as char else c
  }

  /** `str.upper()` on an ASCII name. */
  function Upper(s: string): (r: string)
    ensures |r| == |s|
    ensures forall i :: 0 <= i < |s| ==> r[i] == UpperChar(s[i])
  {
    if s == [] then [] else [UpperChar(s[0])] + Upper(s[1..])
  }

  predicate IsUpperKey(k: string)
  {
    k != [] && forall i :: 0 <= i < |k| ==> 'A' <= k[i] <= 'Z'
  }

  /** The dictionary after storing every hit in order, a later hit of the same
      (upper-cased) name overwriting an earlier one; a hit whose numeral does
      not convert is skipped. */
  function TokenMapOf(hits: seq<Hit>): map<string, Num>
    requires forall i :: 0 <= i < |hits| ==> HitWellFormed(hits[i])
  {
    if hits == [] then map[]
    else
      var last := hits[|hits| - 1];
      assert HitWellFormed(hits[|hits| - 1]);
      assert forall i :: 0 <= i < |hits| - 1 ==> hits[..|hits| - 1][i] == hits[i];
      var init := TokenMapOf(hits[..|hits| - 1]);
      if Converts(last.num) then init[Upper(last.key) := NumValue(last.num)] else init
  }

  /** `parse_line_tokens(line)` as a value. */
  function TokenMap(line: string): map<string, Num>
  {
    FindAllWellFormed(line);
    TokenMapOf(FindAll(line))
  }

  /** The name a hit is stored under. */
  function KeyOf(h: Hit): string
  {
    Upper(h.key)
  }

  /** No later hit that converts has the same name as hit `j`. */
  predicate LastOfKey(hits: seq<Hit>, j: nat)
    requires j < |hits|
  {
    forall j' :: j < j' < |hits| && Converts(hits[j'].num) ==> KeyOf(hits[j']) != KeyOf(hits[j])
  }

  /** Every key of the dictionary is the (upper-cased) name of some hit whose
      numeral converts ... */
  lemma {:induction false} TokenMapKeysFound(hits: seq<Hit>)
    requires forall i :: 0 <= i < |hits| ==> HitWellFormed(hits[i])
    ensures forall k :: k in TokenMapOf(hits) ==>
              exists j :: 0 <= j < |hits| && KeyOf(hits[j]) == k && Converts(hits[j].num)
  {
    if hits != [] {
      var n := |hits| - 1;
      var init := hits[..n];
      TokenMapKeysFound(init);
      forall k | k in TokenMapOf(hits)
        ensures exists j :: 0 <= j < |hits| && KeyOf(hits[j]) == k && Converts(hits[j].num)
      {
        if k != KeyOf(hits[n]) || !Converts(hits[n].num) {
          assert k in TokenMapOf(init);
          var j :| 0 <= j < n && KeyOf(init[j]) == k && Converts(init[j].num);
          assert hits[j] == init[j];
        }
      }
    }
  }

  /** ... and the name of every hit whose numeral converts is a key. */
  lemma {:induction false} TokenMapKeysStored(hits: seq<Hit>)
    requires forall i :: 0 <= i < |hits| ==> HitWellFormed(hits[i])
    ensures forall j :: 0 <= j < |hits| && Converts(hits[j].num) ==> KeyOf(hits[j]) in TokenMapOf(hits)
  {
    if hits != [] {
      var n := |hits| - 1;
      var init := hits[..n];
      TokenMapKeysStored(init);
      forall j | 0 <= j < n && Converts(hits[j].num) ensures KeyOf(hits[j]) in TokenMapOf(hits) {
        assert init[j] == hits[j];
        assert KeyOf(init[j]) in TokenMapOf(init);
      }
    }
  }

  /** One more hit at the end of the line: stored under its name when its
      numeral converts, overwriting any earlier value; otherwise skipped. */
  lemma TokenMapSnoc(hits: seq<Hit>, h: Hit)
    requires forall i :: 0 <= i < |hits| ==> HitWellFormed(hits[i])
    requires HitWellFormed(h)
    ensures forall i :: 0 <= i < |hits + [h]| ==> HitWellFormed((hits + [h])[i])
    ensures Converts(h.num) ==> TokenMapOf(hits + [h]) == TokenMapOf(hits)[KeyOf(h) := NumValue(h.num)]
    ensures !Converts(h.num) ==> TokenMapOf(hits + [h]) == TokenMapOf(hits)
  {
    var all := hits + [h];
    assert forall i :: 0 <= i < |hits| ==> all[i] == hits[i];
    assert all[..|hits|] == hits;
  }

  /** A hit whose numeral has more digits than `int()` accepts leaves the
      dictionary as it was: the `except ValueError: continue` of the source. */
  lemma TokenMapSkipsLong(hits: seq<Hit>, h: Hit)
    requires forall i :: 0 <= i < |hits| ==> HitWellFormed(hits[i])
    requires HitWellFormed(h) && h.num.frac.None? && |h.num.intDigits| > MaxStrDigits
    ensures forall i :: 0 <= i < |hits + [h]| ==> HitWellFormed((hits + [h])[i])
    ensures TokenMapOf(hits + [h]) == TokenMapOf(hits)
  {
    TokenMapSnoc(hits, h);
  }

  /** Every key is an upper-case name. */
  lemma {:induction false} TokenMapUpperKeys(hits: seq<Hit>)
    requires forall i :: 0 <= i < |hits| ==> HitWellFormed(hits[i])
    ensures forall k :: k in TokenMapOf(hits) ==> IsUpperKey(k)
  {
    if hits != [] {
      var n := |hits| - 1;
      var init := hits[..n];
      assert forall j :: 0 <= j < n ==> init[j] == hits[j];
      TokenMapUpperKeys(init);
      var last := hits[n];
      assert HitWellFormed(last);
      forall i | 0 <= i < |last.key| ensures 'A' <= KeyOf(last)[i] <= 'Z' {
        assert IsLetter(last.key[i]);
      }
    }
  }

  /** A key holds the value of the LAST hit carrying that name: a later hit
      overwrites an earlier one. */
  lemma {:induction false} TokenMapLastWins(hits: seq<Hit>)
    requires forall i :: 0 <= i < |hits| ==> HitWellFormed(hits[i])
    ensures forall j :: 0 <= j < |hits| && Converts(hits[j].num) && LastOfKey(hits, j) ==>
              KeyOf(hits[j]) in TokenMapOf(hits) && TokenMapOf(hits)[KeyOf(hits[j])] == NumValue(hits[j].num)
  {
    if hits != [] {
      var n := |hits| - 1;
      var init := hits[..n];
      assert forall j :: 0 <= j < n ==> init[j] == hits[j];
      TokenMapLastWins(init);
      forall j | 0 <= j < |hits| && Converts(hits[j].num) && LastOfKey(hits, j)
        ensures KeyOf(hits[j]) in TokenMapOf(hits) && TokenMapOf(hits)[KeyOf(hits[j])] == NumValue(hits[j].num)
      {
        if j < n {
          assert Converts(hits[n].num) ==> KeyOf(hits[n]) != KeyOf(hits[j]);
          assert LastOfKey(init, j);
        }
      }
    }
  }

  /** `parse_line_tokens`: fills the dictionary hit by hit, in the order the
      scan finds them. The `except ValueError` branch is taken for an integer
      numeral longer than `MaxStrDigits` digits; such a hit is skipped. */
  method ParseLineTokens(line: string) returns (out: map<string, Num>)
    ensures out == TokenMap(line)
  {
    var hits := FindAll(line);
    FindAllWellFormed(line);
    out := StoreHits(hits);
  }

  /** The loop of `parse_line_tokens`: `out[k] = v` for each hit that
      converts, in turn. */
  method StoreHits(hits: seq<Hit>) returns (out: map<string, Num>)
    requires forall i :: 0 <= i < |hits| ==> HitWellFormed(hits[i])
    ensures out == TokenMapOf(hits)
  {
    out := map[];
    for i := 0 to |hits|
      invariant out == TokenMapOf(hits[..i])
    {
      assert hits[..i + 1][..i] == hits[..i];
      if Converts(hits[i].num) {
        out := out[KeyOf(hits[i]) := NumValue(hits[i].num)];
      }
    }
    assert hits[..|hits|] == hits;
  }
}
