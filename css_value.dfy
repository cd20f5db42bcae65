/** The game screen's reading of a CSS length such as "max(1rem, 59px)" as a number of pixels:
    the largest `<number>px` token if there is one, else the first `<number>rem` token times 16,
    else the leading number of the text, else 0. Numbers are exact decimals here. */
module CssValue {
  import opened Types

  /** Pixels per rem. */
  const RemPx: real := 16.0

  predicate IsDigit(c: char) {
    '0' <= c <= '9'
  }

  function DigitValue(c: char): nat
    requires IsDigit(c)
  {
    (c as int - '0' as int) as nat
  }

  /** The length of the run of digits starting at `p`. */
  function DigitRun(s: string, p: nat): (n: nat)
    requires p <= |s|
    ensures p + n <= |s|
    ensures forall k :: p <= k < p + n ==> IsDigit(s[k])
    ensures p + n == |s| || !IsDigit(s[p + n])
    decreases |s| - p
  {
    if p < |s| && IsDigit(s[p]) then 1 + DigitRun(s, p + 1) else 0
  }

  predicate AllDigits(d: string) {
    forall k :: 0 <= k < |d| ==> IsDigit(d[k])
  }

  /** The value of a string of decimal digits. */
  function IntegerValue(d: string): (v: nat)
    requires AllDigits(d)
  {
    if |d| == 0 then 0 else 10 * IntegerValue(d[..|d| - 1]) + DigitValue(d[|d| - 1])
  }

  /** The value of the digits after a decimal point. */
  function FractionValue(d: string): (v: real)
    requires AllDigits(d)
    ensures 0.0 <= v <= 1.0
  {
    if |d| == 0 then 0.0 else (DigitValue(d[0]) as real + FractionValue(d[1..])) / 10.0
  }

  predicate StartsWith(s: string, p: nat, u: string) {
    p + |u| <= |s| && s[p..p + |u|] == u
  }

  /** A match of `(\d+(?:\.\d+)?)<unit>` beginning exactly at `p`: its numeric value and length. */
  datatype Token = Token(value: real, length: nat)

  /** The match, if any, of the pattern at `p`. Both digit runs are taken whole: the units start with
      a letter, so a shorter run, which is followed by a digit, can never be followed by the unit,
      and the regular expression's backtracking finds nothing more. */
  function TokenAt(s: string, p: nat, unit: string): (t: Option<Token>)
    requires p <= |s|
    ensures t.Some? ==> t.value.length > 0 && p + t.value.length <= |s| && t.value.value >= 0.0
    ensures t.Some? ==> IsDigit(s[p])
  {
    var d := DigitRun(s, p);
    var q := p + d;
    if d == 0 then None
    else
      var whole := IntegerValue(s[p..q]) as real;
      if q < |s| && s[q] == '.' && DigitRun(s, q + 1) > 0 && StartsWith(s, q + 1 + DigitRun(s, q + 1), unit) then
        var f := DigitRun(s, q + 1);
        Some(Token(whole + FractionValue(s[q + 1..q + 1 + f]), d + 1 + f + |unit|))
      else if StartsWith(s, q, unit) then
        Some(Token(whole, d + |unit|))
      else None
  }

  /** All matches of the global pattern from `p` on, left to right, each search resuming after the
      previous match. */
  function AllTokens(s: string, p: nat, unit: string): (vs: seq<real>)
    requires p <= |s|
    ensures forall k :: 0 <= k < |vs| ==> vs[k] >= 0.0
    decreases |s| - p
  {
    if p == |s| then []
    else match TokenAt(s, p, unit)
      case Some(t) => [t.value] + AllTokens(s, p + t.length, unit)
      case None => AllTokens(s, p + 1, unit)
  }

  /** The first match of the non-global pattern from `p` on. */
  function FirstToken(s: string, p: nat, unit: string): (v: Option<real>)
    requires p <= |s|
    decreases |s| - p
  {
    if p == |s| then None
    else match TokenAt(s, p, unit)
      case Some(t) => Some(t.value)
      case None => FirstToken(s, p + 1, unit)
  }

  /** The first match is the head of the list of all matches. */
  lemma {:induction false} FirstTokenIsFirstOfAll(s: string, p: nat, unit: string)
    requires p <= |s|
    ensures FirstToken(s, p, unit).Some? <==> |AllTokens(s, p, unit)| > 0
    ensures FirstToken(s, p, unit).Some? ==> FirstToken(s, p, unit).value == AllTokens(s, p, unit)[0]
    decreases |s| - p
  {
    if p < |s| && TokenAt(s, p, unit).None? {
      FirstTokenIsFirstOfAll(s, p + 1, unit);
    }
  }

  function Max(xs: seq<real>): (m: real)
    requires |xs| > 0
    ensures m in xs
    ensures forall k :: 0 <= k < |xs| ==> xs[k] <= m
  {
    if |xs| == 1 then xs[0]
    else
      var rest := Max(xs[1..]);
      assert forall k :: 1 <= k < |xs| ==> xs[k] == xs[1..][k - 1];
      if xs[0] >= rest then xs[0] else rest
  }

  /** The first position at or after `p` that is not ECMAScript white space. */
  function SkipSpaces(s: string, p: nat): (q: nat)
    requires p <= |s|
    ensures p <= q <= |s|
    ensures forall k :: p <= k < q ==> IsJsWhiteSpace(s[k])
    ensures q == |s| || !IsJsWhiteSpace(s[q])
    decreases |s| - p
  {
    if p < |s| && IsJsWhiteSpace(s[p]) then SkipSpaces(s, p + 1) else p
  }

  /** parseFloat: leading white space skipped, then the number read from what follows. */
  function ParseFloat(s: string): (r: Option<real>)
    ensures r.Some? ==> exists k :: 0 <= k < |s| && IsDigit(s[k])
  {
    var p := SkipSpaces(s, 0);
    var r := ParseNumber(s[p..]);
    if r.Some? then
      assert exists k :: 0 <= k < |s[p..]| && IsDigit(s[p..][k]);
      r
    else r
  }

  /** A decimal prefix: optional sign, digits with an optional fraction (at least one digit in all),
      the rest ignored; None where parseFloat gives NaN. */
  function ParseNumber(s: string): (r: Option<real>)
    ensures r.Some? ==> exists k :: 0 <= k < |s| && IsDigit(s[k])
  {
    var negative := 0 < |s| && s[0] == '-';
    var m := if 0 < |s| && (s[0] == '-' || s[0] == '+') then 1 else 0;
    var d := DigitRun(s, m);
    var whole := IntegerValue(s[m..m + d]) as real;
    var hasPoint := m + d < |s| && s[m + d] == '.';
    var f := if hasPoint then DigitRun(s, m + d + 1) else 0;
    var fraction := if hasPoint then FractionValue(s[m + d + 1..m + d + 1 + f]) else 0.0;
    if d == 0 && f == 0 then None
    else
      assert if d > 0 then IsDigit(s[m]) else IsDigit(s[m + d + 1]);
      Some(if negative then -(whole + fraction) else whole + fraction)
  }

  /** Skipping from inside a white-space prefix `w` lands where skipping from the end of `w` does. */
  lemma {:induction false} SkipThroughPrefix(w: string, t: string, p: nat)
    requires p <= |w|
    requires forall k :: 0 <= k < |w| ==> IsJsWhiteSpace(w[k])
    ensures SkipSpaces(w + t, p) == SkipSpaces(w + t, |w|)
    decreases |w| - p
  {
    if p < |w| {
      assert (w + t)[p] == w[p];
      SkipThroughPrefix(w, t, p + 1);
    }
  }

  /** Skipping in `t` behind a prefix `w` is skipping in `t`, shifted by |w|. */
  lemma {:induction false} SkipBehindPrefix(w: string, t: string, q: nat)
    requires q <= |t|
    ensures SkipSpaces(w + t, |w| + q) == |w| + SkipSpaces(t, q)
    decreases |t| - q
  {
    if q < |t| {
      assert (w + t)[|w| + q] == t[q];
      SkipBehindPrefix(w, t, q + 1);
    }
  }

  /** parseFloat ignores any leading white space, line and paragraph separators included. */
  lemma ParseFloatSkipsWhiteSpace(w: string, t: string)
    requires forall k :: 0 <= k < |w| ==> IsJsWhiteSpace(w[k])
    ensures ParseFloat(w + t) == ParseFloat(t)
  {
    SkipThroughPrefix(w, t, 0);
    SkipBehindPrefix(w, t, 0);
    var q := SkipSpaces(t, 0);
    DropPrefix(w, t, q);
    SameNumberAfterSpaces(w + t, t);
  }

  /** Texts that agree once their leading white space is skipped parse alike. */
  lemma SameNumberAfterSpaces(a: string, b: string)
    requires a[SkipSpaces(a, 0)..] == b[SkipSpaces(b, 0)..]
    ensures ParseFloat(a) == ParseFloat(b)
  {
  }

  /** A number after a line separator is still read: "\u20285" is 5. */
  lemma LineSeparatorBeforeNumber()
    ensures ParseFloat("\U{2028}5") == Some(5.0)
  {
    ParseFloatSkipsWhiteSpace("\U{2028}", "5");
    assert "\U{2028}" + "5" == "\U{2028}5";
    var t := "5";
    assert SkipSpaces(t, 0) == 0;
    assert DigitRun(t, 0) == 1;
    assert t[0..1] == "5";
  }

  lemma DropPrefix(w: string, t: string, q: nat)
    requires q <= |t|
    ensures (w + t)[|w| + q..] == t[q..]
  {
  }

  /** parseCSSValue. */
  function ParseCssValue(s: string): (r: real)
    ensures |AllTokens(s, 0, "px")| > 0 ==> r in AllTokens(s, 0, "px")
    ensures forall k :: 0 <= k < |AllTokens(s, 0, "px")| ==> AllTokens(s, 0, "px")[k] <= r
    ensures |AllTokens(s, 0, "px")| == 0 && FirstToken(s, 0, "rem").Some? ==> r == FirstToken(s, 0, "rem").value * RemPx
    ensures |AllTokens(s, 0, "px")| == 0 && FirstToken(s, 0, "rem").None? ==>
      r == (if ParseFloat(s).Some? then ParseFloat(s).value else 0.0)
  {
    var px := AllTokens(s, 0, "px");
    if |px| > 0 then Max(px)
    else match FirstToken(s, 0, "rem")
      case Some(v) => v * RemPx
      case None => match ParseFloat(s)
        case Some(v) => v
        case None => 0.0
  }

  /** Text without any digit reads as 0, as do the empty string and `env(...)` leftovers. */
  lemma NoDigitsIsZero(s: string)
    requires forall k :: 0 <= k < |s| ==> !IsDigit(s[k])
    ensures ParseCssValue(s) == 0.0
  {
    TailHasNoTokens(s, 0, "px");
    TailHasNoTokens(s, 0, "rem");
    FirstTokenIsFirstOfAll(s, 0, "rem");
  }

  /** The values the safe-area hook produces read as expected: a bare `1rem` is 16 pixels, and
      `max(1rem, <n>px)` is n pixels. */
  lemma RemAloneIsSixteen()
    ensures ParseCssValue("1rem") == 16.0
  {
    var s := "1rem";
    assert DigitRun(s, 1) == 0;
    assert TokenAt(s, 0, "px").None?;
    assert TokenAt(s, 0, "rem") == Some(Token(1.0, 4));
    assert AllTokens(s, 1, "px") == [] by { TailHasNoTokens(s, 1, "px"); }
  }

  /** A run of exactly `n` digits starts at `p`. */
  lemma {:induction false} DigitRunIs(s: string, p: nat, n: nat)
    requires p + n <= |s|
    requires forall k :: p <= k < p + n ==> IsDigit(s[k])
    requires p + n == |s| || !IsDigit(s[p + n])
    ensures DigitRun(s, p) == n
    decreases n
  {
    if n > 0 {
      DigitRunIs(s, p + 1, n - 1);
    }
  }

  /** `<digits>px` alone is that many pixels. */
  lemma PixelsAlone(d: string)
    requires |d| > 0 && AllDigits(d)
    ensures ParseCssValue(d + "px") == IntegerValue(d) as real
  {
    var s := d + "px";
    DigitRunIs(s, 0, |d|);
    assert s[0..|d|] == d;
    assert s[|d|..|d| + 2] == "px";
    assert TokenAt(s, 0, "px") == Some(Token(IntegerValue(d) as real, |d| + 2));
    assert AllTokens(s, |s|, "px") == [];
  }

  /** What the safe-area hook produces, `max(1rem, <digits>px)`, is that many pixels: the rem floor
      plays no part once a pixel value is present. */
  lemma RemFloorWithPixels(d: string)
    requires |d| > 0 && AllDigits(d)
    ensures ParseCssValue("max(1rem, " + d + "px)") == IntegerValue(d) as real
  {
    var s := "max(1rem, " + d + "px)";
    RemFloorPrefix(s, d);
    RemFloorPixels(s, d);
  }

  /** Before the pixel value, `max(1rem, ` holds no pixel token. */
  lemma RemFloorPrefix(s: string, d: string)
    requires s == "max(1rem, " + d + "px)"
    ensures AllTokens(s, 0, "px") == AllTokens(s, 10, "px")
  {
    assert forall k :: 0 <= k < 10 ==> s[k] == "max(1rem, "[k];
    SkipNonDigits(s, 0, 4, "px");
    DigitRunIs(s, 4, 1);
    assert !StartsWith(s, 5, "px") by { assert s[5] == 'r'; }
    assert TokenAt(s, 4, "px").None?;
    SkipNonDigits(s, 5, 10, "px");
  }

  /** From the pixel value on there is exactly that one token. */
  lemma RemFloorPixels(s: string, d: string)
    requires |d| > 0 && AllDigits(d)
    requires s == "max(1rem, " + d + "px)"
    ensures AllTokens(s, 10, "px") == [IntegerValue(d) as real]
  {
    var n := |d|;
    assert forall k :: 10 <= k < 10 + n ==> s[k] == d[k - 10];
    assert s[10 + n] == 'p';
    DigitRunIs(s, 10, n);
    assert s[10..10 + n] == d;
    assert s[10 + n..12 + n] == "px";
    assert TokenAt(s, 10, "px") == Some(Token(IntegerValue(d) as real, n + 2));
    assert s[12 + n] == ')';
    SkipNonDigits(s, 12 + n, |s|, "px");
  }

  /** A stretch without digits holds no match: the search resumes after it. */
  lemma {:induction false} SkipNonDigits(s: string, p: nat, q: nat, unit: string)
    requires p <= q <= |s|
    requires forall k :: p <= k < q ==> !IsDigit(s[k])
    ensures AllTokens(s, p, unit) == AllTokens(s, q, unit)
    decreases q - p
  {
    if p < q {
      SkipNonDigits(s, p + 1, q, unit);
    }
  }

  /** No match starts in a stretch without digits. */
  lemma {:induction false} TailHasNoTokens(s: string, p: nat, unit: string)
    requires p <= |s|
    requires forall k :: p <= k < |s| ==> !IsDigit(s[k])
    ensures AllTokens(s, p, unit) == []
    decreases |s| - p
  {
    if p < |s| {
      TailHasNoTokens(s, p + 1, unit);
    }
  }
}
