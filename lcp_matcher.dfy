/** The scorecard's text extraction: the leftmost match of the regular
  * expression /LCP\s([\d.]+)s/ in a performance note, and what JavaScript's
  * `Number` makes of the captured run of digits and dots. Numbers are exact
  * reals here. */
module LcpMatcher {
  import opened Wrappers
  import opened Text
  import opened Decimal

  // ---------------------------------------------------------------------
  // The matcher

  /** `\s`: the ECMAScript WhiteSpace and LineTerminator code points. */
  predicate IsJsWhitespace(c: char)
  {
    c == '\t' || c == '\n' || c == '\U{000B}' || c == '\U{000C}' || c == '\r' ||
    c == ' ' || c == '\U{00A0}' || c == '\U{1680}' || ('\U{2000}' <= c <= '\U{200A}') ||
    c == '\U{2028}' || c == '\U{2029}' || c == '\U{202F}' || c == '\U{205F}' ||
    c == '\U{3000}' || c == '\U{FEFF}'
  }

  /** The character class `[\d.]`: an ASCII digit or a dot. */
  predicate IsRunChar(c: char)
  {
    IsDigit(c) || c == '.'
  }

  /** What the capture group can hold: one or more digits and dots. */
  predicate IsCapture(cap: string)
  {
    |cap| > 0 && forall k :: 0 <= k < |cap| ==> IsRunChar(cap[k])
  }

  /** The end of the longest run of `[\d.]` characters starting at `i`. */
  function RunEnd(s: string, i: nat): (j: nat)
    requires i <= |s|
    ensures i <= j <= |s|
    ensures forall k :: i <= k < j ==> IsRunChar(s[k])
    ensures j < |s| ==> !IsRunChar(s[j])
    decreases |s| - i
  {
    if i < |s| && IsRunChar(s[i]) then RunEnd(s, i + 1) else i
  }

  /** The capture when the pattern matches starting exactly at `p`. The
    * greedy `[\d.]+` takes the whole run; giving characters back cannot
    * help, since a shorter run is followed by a digit or dot, never by 's'. */
  function MatchAt(s: string, p: nat): Option<string>
  {
    if p + 4 <= |s| && s[p..p + 3] == "LCP" && IsJsWhitespace(s[p + 3]) then
      var e := RunEnd(s, p + 4);
      if p + 4 < e < |s| && s[e] == 's' then Some(s[p + 4..e]) else None
    else None
  }

  /** The pattern's meaning, stated without the scanner: at `p` stand
    * "LCP", one whitespace character, the capture `cap`, then 's'. */
  ghost predicate MatchesWith(s: string, p: nat, cap: string)
  {
    && p + 5 + |cap| <= |s|
    && s[p..p + 3] == "LCP"
    && IsJsWhitespace(s[p + 3])
    && IsCapture(cap)
    && s[p + 4..p + 4 + |cap|] == cap
    && s[p + 4 + |cap|] == 's'
  }

  /** The scanner at one position agrees with the pattern's meaning, in both
    * directions; in particular a position has at most one capture. */
  lemma MatchAtIff(s: string, p: nat, cap: string)
    ensures MatchAt(s, p) == Some(cap) <==> MatchesWith(s, p, cap)
  {
    if MatchesWith(s, p, cap) {
      var f := p + 4 + |cap|;
      forall k | p + 4 <= k < f ensures IsRunChar(s[k]) {
        assert s[k] == cap[k - p - 4];
      }
      RunEndIs(s, p + 4, f);
    }
  }

  /** The run starting at `i` ends at `j` when everything in between is a
    * digit or dot and the character at `j`, if any, is not. */
  lemma {:induction false} RunEndIs(s: string, i: nat, j: nat)
    requires i <= j <= |s|
    requires forall k :: i <= k < j ==> IsRunChar(s[k])
    requires j < |s| ==> !IsRunChar(s[j])
    ensures RunEnd(s, i) == j
    decreases j - i
  {
    if i < j {
      RunEndIs(s, i + 1, j);
    }
  }

  /** The leftmost start position at or after `from` where the pattern matches. */
  function LeftmostMatch(s: string, from: nat): (r: Option<nat>)
    requires from <= |s|
    ensures r.Some? ==> from <= r.value <= |s| && MatchAt(s, r.value).Some?
    ensures r.Some? ==> forall q :: from <= q < r.value ==> MatchAt(s, q).None?
    ensures r.None? ==> forall q :: from <= q ==> MatchAt(s, q).None?
    decreases |s| - from
  {
    if MatchAt(s, from).Some? then Some(from)
    else if from == |s| then None
    else LeftmostMatch(s, from + 1)
  }

  /** `performance.match(/LCP\s([\d.]+)s/)?.[1]`: the capture of the leftmost match. */
  function ExtractLcp(performance: string): (r: Option<string>)
    ensures r.Some? ==> IsCapture(r.value)
  {
    match LeftmostMatch(performance, 0)
    case None => None
    case Some(p) => MatchAt(performance, p)
  }

  /** No match of the pattern starts before `p`. */
  ghost predicate NoMatchBefore(s: string, p: nat)
  {
    forall q: nat, c: string :: q < p ==> !MatchesWith(s, q, c)
  }

  /** The extractor returns exactly the capture of the leftmost match, and
    * nothing exactly when the pattern matches nowhere. */
  lemma ExtractLcpSpec(s: string, cap: string)
    ensures ExtractLcp(s) == Some(cap) <==> exists p: nat :: MatchesWith(s, p, cap) && NoMatchBefore(s, p)
    ensures ExtractLcp(s).None? <==> forall p: nat, c: string :: !MatchesWith(s, p, c)
  {
    forall q: nat, c: string | MatchesWith(s, q, c)
      ensures MatchAt(s, q) == Some(c)
    {
      MatchAtIff(s, q, c);
    }
    match LeftmostMatch(s, 0)
    case None =>
    case Some(p) =>
      var c := MatchAt(s, p).value;
      MatchAtIff(s, p, c);
      assert MatchesWith(s, p, c) && NoMatchBefore(s, p);
      if cap != c {
        forall p': nat | MatchesWith(s, p', cap) && NoMatchBefore(s, p')
          ensures false
        {
          if p' < p {
          } else if p < p' {
          } else {
            MatchAtIff(s, p, cap);
          }
        }
      }
  }

  /** A note that opens with the token yields that token's number text,
    * whatever follows it. */
  lemma ExtractLcpOfToken(cap: string, rest: string)
    requires IsCapture(cap)
    ensures ExtractLcp("LCP " + cap + "s" + rest) == Some(cap)
  {
    var s := "LCP " + cap + "s" + rest;
    assert s[..3] == "LCP" && s[4..4 + |cap|] == cap && s[4 + |cap|] == 's';
    assert MatchesWith(s, 0, cap);
    MatchAtIff(s, 0, cap);
  }

  // ---------------------------------------------------------------------
  // Number(capture)

  predicate AtMostOneDot(cap: string)
  {
    forall i, j :: 0 <= i < j < |cap| && cap[i] == '.' ==> cap[j] != '.'
  }

  predicate HasDigit(cap: string)
  {
    exists i :: 0 <= i < |cap| && IsDigit(cap[i])
  }

  lemma DotAt(s: string, q: nat)
    ensures OccursAt(s, ".", q) <==> q < |s| && s[q] == '.'
  {
    if q < |s| {
      assert s[q..q + 1] == [s[q]];
    }
  }

  /** No occurrence of "." before `k` means no dot character before `k`. */
  lemma NoDotBefore(s: string, k: nat)
    requires k <= |s|
    requires forall q: nat :: q < k ==> !OccursAt(s, ".", q)
    ensures forall q :: 0 <= q < k ==> s[q] != '.'
  {
    forall q | 0 <= q < k ensures s[q] != '.' {
      DotAt(s, q);
    }
  }

  /** The value JavaScript's `Number` gives a run of digits and dots, as an
    * exact real; `None` where it gives NaN (two dots, or a lone dot). */
  function ParseDecimal(cap: string): (r: Option<real>)
    requires IsCapture(cap)
    ensures r.Some? ==> r.value >= 0.0
  {
    match IndexOf(cap, ".", 0)
    case None =>
      NoDotBefore(cap, |cap|);
      Some(DigitsValue(cap) as real)
    case Some(k) =>
      NoDotBefore(cap, k);
      var whole, frac := cap[..k], cap[k + 1..];
      if '.' in frac || (whole == [] && frac == []) then None
      else Some(FixedValue(whole, frac))
  }

  /** The number written with integer digits `whole` and fraction digits `frac`. */
  function FixedValue(whole: string, frac: string): real
    requires AllDigits(whole) && AllDigits(frac)
  {
    DigitsValue(whole) as real + DigitsValue(frac) as real / Pow10(|frac|) as real
  }

  /** `Number` of a capture is a number exactly when the capture has at most
    * one dot and at least one digit. */
  lemma ParseDecimalDefined(cap: string)
    requires IsCapture(cap)
    ensures ParseDecimal(cap).Some? <==> AtMostOneDot(cap) && HasDigit(cap)
  {
    match IndexOf(cap, ".", 0)
    case None =>
      NoDotBefore(cap, |cap|);
      assert IsDigit(cap[0]);
    case Some(k) =>
      NoDotBefore(cap, k);
      DotAt(cap, k);
      var frac := cap[k + 1..];
      assert ParseDecimal(cap).Some? <==> !('.' in frac || (k == 0 && |frac| == 0));
      if '.' in frac {
        var j :| 0 <= j < |frac| && frac[j] == '.';
        assert cap[k + 1 + j] == '.';
      } else if k == 0 && |frac| == 0 {
        assert forall i :: 0 <= i < |cap| ==> cap[i] == '.';
      } else {
        if k > 0 {
          assert IsDigit(cap[0]);
        } else {
          assert cap[1] == frac[0];
        }
        forall i, j | 0 <= i < j < |cap| && cap[i] == '.'
          ensures cap[j] != '.'
        {
          assert cap[j] == frac[j - k - 1];
        }
      }
  }

  /** A capture with two dots, such as "1.2.3", is not a number. */
  lemma TwoDotsNotANumber(cap: string, i: nat, j: nat)
    requires IsCapture(cap) && i < j < |cap| && cap[i] == '.' && cap[j] == '.'
    ensures ParseDecimal(cap) == None
  {
    ParseDecimalDefined(cap);
  }

  /** Reading back an integer printed in decimal. */
  lemma ParseDecimalOfNat(n: nat)
    ensures IsCapture(NatToDecimal(n))
    ensures ParseDecimal(NatToDecimal(n)) == Some(n as real)
  {
    var ds := NatToDecimal(n);
    forall q: nat ensures !OccursAt(ds, ".", q) {
      DotAt(ds, q);
    }
    NatToDecimalRoundTrip(n);
  }

  /** "<n>.<digits>" is a capture whose number is n + 0.<digits>, exactly. */
  lemma ParseFixedCapture(n: nat, digits: string)
    requires AllDigits(digits)
    ensures IsCapture(NatToDecimal(n) + "." + digits)
    ensures ParseDecimal(NatToDecimal(n) + "." + digits)
      == Some(n as real + DigitsValue(digits) as real / Pow10(|digits|) as real)
  {
    var cap := NatToDecimal(n) + "." + digits;
    ParseDecimalOfFixed(n, digits);
    var v := FixedValue(NatToDecimal(n), digits);
    assert ParseDecimal(cap) == Some(v);
    assert v == n as real + DigitsValue(digits) as real / Pow10(|digits|) as real;
  }

  /** Reading back an integer part, a dot and a string of fraction digits. */
  lemma ParseDecimalOfFixed(n: nat, digits: string)
    requires AllDigits(digits)
    ensures IsCapture(NatToDecimal(n) + "." + digits)
    ensures ParseDecimal(NatToDecimal(n) + "." + digits) == Some(FixedValue(NatToDecimal(n), digits))
    ensures FixedValue(NatToDecimal(n), digits) == n as real + DigitsValue(digits) as real / Pow10(|digits|) as real
  {
    var whole := NatToDecimal(n);
    var cap := whole + "." + digits;
    var k := |whole|;
    assert cap[..k] == whole && cap[k + 1..] == digits && cap[k] == '.';
    forall q | 0 <= q < |cap| ensures IsRunChar(cap[q]) {
      if q < k {
        assert cap[q] == whole[q];
      } else if q > k {
        assert cap[q] == digits[q - k - 1];
      }
    }
    DotAt(cap, k);
    forall q: nat | q < k ensures !OccursAt(cap, ".", q) {
      DotAt(cap, q);
    }
    var r := IndexOf(cap, ".", 0);
    assert r.Some? by {
      assert OccursAt(cap, ".", k);
    }
    assert r.value == k;
    assert '.' !in digits by {
      forall j | 0 <= j < |digits| ensures digits[j] != '.' {
        assert IsDigit(digits[j]);
      }
    }
    NatToDecimalRoundTrip(n);
    assert ParseDecimal(cap) == Some(FixedValue(whole, digits));
    assert DigitsValue(whole) == n;
    assert FixedValue(whole, digits) == n as real + DigitsValue(digits) as real / Pow10(|digits|) as real;
  }

  // ---------------------------------------------------------------------
  // JavaScript numbers

  /** A JavaScript number as far as the scorecard needs one: a finite value or NaN. */
  datatype JsNumber = Num(value: real) | NaN

  /** `Number(capture)`. */
  function NumberOf(cap: string): (r: JsNumber)
    requires IsCapture(cap)
    ensures r.NaN? <==> ParseDecimal(cap).None?
  {
    match ParseDecimal(cap)
    case None => NaN
    case Some(v) => Num(v)
  }
}
