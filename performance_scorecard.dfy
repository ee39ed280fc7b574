/** `calculateAverages`: a map, filter and reduce over the competitor records.
  * Each record is mapped to the number in its "LCP <number>s" token or to
  * nothing, the nothings are filtered out, and the rest are averaged.
  * The pipeline appears twice: as the code computes it, with JavaScript's
  * NaN, and with its two gaps closed (explicit "no data", malformed
  * figures skipped), which is what the rest of the model relies on. */
module Scorecard {
  import opened Wrappers
  import opened Flags
  import opened Competitors
  import opened LcpMatcher
  import opened Decimal

  // ---------------------------------------------------------------------
  // The filter step, shared by both pipelines

  /** The present values of `xs`, in order (`filter(v => v !== null)`). */
  function Present<T>(xs: seq<Option<T>>): (r: seq<T>)
    ensures |r| <= |xs|
  {
    if xs == [] then []
    else Present(xs[..|xs| - 1]) + (match xs[|xs| - 1] case None => [] case Some(v) => [v])
  }

  /** Filtering keeps order and commutes with concatenation. */
  lemma {:induction false} PresentAppend<T>(a: seq<Option<T>>, b: seq<Option<T>>)
    ensures Present(a + b) == Present(a) + Present(b)
    decreases |b|
  {
    if b == [] {
      assert a + b == a;
    } else {
      assert (a + b)[..|a + b| - 1] == a + b[..|b| - 1];
      PresentAppend(a, b[..|b| - 1]);
    }
  }

  function PresentFlags<T>(xs: seq<Option<T>>): seq<bool>
  {
    seq(|xs|, i requires 0 <= i < |xs| => xs[i].Some?)
  }

  /** Exactly one value survives per present entry. */
  lemma {:induction false} PresentCount<T>(xs: seq<Option<T>>)
    ensures |Present(xs)| == CountTrue(PresentFlags(xs))
    decreases |xs|
  {
    if xs != [] {
      var init := xs[..|xs| - 1];
      PresentCount(init);
      assert PresentFlags(xs)[..|xs| - 1] == PresentFlags(init);
    }
  }

  /** Nothing survives exactly when nothing is present. */
  lemma {:induction false} PresentEmpty<T>(xs: seq<Option<T>>)
    ensures Present(xs) == [] <==> forall i :: 0 <= i < |xs| ==> xs[i].None?
    decreases |xs|
  {
    if xs != [] {
      var init := xs[..|xs| - 1];
      PresentEmpty(init);
      assert forall i :: 0 <= i < |init| ==> init[i] == xs[i];
    }
  }

  /** Every present value survives the filter. */
  lemma {:induction false} PresentKeeps<T>(xs: seq<Option<T>>, i: nat)
    requires i < |xs| && xs[i].Some?
    ensures xs[i].value in Present(xs)
    decreases |xs|
  {
    if i < |xs| - 1 {
      PresentKeeps(xs[..|xs| - 1], i);
    }
  }

  // ---------------------------------------------------------------------
  // Exact arithmetic

  /** Left-to-right sum, the order in which `reduce` adds. */
  function Sum(xs: seq<real>): real
  {
    if xs == [] then 0.0 else Sum(xs[..|xs| - 1]) + xs[|xs| - 1]
  }

  /** Arithmetic mean, with `None` where the code divides 0 by 0. */
  function Mean(xs: seq<real>): (r: Option<real>)
    ensures r.None? <==> xs == []
  {
    if xs == [] then None else Some(Sum(xs) / |xs| as real)
  }

  function Min(xs: seq<real>): (m: real)
    requires xs != []
    ensures forall i :: 0 <= i < |xs| ==> m <= xs[i]
    ensures exists i :: 0 <= i < |xs| && m == xs[i]
  {
    if |xs| == 1 then xs[0]
    else
      var rest := Min(xs[..|xs| - 1]);
      assert forall i :: 0 <= i < |xs| - 1 ==> xs[..|xs| - 1][i] == xs[i];
      if xs[|xs| - 1] < rest then xs[|xs| - 1] else rest
  }

  function Max(xs: seq<real>): (m: real)
    requires xs != []
    ensures forall i :: 0 <= i < |xs| ==> xs[i] <= m
    ensures exists i :: 0 <= i < |xs| && m == xs[i]
  {
    if |xs| == 1 then xs[0]
    else
      var rest := Max(xs[..|xs| - 1]);
      assert forall i :: 0 <= i < |xs| - 1 ==> xs[..|xs| - 1][i] == xs[i];
      if xs[|xs| - 1] > rest then xs[|xs| - 1] else rest
  }

  lemma {:induction false} SumBetween(xs: seq<real>, lo: real, hi: real)
    requires forall i :: 0 <= i < |xs| ==> lo <= xs[i] <= hi
    ensures |xs| as real * lo <= Sum(xs) <= |xs| as real * hi
    decreases |xs|
  {
    if xs != [] {
      var n := |xs| as real;
      SumBetween(xs[..|xs| - 1], lo, hi);
      assert n * lo == (n - 1.0) * lo + lo;
      assert n * hi == (n - 1.0) * hi + hi;
    }
  }

  lemma QuotientBetween(total: real, n: real, lo: real, hi: real)
    requires n > 0.0 && n * lo <= total <= n * hi
    ensures lo <= total / n <= hi
  {
    var m := total / n;
    assert m * n == total;
    assert (m - lo) * n >= 0.0;
    assert (hi - m) * n >= 0.0;
  }

  /** The mean of three values is their sum over three. */
  lemma MeanOfThree(x: real, y: real, z: real)
    ensures Mean([x, y, z]) == Some((x + y + z) / 3.0)
  {
    assert [x][..0] == [];
    assert Sum([x]) == x;
    assert [x, y][..1] == [x];
    assert Sum([x, y]) == x + y;
    assert [x, y, z][..2] == [x, y];
    assert Sum([x, y, z]) == x + y + z;
  }

  /** The mean lies between the smallest and the largest value. */
  lemma MeanBetweenMinAndMax(xs: seq<real>)
    requires xs != []
    ensures Min(xs) <= Mean(xs).value <= Max(xs)
  {
    SumBetween(xs, Min(xs), Max(xs));
    QuotientBetween(Sum(xs), |xs| as real, Min(xs), Max(xs));
  }

  // ---------------------------------------------------------------------
  // The pipeline with the gaps closed

  /** The value a record contributes: none without a match, and none when
    * the capture is not a decimal number. */
  function LcpOf(c: Competitor): Option<real>
  {
    match ExtractLcp(c.metrics.performance)
    case None => None
    case Some(cap) => ParseDecimal(cap)
  }

  /** The map step. */
  function LcpOfEach(data: seq<Competitor>): (r: seq<Option<real>>)
    ensures |r| == |data|
  {
    seq(|data|, i requires 0 <= i < |data| => LcpOf(data[i]))
  }

  function LcpValues(data: seq<Competitor>): seq<real>
  {
    Present(LcpOfEach(data))
  }

  /** The average LCP over the records that carry a readable figure, and
    * "no data" exactly when no record does. */
  function AverageLcp(data: seq<Competitor>): (r: Option<real>)
    ensures r.None? <==> forall i :: 0 <= i < |data| ==> LcpOf(data[i]).None?
  {
    PresentEmpty(LcpOfEach(data));
    assert forall i :: 0 <= i < |data| ==> LcpOfEach(data)[i] == LcpOf(data[i]);
    Mean(LcpValues(data))
  }

  /** The values extracted from `a + b` are those of `a` followed by those of `b`. */
  lemma LcpValuesAppend(a: seq<Competitor>, b: seq<Competitor>)
    ensures LcpValues(a + b) == LcpValues(a) + LcpValues(b)
  {
    assert LcpOfEach(a + b) == LcpOfEach(a) + LcpOfEach(b);
    PresentAppend(LcpOfEach(a), LcpOfEach(b));
  }

  /** A record without a readable figure changes neither the sum nor the
    * count, wherever it stands; it never counts as 0. */
  lemma SkippedRecordIsNeutral(a: seq<Competitor>, c: Competitor, b: seq<Competitor>)
    requires LcpOf(c).None?
    ensures LcpValues(a + [c] + b) == LcpValues(a + b)
    ensures AverageLcp(a + [c] + b) == AverageLcp(a + b)
  {
    assert LcpValues([c]) == [] by {
      assert LcpOfEach([c]) == [None];
      assert LcpOfEach([c])[..0] == [];
    }
    LcpValuesAppend(a + [c], b);
    LcpValuesAppend(a, [c]);
    LcpValuesAppend(a, b);
    assert LcpValues(a + [c]) == LcpValues(a);
  }

  /** A record with a figure appends exactly that figure, after those before it. */
  lemma ReadableRecordAppends(data: seq<Competitor>, c: Competitor)
    requires LcpOf(c).Some?
    ensures LcpValues(data + [c]) == LcpValues(data) + [LcpOf(c).value]
  {
    LcpValuesAppend(data, [c]);
    assert LcpOfEach([c]) == [LcpOf(c)];
    assert [LcpOf(c)][..0] == [];
  }

  /** The number of values equals the number of records that yield one. */
  lemma LcpValuesCount(data: seq<Competitor>)
    ensures |LcpValues(data)| == CountTrue(PresentFlags(LcpOfEach(data)))
  {
    PresentCount(LcpOfEach(data));
  }

  /** When there is a figure, the average lies between the smallest and the largest one. */
  lemma AverageLcpBetween(data: seq<Competitor>)
    requires AverageLcp(data).Some?
    ensures LcpValues(data) != []
    ensures Min(LcpValues(data)) <= AverageLcp(data).value <= Max(LcpValues(data))
  {
    MeanBetweenMinAndMax(LcpValues(data));
  }

  // ---------------------------------------------------------------------
  // The pipeline as written: JavaScript numbers, NaN included

  /** The map step as written: `null` without a match, otherwise
    * `Number(capture)`, which may be NaN. */
  function LcpAsWritten(c: Competitor): Option<JsNumber>
  {
    match ExtractLcp(c.metrics.performance)
    case None => None
    case Some(cap) => Some(NumberOf(cap))
  }

  function LcpAsWrittenOfEach(data: seq<Competitor>): (r: seq<Option<JsNumber>>)
    ensures |r| == |data|
  {
    seq(|data|, i requires 0 <= i < |data| => LcpAsWritten(data[i]))
  }

  /** `values.reduce((acc, v) => acc + v, 0)`: NaN absorbs everything. */
  function JsSum(xs: seq<JsNumber>): (r: JsNumber)
    ensures r.NaN? <==> exists i :: 0 <= i < |xs| && xs[i].NaN?
  {
    if xs == [] then Num(0.0)
    else
      var init := JsSum(xs[..|xs| - 1]);
      assert forall i :: 0 <= i < |xs| - 1 ==> xs[..|xs| - 1][i] == xs[i];
      match (init, xs[|xs| - 1])
      case (Num(a), Num(b)) => Num(a + b)
      case _ => NaN
  }

  /** `calculateAverages(data).lcp` as written: the sum over the count, where
    * no values at all give 0 / 0, which is NaN. */
  function AverageAsWritten(data: seq<Competitor>): JsNumber
  {
    var values := Present(LcpAsWrittenOfEach(data));
    match JsSum(values)
    case NaN => NaN
    case Num(total) => if |values| == 0 then NaN else Num(total / |values| as real)
  }

  /** As written, a single record whose capture is not a number makes the
    * whole average NaN. */
  lemma AsWrittenPoisoned(data: seq<Competitor>, i: nat)
    requires i < |data| && LcpAsWritten(data[i]) == Some(NaN)
    ensures AverageAsWritten(data) == NaN
  {
    var xs := LcpAsWrittenOfEach(data);
    PresentKeeps(xs, i);
  }

  /** A record whose capture is not a decimal number. */
  predicate HasMalformedLcp(c: Competitor)
  {
    ExtractLcp(c.metrics.performance).Some? && LcpOf(c).None?
  }

  /** For a record whose capture is not malformed, the map step as written
    * gives the corrected figure as a number, and nothing where it gives nothing. */
  lemma RecordAgrees(c: Competitor)
    requires !HasMalformedLcp(c)
    ensures LcpAsWritten(c).None? <==> LcpOf(c).None?
    ensures LcpOf(c).Some? ==> LcpAsWritten(c) == Some(Num(LcpOf(c).value))
  {
  }

  /** Two maybe-sequences that agree entry by entry, as numbers, filter to
    * sequences that agree value for value. */
  lemma {:induction false} PresentAgree(xs: seq<Option<JsNumber>>, ys: seq<Option<real>>)
    requires |xs| == |ys|
    requires forall i :: 0 <= i < |xs| ==> (xs[i].None? <==> ys[i].None?)
    requires forall i :: 0 <= i < |xs| && ys[i].Some? ==> xs[i] == Some(Num(ys[i].value))
    ensures |Present(xs)| == |Present(ys)|
    ensures forall k :: 0 <= k < |Present(ys)| ==> Present(xs)[k] == Num(Present(ys)[k])
    decreases |xs|
  {
    if xs != [] {
      var n := |xs| - 1;
      PresentAgree(xs[..n], ys[..n]);
    }
  }

  /** Where no capture is malformed, the two map steps agree value for value. */
  lemma AsWrittenValuesAgree(data: seq<Competitor>)
    requires forall i :: 0 <= i < |data| ==> !HasMalformedLcp(data[i])
    ensures |Present(LcpAsWrittenOfEach(data))| == |LcpValues(data)|
    ensures forall k :: 0 <= k < |LcpValues(data)| ==>
              Present(LcpAsWrittenOfEach(data))[k] == Num(LcpValues(data)[k])
  {
    var xs, ys := LcpAsWrittenOfEach(data), LcpOfEach(data);
    forall i | 0 <= i < |data|
      ensures xs[i].None? <==> ys[i].None?
      ensures ys[i].Some? ==> xs[i] == Some(Num(ys[i].value))
    {
      RecordAgrees(data[i]);
    }
    PresentAgree(xs, ys);
  }

  lemma {:induction false} JsSumOfNumbers(xs: seq<JsNumber>, ys: seq<real>)
    requires |xs| == |ys| && forall k :: 0 <= k < |xs| ==> xs[k] == Num(ys[k])
    ensures JsSum(xs) == Num(Sum(ys))
    decreases |xs|
  {
    if xs != [] {
      JsSumOfNumbers(xs[..|xs| - 1], ys[..|ys| - 1]);
    }
  }

  function ToJs(r: Option<real>): JsNumber
  {
    match r
    case None => NaN
    case Some(v) => Num(v)
  }

  /** Where no capture is malformed, the code as written computes the same
    * average, with NaN in place of "no data". */
  lemma AsWrittenAgreesWhenWellFormed(data: seq<Competitor>)
    requires forall i :: 0 <= i < |data| ==> !HasMalformedLcp(data[i])
    ensures AverageAsWritten(data) == ToJs(AverageLcp(data))
  {
    AsWrittenValuesAgree(data);
    JsSumOfNumbers(Present(LcpAsWrittenOfEach(data)), LcpValues(data));
  }

  /** The no-data gap: where no record carries an LCP token, the code as
    * written divides 0 by 0, while the corrected average reports no data. */
  lemma NoFigureGap(data: seq<Competitor>)
    requires forall i :: 0 <= i < |data| ==> ExtractLcp(data[i].metrics.performance).None?
    ensures AverageAsWritten(data) == NaN && AverageLcp(data) == None
  {
    assert forall i :: 0 <= i < |data| ==> !HasMalformedLcp(data[i]) && LcpOf(data[i]).None?;
    AsWrittenAgreesWhenWellFormed(data);
  }

  // ---------------------------------------------------------------------
  // Concrete inputs

  /** A note whose first token is "LCP <n>.<digits>s" yields n + 0.<digits>. */
  lemma LcpOfFixedToken(c: Competitor, n: nat, digits: string, rest: string)
    requires AllDigits(digits)
    requires c.metrics.performance == "LCP " + (NatToDecimal(n) + "." + digits) + "s" + rest
    ensures LcpOf(c) == Some(n as real + DigitsValue(digits) as real / Pow10(|digits|) as real)
  {
    ParseFixedCapture(n, digits);
    ExtractLcpOfToken(NatToDecimal(n) + "." + digits, rest);
  }

  /** A note reading "LCP <w>.<f>s", with single digits w and f, yields w + f/10. */
  lemma LcpOfDigitToken(c: Competitor, w: char, f: char)
    requires IsDigit(w) && IsDigit(f)
    requires c.metrics.performance == ['L', 'C', 'P', ' ', w, '.', f, 's']
    ensures LcpOf(c) == Some((w as int - '0' as int) as real + (f as int - '0' as int) as real / 10.0)
  {
    var n := w as int - '0' as int;
    SingleDigit(w);
    SingleDigit(f);
    assert "LCP " + ([w] + "." + [f]) + "s" + "" == c.metrics.performance;
    LcpOfFixedToken(c, n, [f], "");
    var p := Pow10(|[f]|);
    assert p == 10 by {
      assert |[f]| == 1 && Pow10(0) == 1;
    }
    assert DigitsValue([f]) as real / p as real == (f as int - '0' as int) as real / 10.0;
  }

  /** The three notes of the worked example read as 1.8, 3.1 and 2.6. */
  lemma ExampleNotesRead(a: Competitor, b: Competitor, c: Competitor)
    requires a.metrics.performance == "LCP 1.8s"
    requires b.metrics.performance == "LCP 3.1s"
    requires c.metrics.performance == "LCP 2.6s"
    ensures LcpOf(a) == Some(1.8) && LcpOf(b) == Some(3.1) && LcpOf(c) == Some(2.6)
  {
    LcpOfDigitToken(a, '1', '8');
    LcpOfDigitToken(b, '3', '1');
    LcpOfDigitToken(c, '2', '6');
  }

  /** Three records with figures x, y and z give the figures [x, y, z]. */
  lemma ThreeFigures(a: Competitor, b: Competitor, c: Competitor)
    requires LcpOf(a).Some? && LcpOf(b).Some? && LcpOf(c).Some?
    ensures LcpValues([a, b, c]) == [LcpOf(a).value, LcpOf(b).value, LcpOf(c).value]
  {
    var x, y, z := LcpOf(a).value, LcpOf(b).value, LcpOf(c).value;
    var xs := LcpOfEach([a, b, c]);
    assert xs == [Some(x), Some(y), Some(z)];
    assert xs[..0] == [] && xs[..1][..0] == [];
    assert Present(xs[..1]) == [x];
    assert xs[..2][..1] == xs[..1];
    assert Present(xs[..2]) == [x, y];
    assert xs[..3][..2] == xs[..2] && xs[..3] == xs;
  }

  /** Three records reading "LCP 1.8s", "LCP 3.1s" and "LCP 2.6s" average to exactly 2.5. */
  lemma ThreeRecordExample(a: Competitor, b: Competitor, c: Competitor)
    requires a.metrics.performance == "LCP 1.8s"
    requires b.metrics.performance == "LCP 3.1s"
    requires c.metrics.performance == "LCP 2.6s"
    ensures LcpValues([a, b, c]) == [1.8, 3.1, 2.6]
    ensures AverageLcp([a, b, c]) == Some(2.5)
  {
    ExampleNotesRead(a, b, c);
    ThreeFigures(a, b, c);
    MeanOfThree(1.8, 3.1, 2.6);
  }

  /** A note reading "LCP 1.2.3s" matches the pattern, but its capture is
    * not a number: NaN as written, skipped once corrected. */
  lemma MalformedNoteRead(c: Competitor)
    requires c.metrics.performance == "LCP 1.2.3s"
    ensures HasMalformedLcp(c)
    ensures LcpAsWritten(c) == Some(NaN) && LcpOf(c) == None
  {
    var cap := "1.2.3";
    assert IsCapture(cap);
    ExtractLcpOfToken(cap, "");
    assert "LCP " + cap + "s" + "" == c.metrics.performance;
    TwoDotsNotANumber(cap, 1, 3);
  }

  /** A record whose capture is malformed makes the average NaN as written,
    * wherever it stands. */
  lemma MalformedRecordPoisons(data: seq<Competitor>, i: nat)
    requires i < |data| && HasMalformedLcp(data[i])
    ensures AverageAsWritten(data) == NaN
  {
    var cap := ExtractLcp(data[i].metrics.performance).value;
    assert NumberOf(cap) == NaN;
    AsWrittenPoisoned(data, i);
  }

  /** Beside a record without a figure, a single readable record's figure is the average. */
  lemma SingleFigureAverage(c: Competitor, d: Competitor)
    requires LcpOf(c).None? && LcpOf(d).Some?
    ensures AverageLcp([c, d]) == Some(LcpOf(d).value)
  {
    var v := LcpOf(d).value;
    var xs := LcpOfEach([c, d]);
    assert xs == [None, Some(v)];
    assert xs[..1] == [None] && xs[..0] == [];
    assert Present(xs[..1]) == [];
    assert LcpValues([c, d]) == [v];
    assert [v][..0] == [];
    assert Sum([v]) == v;
  }

  /** A record with a malformed figure beside a readable one: as written the
    * average is NaN, corrected it is the readable record's figure. */
  lemma MalformedBesideReadable(c: Competitor, d: Competitor)
    requires HasMalformedLcp(c) && LcpOf(d).Some?
    ensures AverageAsWritten([c, d]) == NaN
    ensures AverageLcp([c, d]) == Some(LcpOf(d).value)
  {
    MalformedRecordPoisons([c, d], 0);
    SingleFigureAverage(c, d);
  }

  /** The malformed-figure gap on concrete inputs: a record reading
    * "LCP 1.2.3s" beside one reading "LCP 2.5s". */
  lemma AsWrittenGaps(c: Competitor, d: Competitor)
    requires c.metrics.performance == "LCP 1.2.3s"
    requires d.metrics.performance == "LCP 2.5s"
    ensures AverageAsWritten([c, d]) == NaN
    ensures AverageLcp([c, d]) == Some(2.5)
  {
    MalformedNoteRead(c);
    LcpOfDigitToken(d, '2', '5');
    MalformedBesideReadable(c, d);
  }
}
