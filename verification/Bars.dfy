/**
 Bars, average true range, gap-free runs and resampling (radar_v08/structure.py and
 _contiguous_suffix of radar_v08/l2_features.py). Times are microseconds in UTC from
 some midnight; prices and volumes are real numbers.
 */
module Bars {
  import opened Numbers
  import opened Options

  datatype Bar = Bar(time: int, open: real, high: real, low: real, close: real, vwap: real, volume: real, trades: nat)

  // --- true range and its average ----------------------------------------------------------

  function TrueRange(bar: Bar, previousClose: real): real {
    Max(bar.high - bar.low, Max(Abs(bar.high - previousClose), Abs(bar.low - previousClose)))
  }

  // One value per bar from the second on.
  function TrueRanges(bars: seq<Bar>): (trs: seq<real>)
    ensures |trs| == if bars == [] then 0 else |bars| - 1
    ensures forall i :: 0 <= i < |trs| ==> trs[i] == TrueRange(bars[i + 1], bars[i].close)
  {
    if bars == [] then []
    else seq(|bars| - 1, i requires 0 <= i < |bars| - 1 => TrueRange(bars[i + 1], bars[i].close))
  }

  function Sum(xs: seq<real>): real { if xs == [] then 0.0 else Sum(xs[..|xs| - 1]) + xs[|xs| - 1] }

  function Mean(sum: real, n: nat): real
    requires n > 0
  {
    sum / n as real
  }

  function Smoothed(average: real, x: real, period: nat): real
    requires period > 0
  {
    (average * (period as real - 1.0) + x) / period as real
  }

  // Wilder's average of all the ranges: the mean of the first `period`, smoothed over the rest.
  function Wilder(trs: seq<real>, period: nat): real
    requires 0 < period <= |trs|
  {
    if |trs| == period then Mean(Sum(trs), period)
    else Smoothed(Wilder(trs[..|trs| - 1], period), trs[|trs| - 1], period)
  }

  method SumOf(xs: seq<real>) returns (sum: real)
    ensures sum == Sum(xs)
  {
    sum := 0.0;
    for i := 0 to |xs|
      invariant sum == Sum(xs[..i])
    {
      assert xs[..i + 1][..i] == xs[..i];
      sum := sum + xs[i];
    }
    assert xs[..|xs|] == xs;
  }

  lemma WilderSteps(trs: seq<real>, period: nat, i: nat)
    requires 0 < period <= i <= |trs|
    ensures i == period ==> Wilder(trs[..i], period) == Mean(Sum(trs[..i]), period)
    ensures i < |trs| ==> Wilder(trs[..i + 1], period) == Smoothed(Wilder(trs[..i], period), trs[i], period)
  {
    if i < |trs| {
      assert trs[..i + 1][..i] == trs[..i];
    }
  }

  // What the series should be: at each bar, the average over the bars up to it.
  function Trailing(trs: seq<real>, period: nat): (s: seq<real>)
    requires period > 0
    ensures |s| == if |trs| < period then 0 else |trs| - period + 1
    ensures forall k :: 0 <= k < |s| ==> s[k] == Wilder(trs[..period + k], period)
  {
    if |trs| < period then []
    else seq(|trs| - period + 1, k requires 0 <= k < |trs| - period + 1 => Wilder(trs[..period + k], period))
  }

  // --- the average in numbers -------------------------------------------------------------------

  // The widest of the bar's own range and the way from the previous close to either end.
  predicate IsRange(x: real, bar: Bar, previousClose: real) {
    && x >= bar.high - bar.low
    && x >= bar.high - previousClose && x >= previousClose - bar.high
    && x >= bar.low - previousClose && x >= previousClose - bar.low
    && (x == bar.high - bar.low || x == bar.high - previousClose || x == previousClose - bar.high
        || x == bar.low - previousClose || x == previousClose - bar.low)
  }

  /** For a bar whose low is not above its high: how far the bar and the previous close reach together. */
  lemma TrueRangeSpans(bar: Bar, previousClose: real)
    requires bar.low <= bar.high
    ensures TrueRange(bar, previousClose) == Max(bar.high, previousClose) - Min(bar.low, previousClose)
  {
  }

  // One range per bar after the first.
  predicate RangesOf(ranges: seq<real>, bars: seq<Bar>) {
    && |ranges| + 1 == |bars|
    && forall i :: 0 <= i < |ranges| ==> IsRange(ranges[i], bars[i + 1], bars[i].close)
  }

  // Wilder's smoothing without dividing: the first value is the mean of the first ranges, and
  // each next one keeps all but one part of the value before and takes one of the next range.
  predicate Averages(out: seq<real>, ranges: seq<real>, period: nat)
    requires period > 0
  {
    && |ranges| >= period && |out| == |ranges| - period + 1
    && out[0] * (period as real) == Sum(ranges[..period])
    && forall k :: 0 <= k < |out| - 1 ==> out[k + 1] * (period as real) == out[k] * (period as real - 1.0) + ranges[period + k]
  }

  // The average over all of the bars' ranges, one value per bar from the first that can have one.
  ghost predicate AtrOf(out: seq<real>, bars: seq<Bar>, period: nat)
    requires period > 0
  {
    exists ranges: seq<real> :: RangesOf(ranges, bars) && Averages(out, ranges, period)
  }

  lemma RangesAreRanges(bars: seq<Bar>)
    requires bars != []
    ensures RangesOf(TrueRanges(bars), bars)
  {
    forall i | 0 <= i < |bars| - 1 ensures IsRange(TrueRange(bars[i + 1], bars[i].close), bars[i + 1], bars[i].close) {
    }
  }

  lemma Undivided(x: real, n: nat)
    requires n > 0
    ensures x / (n as real) * (n as real) == x
  {
  }

  lemma TrailingAverages(trs: seq<real>, period: nat)
    requires 0 < period <= |trs|
    ensures Averages(Trailing(trs, period), trs, period)
  {
    hide Wilder, Sum;
    var out := Trailing(trs, period);
    WilderSteps(trs, period, period);
    Undivided(Sum(trs[..period]), period);
    forall k | 0 <= k < |out| - 1 ensures out[k + 1] * (period as real) == out[k] * (period as real - 1.0) + trs[period + k] {
      WilderSteps(trs, period, period + k);
      Undivided(out[k] * (period as real - 1.0) + trs[period + k], period);
    }
  }

  /** The series is Wilder's average of the bars' true ranges, and the single average its last value. */
  lemma TrailingIsAtr(bars: seq<Bar>, period: nat)
    requires 0 < period < |bars|
    ensures AtrOf(Trailing(TrueRanges(bars), period), bars, period)
    ensures var out := Trailing(TrueRanges(bars), period); out[|out| - 1] == Wilder(TrueRanges(bars), period)
  {
    hide Averages, RangesOf, Wilder;
    var trs := TrueRanges(bars);
    RangesAreRanges(bars);
    TrailingAverages(trs, period);
    assert trs[..period + (|trs| - period)] == trs;
  }

  method WilderAtr(bars: seq<Bar>, period: nat) returns (atr: Option<real>)
    requires period > 0
    ensures atr == if |TrueRanges(bars)| < period then None else Some(Wilder(TrueRanges(bars), period))
    ensures if |bars| <= period then atr == None
            else atr.Some? && exists out: seq<real> :: out != [] && AtrOf(out, bars, period) && out[|out| - 1] == atr.value
  {
    hide Wilder, Smoothed, Mean, TrueRange, TrueRanges, Sum, AtrOf;
    var trs := TrueRanges(bars);
    if |trs| < period {
      return None;
    }
    WilderSteps(trs, period, period);
    var sum := SumOf(trs[..period]);
    var value := Mean(sum, period);
    for i := period to |trs|
      invariant value == Wilder(trs[..i], period)
    {
      WilderSteps(trs, period, i);
      value := Smoothed(value, trs[i], period);
    }
    assert trs[..|trs|] == trs;
    TrailingIsAtr(bars, period);
    return Some(value);
  }

  method AtrSeries(bars: seq<Bar>, period: nat) returns (out: seq<real>)
    requires period > 0
    ensures out == Trailing(TrueRanges(bars), period)
    ensures if |bars| <= period then out == [] else AtrOf(out, bars, period)
  {
    hide Wilder, Smoothed, Mean, TrueRange, TrueRanges, Sum, AtrOf;
    var trs := TrueRanges(bars);
    if |trs| < period {
      return [];
    }
    WilderSteps(trs, period, period);
    var sum := SumOf(trs[..period]);
    var atr := Mean(sum, period);
    out := [atr];
    for i := period to |trs|
      invariant |out| == i - period + 1 && atr == Wilder(trs[..i], period)
      invariant forall k :: 0 <= k < |out| ==> out[k] == Wilder(trs[..period + k], period)
    {
      WilderSteps(trs, period, i);
      atr := Smoothed(atr, trs[i], period);
      out := out + [atr];
    }
    TrailingIsAtr(bars, period);
  }

  lemma PrefixRanges(bars: seq<Bar>, n: nat)
    requires 0 < n <= |bars|
    ensures TrueRanges(bars[..n]) == TrueRanges(bars)[..n - 1]
  {
  }

  /** No look-ahead: value k of the series is the average of the first period + 1 + k bars alone. */
  lemma SeriesHasNoLookAhead(bars: seq<Bar>, period: nat, k: nat)
    requires period > 0 && k < |Trailing(TrueRanges(bars), period)|
    ensures var first := TrueRanges(bars[..period + 1 + k]);
            |first| == period + k && Trailing(TrueRanges(bars), period)[k] == Wilder(first, period)
  {
    hide Wilder, TrueRange;
    PrefixRanges(bars, period + 1 + k);
    assert TrueRanges(bars)[..period + 1 + k - 1] == TrueRanges(bars)[..period + k];
  }

  /** Bars that arrive later change no earlier value. */
  lemma SeriesIsStable(bars: seq<Bar>, more: seq<Bar>, period: nat)
    requires period > 0
    ensures Trailing(TrueRanges(bars), period) <= Trailing(TrueRanges(bars + more), period)
  {
    if bars != [] {
      var before, after := TrueRanges(bars), TrueRanges(bars + more);
      assert before == after[..|before|];
      forall k | 0 <= k < |Trailing(before, period)| ensures Trailing(before, period)[k] == Trailing(after, period)[k] {
        assert before[..period + k] == after[..period + k];
      }
    }
  }

  predicate AllWithin(xs: seq<real>, lo: real, hi: real) { forall i :: 0 <= i < |xs| ==> lo <= xs[i] <= hi }

  lemma {:induction false} SumWithin(xs: seq<real>, lo: real, hi: real)
    requires AllWithin(xs, lo, hi)
    ensures lo * |xs| as real <= Sum(xs) <= hi * |xs| as real
  {
    if xs != [] {
      SumWithin(xs[..|xs| - 1], lo, hi);
      assert lo <= xs[|xs| - 1] <= hi;
    }
  }

  lemma MeanWithin(sum: real, n: real, lo: real, hi: real)
    requires n > 0.0 && lo * n <= sum <= hi * n
    ensures lo <= sum / n <= hi
  {
    assert sum / n * n == sum;
    if sum / n < lo {
      Shrinks(sum / n, lo, n);
    }
    if hi < sum / n {
      Shrinks(hi, sum / n, n);
    }
  }

  lemma Shrinks(a: real, b: real, k: real)
    requires a < b && k > 0.0
    ensures a * k < b * k
  {
  }

  lemma SmoothedWithin(average: real, x: real, period: nat, lo: real, hi: real)
    requires period > 0 && lo <= average <= hi && lo <= x <= hi
    ensures lo <= Smoothed(average, x, period) <= hi
  {
    var p := period as real;
    Grows(lo, average, p - 1.0);
    Grows(average, hi, p - 1.0);
    MeanWithin(average * (p - 1.0) + x, p, lo, hi);
  }

  lemma Grows(a: real, b: real, k: real)
    requires a <= b && k >= 0.0
    ensures a * k <= b * k
  {
  }

  /** The average lies between the smallest and the largest true range it saw. */
  lemma {:induction false} WilderIsWithin(trs: seq<real>, period: nat, lo: real, hi: real)
    requires 0 < period <= |trs| && AllWithin(trs, lo, hi)
    ensures lo <= Wilder(trs, period) <= hi
  {
    if |trs| == period {
      SumWithin(trs, lo, hi);
      MeanWithin(Sum(trs), period as real, lo, hi);
    } else {
      WilderIsWithin(trs[..|trs| - 1], period, lo, hi);
      SmoothedWithin(Wilder(trs[..|trs| - 1], period), trs[|trs| - 1], period, lo, hi);
    }
  }

  // --- gap-free runs ------------------------------------------------------------------------------

  predicate GapFree(bars: seq<Bar>, interval: int) {
    forall i :: 0 <= i < |bars| - 1 ==> bars[i + 1].time - bars[i].time == interval
  }

  function Last(bars: seq<Bar>, k: nat): seq<Bar>
    requires k <= |bars|
  {
    bars[|bars| - k..]
  }

  // contiguous_tail; a slice of the last 0 bars is the whole list.
  function ContiguousTail(bars: seq<Bar>, count: nat, interval: int): seq<Bar> {
    if |bars| < count then []
    else
      var window := if count == 0 then bars else Last(bars, count);
      if GapFree(window, interval) then window else []
  }

  // _contiguous_suffix: the longest gap-free suffix.
  method ContiguousSuffix(bars: seq<Bar>, interval: int) returns (tail: seq<Bar>)
    ensures |tail| <= |bars| && tail == Last(bars, |tail|) && GapFree(tail, interval)
    ensures forall k: nat :: k <= |bars| ==> (GapFree(Last(bars, k), interval) <==> k <= |tail|)
    ensures bars != [] ==> tail != []
  {
    var count := |bars|;
    while count > 0
      invariant count <= |bars|
      invariant forall k: nat :: count < k <= |bars| ==> !GapFree(Last(bars, k), interval)
      invariant bars != [] ==> count >= 1
    {
      tail := ContiguousTail(bars, count, interval);
      if tail != [] {
        AllShorterAreGapFree(bars, count, interval);
        return;
      }
      count := count - 1;
    }
    return [];
  }

  lemma AllShorterAreGapFree(bars: seq<Bar>, n: nat, interval: int)
    requires n <= |bars| && GapFree(Last(bars, n), interval)
    ensures forall k: nat :: k <= n ==> GapFree(Last(bars, k), interval)
  {
    forall k: nat | k <= n ensures GapFree(Last(bars, k), interval) {
      ShorterIsGapFree(bars, k, n, interval);
    }
  }

  /** A suffix of a gap-free run is gap-free: why counting down finds the longest first. */
  lemma ShorterIsGapFree(bars: seq<Bar>, m: nat, n: nat, interval: int)
    requires m <= n <= |bars| && GapFree(Last(bars, n), interval)
    ensures GapFree(Last(bars, m), interval)
  {
    var long, short := Last(bars, n), Last(bars, m);
    forall i | 0 <= i < |short| - 1 ensures short[i + 1].time - short[i].time == interval {
      assert short[i] == long[i + n - m] && short[i + 1] == long[i + 1 + n - m];
    }
  }
}
