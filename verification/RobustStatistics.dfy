/** Median, MAD and the robust z-score of radar_v08/anomaly.py. */
module RobustStatistics {
  import opened Numbers
  import opened Options

  const MAD_FLOOR: real := 0.000000001

  // MAD_SCALE times a deviation.
  function Scaled(x: real): real { 1.4826 * x }

  // --- sorting ---------------------------------------------------------------------

  predicate Ascending(s: seq<real>) { forall i, j :: 0 <= i < j < |s| ==> s[i] <= s[j] }

  function Insert(x: real, s: seq<real>): seq<real> {
    if s == [] then [x] else if x <= s[0] then [x] + s else [s[0]] + Insert(x, s[1..])
  }

  function Sorted(s: seq<real>): seq<real> {
    if s == [] then [] else Insert(s[0], Sorted(s[1..]))
  }

  lemma {:induction false} InsertKeepsItems(x: real, s: seq<real>)
    ensures multiset(Insert(x, s)) == multiset(s) + multiset{x} && |Insert(x, s)| == |s| + 1
  {
    if s != [] && x > s[0] {
      InsertKeepsItems(x, s[1..]);
      assert s == [s[0]] + s[1..];
    }
  }

  lemma {:induction false} InsertKeepsOrder(x: real, s: seq<real>)
    requires Ascending(s)
    ensures Ascending(Insert(x, s))
    ensures Insert(x, s) != [] && (Insert(x, s)[0] == x || (s != [] && Insert(x, s)[0] == s[0]))
  {
    if s != [] && x > s[0] {
      InsertKeepsOrder(x, s[1..]);
      var r := Insert(x, s[1..]);
      assert s[0] <= r[0];
      assert forall k :: 0 <= k < |r| ==> r[0] <= r[k];
    }
  }

  lemma {:induction false} SortedSorts(s: seq<real>)
    ensures Ascending(Sorted(s)) && multiset(Sorted(s)) == multiset(s) && |Sorted(s)| == |s|
  {
    if s != [] {
      hide Insert, Ascending;
      SortedSorts(s[1..]);
      InsertKeepsOrder(s[0], Sorted(s[1..]));
      InsertKeepsItems(s[0], Sorted(s[1..]));
      assert s == [s[0]] + s[1..];
    }
  }

  // --- median, MAD, z ------------------------------------------------------------------

  // statistics.median: the middle value, or the mean of the two middle values.
  function Median(s: seq<real>): real
    requires s != []
  {
    SortedSorts(s);
    var t := Sorted(s);
    if |s| % 2 == 1 then t[|s| / 2] else (t[|s| / 2 - 1] + t[|s| / 2]) / 2.0
  }

  function Deviations(s: seq<real>, m: real): (d: seq<real>)
    ensures |d| == |s| && forall i :: 0 <= i < |s| ==> d[i] == Abs(s[i] - m)
  {
    seq(|s|, i requires 0 <= i < |s| => Abs(s[i] - m))
  }

  function Mad(s: seq<real>): real
    requires s != []
  {
    Median(Deviations(s, Median(s)))
  }

  function ScaledMad(s: seq<real>): (r: real)
    requires s != []
    ensures r >= MAD_FLOOR
  {
    Max(Scaled(Mad(s)), MAD_FLOOR)
  }

  function RobustZ(value: Option<real>, history: seq<real>): Option<real> {
    if value.None? || |history| < 2 then None
    else Some((value.value - Median(history)) / ScaledMad(history))
  }

  // The middle of some ascending arrangement of the values, or the mean of the two middle ones.
  ghost predicate MiddleOf(m: real, s: seq<real>) {
    exists t: seq<real> :: Ascending(t) && multiset(t) == multiset(s) && IsMiddle(m, t)
  }

  predicate IsMiddle(m: real, t: seq<real>) {
    t != [] && var n := |t| / 2; if |t| % 2 == 1 then m == t[n] else 2.0 * m == t[n - 1] + t[n]
  }

  function Spread(d: real): real { if 1.4826 * d >= 0.000000001 then 1.4826 * d else 0.000000001 }

  // The value lies z scaled deviations above the middle, a deviation being the middle one, 1.4826 its scale.
  ghost predicate Scores(z: real, value: real, history: seq<real>) {
    exists m: real, d: real, distances: seq<real> :: ScoresBy(z, value, history, m, d, distances)
  }

  ghost predicate ScoresBy(z: real, value: real, history: seq<real>, m: real, d: real, distances: seq<real>) {
    && MiddleOf(m, history) && MiddleOf(d, distances) && Distances(distances, history, m) && value == m + z * Spread(d)
  }

  predicate Distances(distances: seq<real>, xs: seq<real>, m: real) {
    |distances| == |xs| && forall i :: 0 <= i < |xs| ==> IsDistance(distances[i], xs[i], m)
  }

  predicate IsDistance(d: real, x: real, m: real) { d >= 0.0 && (m + d == x || m - d == x) }

  lemma MedianIsMiddle(s: seq<real>)
    requires s != []
    ensures MiddleOf(Median(s), s)
  {
    SortedSorts(s);
    assert IsMiddle(Median(s), Sorted(s));
  }

  lemma Quotient(a: real, b: real)
    requires b > 0.0
    ensures a / b * b == a
  {
  }

  lemma DeviationsAreDistances(history: seq<real>, m: real)
    ensures Distances(Deviations(history, m), history, m)
  {
  }

  lemma ScoresFrom(value: real, history: seq<real>, m: real, d: real, distances: seq<real>)
    requires MiddleOf(m, history) && MiddleOf(d, distances) && Distances(distances, history, m) && Spread(d) > 0.0
    ensures Scores((value - m) / Spread(d), value, history)
  {
    hide MiddleOf, Distances, Spread;
    Quotient(value - m, Spread(d));
    assert ScoresBy((value - m) / Spread(d), value, history, m, d, distances);
  }

  lemma SpreadIsScaledMad(history: seq<real>)
    requires history != []
    ensures ScaledMad(history) == Spread(Mad(history)) > 0.0
  {
    hide Mad;
  }

  /** A score is present exactly for a value with at least two past ones, and then says how many scaled deviations above the middle it lies. */
  lemma ScoreMeans(value: Option<real>, history: seq<real>)
    ensures RobustZ(value, history).Some? <==> value.Some? && |history| >= 2
    ensures RobustZ(value, history).Some? ==> Scores(RobustZ(value, history).value, value.value, history)
  {
    if value.Some? && |history| >= 2 {
      ScorePresent(value.value, history);
    }
  }

  lemma ScorePresent(value: real, history: seq<real>)
    requires |history| >= 2
    ensures RobustZ(Some(value), history).Some? && Scores(RobustZ(Some(value), history).value, value, history)
  {
    hide MiddleOf, Median, Mad, Distances, ScaledMad, Spread, Scores;
    var m, d := Median(history), Mad(history);
    MedianIsMiddle(history);
    MedianIsMiddle(Deviations(history, m));
    MadIsMedian(history);
    DeviationsAreDistances(history, m);
    SpreadIsScaledMad(history);
    ScoresFrom(value, history, m, d, Deviations(history, m));
  }

  lemma MadIsMedian(history: seq<real>)
    requires history != []
    ensures Mad(history) == Median(Deviations(history, Median(history)))
  {
  }

  // --- robustness ------------------------------------------------------------------------

  // How many values lie in [lo, hi].
  function Inside(s: seq<real>, lo: real, hi: real): nat {
    if s == [] then 0 else (if lo <= s[0] <= hi then 1 else 0) + Inside(s[1..], lo, hi)
  }

  lemma {:induction false} InsideOfInsert(x: real, s: seq<real>, lo: real, hi: real)
    ensures Inside(Insert(x, s), lo, hi) == Inside(s, lo, hi) + if lo <= x <= hi then 1 else 0
  {
    if s != [] && x > s[0] {
      InsideOfInsert(x, s[1..], lo, hi);
      assert ([s[0]] + Insert(x, s[1..]))[1..] == Insert(x, s[1..]);
    } else {
      assert ([x] + s)[1..] == s;
    }
  }

  lemma {:induction false} InsideOfSorted(s: seq<real>, lo: real, hi: real)
    ensures Inside(Sorted(s), lo, hi) == Inside(s, lo, hi)
  {
    if s != [] {
      InsideOfSorted(s[1..], lo, hi);
      InsideOfInsert(s[0], Sorted(s[1..]), lo, hi);
    }
  }

  lemma InsideOfFirst(s: seq<real>, lo: real, hi: real)
    requires s != []
    ensures Inside(s, lo, hi) == Inside(s[1..], lo, hi) + if lo <= s[0] <= hi then 1 else 0
  {
  }

  lemma {:induction false} InsideSplits(s: seq<real>, k: nat, lo: real, hi: real)
    requires k <= |s|
    ensures Inside(s, lo, hi) == Inside(s[..k], lo, hi) + Inside(s[k..], lo, hi)
  {
    if k == 0 {
      assert s[..0] == [] && s[0..] == s;
    } else {
      hide Inside;
      InsideSplits(s[1..], k - 1, lo, hi);
      assert s[..k][1..] == s[1..][..k - 1];
      assert s[k..] == s[1..][k - 1..];
      InsideOfFirst(s, lo, hi);
      InsideOfFirst(s[..k], lo, hi);
    }
  }

  lemma {:induction false} InsideAtMostLength(s: seq<real>, lo: real, hi: real)
    ensures Inside(s, lo, hi) <= |s|
    ensures (forall i :: 0 <= i < |s| ==> !(lo <= s[i] <= hi)) ==> Inside(s, lo, hi) == 0
  {
    if s != [] {
      assert forall i :: 0 <= i < |s[1..]| ==> s[1..][i] == s[i + 1];
      InsideAtMostLength(s[1..], lo, hi);
    }
  }

  // More values inside than fit on either side of position m put the m-th smallest inside.
  lemma MiddleIsInside(t: seq<real>, m: nat, lo: real, hi: real)
    requires Ascending(t) && m < |t|
    requires Inside(t, lo, hi) > m && Inside(t, lo, hi) > |t| - 1 - m
    ensures lo <= t[m] <= hi
  {
    if t[m] > hi {
      InsideSplits(t, m, lo, hi);
      InsideAtMostLength(t[..m], lo, hi);
      InsideAtMostLength(t[m..], lo, hi);
    } else if t[m] < lo {
      InsideSplits(t, m + 1, lo, hi);
      InsideAtMostLength(t[..m + 1], lo, hi);
      InsideAtMostLength(t[m + 1..], lo, hi);
    }
  }

  /** A majority of values inside an interval keeps the median inside it, whatever the others are. */
  lemma MedianIsRobust(s: seq<real>, lo: real, hi: real)
    requires 2 * Inside(s, lo, hi) > |s|
    ensures s != [] && lo <= Median(s) <= hi
  {
    InsideAtMostLength(s, lo, hi);
    SortedSorts(s);
    InsideOfSorted(s, lo, hi);
    MiddleIsInside(Sorted(s), |s| / 2, lo, hi);
    if |s| % 2 == 0 {
      MiddleIsInside(Sorted(s), |s| / 2 - 1, lo, hi);
    }
  }

  lemma {:induction false} DeviationsInside(s: seq<real>, m: real, lo: real, hi: real)
    requires lo <= m <= hi
    ensures Inside(Deviations(s, m), 0.0, hi - lo) >= Inside(s, lo, hi)
  {
    if s != [] {
      DeviationsInside(s[1..], m, lo, hi);
      assert Deviations(s, m)[1..] == Deviations(s[1..], m);
    }
  }

  /** The MAD of such a history is at most the interval's length. */
  lemma MadIsRobust(s: seq<real>, lo: real, hi: real)
    requires 2 * Inside(s, lo, hi) > |s|
    ensures s != [] && 0.0 <= Mad(s) <= hi - lo
  {
    hide Sorted, Inside;
    MedianIsRobust(s, lo, hi);
    DeviationsInside(s, Median(s), lo, hi);
    MedianIsRobust(Deviations(s, Median(s)), 0.0, hi - lo);
  }

  // The distance of a value from an interval.
  function Distance(v: real, lo: real, hi: real): real
    requires lo <= hi
  {
    if v < lo then lo - v else if v > hi then v - hi else 0.0
  }

  lemma QuotientBound(a: real, b: real, c: real, d: real)
    requires 0.0 <= a <= b && 0.0 < d <= c
    ensures a / c <= b / d
  {
    assert a * d <= b * c by {
      assert a * d <= b * d;
      assert b * d <= b * c;
    }
    assert a / c == a * d / (c * d) && b / d == b * c / (c * d);
  }

  /**
   Fewer than half of the history replaced by anything at all, the rest in
   [lo, hi]: a value away from [lo, hi] still scores at least its distance over
   the interval's scaled length.
   */
  lemma OutlierStaysVisible(history: seq<real>, v: real, lo: real, hi: real)
    requires |history| >= 2 && 2 * Inside(history, lo, hi) > |history|
    ensures lo <= hi && RobustZ(Some(v), history).Some?
    ensures Abs(RobustZ(Some(v), history).value) >= Distance(v, lo, hi) / Max(Scaled(hi - lo), MAD_FLOOR)
  {
    hide Inside, Median, Mad, Distance;
    MedianIsRobust(history, lo, hi);
    MadIsRobust(history, lo, hi);
    ScoreBound(v, Median(history), ScaledMad(history), lo, hi, Max(Scaled(hi - lo), MAD_FLOOR));
  }

  lemma ScoreBound(v: real, m: real, scaled: real, lo: real, hi: real, bound: real)
    requires lo <= m <= hi && 0.0 < scaled <= bound
    ensures Abs((v - m) / scaled) >= Distance(v, lo, hi) / bound
  {
    QuotientBound(Distance(v, lo, hi), Abs(v - m), bound, scaled);
    AbsQuotient(v - m, scaled);
  }

  lemma AbsQuotient(x: real, d: real)
    requires d > 0.0
    ensures Abs(x / d) == Abs(x) / d
  {
  }
}
