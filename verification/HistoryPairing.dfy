/**
 Pairing of history rows about one horizon apart (radar_v08/anomaly.py).

 Row times are microseconds since the epoch. The source compares differences as
 rounded float seconds; `Search.seconds` is that rounding, kept abstract. The
 bisected search is proved equal to the scan over all positions for every
 rounding whose error stays below the search slack.
 */
module HistoryPairing {
  import opened Numbers
  import opened Options

  const MINUTE_MICROS: int := 60_000_000
  const SEARCH_SLACK_MICROS: int := 1_000_000

  // A snapshot's time and one of its columns, which may be null.
  datatype Row = Row(ts: int, value: Option<real>)

  // The three series built from one history, and the one that matches two.
  datatype Series = Returns | Observations | Deltas | Residuals

  // The tolerance as the float test has it, and as the bisection has it.
  datatype Tolerance = Tolerance(seconds: real, micros: int)

  datatype Search = Search(rows: seq<Row>, series: Series, tolerance: Tolerance, seconds: int -> real)

  predicate Positive(v: Option<real>) { v.Some? && v.value > 0.0 }

  // Rows a pair may end at.
  predicate Starts(series: Series, row: Row) {
    if series == Deltas then row.value.Some? else Positive(row.value)
  }

  // Rows a pair may begin at. Plain returns take any row and judge its price afterwards.
  predicate Candidate(series: Series, row: Row) {
    match series
    case Returns => true
    case Observations => Positive(row.value)
    case Deltas => row.value.Some?
    case Residuals => true
  }

  // What a matched pair contributes: a return, or a counter's growth unless it was reset.
  function Emit(series: Series, later: Row, earlier: Row): seq<Row> {
    if later.value.None? || earlier.value.None? then []
    else
      var v, e := later.value.value, earlier.value.value;
      match series
      case Deltas => if v < e then [] else [Row(later.ts, Some(v - e))]
      case Residuals => [Row(later.ts, Some(v - e))]
      case _ => if e > 0.0 then [Row(later.ts, Some((v / e - 1.0) * 100.0))] else []
  }

  // --- the full scan -------------------------------------------------------------------

  function Diff(s: Search, target: int, j: nat): real
    requires j < |s.rows|
  {
    s.seconds(AbsInt(s.rows[j].ts - target))
  }

  predicate Eligible(s: Search, target: int, j: nat)
    requires j < |s.rows|
  {
    Candidate(s.series, s.rows[j]) && Diff(s, target, j) <= s.tolerance.seconds
  }

  // The best position seen from lo up to hi: a later one replaces it only if strictly nearer.
  function Nearest(s: Search, target: int, lo: nat, hi: nat): (best: Option<nat>)
    requires lo <= hi <= |s.rows|
    ensures best.Some? ==> lo <= best.value < hi && Eligible(s, target, best.value)
    decreases hi
  {
    if lo == hi then None
    else
      var best := Nearest(s, target, lo, hi - 1);
      if Eligible(s, target, hi - 1) && (best.None? || Diff(s, target, hi - 1) < Diff(s, target, best.value))
      then Some(hi - 1)
      else best
  }

  predicate IsNearest(s: Search, target: int, lo: nat, hi: nat, b: nat)
    requires lo <= hi <= |s.rows|
  {
    && lo <= b < hi && Eligible(s, target, b)
    && (forall j :: lo <= j < hi && Eligible(s, target, j) ==> Diff(s, target, b) <= Diff(s, target, j))
    && (forall j :: lo <= j < b && Eligible(s, target, j) ==> Diff(s, target, b) < Diff(s, target, j))
  }

  /** The scan finds the nearest eligible row, the earliest among equally near ones, or none if none is eligible. */
  lemma {:induction false} NearestIsNearest(s: Search, target: int, lo: nat, hi: nat)
    requires lo <= hi <= |s.rows|
    ensures Nearest(s, target, lo, hi).None? <==> forall j :: lo <= j < hi ==> !Eligible(s, target, j)
    ensures Nearest(s, target, lo, hi).Some? ==> IsNearest(s, target, lo, hi, Nearest(s, target, lo, hi).value)
    decreases hi
  {
    if lo < hi {
      NearestIsNearest(s, target, lo, hi - 1);
    }
  }

  // Positions outside the window that cannot be eligible may be left unvisited.
  lemma NearestInWindow(s: Search, target: int, lo: nat, hi: nat, stop: nat)
    requires lo <= hi <= stop <= |s.rows|
    requires forall j :: 0 <= j < stop && !(lo <= j < hi) ==> !Eligible(s, target, j)
    ensures Nearest(s, target, lo, hi) == Nearest(s, target, 0, stop)
  {
    NearestIsNearest(s, target, lo, hi);
    NearestIsNearest(s, target, 0, stop);
  }

  // What row i contributes to the series, searching every earlier row.
  function Contribution(s: Search, horizon: int, i: nat): seq<Row>
    requires i < |s.rows|
  {
    if !Starts(s.series, s.rows[i]) then []
    else
      match Nearest(s, s.rows[i].ts - horizon, 0, i)
      case None => []
      case Some(j) => Emit(s.series, s.rows[i], s.rows[j])
  }

  // The series of the first n rows, by full scans.
  function FullSeries(s: Search, horizon: int, n: nat): seq<Row>
    requires n <= |s.rows|
  {
    if n == 0 then [] else FullSeries(s, horizon, n - 1) + Contribution(s, horizon, n - 1)
  }

  // --- float rounding and the slack -----------------------------------------------------

  // No rounded difference beyond tolerance plus slack passes the float test.
  ghost predicate SlackCovers(s: Search) {
    forall d: int :: d > s.tolerance.micros + SEARCH_SLACK_MICROS ==> s.seconds(d) > s.tolerance.seconds
  }

  // The slack is enough for every rounding that stays within half a second of the exact value.
  lemma RoundingIsCovered(s: Search)
    requires forall d: int :: d >= 0 ==> -0.5 <= s.seconds(d) - (d as real) / 1000000.0 <= 0.5
    requires -0.5 < s.tolerance.seconds - (s.tolerance.micros as real) / 1000000.0 < 0.5
    requires s.tolerance.micros >= 0
    ensures SlackCovers(s)
  {
  }

  // --- the bisected search ----------------------------------------------------------------

  predicate NeverGoesBack(times: seq<int>) { forall i, j :: 0 <= i < j < |times| ==> times[i] <= times[j] }

  function Times(rows: seq<Row>): (t: seq<int>)
    ensures |t| == |rows| && forall i :: 0 <= i < |rows| ==> t[i] == rows[i].ts
  {
    seq(|rows|, i requires 0 <= i < |rows| => rows[i].ts)
  }

  // _time_index: one pass over neighbouring times.
  method TimeIndex(rows: seq<Row>) returns (index: Option<seq<int>>)
    ensures index == if NeverGoesBack(Times(rows)) then Some(Times(rows)) else None
  {
    var times := Times(rows);
    var k := 1;
    while k < |times|
      invariant forall i, j :: 0 <= i < j < k && j < |times| ==> times[i] <= times[j]
    {
      if times[k] < times[k - 1] {
        return None;
      }
      k := k + 1;
    }
    return Some(times);
  }

  method BisectLeft(a: seq<int>, x: int, lo0: nat, hi0: nat) returns (r: nat)
    requires NeverGoesBack(a) && lo0 <= hi0 <= |a|
    ensures lo0 <= r <= hi0
    ensures forall i :: lo0 <= i < r ==> a[i] < x
    ensures forall i :: r <= i < hi0 ==> x <= a[i]
  {
    var lo, hi := lo0, hi0;
    while lo < hi
      invariant lo0 <= lo <= hi <= hi0
      invariant forall i :: lo0 <= i < lo ==> a[i] < x
      invariant forall i :: hi <= i < hi0 ==> x <= a[i]
    {
      var mid := (lo + hi) / 2;
      if a[mid] < x { lo := mid + 1; } else { hi := mid; }
    }
    r := lo;
  }

  method BisectRight(a: seq<int>, x: int, lo0: nat, hi0: nat) returns (r: nat)
    requires NeverGoesBack(a) && lo0 <= hi0 <= |a|
    ensures lo0 <= r <= hi0
    ensures forall i :: lo0 <= i < r ==> a[i] <= x
    ensures forall i :: r <= i < hi0 ==> x < a[i]
  {
    var lo, hi := lo0, hi0;
    while lo < hi
      invariant lo0 <= lo <= hi <= hi0
      invariant forall i :: lo0 <= i < lo ==> a[i] <= x
      invariant forall i :: hi <= i < hi0 ==> x < a[i]
    {
      var mid := (lo + hi) / 2;
      if x < a[mid] { hi := mid; } else { lo := mid + 1; }
    }
    r := lo;
  }

  // Positions below `stop` that may lie within `tolerance` of `target`: the ones left
  // out are further away than tolerance plus slack.
  method Nearby(index: Option<seq<int>>, target: int, tolerance: int, stop: nat) returns (lo: nat, hi: nat)
    requires index.Some? ==> NeverGoesBack(index.value) && stop <= |index.value|
    ensures lo <= hi <= stop
    ensures index.None? ==> lo == 0 && hi == stop
    ensures index.Some? ==>
              forall j :: 0 <= j < stop && !(lo <= j < hi) ==>
                            AbsInt(index.value[j] - target) > tolerance + SEARCH_SLACK_MICROS
  {
    if index.None? {
      return 0, stop;
    }
    var slack := tolerance + SEARCH_SLACK_MICROS;
    lo := BisectLeft(index.value, target - slack, 0, stop);
    hi := BisectRight(index.value, target + slack, lo, stop);
  }

  // The positions Nearby leaves out do not change what is found.
  lemma NearbyIsEnough(s: Search, index: Option<seq<int>>, target: int, lo: nat, hi: nat, stop: nat)
    requires SlackCovers(s) && lo <= hi <= stop <= |s.rows| && (index.None? ==> lo == 0 && hi == stop)
    requires index.Some? ==>
               && index.value == Times(s.rows)
               && forall j :: 0 <= j < stop && !(lo <= j < hi) ==>
                                AbsInt(index.value[j] - target) > s.tolerance.micros + SEARCH_SLACK_MICROS
    ensures Nearest(s, target, lo, hi) == Nearest(s, target, 0, stop)
  {
    NearestInWindow(s, target, lo, hi, stop);
  }

  // --- what a series holds ----------------------------------------------------------------

  // One search: the row it is for, the time wanted, and how many rows it may look at.
  datatype Question = Question(later: Row, target: int, limit: nat)

  // A positive price for returns, any cell for growth and residuals.
  predicate Asks(series: Series, later: Row) {
    later.value.Some? && (series == Returns || series == Observations ==> later.value.value > 0.0)
  }

  // Within tolerance of the time wanted; observations look at positive prices only, growth at cells.
  predicate Answers(s: Search, q: Question, j: nat) {
    && j < q.limit && j < |s.rows| && s.seconds(AbsInt(s.rows[j].ts - q.target)) <= s.tolerance.seconds
    && (s.series == Observations ==> s.rows[j].value.Some? && s.rows[j].value.value > 0.0)
    && (s.series == Deltas ==> s.rows[j].value.Some?)
  }

  // The nearest such row, the first of equally near ones.
  ghost predicate Chosen(s: Search, q: Question, j: nat) {
    && Answers(s, q, j)
    && forall k: nat :: Answers(s, q, k) ==>
         var near, far := s.seconds(AbsInt(s.rows[j].ts - q.target)), s.seconds(AbsInt(s.rows[k].ts - q.target));
         near <= far && (k < j ==> near < far)
  }

  // The entry takes the earlier value to the later one: by a percentage, by growth, or as a difference.
  predicate Relates(series: Series, entry: Row, later: Row, earlier: Row) {
    && entry.ts == later.ts && entry.value.Some? && later.value.Some? && earlier.value.Some?
    && var x, v, e := entry.value.value, later.value.value, earlier.value.value;
       match series
       case Deltas => e + x == v && x >= 0.0
       case Residuals => e + x == v
       case _ => e > 0.0 && e * (1.0 + x / 100.0) == v
  }

  // No entry: a price that is missing or not positive, a counter that was reset, a missing value.
  predicate Unrelated(series: Series, later: Row, earlier: Row) {
    match series
    case Returns => earlier.value.None? || earlier.value.value <= 0.0
    case Observations => false
    case Deltas => later.value.Some? && earlier.value.Some? && later.value.value < earlier.value.value
    case Residuals => earlier.value.None?
  }

  ghost predicate Gives(s: Search, q: Question, entry: Row) {
    Asks(s.series, q.later) && exists j: nat :: Chosen(s, q, j) && Relates(s.series, entry, q.later, s.rows[j])
  }

  ghost predicate GivesNone(s: Search, q: Question) {
    Asks(s.series, q.later) ==> forall j: nat :: Chosen(s, q, j) ==> Unrelated(s.series, q.later, s.rows[j])
  }

  predicate Rising(at: seq<nat>, n: nat) {
    (forall k :: 0 <= k < |at| ==> at[k] < n) && forall k, l :: 0 <= k < l < |at| ==> at[k] < at[l]
  }

  // The entries are those of the questions at these positions, in order, and no other question has one.
  ghost predicate ListedAt(s: Search, questions: seq<Question>, results: seq<Row>, at: seq<nat>) {
    && |at| == |results| && Rising(at, |questions|)
    && (forall k :: 0 <= k < |at| ==> Gives(s, questions[at[k]], results[k]))
    && (forall i: nat :: i < |questions| && i !in at ==> GivesNone(s, questions[i]))
  }

  ghost predicate Listed(s: Search, questions: seq<Question>, results: seq<Row>) {
    exists at: seq<nat> :: ListedAt(s, questions, results, at)
  }

  lemma Percentage(v: real, e: real)
    requires e > 0.0
    ensures e * (1.0 + ((v / e - 1.0) * 100.0) / 100.0) == v
  {
    assert 1.0 + ((v / e - 1.0) * 100.0) / 100.0 == v / e;
  }

  lemma EmitRelates(series: Series, later: Row, earlier: Row)
    requires Asks(series, later) && (series == Observations ==> Positive(earlier.value)) && (series == Deltas ==> earlier.value.Some?)
    ensures var r := Emit(series, later, earlier);
            if Unrelated(series, later, earlier) then r == [] else |r| == 1 && Relates(series, r[0], later, earlier)
  {
    if earlier.value.Some? && earlier.value.value > 0.0 {
      Percentage(later.value.value, earlier.value.value);
    }
  }

  lemma NearestIsChosen(s: Search, q: Question)
    requires q.limit <= |s.rows|
    ensures match Nearest(s, q.target, 0, q.limit)
            case None => forall j: nat :: !Answers(s, q, j)
            case Some(b) => Chosen(s, q, b) && forall j: nat :: Chosen(s, q, j) ==> j == b
  {
    NearestIsNearest(s, q.target, 0, q.limit);
    forall j: nat | j < q.limit ensures Answers(s, q, j) <==> Eligible(s, q.target, j) {
    }
  }

  // What one question contributes by a full scan.
  function Found(s: Search, q: Question): seq<Row>
    requires q.limit <= |s.rows|
  {
    match Nearest(s, q.target, 0, q.limit)
    case None => []
    case Some(j) => Emit(s.series, q.later, s.rows[j])
  }

  lemma FoundMeans(s: Search, q: Question)
    requires q.limit <= |s.rows| && Asks(s.series, q.later)
    ensures var r := Found(s, q); if r == [] then GivesNone(s, q) else |r| == 1 && Gives(s, q, r[0])
  {
    NearestIsChosen(s, q);
    hide Chosen, Emit, Relates, Unrelated, Nearest;
    match Nearest(s, q.target, 0, q.limit)
    case None =>
      assert forall j: nat :: Chosen(s, q, j) ==> Answers(s, q, j) by {
        ChosenAnswers(s, q);
      }
    case Some(b) =>
      ChosenAnswers(s, q);
      EmitRelates(s.series, q.later, s.rows[b]);
  }

  lemma ChosenAnswers(s: Search, q: Question)
    ensures forall j: nat :: Chosen(s, q, j) ==> Answers(s, q, j)
  {
  }

  // One question more, without an entry or with one.
  lemma ListsNoMore(s: Search, questions: seq<Question>, results: seq<Row>, at: seq<nat>, q: Question)
    requires ListedAt(s, questions, results, at) && GivesNone(s, q)
    ensures ListedAt(s, questions + [q], results, at)
  {
    hide Gives, GivesNone;
    var qs := questions + [q];
    forall k | 0 <= k < |at| ensures Gives(s, qs[at[k]], results[k]) {
      assert qs[at[k]] == questions[at[k]];
    }
    forall i: nat | i < |qs| && i !in at ensures GivesNone(s, qs[i]) {
      assert i < |questions| ==> qs[i] == questions[i];
    }
  }

  lemma ListsOneMore(s: Search, questions: seq<Question>, results: seq<Row>, at: seq<nat>, q: Question, e: Row)
    requires ListedAt(s, questions, results, at) && Gives(s, q, e)
    ensures ListedAt(s, questions + [q], results + [e], at + [|questions|])
  {
    hide Gives, GivesNone;
    var qs, all, more, n := questions + [q], results + [e], at + [|questions|], |questions|;
    forall k | 0 <= k < |more| ensures Gives(s, qs[more[k]], all[k]) {
      if k < |at| {
        assert more[k] == at[k] && qs[at[k]] == questions[at[k]] && all[k] == results[k];
      }
    }
    forall i: nat | i < |qs| && i !in more ensures GivesNone(s, qs[i]) {
      assert more[|at|] == n;
      assert i !in at && qs[i] == questions[i];
    }
  }

  lemma ListsMore(s: Search, questions: seq<Question>, results: seq<Row>, q: Question, r: seq<Row>)
    requires Listed(s, questions, results)
    requires if r == [] then GivesNone(s, q) else |r| == 1 && Gives(s, q, r[0])
    ensures Listed(s, questions + [q], results + r)
  {
    hide Gives, GivesNone, ListedAt;
    var at: seq<nat> :| ListedAt(s, questions, results, at);
    if r == [] {
      ListsNoMore(s, questions, results, at, q);
      assert results + r == results;
    } else {
      ListsOneMore(s, questions, results, at, q, r[0]);
      assert r == [r[0]];
    }
  }

  lemma ListsNothing(s: Search, questions: seq<Question>)
    requires |questions| == 0
    ensures Listed(s, questions, [])
  {
    assert ListedAt(s, questions, [], []);
  }

  // The questions of the first n rows of a history, one horizon back each.
  function Backwards(s: Search, horizon: int, n: nat): seq<Question>
    requires n <= |s.rows|
  {
    seq(n, i requires 0 <= i < n => Question(s.rows[i], s.rows[i].ts - horizon, i))
  }

  lemma OneMoreBack(s: Search, horizon: int, n: nat)
    requires n < |s.rows|
    ensures Backwards(s, horizon, n + 1) == Backwards(s, horizon, n) + [Question(s.rows[n], s.rows[n].ts - horizon, n)]
  {
  }

  lemma FullStep(s: Search, horizon: int, n: nat)
    requires n < |s.rows|
    ensures FullSeries(s, horizon, n + 1) == FullSeries(s, horizon, n) + Contribution(s, horizon, n)
  {
  }

  lemma {:induction false} FullSeriesLists(s: Search, horizon: int, n: nat)
    requires n <= |s.rows| && s.series != Residuals
    ensures Listed(s, Backwards(s, horizon, n), FullSeries(s, horizon, n))
  {
    hide Listed, Gives, GivesNone, Contribution;
    if n == 0 {
      ListsNothing(s, Backwards(s, horizon, 0));
    } else {
      hide Backwards, FullSeries;
      FullStep(s, horizon, n - 1);
      var q := Question(s.rows[n - 1], s.rows[n - 1].ts - horizon, n - 1);
      FullSeriesLists(s, horizon, n - 1);
      ContributionMeans(s, horizon, n - 1);
      ListsMore(s, Backwards(s, horizon, n - 1), FullSeries(s, horizon, n - 1), q, Contribution(s, horizon, n - 1));
      OneMoreBack(s, horizon, n - 1);
    }
  }

  lemma ContributionMeans(s: Search, horizon: int, i: nat)
    requires i < |s.rows| && s.series != Residuals
    ensures var q, r := Question(s.rows[i], s.rows[i].ts - horizon, i), Contribution(s, horizon, i);
            if r == [] then GivesNone(s, q) else |r| == 1 && Gives(s, q, r[0])
  {
    hide Gives, Emit, Nearest;
    if Starts(s.series, s.rows[i]) {
      FoundMeans(s, Question(s.rows[i], s.rows[i].ts - horizon, i));
    }
  }

  // The questions of a list of returns against another series.
  function Across(s: Search, asset: seq<Row>, n: nat): seq<Question>
    requires n <= |asset|
  {
    seq(n, i requires 0 <= i < n => Question(asset[i], asset[i].ts, |s.rows|))
  }

  // The inner loop of every series.
  method FindNearest(s: Search, target: int, lo: nat, hi: nat) returns (best: Option<nat>)
    requires lo <= hi <= |s.rows|
    ensures best == Nearest(s, target, lo, hi)
  {
    best := None;
    for j := lo to hi
      invariant best == Nearest(s, target, lo, j)
    {
      if Candidate(s.series, s.rows[j]) {
        var diff := Diff(s, target, j);
        if diff <= s.tolerance.seconds && (best.None? || diff < Diff(s, target, best.value)) {
          best := Some(j);
        }
      }
    }
  }

  // `usable` is false when the source gives the index up for another reason than order
  // (mixed time zones, values that are not plain numbers).
  /** historical_return_series, _historical_return_observations and historical_delta_series: exactly the full scans. */
  method BuildSeries(s: Search, horizonMinutes: int, usable: bool) returns (results: seq<Row>)
    requires SlackCovers(s)
    ensures results == FullSeries(s, horizonMinutes * MINUTE_MICROS, |s.rows|)
    ensures s.series != Residuals ==> Listed(s, Backwards(s, horizonMinutes * MINUTE_MICROS, |s.rows|), results)
  {
    hide Listed, Emit, Nearest, Starts, Eligible, Diff, Candidate, NeverGoesBack, AbsInt;
    var index := TimeIndex(s.rows);
    if !usable {
      index := None;
    }
    var horizon := horizonMinutes * MINUTE_MICROS;
    results := [];
    for i := 0 to |s.rows|
      invariant results == FullSeries(s, horizon, i)
    {
      if Starts(s.series, s.rows[i]) {
        var target := s.rows[i].ts - horizon;
        var lo, hi := Nearby(index, target, s.tolerance.micros, i);
        var best := FindNearest(s, target, lo, hi);
        NearbyIsEnough(s, index, target, lo, hi, i);
        if best.Some? {
          results := results + Emit(s.series, s.rows[i], s.rows[best.value]);
        }
      }
    }
    if s.series != Residuals {
      FullSeriesLists(s, horizon, |s.rows|);
    }
  }

  // --- matching two series ------------------------------------------------------------------

  // The residual of the first n asset returns against the other series, by full scans.
  function FullResiduals(asset: seq<Row>, s: Search, n: nat): seq<Row>
    requires n <= |asset|
  {
    if n == 0 then []
    else
      FullResiduals(asset, s, n - 1)
      + match Nearest(s, asset[n - 1].ts, 0, |s.rows|)
        case None => []
        case Some(j) => Emit(s.series, asset[n - 1], s.rows[j])
  }

  lemma OneMoreAcross(s: Search, asset: seq<Row>, n: nat)
    requires n < |asset|
    ensures Across(s, asset, n + 1) == Across(s, asset, n) + [Question(asset[n], asset[n].ts, |s.rows|)]
  {
  }

  lemma {:induction false} FullResidualsList(asset: seq<Row>, s: Search, n: nat)
    requires n <= |asset| && s.series == Residuals
    ensures Listed(s, Across(s, asset, n), FullResiduals(asset, s, n))
  {
    hide Listed, Gives, GivesNone, Nearest, Emit;
    if n == 0 {
      ListsNothing(s, Across(s, asset, 0));
    } else {
      hide Across;
      var q := Question(asset[n - 1], asset[n - 1].ts, |s.rows|);
      FullResidualsList(asset, s, n - 1);
      if Asks(s.series, q.later) {
        FoundMeans(s, q);
      } else {
        NothingAsked(s, q);
      }
      ListsMore(s, Across(s, asset, n - 1), FullResiduals(asset, s, n - 1), q, Found(s, q));
      OneMoreAcross(s, asset, n - 1);
    }
  }

  lemma NothingAsked(s: Search, q: Question)
    requires q.limit <= |s.rows| && s.series == Residuals && !Asks(s.series, q.later)
    ensures Found(s, q) == [] && GivesNone(s, q)
  {
  }

  /** _relative_residuals, given the other series' index: exactly the full scans. */
  method RelativeResiduals(asset: seq<Row>, s: Search, times: Option<seq<int>>, usable: bool) returns (results: seq<Row>)
    requires SlackCovers(s)
    requires times == if NeverGoesBack(Times(s.rows)) then Some(Times(s.rows)) else None
    ensures results == FullResiduals(asset, s, |asset|)
    ensures s.series == Residuals ==> Listed(s, Across(s, asset, |asset|), results)
  {
    hide Listed, Emit, Nearest;
    var index := if usable then times else None;
    results := [];
    for i := 0 to |asset|
      invariant results == FullResiduals(asset, s, i)
    {
      var lo, hi := Nearby(index, asset[i].ts, s.tolerance.micros, |s.rows|);
      var best := FindNearest(s, asset[i].ts, lo, hi);
      NearbyIsEnough(s, index, asset[i].ts, lo, hi, |s.rows|);
      if best.Some? {
        results := results + Emit(s.series, asset[i], s.rows[best.value]);
      }
    }
    if s.series == Residuals {
      FullResidualsList(asset, s, |asset|);
    }
  }
}
