/** compute_anomaly and the per-cycle cache of the reference pair's returns (radar_v08/anomaly.py). */
module AnomalyCache {
  import opened Options
  import opened HistoryPairing
  import opened RobustStatistics

  const ANOMALY_MIN_SAMPLES: nat := 10
  const ANOMALY_MIN_HISTORY_MINUTES: int := 15
  const LOOKBACK_MICROS: int := 48 * 60 * MINUTE_MICROS
  const BTC_ASSET := "BTC"
  const HORIZON_MINUTES: int := 15

  datatype Snapshot = Snapshot(pair: string, ts: int, last: Option<real>, volumeToday: Option<real>, tradesToday: Option<real>)

  // The snapshot table during one cycle, by time; it does not change meanwhile.
  type Store = seq<Snapshot>

  // spot_history_by_pair: one pair's rows since a time, in order.
  function History(store: Store, pair: string, since: int): seq<Snapshot> {
    if store == [] then []
    else
      var last := store[|store| - 1];
      History(store[..|store| - 1], pair, since) + if last.pair == pair && last.ts >= since then [last] else []
  }

  // The float arithmetic of time differences and of the 15-minute tolerance.
  datatype Clock = Clock(seconds: int -> real, tolerance: Tolerance)

  ghost predicate ClockOk(c: Clock) { SlackCovers(Search([], Residuals, c.tolerance, c.seconds)) }

  datatype Query = Query(
    asset: string, pair: string, now: int, btcPair: Option<string>,
    return15: Option<real>, volume15: Option<real>, trades15: Option<real>, relative15: Option<real>)

  datatype Report = Report(
    warmup: bool, sampleCount: nat,
    priceZ: Option<real>, volumeZ: Option<real>, tradesZ: Option<real>, relativeBtcZ: Option<real>)

  datatype Column = Last | VolumeToday | TradesToday

  function Cell(s: Snapshot, c: Column): Option<real> {
    match c case Last => s.last case VolumeToday => s.volumeToday case TradesToday => s.tradesToday
  }

  function Rows(history: seq<Snapshot>, c: Column): seq<Row> {
    seq(|history|, i requires 0 <= i < |history| => Row(history[i].ts, Cell(history[i], c)))
  }

  function Values(rows: seq<Row>): seq<real> {
    if rows == [] then []
    else Values(rows[..|rows| - 1]) + if rows[|rows| - 1].value.Some? then [rows[|rows| - 1].value.value] else []
  }

  // Fewer than the minimum samples, or history too short: less than 15 minutes of microseconds.
  predicate Warmup(history: seq<Snapshot>, now: int) {
    |history| < ANOMALY_MIN_SAMPLES || now - history[0].ts < ANOMALY_MIN_HISTORY_MINUTES * MINUTE_MICROS
  }

  function SearchOf(rows: seq<Row>, series: Series, clock: Clock): Search {
    Search(rows, series, clock.tolerance, clock.seconds)
  }

  // A series by full scans.
  function SeriesOf(history: seq<Snapshot>, column: Column, series: Series, clock: Clock): seq<Row> {
    FullSeries(SearchOf(Rows(history, column), series, clock), HORIZON_MINUTES * MINUTE_MICROS, |history|)
  }

  function NeedsBtc(q: Query): bool { q.asset != BTC_ASSET && q.btcPair.Some? }

  function ResidualZ(value: Option<real>, own: seq<Row>, btc: seq<Row>, clock: Clock): Option<real> {
    RobustZ(value, Values(FullResiduals(own, SearchOf(btc, Residuals, clock), |own|)))
  }

  function AgainstBtc(store: Store, q: Query, history: seq<Snapshot>, clock: Clock): Option<real>
    requires NeedsBtc(q)
  {
    ResidualZ(q.relative15, SeriesOf(history, Last, Observations, clock),
              SeriesOf(History(store, q.btcPair.value, q.now - LOOKBACK_MICROS), Last, Observations, clock), clock)
  }

  function RelativeOf(store: Store, q: Query, history: seq<Snapshot>, clock: Clock): Option<real> {
    if NeedsBtc(q) then AgainstBtc(store, q, history, clock) else None
  }

  function OwnZ(value: Option<real>, history: seq<Snapshot>, column: Column, series: Series, clock: Clock): Option<real> {
    RobustZ(value, Values(SeriesOf(history, column, series, clock)))
  }

  function Scored(store: Store, q: Query, history: seq<Snapshot>, clock: Clock): Report {
    Report(false, |history|,
           OwnZ(q.return15, history, Last, Returns, clock),
           OwnZ(q.volume15, history, VolumeToday, Deltas, clock),
           OwnZ(q.trades15, history, TradesToday, Deltas, clock),
           RelativeOf(store, q, history, clock))
  }

  function ReportOn(store: Store, q: Query, history: seq<Snapshot>, clock: Clock): Report {
    if Warmup(history, q.now) then Report(true, |history|, None, None, None, None)
    else Scored(store, q, history, clock)
  }

  // The answer of a call that keeps no cache and searches by full scans.
  function Uncached(store: Store, q: Query, clock: Clock): Report {
    ReportOn(store, q, History(store, q.pair, q.now - LOOKBACK_MICROS), clock)
  }

  // --- what a report says -------------------------------------------------------------------

  // The pair's rows since a time, in their order, and no others.
  ghost predicate HistoryAt(store: Store, pair: string, since: int, history: seq<Snapshot>, at: seq<nat>) {
    && |at| == |history| && Rising(at, |store|)
    && (forall k :: 0 <= k < |at| ==> history[k] == store[at[k]] && IsOf(history[k], pair, since))
    && (forall i: nat :: i < |store| && IsOf(store[i], pair, since) ==> i in at)
  }

  predicate IsOf(s: Snapshot, pair: string, since: int) { s.pair == pair && s.ts >= since }

  ghost predicate HistoryOf(store: Store, pair: string, since: int, history: seq<Snapshot>) {
    exists at: seq<nat> :: HistoryAt(store, pair, since, history, at)
  }

  lemma HistorySkips(store: Store, pair: string, since: int, history: seq<Snapshot>, at: seq<nat>, s: Snapshot)
    requires HistoryAt(store, pair, since, history, at) && !IsOf(s, pair, since)
    ensures HistoryAt(store + [s], pair, since, history, at)
  {
  }

  lemma HistoryAdds(store: Store, pair: string, since: int, history: seq<Snapshot>, at: seq<nat>, s: Snapshot)
    requires HistoryAt(store, pair, since, history, at) && IsOf(s, pair, since)
    ensures HistoryAt(store + [s], pair, since, history + [s], at + [|store|])
  {
    hide IsOf;
    var all, more := store + [s], at + [|store|];
    forall i: nat | i < |all| && IsOf(all[i], pair, since) ensures i in more {
      assert more[|at|] == |store|;
      assert i < |store| ==> all[i] == store[i] && i in at;
    }
  }

  lemma {:induction false} HistoryMeans(store: Store, pair: string, since: int) returns (at: seq<nat>)
    ensures HistoryAt(store, pair, since, History(store, pair, since), at)
  {
    if store == [] {
      at := [];
    } else {
      hide HistoryAt;
      var front, last := store[..|store| - 1], store[|store| - 1];
      assert store == front + [last];
      at := HistoryMeans(front, pair, since);
      if IsOf(last, pair, since) {
        HistoryAdds(front, pair, since, History(front, pair, since), at, last);
        at := at + [|front|];
      } else {
        HistorySkips(front, pair, since, History(front, pair, since), at, last);
      }
    }
  }

  // Row by row the entries' values.
  predicate ValuesOf(rows: seq<Row>, values: seq<real>) {
    |values| == |rows| && forall k :: 0 <= k < |rows| ==> rows[k].value == Some(values[k])
  }

  lemma {:induction false} AllValues(rows: seq<Row>)
    requires forall k :: 0 <= k < |rows| ==> rows[k].value.Some?
    ensures ValuesOf(rows, Values(rows))
  {
    if rows != [] {
      AllValues(rows[..|rows| - 1]);
    }
  }

  lemma ListedHaveValues(s: Search, questions: seq<Question>, rows: seq<Row>)
    requires Listed(s, questions, rows)
    ensures forall k :: 0 <= k < |rows| ==> rows[k].value.Some?
  {
    hide Chosen;
    var at: seq<nat> :| ListedAt(s, questions, rows, at);
    forall k | 0 <= k < |rows| ensures rows[k].value.Some? {
      assert Gives(s, questions[at[k]], rows[k]);
    }
  }

  // A score against the entries of a list: none without a value or with fewer than two entries.
  ghost predicate ScoredBy(z: Option<real>, value: Option<real>, s: Search, questions: seq<Question>) {
    exists rows: seq<Row>, values: seq<real> :: ScoredOn(z, value, s, questions, rows, values)
  }

  ghost predicate ScoredOn(z: Option<real>, value: Option<real>, s: Search, questions: seq<Question>, rows: seq<Row>, values: seq<real>) {
    && Listed(s, questions, rows) && ValuesOf(rows, values)
    && (z.Some? <==> value.Some? && |values| >= 2)
    && (z.Some? ==> Scores(z.value, value.value, values))
  }

  lemma ListScored(value: Option<real>, s: Search, questions: seq<Question>, rows: seq<Row>)
    requires Listed(s, questions, rows)
    ensures ScoredBy(RobustZ(value, Values(rows)), value, s, questions)
  {
    hide Listed, Scores, RobustZ, ValuesOf;
    ListedHaveValues(s, questions, rows);
    AllValues(rows);
    ScoreMeans(value, Values(rows));
    ValuesLong(rows, Values(rows));
    assert ScoredOn(RobustZ(value, Values(rows)), value, s, questions, rows, Values(rows));
  }

  lemma ValuesLong(rows: seq<Row>, values: seq<real>)
    requires ValuesOf(rows, values)
    ensures |values| == |rows|
  {
  }

  // A score of a history's own column over 15 minutes.
  ghost predicate OwnScore(z: Option<real>, value: Option<real>, history: seq<Snapshot>, column: Column, series: Series, clock: Clock) {
    var s := SearchOf(Rows(history, column), series, clock);
    ScoredBy(z, value, s, Backwards(s, 15 * 60_000_000, |history|))
  }

  lemma OwnZMeans(value: Option<real>, history: seq<Snapshot>, column: Column, series: Series, clock: Clock)
    requires series != Residuals
    ensures OwnScore(OwnZ(value, history, column, series, clock), value, history, column, series, clock)
  {
    hide Listed, ScoredBy, FullSeries;
    var s := SearchOf(Rows(history, column), series, clock);
    FullSeriesLists(s, 15 * 60_000_000, |history|);
    ListScored(value, s, Backwards(s, 15 * 60_000_000, |history|), SeriesOf(history, column, series, clock));
  }

  // The observations of a history's prices.
  ghost predicate ObservedIn(history: seq<Snapshot>, clock: Clock, rows: seq<Row>) {
    var s := SearchOf(Rows(history, Last), Observations, clock);
    Listed(s, Backwards(s, 15 * 60_000_000, |history|), rows)
  }

  // A score of an asset's returns less those of the reference pair at the nearest times.
  ghost predicate RelativeScore(z: Option<real>, value: Option<real>, history: seq<Snapshot>, btc: seq<Snapshot>, clock: Clock) {
    exists own: seq<Row>, other: seq<Row> :: ScoredAgainst(z, value, history, btc, clock, own, other)
  }

  ghost predicate ScoredAgainst(
    z: Option<real>, value: Option<real>, history: seq<Snapshot>, btc: seq<Snapshot>, clock: Clock, own: seq<Row>, other: seq<Row>)
  {
    && ObservedIn(history, clock, own) && ObservedIn(btc, clock, other)
    && var s := SearchOf(other, Residuals, clock);
       ScoredBy(z, value, s, Across(s, own, |own|))
  }

  lemma ObservationsMean(history: seq<Snapshot>, clock: Clock)
    ensures ObservedIn(history, clock, SeriesOf(history, Last, Observations, clock))
  {
    hide Listed;
    FullSeriesLists(SearchOf(Rows(history, Last), Observations, clock), 15 * 60_000_000, |history|);
  }

  lemma ResidualZMeans(value: Option<real>, history: seq<Snapshot>, btc: seq<Snapshot>, clock: Clock)
    ensures RelativeScore(
              ResidualZ(value, SeriesOf(history, Last, Observations, clock), SeriesOf(btc, Last, Observations, clock), clock),
              value, history, btc, clock)
  {
    hide Listed, ScoredBy, ObservedIn, FullResiduals, SeriesOf;
    var own, other := SeriesOf(history, Last, Observations, clock), SeriesOf(btc, Last, Observations, clock);
    var s := SearchOf(other, Residuals, clock);
    ObservationsMean(history, clock);
    ObservationsMean(btc, clock);
    FullResidualsList(own, s, |own|);
    ListScored(value, s, Across(s, own, |own|), FullResiduals(own, s, |own|));
    assert ScoredAgainst(ResidualZ(value, own, other, clock), value, history, btc, clock, own, other);
  }

  // The report on one history; the reference pair's history matters only for other assets.
  ghost predicate ReportsOn(r: Report, q: Query, history: seq<Snapshot>, btc: Option<seq<Snapshot>>, clock: Clock) {
    && r.sampleCount == |history|
    && (r.warmup <==> |history| < 10 || q.now - history[0].ts < 15 * 60_000_000)
    && (r.warmup ==> r.priceZ.None? && r.volumeZ.None? && r.tradesZ.None? && r.relativeBtcZ.None?)
    && (!r.warmup ==>
          && OwnScore(r.priceZ, q.return15, history, Last, Returns, clock)
          && OwnScore(r.volumeZ, q.volume15, history, VolumeToday, Deltas, clock)
          && OwnScore(r.tradesZ, q.trades15, history, TradesToday, Deltas, clock)
          && match btc
             case Some(other) => RelativeScore(r.relativeBtcZ, q.relative15, history, other, clock)
             case None => r.relativeBtcZ.None?)
  }

  const TWO_DAYS: int := 172_800_000_000

  // A report is about the pair's rows of the last two days, and for another asset than the
  // reference about the reference pair's rows as well.
  ghost predicate Reports(store: Store, q: Query, clock: Clock, r: Report) {
    exists history: seq<Snapshot>, btc: Option<seq<Snapshot>> ::
      && HistoryOf(store, q.pair, q.now - TWO_DAYS, history)
      && (btc.Some? <==> q.asset != "BTC" && q.btcPair.Some?)
      && (btc.Some? ==> HistoryOf(store, q.btcPair.value, q.now - TWO_DAYS, btc.value))
      && ReportsOn(r, q, history, btc, clock)
  }

  lemma ScoredMeans(store: Store, q: Query, history: seq<Snapshot>, clock: Clock)
    requires !Warmup(history, q.now)
    ensures ReportsOn(Scored(store, q, history, clock), q, history,
                      if NeedsBtc(q) then Some(History(store, q.btcPair.value, q.now - LOOKBACK_MICROS)) else None, clock)
  {
    hide OwnScore, OwnZ, RelativeScore, ResidualZ, SeriesOf, History;
    OwnZMeans(q.return15, history, Last, Returns, clock);
    OwnZMeans(q.volume15, history, VolumeToday, Deltas, clock);
    OwnZMeans(q.trades15, history, TradesToday, Deltas, clock);
    if NeedsBtc(q) {
      ResidualZMeans(q.relative15, history, History(store, q.btcPair.value, q.now - LOOKBACK_MICROS), clock);
    }
  }

  /** What the uncached report says, from the stored rows on. */
  lemma UncachedMeans(store: Store, q: Query, clock: Clock)
    ensures Reports(store, q, clock, Uncached(store, q, clock))
  {
    hide History, HistoryAt, OwnScore, RelativeScore, Scored;
    var since := q.now - TWO_DAYS;
    var history := History(store, q.pair, since);
    var at := HistoryMeans(store, q.pair, since);
    assert HistoryOf(store, q.pair, since, history);
    var btc := if NeedsBtc(q) then Some(History(store, q.btcPair.value, since)) else None;
    if NeedsBtc(q) {
      var other := HistoryMeans(store, q.btcPair.value, since);
      assert HistoryOf(store, q.btcPair.value, since, btc.value);
    }
    if !Warmup(history, q.now) {
      ScoredMeans(store, q, history, clock);
    }
    assert ReportsOn(Uncached(store, q, clock), q, history, btc, clock);
  }

  // One entry: the observations of a pair's history and their time index.
  datatype Observed = Observed(values: seq<Row>, times: Option<seq<int>>)

  type Cache = map<(string, int), Observed>

  // The entry is what indexing the history now would give.
  predicate EntryOk(history: seq<Snapshot>, clock: Clock, o: Observed) {
    && o.values == SeriesOf(history, Last, Observations, clock)
    && o.times == if NeverGoesBack(Times(o.values)) then Some(Times(o.values)) else None
  }

  ghost predicate Faithful(store: Store, clock: Clock, cache: Cache) {
    forall key <- cache :: EntryOk(History(store, key.0, key.1), clock, cache[key])
  }

  // _indexed_observations.
  method IndexedObservations(history: seq<Snapshot>, clock: Clock) returns (o: Observed)
    requires ClockOk(clock)
    ensures EntryOk(history, clock, o)
  {
    var values := BuildSeries(SearchOf(Rows(history, Last), Observations, clock), HORIZON_MINUTES, true);
    var times := TimeIndex(values);
    o := Observed(values, times);
  }

  method ScoreSeries(value: Option<real>, history: seq<Snapshot>, column: Column, series: Series, clock: Clock)
    returns (z: Option<real>)
    requires ClockOk(clock)
    ensures z == OwnZ(value, history, column, series, clock)
  {
    var rows := BuildSeries(SearchOf(Rows(history, column), series, clock), HORIZON_MINUTES, true);
    z := RobustZ(value, Values(rows));
  }

  // The entry of a key, taken from the cache or computed and stored.
  method Lookup(store: Store, key: (string, int), clock: Clock, cache: Cache) returns (o: Observed, kept: Cache)
    requires ClockOk(clock) && Faithful(store, clock, cache)
    ensures EntryOk(History(store, key.0, key.1), clock, o)
    ensures Faithful(store, clock, kept)
    ensures key in kept && kept[key] == o && kept.Keys == cache.Keys + {key}
    ensures forall other <- cache :: kept[other] == cache[other]
  {
    kept := cache;
    if key in cache {
      o := cache[key];
    } else {
      o := IndexedObservations(History(store, key.0, key.1), clock);
      kept := cache[key := o];
    }
  }

  method ObservationsOf(history: seq<Snapshot>, clock: Clock) returns (rows: seq<Row>)
    requires ClockOk(clock)
    ensures rows == SeriesOf(history, Last, Observations, clock)
  {
    rows := BuildSeries(SearchOf(Rows(history, Last), Observations, clock), HORIZON_MINUTES, true);
  }

  method ScoreResiduals(value: Option<real>, own: seq<Row>, btc: Observed, clock: Clock) returns (z: Option<real>)
    requires ClockOk(clock)
    requires btc.times == if NeverGoesBack(Times(btc.values)) then Some(Times(btc.values)) else None
    ensures z == ResidualZ(value, own, btc.values, clock)
  {
    var residuals := RelativeResiduals(own, SearchOf(btc.values, Residuals, clock), btc.times, true);
    z := RobustZ(value, Values(residuals));
  }

  method ScoreAgainstBtc(store: Store, q: Query, history: seq<Snapshot>, clock: Clock, cache: Cache)
    returns (z: Option<real>, kept: Cache)
    requires NeedsBtc(q) && ClockOk(clock) && Faithful(store, clock, cache)
    ensures z == AgainstBtc(store, q, history, clock)
    ensures Faithful(store, clock, kept)
  {
    hide SeriesOf, ResidualZ, History, Faithful, ClockOk;
    var own := ObservationsOf(history, clock);
    var btc;
    btc, kept := Lookup(store, (q.btcPair.value, q.now - LOOKBACK_MICROS), clock, cache);
    z := ScoreResiduals(q.relative15, own, btc, clock);
  }

  /** One call: whatever a faithful cache holds, the report is the uncached one, and the cache stays faithful. */
  method ComputeAnomaly(store: Store, q: Query, clock: Clock, cache: Cache) returns (r: Report, kept: Cache)
    requires ClockOk(clock) && Faithful(store, clock, cache)
    ensures r == Uncached(store, q, clock)
    ensures Reports(store, q, clock, r)
    ensures Faithful(store, clock, kept)
  {
    hide Scored, History, Faithful, ClockOk, Reports;
    UncachedMeans(store, q, clock);
    var history := History(store, q.pair, q.now - LOOKBACK_MICROS);
    kept := cache;
    if Warmup(history, q.now) {
      r := Report(true, |history|, None, None, None, None);
    } else {
      r, kept := ScoreAll(store, q, history, clock, cache);
    }
  }

  method ScoreAll(store: Store, q: Query, history: seq<Snapshot>, clock: Clock, cache: Cache)
    returns (r: Report, kept: Cache)
    requires ClockOk(clock) && Faithful(store, clock, cache)
    ensures r == Scored(store, q, history, clock)
    ensures Faithful(store, clock, kept)
  {
    var price := ScoreSeries(q.return15, history, Last, Returns, clock);
    var volume := ScoreSeries(q.volume15, history, VolumeToday, Deltas, clock);
    var trades := ScoreSeries(q.trades15, history, TradesToday, Deltas, clock);
    var relative := None;
    kept := cache;
    if NeedsBtc(q) {
      relative, kept := ScoreAgainstBtc(store, q, history, clock, cache);
    }
    r := Report(false, |history|, price, volume, trades, relative);
  }

  predicate IsUncached(r: Report, store: Store, q: Query, clock: Clock) { r == Uncached(store, q, clock) }

  /** A cycle: any sequence of calls sharing one cache, over one store, reports what uncached calls report. */
  method Cycle(store: Store, queries: seq<Query>, clock: Clock) returns (reports: seq<Report>)
    requires ClockOk(clock)
    ensures |reports| == |queries|
    ensures forall i :: 0 <= i < |queries| ==> IsUncached(reports[i], store, queries[i], clock) && Reports(store, queries[i], clock, reports[i])
  {
    hide Uncached, ClockOk, Reports;
    var cache: Cache := map[];
    reports := [];
    for i := 0 to |queries|
      invariant |reports| == i && Faithful(store, clock, cache)
      invariant forall k :: 0 <= k < i ==> IsUncached(reports[k], store, queries[k], clock) && Reports(store, queries[k], clock, reports[k])
    {
      var r, kept := ComputeAnomaly(store, queries[i], clock, cache);
      reports, cache := reports + [r], kept;
    }
  }
}
