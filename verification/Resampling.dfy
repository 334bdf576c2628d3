/**
 Merging runs of five-minute bars into coarser ones (radar_v08/structure.py,
 resample_bars): a greedy scan for groups that start on a multiple of the group's
 length within the hour and have no gap.
 */
module Resampling {
  import opened Numbers
  import opened Bars

  // config.OHLC_INTERVAL_MINUTES is 5.
  const INTERVAL: int := 300_000_000

  function MinuteOfHour(time: int): int { (time / 60_000_000) % 60 }

  predicate Aligned(time: int, g: nat)
    requires g > 0
  {
    MinuteOfHour(time) % (5 * g) == 0 && time % 60_000_000 == 0
  }

  // The g bars from position i are a whole group.
  predicate Complete(bars: seq<Bar>, g: nat, i: nat)
    requires g > 0
  {
    i + g <= |bars| && Aligned(bars[i].time, g) && GapFree(bars[i..i + g], INTERVAL)
  }

  // --- the scan ------------------------------------------------------------------------------

  // Where the greedy scan emits, from position i on: past a group it skips the whole group.
  function Greedy(bars: seq<Bar>, g: nat, i: nat): seq<nat>
    requires g > 0
    decreases |bars| - i
  {
    if i + g > |bars| then []
    else if Complete(bars, g, i) then [i] + Greedy(bars, g, i + g)
    else Greedy(bars, g, i + 1)
  }

  // All whole groups from position i on.
  function Whole(bars: seq<Bar>, g: nat, i: nat): seq<nat>
    requires g > 0
    decreases |bars| - i
  {
    if i + g > |bars| then []
    else (if Complete(bars, g, i) then [i] else []) + Whole(bars, g, i + 1)
  }

  // --- merging ----------------------------------------------------------------------------------

  function Highest(bars: seq<Bar>): (h: real)
    requires bars != []
    ensures (exists i :: 0 <= i < |bars| && bars[i].high == h) && forall i :: 0 <= i < |bars| ==> bars[i].high <= h
  {
    if |bars| == 1 then bars[0].high else Max(Highest(bars[..|bars| - 1]), bars[|bars| - 1].high)
  }

  function Lowest(bars: seq<Bar>): (l: real)
    requires bars != []
    ensures (exists i :: 0 <= i < |bars| && bars[i].low == l) && forall i :: 0 <= i < |bars| ==> bars[i].low >= l
  {
    if |bars| == 1 then bars[0].low else Min(Lowest(bars[..|bars| - 1]), bars[|bars| - 1].low)
  }

  function Volume(bars: seq<Bar>): real { if bars == [] then 0.0 else Volume(bars[..|bars| - 1]) + bars[|bars| - 1].volume }

  function Trades(bars: seq<Bar>): nat { if bars == [] then 0 else Trades(bars[..|bars| - 1]) + bars[|bars| - 1].trades }

  function Turnover(bars: seq<Bar>): real {
    if bars == [] then 0.0
    else Turnover(bars[..|bars| - 1]) + bars[|bars| - 1].vwap * bars[|bars| - 1].volume
  }

  function Merge(group: seq<Bar>): Bar
    requires group != []
  {
    Bar(group[0].time, group[0].open, Highest(group), Lowest(group), group[|group| - 1].close,
        Turnover(group) / Max(Volume(group), 0.000000000001), Volume(group), Trades(group))
  }

  predicate Inside(bars: seq<Bar>, g: nat, starts: seq<nat>) { forall i :: 0 <= i < |starts| ==> starts[i] + g <= |bars| }

  function MergeAll(bars: seq<Bar>, g: nat, starts: seq<nat>): seq<Bar>
    requires g > 0 && Inside(bars, g, starts)
  {
    if starts == [] then []
    else
      var s := starts[|starts| - 1];
      MergeAll(bars, g, starts[..|starts| - 1]) + [Merge(bars[s..s + g])]
  }

  // A merged bar in terms of its group: the first time and open, the last close, the extremes
  // and the sums; its vwap weighs the group's by volume, where there is any.
  predicate MergedFrom(bar: Bar, group: seq<Bar>) {
    var n := |group|;
    && n > 0 && bar.time == group[0].time && bar.open == group[0].open && bar.close == group[n - 1].close
    && (forall i :: 0 <= i < n ==> bar.low <= group[i].low && group[i].high <= bar.high)
    && (exists i :: 0 <= i < n && group[i].high == bar.high) && (exists i :: 0 <= i < n && group[i].low == bar.low)
    && bar.volume == Sum(seq(n, i requires 0 <= i < n => group[i].volume))
    && bar.vwap * Max(bar.volume, 0.000000000001) == Sum(seq(n, i requires 0 <= i < n => group[i].vwap * group[i].volume))
  }

  lemma {:induction false} SumsOf(group: seq<Bar>, n: nat)
    requires n <= |group|
    ensures Volume(group[..n]) == Sum(seq(n, i requires 0 <= i < n => group[i].volume))
    ensures Turnover(group[..n]) == Sum(seq(n, i requires 0 <= i < n => group[i].vwap * group[i].volume))
  {
    var volumes := seq(n, i requires 0 <= i < n => group[i].volume);
    var turnovers := seq(n, i requires 0 <= i < n => group[i].vwap * group[i].volume);
    if n > 0 {
      SumsOf(group, n - 1);
      assert group[..n][..n - 1] == group[..n - 1];
      assert volumes[..n - 1] == seq(n - 1, i requires 0 <= i < n - 1 => group[i].volume);
      assert turnovers[..n - 1] == seq(n - 1, i requires 0 <= i < n - 1 => group[i].vwap * group[i].volume);
    }
  }

  lemma Weighted(x: real, v: real)
    requires v > 0.0
    ensures x / v * v == x
  {
  }

  /** Merging keeps of a group what the merged bar is said to be. */
  lemma MergeMeans(group: seq<Bar>)
    requires group != []
    ensures MergedFrom(Merge(group), group)
  {
    hide Volume, Turnover;
    SumsOf(group, |group|);
    assert group[..|group|] == group;
    Weighted(Turnover(group), Max(Volume(group), 0.000000000001));
  }

  lemma {:induction false} AllMerged(bars: seq<Bar>, g: nat, starts: seq<nat>)
    requires g > 0 && Inside(bars, g, starts)
    ensures var out := MergeAll(bars, g, starts);
            |out| == |starts| && forall k :: 0 <= k < |out| ==> MergedFrom(out[k], bars[starts[k]..starts[k] + g])
  {
    hide Merge, MergedFrom;
    if starts != [] {
      var n := |starts| - 1;
      AllMerged(bars, g, starts[..n]);
      MergeMeans(bars[starts[n]..starts[n] + g]);
    }
  }

  lemma {:induction false} GreedyIsComplete(bars: seq<Bar>, g: nat, i: nat)
    requires g > 0
    ensures forall k :: 0 <= k < |Greedy(bars, g, i)| ==> Complete(bars, g, Greedy(bars, g, i)[k])
    decreases |bars| - i
  {
    if i + g <= |bars| {
      GreedyIsComplete(bars, g, if Complete(bars, g, i) then i + g else i + 1);
    }
  }

  // --- exactness -----------------------------------------------------------------------------------

  // Bars of a gap-free group are this far apart.
  lemma {:induction false} Spaced(bars: seq<Bar>, g: nat, i: nat, k: nat)
    requires g > 0 && i + g <= |bars| && GapFree(bars[i..i + g], INTERVAL) && k < g
    ensures bars[i + k].time == bars[i].time + 300_000_000 * k
  {
    if k > 0 {
      var group := bars[i..i + g];
      Spaced(bars, g, i, k - 1);
      assert group[k].time - group[k - 1].time == INTERVAL;
    }
  }

  // The minutes of a group divide the hour.
  predicate DividesTheHour(g: nat)
    requires g > 0
  {
    60 % (5 * g) == 0
  }

  lemma LongGroups(g: nat)
    ensures g > 12 ==> 60 % (5 * g) == 60
  {
    if g > 12 {
      UniqueRemainder(60, 5 * g, 0, 60);
    }
  }

  lemma Divisors(g: nat)
    requires g > 0 && DividesTheHour(g)
    ensures g in {1, 2, 3, 4, 6, 12}
  {
    LongGroups(g);
  }

  // Two minutes that start a group are a whole number of groups apart.
  lemma StartsApart(a: int, k: nat, g: nat)
    requires g in {1, 2, 3, 4, 6, 12}
    requires (a % 60) % (5 * g) == 0 && ((a + 5 * k) % 60) % (5 * g) == 0 && 0 < k
    ensures k >= g
  {
    if g == 1 {
    } else if g == 2 {
    } else if g == 3 {
    } else if g == 4 {
    } else if g == 6 {
    }
  }

  lemma WholeMinutes(time: int, k: nat)
    requires time % 60_000_000 == 0
    ensures (time + 300_000_000 * k) / 60_000_000 == time / 60_000_000 + 5 * k
  {
    assert time == 60_000_000 * (time / 60_000_000);
  }

  lemma WholeGroupsAreDisjoint(bars: seq<Bar>, g: nat, i: nat, j: nat)
    requires g > 0 && DividesTheHour(g) && Complete(bars, g, i) && Complete(bars, g, j) && i < j
    ensures i + g <= j
  {
    if j < i + g {
      var k := j - i;
      Divisors(g);
      Spaced(bars, g, i, k);
      WholeMinutes(bars[i].time, k);
      StartsApart(bars[i].time / 60_000_000, k, g);
    }
  }

  // Whole finds every whole group.
  lemma {:induction false} WholeIsAll(bars: seq<Bar>, g: nat, i: nat, j: nat)
    requires g > 0
    ensures j in Whole(bars, g, i) <==> i <= j && Complete(bars, g, j)
    decreases |bars| - i
  {
    hide Whole, Greedy;
    ScanStep(bars, g, i);
    if i + g <= |bars| {
      hide Complete;
      WholeIsAll(bars, g, i + 1, j);
    } else {
      assert j >= i ==> !Complete(bars, g, j);
    }
  }

  lemma {:induction false} NoneBetween(bars: seq<Bar>, g: nat, i: nat, j: nat)
    requires g > 0 && i <= j && forall k: nat :: i <= k < j ==> !Complete(bars, g, k)
    ensures Whole(bars, g, i) == Whole(bars, g, j)
    decreases j - i
  {
    if i < j {
      hide Complete;
      NoneBetween(bars, g, i + 1, j);
    }
  }

  lemma NoneInside(bars: seq<Bar>, g: nat, i: nat)
    requires g > 0 && DividesTheHour(g) && Complete(bars, g, i)
    ensures Whole(bars, g, i + 1) == Whole(bars, g, i + g)
  {
    hide Complete, DividesTheHour, Whole;
    forall k: nat | i + 1 <= k < i + g ensures !Complete(bars, g, k) {
      if Complete(bars, g, k) {
        WholeGroupsAreDisjoint(bars, g, i, k);
      }
    }
    NoneBetween(bars, g, i + 1, i + g);
  }

  /** When a group's length divides the hour, the greedy scan emits every whole group, for any bars. */
  lemma {:induction false} GreedyIsExact(bars: seq<Bar>, g: nat, i: nat)
    requires g > 0 && DividesTheHour(g)
    ensures Greedy(bars, g, i) == Whole(bars, g, i)
    decreases |bars| - i
  {
    hide Complete, DividesTheHour, Greedy, Whole;
    ScanStep(bars, g, i);
    if i + g <= |bars| {
      if Complete(bars, g, i) {
        GreedyIsExact(bars, g, i + g);
        NoneInside(bars, g, i);
      } else {
        GreedyIsExact(bars, g, i + 1);
      }
    }
  }

  // One step of either scan.
  lemma ScanStep(bars: seq<Bar>, g: nat, i: nat)
    requires g > 0
    ensures i + g > |bars| ==> Greedy(bars, g, i) == Whole(bars, g, i) == []
    ensures i + g <= |bars| && Complete(bars, g, i) ==>
              Greedy(bars, g, i) == [i] + Greedy(bars, g, i + g) && Whole(bars, g, i) == [i] + Whole(bars, g, i + 1)
    ensures i + g <= |bars| && !Complete(bars, g, i) ==>
              Greedy(bars, g, i) == Greedy(bars, g, i + 1) && Whole(bars, g, i) == Whole(bars, g, i + 1)
  {
    hide Complete;
  }

  lemma NothingMerged(bars: seq<Bar>, g: nat)
    requires g > 0
    ensures MergeAll(bars, g, []) == []
  {
  }

  lemma MergesOneMore(bars: seq<Bar>, g: nat, starts: seq<nat>, i: nat)
    requires g > 0 && Inside(bars, g, starts) && i + g <= |bars|
    ensures Inside(bars, g, starts + [i])
    ensures MergeAll(bars, g, starts + [i]) == MergeAll(bars, g, starts) + [Merge(bars[i..i + g])]
  {
    hide Merge;
    assert (starts + [i])[..|starts|] == starts;
  }

  // resample_bars.
  method ResampleBars(bars: seq<Bar>, g: nat) returns (out: seq<Bar>)
    requires g > 0
    ensures Inside(bars, g, Greedy(bars, g, 0))
    ensures out == MergeAll(bars, g, Greedy(bars, g, 0))
    ensures var starts := Greedy(bars, g, 0);
            |out| == |starts| && forall k :: 0 <= k < |out| ==> MergedFrom(out[k], bars[starts[k]..starts[k] + g])
  {
    hide Complete, Merge, MergedFrom, Greedy, MergeAll;
    NothingMerged(bars, g);
    out := [];
    var i: nat := 0;
    ghost var starts := [];
    while i + g <= |bars|
      invariant Greedy(bars, g, 0) == starts + Greedy(bars, g, i)
      invariant Inside(bars, g, starts)
      invariant out == MergeAll(bars, g, starts)
      decreases |bars| - i
    {
      ScanStep(bars, g, i);
      if Complete(bars, g, i) {
        MergesOneMore(bars, g, starts, i);
        out := out + [Merge(bars[i..i + g])];
        starts := starts + [i];
        i := i + g;
      } else {
        i := i + 1;
      }
    }
    ScanStep(bars, g, i);
    assert Greedy(bars, g, 0) == starts;
    AllMerged(bars, g, starts);
  }

  lemma {:induction false} GreedyStartsLater(bars: seq<Bar>, g: nat, i: nat, j: nat)
    requires g > 0 && j in Greedy(bars, g, i)
    ensures j >= i
    decreases |bars| - i
  {
    hide Complete;
    if Complete(bars, g, i) {
      if j != i {
        GreedyStartsLater(bars, g, i + g, j);
      }
    } else {
      GreedyStartsLater(bars, g, i + 1, j);
    }
  }

  predicate Increasing(bars: seq<Bar>) { forall i :: 0 <= i < |bars| - 1 ==> bars[i].time < bars[i + 1].time }

  // Gap-free bars from a minute of the first hour on.
  function Consecutive(minute: nat, n: nat): (bars: seq<Bar>)
    ensures |bars| == n && forall i :: 0 <= i < n ==> bars[i].time == (minute + 5 * i) * 60_000_000
  {
    seq(n, i requires 0 <= i < n => Bar((minute + 5 * i) * 60_000_000, 1.0, 1.0, 1.0, 1.0, 1.0, 1.0, 1))
  }

  // The last start of the hour, and how many bars it is before the next hour: fewer than a group.
  lemma LastStart(g: nat) returns (minute: nat, k: nat)
    requires g > 0 && !DividesTheHour(g)
    ensures 0 < k < g && minute + 5 * k == 60
    ensures (minute % 60) % (5 * g) == 0 && ((minute + 5 * k) % 60) % (5 * g) == 0
  {
    var q := 60 / (5 * g);
    var p := g * q;
    Quotient(5 * g);
    assert (5 * g) * q == 5 * p;
    minute, k := 5 * p, 12 - p;
    UniqueRemainder(5 * p, 5 * g, q, 0);
    UniqueRemainder(0, 5 * g, 0, 0);
    assert minute % 60 == minute && (minute + 5 * k) % 60 == 0;
  }

  lemma Quotient(m: nat)
    requires m > 0
    ensures 60 == m * (60 / m) + 60 % m && 0 <= 60 % m < m && 60 / m >= 0 && m * (60 / m) >= 0
  {
  }

  lemma Multiples(m: int, d: int)
    requires m > 0
    ensures (d >= 1 ==> m * d >= m) && (d <= -1 ==> m * d <= -m)
  {
  }

  lemma UniqueRemainder(x: int, m: int, q: int, r: int)
    requires m > 0 && x == m * q + r && 0 <= r < m
    ensures x % m == r
  {
    var p := x / m;
    assert x == m * p + x % m;
    assert m * q - m * p == m * (q - p);
    Multiples(m, q - p);
  }

  lemma ConsecutiveIsComplete(minute: nat, n: nat, g: nat, i: nat)
    requires g > 0 && i + g <= n && ((minute + 5 * i) % 60) % (5 * g) == 0
    ensures Complete(Consecutive(minute, n), g, i)
  {
    var bars := Consecutive(minute, n);
    var t := bars[i].time;
    assert t / 60_000_000 == minute + 5 * i && t % 60_000_000 == 0;
    var group := bars[i..i + g];
    forall j | 0 <= j < |group| - 1 ensures group[j + 1].time - group[j].time == INTERVAL {
      assert group[j] == bars[i + j] && group[j + 1] == bars[i + j + 1];
    }
  }

  // A whole number of groups into some hour.
  ghost predicate StartsInHour(time: int, g: nat) {
    exists hour: int, k: nat :: InHour(time, g, hour, k)
  }

  predicate InHour(time: int, g: nat, hour: int, k: nat) { 5 * (k * g) < 60 && time == hour * 3_600_000_000 + (k * g) * 300_000_000 }

  // A multiple of the group's minutes is the minutes of some groups.
  lemma WholeNumberOfGroups(minute: nat, g: nat) returns (k: nat)
    requires g > 0 && minute % (5 * g) == 0
    ensures minute == 5 * (k * g)
  {
    var m := 5 * g;
    k := minute / m;
    assert minute == m * k;
    assert m * k == 5 * (k * g);
  }

  lemma AlignedInHour(time: int, g: nat)
    requires g > 0 && Aligned(time, g)
    ensures StartsInHour(time, g)
  {
    var minute := MinuteOfHour(time);
    var k := WholeNumberOfGroups(minute, g);
    var p := k * g;
    assert time == time / 60_000_000 / 60 * 3_600_000_000 + p * 300_000_000;
    assert InHour(time, g, time / 60_000_000 / 60, k);
  }

  lemma InHourAligned(time: int, g: nat, hour: int, k: nat)
    requires g > 0 && InHour(time, g, hour, k)
    ensures Aligned(time, g)
  {
    var p := k * g;
    assert p >= 0;
    MinutesIn(time, hour, p);
    assert 5 * p == (5 * g) * k;
    UniqueRemainder(5 * p, 5 * g, k, 0);
  }

  lemma AlignedExactly(time: int, g: nat)
    requires g > 0
    ensures Aligned(time, g) <==> StartsInHour(time, g)
  {
    hide Aligned, InHour;
    if Aligned(time, g) {
      AlignedInHour(time, g);
    }
    if StartsInHour(time, g) {
      var hour: int, k: nat :| InHour(time, g, hour, k);
      InHourAligned(time, g, hour, k);
    }
  }

  lemma MinutesIn(time: int, hour: int, p: nat)
    requires 5 * p < 60 && time == hour * 3_600_000_000 + p * 300_000_000
    ensures time % 60_000_000 == 0 && MinuteOfHour(time) == 5 * p
  {
  }

  /** A whole group is g bars five minutes apart, the first a whole number of groups into some hour. */
  lemma CompleteExactly(bars: seq<Bar>, g: nat, i: nat)
    requires g > 0
    ensures Complete(bars, g, i) <==>
            i + g <= |bars| && StartsInHour(bars[i].time, g)
            && forall k: nat :: k < g ==> bars[i + k].time == bars[i].time + 300_000_000 * k
  {
    hide Aligned, StartsInHour;
    if i + g <= |bars| {
      AlignedExactly(bars[i].time, g);
      if GapFree(bars[i..i + g], INTERVAL) {
        forall k: nat | k < g ensures bars[i + k].time == bars[i].time + 300_000_000 * k {
          Spaced(bars, g, i, k);
        }
      }
      if forall k: nat :: k < g ==> bars[i + k].time == bars[i].time + 300_000_000 * k {
        SpacedIsGapFree(bars, g, i);
      }
    }
  }

  lemma SpacedIsGapFree(bars: seq<Bar>, g: nat, i: nat)
    requires i + g <= |bars| && forall k: nat :: k < g ==> bars[i + k].time == bars[i].time + 300_000_000 * k
    ensures GapFree(bars[i..i + g], INTERVAL)
  {
    var group := bars[i..i + g];
    forall j | 0 <= j < |group| - 1 ensures group[j + 1].time - group[j].time == INTERVAL {
      var k: nat, l: nat := j, j + 1;
      assert group[j] == bars[i + k] && group[j + 1] == bars[i + l];
      assert bars[i + k].time == bars[i].time + 300_000_000 * k && bars[i + l].time == bars[i].time + 300_000_000 * l;
    }
  }

  lemma ConsecutiveRun(minute: nat, n: nat)
    ensures Increasing(Consecutive(minute, n)) && GapFree(Consecutive(minute, n), INTERVAL)
  {
  }

  /** When it does not, there are increasing, gap-free bars with a whole group the scan skips. */
  lemma GreedyCanSkip(g: nat) returns (bars: seq<Bar>, skipped: nat)
    requires g > 0 && !DividesTheHour(g)
    ensures Increasing(bars) && GapFree(bars, INTERVAL)
    ensures Complete(bars, g, skipped) && skipped !in Greedy(bars, g, 0) && skipped in Whole(bars, g, 0)
  {
    hide Complete, Consecutive, Greedy, Whole, DividesTheHour;
    var minute, k := LastStart(g);
    bars := Consecutive(minute, k + g);
    ConsecutiveIsComplete(minute, k + g, g, 0);
    ConsecutiveIsComplete(minute, k + g, g, k);
    WholeIsAll(bars, g, 0, k);
    ConsecutiveRun(minute, k + g);
    ScanStep(bars, g, 0);
    if k in Greedy(bars, g, g) {
      GreedyStartsLater(bars, g, g, k);
    }
    skipped := k;
  }

  /** The scan is exact for all increasing bars if and only if a group's minutes divide the hour. */
  lemma ExactIffDividesTheHour(g: nat)
    requires g > 0
    ensures (forall bars: seq<Bar> | Increasing(bars) :: Greedy(bars, g, 0) == Whole(bars, g, 0)) <==> DividesTheHour(g)
  {
    if DividesTheHour(g) {
      forall bars: seq<Bar> | Increasing(bars) ensures Greedy(bars, g, 0) == Whole(bars, g, 0) {
        GreedyIsExact(bars, g, 0);
      }
    } else {
      var bars, skipped := GreedyCanSkip(g);
      assert Greedy(bars, g, 0) != Whole(bars, g, 0);
    }
  }

  // --- order and conservation ---------------------------------------------------------------------------

  /** Emitted groups come in order and never overlap, for any group size. */
  lemma {:induction false} GroupsNeverOverlap(bars: seq<Bar>, g: nat, i: nat, a: nat, b: nat)
    requires g > 0 && a < b < |Greedy(bars, g, i)|
    ensures Greedy(bars, g, i)[a] + g <= Greedy(bars, g, i)[b]
    decreases |bars| - i
  {
    hide Complete;
    if Complete(bars, g, i) {
      if a > 0 {
        GroupsNeverOverlap(bars, g, i + g, a - 1, b - 1);
      } else {
        GreedyStartsLater(bars, g, i + g, Greedy(bars, g, i + g)[b - 1]);
      }
    } else {
      GroupsNeverOverlap(bars, g, i + 1, a, b);
    }
  }

  // The bars of the emitted groups.
  function Covered(bars: seq<Bar>, g: nat, starts: seq<nat>): seq<Bar>
    requires g > 0 && Inside(bars, g, starts)
  {
    if starts == [] then []
    else
      var s := starts[|starts| - 1];
      Covered(bars, g, starts[..|starts| - 1]) + bars[s..s + g]
  }

  lemma {:induction false} TotalsAppend(a: seq<Bar>, b: seq<Bar>)
    ensures Volume(a + b) == Volume(a) + Volume(b) && Trades(a + b) == Trades(a) + Trades(b)
  {
    if b == [] {
      assert a + b == a;
    } else {
      TotalsAppend(a, b[..|b| - 1]);
      assert (a + b)[..|a + b| - 1] == a + b[..|b| - 1];
    }
  }

  lemma MergeTotals(group: seq<Bar>)
    requires group != []
    ensures Merge(group).volume == Volume(group) && Merge(group).trades == Trades(group)
  {
  }

  /** Resampling conserves the volume and the trades of the bars it covers. */
  lemma {:induction false} MergingConserves(bars: seq<Bar>, g: nat, starts: seq<nat>)
    requires g > 0 && Inside(bars, g, starts)
    ensures var out, covered := MergeAll(bars, g, starts), Covered(bars, g, starts);
            Volume(out) == Volume(covered) && Trades(out) == Trades(covered)
  {
    hide Merge, Volume, Trades;
    if starts == [] {
      assert MergeAll(bars, g, starts) == Covered(bars, g, starts);
    } else {
      var front, s := starts[..|starts| - 1], starts[|starts| - 1];
      MergingConserves(bars, g, front);
      OneGroupMore(MergeAll(bars, g, front), Covered(bars, g, front), bars[s..s + g]);
    }
  }

  lemma OneGroupMore(out: seq<Bar>, covered: seq<Bar>, group: seq<Bar>)
    requires group != [] && Volume(out) == Volume(covered) && Trades(out) == Trades(covered)
    ensures Volume(out + [Merge(group)]) == Volume(covered + group) && Trades(out + [Merge(group)]) == Trades(covered + group)
  {
    hide Merge, Volume, Trades;
    MergeTotals(group);
    TotalsAppend(out, [Merge(group)]);
    TotalsOfOne(Merge(group));
    TotalsAppend(covered, group);
  }

  lemma TotalsOfOne(bar: Bar)
    ensures Volume([bar]) == bar.volume && Trades([bar]) == bar.trades
  {
  }
}
