/**
 Forward-return labelling: the queue of pending rows (radar_v08/store.py) and the
 batched pass that drains it (radar_v08/l2.py).

 A row's id is its position in the table. Prices are reals.
 */
module ForwardReturns {
  import opened Numbers
  import opened Options
  import opened SnapshotTable

  const MAX_BATCHES: nat := 20

  datatype Label = Label(returnPct: real, mfePct: Option<real>, maePct: Option<real>)

  datatype Reason = TargetOutsideRetention | TargetInGap

  datatype Row = Row(
    pair: Option<string>, ts: int, horizonMinutes: int, entry: Option<real>,
    given: Option<Label>, mark: Option<Reason>)
  {
    function Target(): int { ts + horizonMinutes * 60_000_000 }

    predicate Usable() {
      && given.None? && mark.None?
      && pair.Some? && pair.value != "" && entry.Some? && entry.value != 0.0
    }

    predicate Due(now: int) { Usable() && Target() <= now }
  }

  // --- the queue: ORDER BY ts, id LIMIT n ---------------------------------------------------

  predicate Before(rows: seq<Row>, a: nat, b: nat)
    requires a < |rows| && b < |rows|
  {
    rows[a].ts < rows[b].ts || (rows[a].ts == rows[b].ts && a < b)
  }

  predicate Ids(rows: seq<Row>, ids: seq<nat>) { forall i :: 0 <= i < |ids| ==> ids[i] < |rows| }

  predicate InOrder(rows: seq<Row>, ids: seq<nat>)
    requires Ids(rows, ids)
  {
    forall i, j :: 0 <= i < j < |ids| ==> Before(rows, ids[i], ids[j])
  }

  // Insert an id behind all that come before it.
  function Place(rows: seq<Row>, ids: seq<nat>, id: nat): (r: seq<nat>)
    requires Ids(rows, ids) && id < |rows|
    ensures Ids(rows, r) && multiset(r) == multiset(ids) + multiset{id}
  {
    if ids == [] then [id]
    else if Before(rows, ids[|ids| - 1], id) then ids + [id]
    else
      assert ids == ids[..|ids| - 1] + [ids[|ids| - 1]];
      Place(rows, ids[..|ids| - 1], id) + [ids[|ids| - 1]]
  }

  lemma PlacedIn(rows: seq<Row>, ids: seq<nat>, id: nat, x: nat)
    requires Ids(rows, ids) && id < |rows| && x in Place(rows, ids, id)
    ensures x == id || x in ids
  {
    assert x in multiset(Place(rows, ids, id));
    assert x in multiset(ids) + multiset{id};
  }

  lemma {:induction false} PlaceKeepsOrder(rows: seq<Row>, ids: seq<nat>, id: nat)
    requires Ids(rows, ids) && id < |rows| && InOrder(rows, ids) && id !in ids
    ensures InOrder(rows, Place(rows, ids, id))
  {
    if ids != [] && !Before(rows, ids[|ids| - 1], id) {
      var front, last := ids[..|ids| - 1], ids[|ids| - 1];
      PlaceKeepsOrder(rows, front, id);
      var p := Place(rows, front, id);
      forall k | 0 <= k < |p| ensures Before(rows, p[k], last) {
        PlacedIn(rows, front, id, p[k]);
      }
    }
  }

  // The due ids among the first n rows, in order.
  function DueIds(rows: seq<Row>, now: int, n: nat): (ids: seq<nat>)
    requires n <= |rows|
    ensures Ids(rows, ids)
    ensures forall id: nat :: id in ids <==> id < n && rows[id].Due(now)
    ensures InOrder(rows, ids)
  {
    if n == 0 then []
    else
      var rest := DueIds(rows, now, n - 1);
      if rows[n - 1].Due(now) then
        var last: nat := n - 1;
        var r := Place(rows, rest, last);
        PlaceKeepsOrder(rows, rest, last);
        assert forall id: nat :: id in r <==> id in multiset(rest) + multiset{last};
        r
      else rest
  }

  function Take(ids: seq<nat>, limit: nat): seq<nat> { if |ids| <= limit then ids else ids[..limit] }

  // pending_forward_returns.
  function Pending(rows: seq<Row>, now: int, limit: nat): seq<nat> { Take(DueIds(rows, now, |rows|), limit) }

  /** The batch holds due rows only, oldest first, none twice, and every due row it leaves out comes later. */
  lemma PendingIsTheOldest(rows: seq<Row>, now: int, limit: nat)
    ensures var b := Pending(rows, now, limit);
            && Ids(rows, b) && InOrder(rows, b) && |b| <= limit
            && (forall i :: 0 <= i < |b| ==> rows[b[i]].Due(now))
            && (forall i, j :: 0 <= i < j < |b| ==> b[i] != b[j])
            && (forall id: nat :: id < |rows| && rows[id].Due(now) && id !in b ==>
                                    |b| == limit && forall i :: 0 <= i < |b| ==> Before(rows, b[i], id))
  {
    var all, b := DueIds(rows, now, |rows|), Pending(rows, now, limit);
    forall i | 0 <= i < |b| ensures rows[b[i]].Due(now) {
      assert b[i] == all[i] && all[i] in all;
    }
    forall id: nat | id < |rows| && rows[id].Due(now) && id !in b
      ensures |b| == limit && forall i :: 0 <= i < |b| ==> Before(rows, b[i], id)
    {
      assert id in all;
      var k :| 0 <= k < |all| && all[k] == id;
    }
  }

  // Neither labelled nor marked, with a pair and an entry price, its horizon over.
  predicate HorizonOver(row: Row, now: int) {
    && row.given.None? && row.mark.None? && row.pair.Some? && row.pair.value != "" && row.entry.Some? && row.entry.value != 0.0
    && row.ts + row.horizonMinutes * 60_000_000 <= now
  }

  /** A batch shorter than its limit holds every row whose horizon is over, and a full one only earlier rows than it leaves out. */
  lemma PendingLeavesOutLater(rows: seq<Row>, now: int, limit: nat, id: nat)
    requires id < |rows|
    ensures var b := Pending(rows, now, limit);
            && (id in b ==> HorizonOver(rows[id], now))
            && (HorizonOver(rows[id], now) && id !in b ==>
                  |b| == limit
                  && forall k <- b :: k < |rows| && (rows[k].ts < rows[id].ts || (rows[k].ts == rows[id].ts && k < id)))
  {
    PendingIsTheOldest(rows, now, limit);
  }

  // --- what a pass decides about one row -------------------------------------------------------

  datatype Fate = Stay | Give(given: Label) | Mark(reason: Reason)

  function Extreme(snaps: seq<Snap>, pair: string, lo: int, hi: int, high: bool): Option<real> {
    if snaps == [] then None
    else
      var rest := Extreme(snaps[..|snaps| - 1], pair, lo, hi, high);
      var s := snaps[|snaps| - 1];
      if s.pair != pair || !(lo <= s.ts <= hi) || s.last == 0.0 then rest
      else if rest.Some? && (if high then rest.value >= s.last else rest.value <= s.last) then rest
      else Some(s.last)
  }

  function Pct(price: real, entry: real): real
    requires entry != 0.0
  {
    (price / entry - 1.0) * 100.0
  }

  function PctOf(price: Option<real>, entry: real): Option<real>
    requires entry != 0.0
  {
    if price.Some? then Some(Pct(price.value, entry)) else None
  }

  function LabelFrom(snaps: seq<Snap>, row: Row, snap: Snap): Label
    requires row.Usable()
  {
    var entry, pair := row.entry.value, row.pair.value;
    Label(Pct(snap.last, entry),
          PctOf(Extreme(snaps, pair, row.ts, row.Target(), true), entry),
          PctOf(Extreme(snaps, pair, row.ts, row.Target(), false), entry))
  }

  function Decide(snaps: seq<Snap>, cutoff: int, markGaps: bool, row: Row): Fate
    requires row.Usable()
  {
    var windowEnd := row.Target() + TOLERANCE;
    match NearestSnap(snaps, row.pair.value, row.Target())
    case Some(snap) => Give(LabelFrom(snaps, row, snap))
    case None =>
      if OutsideRetention(snaps, cutoff, windowEnd) then Mark(TargetOutsideRetention)
      else if markGaps && WindowClosed(snaps, windowEnd) then Mark(TargetInGap)
      else Stay
  }

  function Settle(row: Row, fate: Fate): Row {
    match fate
    case Stay => row
    case Give(given) => row.(given := Some(given))
    case Mark(reason) => row.(mark := Some(reason))
  }

  function Settled(snaps: seq<Snap>, cutoff: int, markGaps: bool, row: Row): Row {
    if row.Usable() then Settle(row, Decide(snaps, cutoff, markGaps, row)) else row
  }

  // --- what a label says ----------------------------------------------------------------------------

  // A price of the pair seen from one time to another; a price of zero is no price.
  predicate SeenBetween(s: Snap, pair: string, lo: int, hi: int) { s.pair == pair && lo <= s.ts <= hi && s.last != 0.0 }

  // The best or the worst price seen.
  ghost predicate Peak(price: real, snaps: seq<Snap>, pair: string, lo: int, hi: int, high: bool) {
    && (exists s <- snaps :: SeenBetween(s, pair, lo, hi) && s.last == price)
    && forall s <- snaps :: SeenBetween(s, pair, lo, hi) ==> if high then s.last <= price else price <= s.last
  }

  // By this percentage the entry price becomes the other.
  predicate Becomes(entry: real, pct: real, price: real) { entry * (1.0 + pct / 100.0) == price }

  // The percentage to the peak, absent exactly when no price was seen.
  ghost predicate Excursion(pct: Option<real>, snaps: seq<Snap>, entry: real, pair: string, lo: int, hi: int, high: bool) {
    match pct
    case None => forall s <- snaps :: !SeenBetween(s, pair, lo, hi)
    case Some(x) => exists price: real :: Peak(price, snaps, pair, lo, hi, high) && Becomes(entry, x, price)
  }

  // Nearest to the target within two minutes, the earlier of two equally near ones.
  ghost predicate NearestTo(s: Snap, snaps: seq<Snap>, pair: string, target: int) {
    && s in snaps && s.pair == pair && target - 120_000_000 <= s.ts <= target + 120_000_000
    && forall t <- snaps :: t.pair == pair && target - 120_000_000 <= t.ts <= target + 120_000_000 ==>
         var near, far := AbsInt(s.ts - target), AbsInt(t.ts - target); near < far || (near == far && s.ts <= t.ts)
  }

  // The return to the nearest price after the horizon, and the best and worst prices up to it.
  ghost predicate Labels(given: Label, snaps: seq<Snap>, row: Row)
    requires row.Usable()
  {
    var entry, pair, target := row.entry.value, row.pair.value, row.ts + row.horizonMinutes * 60_000_000;
    && (exists s: Snap :: NearestTo(s, snaps, pair, target) && Becomes(entry, given.returnPct, s.last))
    && Excursion(given.mfePct, snaps, entry, pair, row.ts, target, true)
    && Excursion(given.maePct, snaps, entry, pair, row.ts, target, false)
  }

  lemma PctBecomes(price: real, entry: real)
    requires entry != 0.0
    ensures Becomes(entry, Pct(price, entry), price)
  {
    assert 1.0 + Pct(price, entry) / 100.0 == price / entry;
  }

  lemma {:induction false} ExtremeIsPeak(snaps: seq<Snap>, pair: string, lo: int, hi: int, high: bool)
    ensures match Extreme(snaps, pair, lo, hi, high)
            case None => forall s <- snaps :: !SeenBetween(s, pair, lo, hi)
            case Some(price) => Peak(price, snaps, pair, lo, hi, high)
  {
    if snaps != [] {
      var front, last := snaps[..|snaps| - 1], snaps[|snaps| - 1];
      assert snaps == front + [last];
      ExtremeIsPeak(front, pair, lo, hi, high);
      assert last in snaps;
    }
  }

  lemma ExtremeIsExcursion(snaps: seq<Snap>, entry: real, pair: string, lo: int, hi: int, high: bool)
    requires entry != 0.0
    ensures Excursion(PctOf(Extreme(snaps, pair, lo, hi, high), entry), snaps, entry, pair, lo, hi, high)
  {
    hide Peak, Becomes, Extreme, Pct;
    ExtremeIsPeak(snaps, pair, lo, hi, high);
    var price := Extreme(snaps, pair, lo, hi, high);
    if price.Some? {
      PctBecomes(price.value, entry);
    }
  }

  lemma NearestSnapIsNearest(snaps: seq<Snap>, pair: string, target: int)
    requires NearestSnap(snaps, pair, target).Some?
    ensures NearestTo(NearestSnap(snaps, pair, target).value, snaps, pair, target)
  {
    hide NearestSnap;
    var s := NearestSnap(snaps, pair, target).value;
    forall i | 0 <= i < |snaps| && InWindow(snaps[i], pair, target)
      ensures var near, far := AbsInt(s.ts - target), AbsInt(snaps[i].ts - target); near < far || (near == far && s.ts <= snaps[i].ts)
    {
      NearestSnapIsEarlier(snaps, pair, target, i);
    }
  }

  /** A settled row that is labelled is labelled with these numbers. */
  lemma LabelsMean(snaps: seq<Snap>, cutoff: int, markGaps: bool, row: Row)
    requires row.Usable() && Settled(snaps, cutoff, markGaps, row).given.Some?
    ensures Labels(Settled(snaps, cutoff, markGaps, row).given.value, snaps, row)
  {
    hide Excursion, NearestTo, Becomes, NearestSnap, Extreme, Pct;
    var entry, pair, target := row.entry.value, row.pair.value, row.Target();
    NearestSnapIsNearest(snaps, pair, target);
    PctBecomes(NearestSnap(snaps, pair, target).value.last, entry);
    ExtremeIsExcursion(snaps, entry, pair, row.ts, target, true);
    ExtremeIsExcursion(snaps, entry, pair, row.ts, target, false);
  }

  // Rows labelled since carry such labels.
  ghost predicate AllLabelled(snaps: seq<Snap>, before: seq<Row>, after: seq<Row>) {
    && |after| == |before|
    && forall id: nat :: id < |after| && before[id].given.None? && after[id].given.Some? ==>
         before[id].Usable() && Labels(after[id].given.value, snaps, before[id])
  }

  lemma SettledAreLabelled(snaps: seq<Snap>, cutoff: int, markGaps: bool, before: seq<Row>, after: seq<Row>)
    requires |after| == |before|
    requires forall id: nat :: id < |after| ==> after[id] == before[id] || after[id] == Settled(snaps, cutoff, markGaps, before[id])
    ensures AllLabelled(snaps, before, after)
  {
    hide Labels, Decide, Settle;
    forall id: nat | id < |after| && before[id].given.None? && after[id].given.Some?
      ensures before[id].Usable() && Labels(after[id].given.value, snaps, before[id])
    {
      LabelsMean(snaps, cutoff, markGaps, before[id]);
    }
  }

  // --- counting -----------------------------------------------------------------------------------

  // `Open` rows are still pending: usable and neither labelled nor marked.
  datatype Kind = Labelled | MarkedAs(reason: Reason) | Open

  predicate Is(row: Row, kind: Kind) {
    match kind
    case Labelled => row.given.Some?
    case MarkedAs(reason) => row.mark == Some(reason)
    case Open => row.Usable()
  }

  function Count(rows: seq<Row>, kind: Kind): nat {
    if rows == [] then 0
    else Count(rows[..|rows| - 1], kind) + if Is(rows[|rows| - 1], kind) then 1 else 0
  }

  lemma {:induction false} CountUpdated(rows: seq<Row>, id: nat, row: Row, kind: Kind)
    requires id < |rows|
    ensures Count(rows[id := row], kind)
         == Count(rows, kind) - (if Is(rows[id], kind) then 1 else 0) + (if Is(row, kind) then 1 else 0)
  {
    var init := rows[..|rows| - 1];
    if id < |rows| - 1 {
      CountUpdated(init, id, row, kind);
      assert rows[id := row][..|rows| - 1] == init[id := row];
    } else {
      assert rows[id := row][..|rows| - 1] == init;
    }
  }

  /**
   The three ways out of pending exclude each other: settling a pending row labels
   it, marks it with one reason, or leaves it exactly as it was.
   */
  lemma SettlingIsExclusive(snaps: seq<Snap>, cutoff: int, markGaps: bool, row: Row)
    requires row.Usable()
    ensures var r := Settled(snaps, cutoff, markGaps, row);
            && (r.given.Some? ==> r.mark.None?)
            && (r == row <==> r.Usable())
            && (r.given.Some? <==> !WindowEmpty(snaps, row.pair.value, row.Target()))
            && (r.mark == Some(TargetOutsideRetention) <==>
                  WindowEmpty(snaps, row.pair.value, row.Target())
                  && OutsideRetention(snaps, cutoff, row.Target() + TOLERANCE))
            && (r.mark == Some(TargetInGap) <==>
                  WindowEmpty(snaps, row.pair.value, row.Target())
                  && !OutsideRetention(snaps, cutoff, row.Target() + TOLERANCE)
                  && markGaps && WindowClosed(snaps, row.Target() + TOLERANCE))
  {
  }

  // One mark moves one row from pending to its reason's count.
  lemma MarkCounts(rows: seq<Row>, id: nat, reason: Reason)
    requires id < |rows| && rows[id].given.None? && rows[id].mark.None?
    ensures forall kind: Kind :: kind != Open ==>
              Count(rows[id := rows[id].(mark := Some(reason))], kind)
              == Count(rows, kind) + if kind == MarkedAs(reason) then 1 else 0
    ensures rows[id].Usable() ==> Count(rows[id := rows[id].(mark := Some(reason))], Open) == Count(rows, Open) - 1
  {
    hide Count;
    forall kind: Kind {
      CountUpdated(rows, id, rows[id].(mark := Some(reason)), kind);
    }
  }

  // --- the pass: lazily cached bounds ---------------------------------------------------------------

  /** The event store's two tables; snapshots do not change while a pass runs. */
  class Store {
    const snaps: seq<Snap>
    var rows: seq<Row>

    constructor (snaps: seq<Snap>, rows: seq<Row>)
      ensures this.snaps == snaps && this.rows == rows
    {
      this.snaps, this.rows := snaps, rows;
    }

    // label_forward_return: unconditional.
    method LabelRow(id: nat, given: Label)
      requires id < |rows|
      modifies this
      ensures rows == old(rows)[id := old(rows)[id].(given := Some(given))]
    {
      rows := rows[id := rows[id].(given := Some(given))];
    }

    // mark_forward_returns_unlabelable: guarded, and it counts what it changed.
    method MarkRows(ids: seq<nat>, reason: Reason) returns (marked: nat)
      requires Ids(rows, ids)
      requires forall i, j :: 0 <= i < j < |ids| ==> ids[i] != ids[j]
      modifies this
      ensures |rows| == |old(rows)|
      ensures forall id :: 0 <= id < |rows| ==>
                             rows[id] == if id in ids && old(rows)[id].given.None? && old(rows)[id].mark.None?
                                         then old(rows)[id].(mark := Some(reason)) else old(rows)[id]
      ensures forall kind: Kind :: kind != Open ==>
                Count(rows, kind) == Count(old(rows), kind) + if kind == MarkedAs(reason) then marked else 0
      ensures (forall i :: 0 <= i < |ids| ==> old(rows)[ids[i]].Usable()) ==>
                Count(rows, Open) == Count(old(rows), Open) - marked
    {
      hide Count, Is;
      marked := 0;
      ghost var usable := forall i :: 0 <= i < |ids| ==> rows[ids[i]].Usable();
      for k := 0 to |ids|
        invariant |rows| == |old(rows)|
        invariant forall id :: 0 <= id < |rows| ==>
                                 rows[id] == if id in ids[..k] && old(rows)[id].given.None? && old(rows)[id].mark.None?
                                             then old(rows)[id].(mark := Some(reason)) else old(rows)[id]
        invariant forall kind: Kind :: kind != Open ==>
                    Count(rows, kind) == Count(old(rows), kind) + if kind == MarkedAs(reason) then marked else 0
        invariant usable ==> Count(rows, Open) == Count(old(rows), Open) - marked
      {
        var id := ids[k];
        assert ids[..k + 1] == ids[..k] + [id];
        if rows[id].given.None? && rows[id].mark.None? {
          MarkCounts(rows, id, reason);
          rows := rows[id := rows[id].(mark := Some(reason))];
          marked := marked + 1;
        }
      }
      assert ids[..|ids|] == ids;
    }
  }

  /** Per-pass state: bounds read once, when first needed. */
  class ForwardReturnPass {
    const snaps: seq<Snap>
    const cutoff: int
    const markGaps: bool
    var pairOldest: map<string, Option<int>>
    var pairLatest: map<string, Option<int>>
    var globalOldest: Option<int>
    var globalOldestLoaded: bool
    var globalLatest: Option<int>
    var globalLatestLoaded: bool

    constructor (snaps: seq<Snap>, cutoff: int, markGaps: bool)
      ensures Valid() && this.snaps == snaps && this.cutoff == cutoff && this.markGaps == markGaps
    {
      this.snaps, this.cutoff, this.markGaps := snaps, cutoff, markGaps;
      pairOldest, pairLatest := map[], map[];
      globalOldest, globalOldestLoaded := None, false;
      globalLatest, globalLatestLoaded := None, false;
    }

    ghost predicate Valid()
      reads this
    {
      && (forall p <- pairOldest :: pairOldest[p] == Oldest(snaps, Some(p)))
      && (forall p <- pairLatest :: pairLatest[p] == Latest(snaps, Some(p)))
      && (globalOldestLoaded ==> globalOldest == Oldest(snaps, None))
      && (globalLatestLoaded ==> globalLatest == Latest(snaps, None))
    }

    /** The lazy bounds answer exactly the retention test. */
    method IsOutsideRetention(pair: string, windowEnd: int) returns (outside: bool)
      requires Valid()
      modifies this
      ensures Valid()
      ensures outside <==> OutsideRetention(snaps, cutoff, windowEnd)
    {
      hide Oldest, Latest;
      if windowEnd < cutoff {
        return true;
      }
      if pair !in pairOldest {
        pairOldest := pairOldest[pair := Oldest(snaps, Some(pair))];
      }
      var oldest := pairOldest[pair];
      if oldest.Some? && windowEnd >= oldest.value {
        assert Oldest(snaps, None).Some? && Oldest(snaps, None).value <= oldest.value;
        return false;
      }
      if !globalOldestLoaded {
        globalOldest, globalOldestLoaded := Oldest(snaps, None), true;
      }
      return globalOldest.Some? && windowEnd < globalOldest.value;
    }

    /** And exactly the closed-window test. */
    method IsWindowClosed(pair: string, windowEnd: int) returns (closed: bool)
      requires Valid()
      modifies this
      ensures Valid()
      ensures closed <==> WindowClosed(snaps, windowEnd)
    {
      hide Oldest, Latest;
      var threshold := windowEnd + MARGIN;
      if pair !in pairLatest {
        pairLatest := pairLatest[pair := Latest(snaps, Some(pair))];
      }
      var latest := pairLatest[pair];
      if latest.Some? && latest.value > threshold {
        assert Latest(snaps, None).Some? && Latest(snaps, None).value >= latest.value;
        return true;
      }
      if !globalLatestLoaded {
        globalLatest, globalLatestLoaded := Latest(snaps, None), true;
      }
      return globalLatest.Some? && globalLatest.value > threshold;
    }

    // The decision for one row, through the lazy bounds.
    method Judge(row: Row) returns (fate: Fate)
      requires Valid() && row.Usable()
      modifies this
      ensures Valid()
      ensures fate == Decide(snaps, cutoff, markGaps, row)
    {
      var snap := NearestSnap(snaps, row.pair.value, row.Target());
      if snap.Some? {
        return Give(LabelFrom(snaps, row, snap.value));
      }
      var windowEnd := row.Target() + TOLERANCE;
      var outside := IsOutsideRetention(row.pair.value, windowEnd);
      if outside {
        return Mark(TargetOutsideRetention);
      }
      if markGaps {
        var closed := IsWindowClosed(row.pair.value, windowEnd);
        if closed {
          return Mark(TargetInGap);
        }
      }
      return Stay;
    }

    // Label at once, collect the rows to mark, then mark each reason's rows in one transaction.
    method LabelBatch(store: Store, due: seq<nat>) returns (labelled: nat, outside: nat, gap: nat)
      requires Valid() && store.snaps == snaps && Batch(store.rows, due)
      modifies this, store
      ensures Valid()
      ensures BatchSettled(snaps, cutoff, markGaps, old(store.rows), store.rows, due)
      ensures AllLabelled(snaps, old(store.rows), store.rows)
      ensures Counted(old(store.rows), store.rows, labelled, outside, gap)
    {
      hide Decide, Count, AllLabelled;
      ghost var rows0 := store.rows;
      labelled := 0;
      var outsideIds: seq<nat>, gapIds: seq<nat> := [], [];
      for k := 0 to |due|
        invariant Valid()
        invariant Split(snaps, cutoff, markGaps, rows0, store.rows, due, k, outsideIds, gapIds)
        invariant Counted(rows0, store.rows, labelled, 0, 0)
      {
        var id := due[k];
        UntouchedSoFar(snaps, cutoff, markGaps, rows0, store.rows, due, k, outsideIds, gapIds);
        var fate := Judge(store.rows[id]);
        match fate
        case Stay =>
          SplitStays(snaps, cutoff, markGaps, rows0, store.rows, due, k, outsideIds, gapIds);
        case Mark(reason) =>
          SplitMarks(snaps, cutoff, markGaps, rows0, store.rows, due, k, outsideIds, gapIds);
          if reason == TargetOutsideRetention { outsideIds := outsideIds + [id]; } else { gapIds := gapIds + [id]; }
        case Give(given) =>
          SplitGives(snaps, cutoff, markGaps, rows0, store.rows, due, k, outsideIds, gapIds);
          LabelCounted(rows0, store.rows, id, given, labelled);
          store.LabelRow(id, given);
          labelled := labelled + 1;
      }
      ghost var rows1 := store.rows;
      outside := store.MarkRows(outsideIds, TargetOutsideRetention);
      ghost var rows2 := store.rows;
      gap := store.MarkRows(gapIds, TargetInGap);
      BatchEnds(snaps, cutoff, markGaps, rows0, rows1, rows2, store.rows, due, outsideIds, gapIds);
      SettledAreLabelled(snaps, cutoff, markGaps, rows0, store.rows);
    }
  }

  // --- one batch, as values ---------------------------------------------------------------------

  ghost predicate Batch(rows: seq<Row>, due: seq<nat>) {
    && Ids(rows, due)
    && (forall i, j :: 0 <= i < j < |due| ==> due[i] != due[j])
    && (forall i :: 0 <= i < |due| ==> rows[due[i]].Usable())
  }

  ghost predicate BatchSettled(snaps: seq<Snap>, cutoff: int, markGaps: bool, before: seq<Row>, after: seq<Row>, due: seq<nat>) {
    && |after| == |before|
    && forall id: nat :: id < |after| ==>
         after[id] == if id in due then Settled(snaps, cutoff, markGaps, before[id]) else before[id]
  }

  ghost predicate Counted(before: seq<Row>, after: seq<Row>, labelled: nat, outside: nat, gap: nat) {
    && Count(after, Labelled) == Count(before, Labelled) + labelled
    && Count(after, MarkedAs(TargetOutsideRetention)) == Count(before, MarkedAs(TargetOutsideRetention)) + outside
    && Count(after, MarkedAs(TargetInGap)) == Count(before, MarkedAs(TargetInGap)) + gap
    && Count(after, Open) == Count(before, Open) - labelled - outside - gap
  }

  lemma LabelCounted(rows0: seq<Row>, rows: seq<Row>, id: nat, given: Label, labelled: nat)
    requires Counted(rows0, rows, labelled, 0, 0) && id < |rows| && rows[id].Usable()
    ensures Counted(rows0, rows[id := rows[id].(given := Some(given))], labelled + 1, 0, 0)
  {
    var row := rows[id].(given := Some(given));
    CountUpdated(rows, id, row, Labelled);
    CountUpdated(rows, id, row, MarkedAs(TargetOutsideRetention));
    CountUpdated(rows, id, row, MarkedAs(TargetInGap));
    CountUpdated(rows, id, row, Open);
  }

  function FateOf(snaps: seq<Snap>, cutoff: int, markGaps: bool, row: Row): Fate {
    if row.Usable() then Decide(snaps, cutoff, markGaps, row) else Stay
  }

  // The ids among the first k of the batch that get this fate, none twice.
  ghost predicate Collected(snaps: seq<Snap>, cutoff: int, markGaps: bool, rows0: seq<Row>, due: seq<nat>, k: nat, ids: seq<nat>, reason: Reason)
    requires k <= |due| && Ids(rows0, due)
  {
    && Ids(rows0, ids)
    && (forall i, j :: 0 <= i < j < |ids| ==> ids[i] != ids[j])
    && (forall id: nat :: id in ids <==> id in due[..k] && FateOf(snaps, cutoff, markGaps, rows0[id]) == Mark(reason))
  }

  // After k rows of the batch: the labelled ones are settled, the marks are collected, the rest is untouched.
  ghost predicate Split(snaps: seq<Snap>, cutoff: int, markGaps: bool, rows0: seq<Row>, rows: seq<Row>, due: seq<nat>, k: nat, outsideIds: seq<nat>, gapIds: seq<nat>) {
    && Batch(rows0, due) && k <= |due| && |rows| == |rows0|
    && (forall id: nat :: id < |rows| ==>
          rows[id] == if id in due[..k] && FateOf(snaps, cutoff, markGaps, rows0[id]).Give?
                      then Settled(snaps, cutoff, markGaps, rows0[id]) else rows0[id])
    && Collected(snaps, cutoff, markGaps, rows0, due, k, outsideIds, TargetOutsideRetention)
    && Collected(snaps, cutoff, markGaps, rows0, due, k, gapIds, TargetInGap)
  }

  lemma UntouchedSoFar(snaps: seq<Snap>, cutoff: int, markGaps: bool, rows0: seq<Row>, rows: seq<Row>, due: seq<nat>, k: nat, outsideIds: seq<nat>, gapIds: seq<nat>)
    requires Split(snaps, cutoff, markGaps, rows0, rows, due, k, outsideIds, gapIds) && k < |due|
    ensures due[k] < |rows| && rows[due[k]] == rows0[due[k]] && rows0[due[k]].Usable()
    ensures due[k] !in outsideIds && due[k] !in gapIds && due[k] !in due[..k]
  {
  }

  lemma SplitStays(snaps: seq<Snap>, cutoff: int, markGaps: bool, rows0: seq<Row>, rows: seq<Row>, due: seq<nat>, k: nat, outsideIds: seq<nat>, gapIds: seq<nat>)
    requires Split(snaps, cutoff, markGaps, rows0, rows, due, k, outsideIds, gapIds) && k < |due|
    requires FateOf(snaps, cutoff, markGaps, rows0[due[k]]) == Stay
    ensures Split(snaps, cutoff, markGaps, rows0, rows, due, k + 1, outsideIds, gapIds)
  {
    assert due[..k + 1] == due[..k] + [due[k]];
  }

  lemma SplitGives(snaps: seq<Snap>, cutoff: int, markGaps: bool, rows0: seq<Row>, rows: seq<Row>, due: seq<nat>, k: nat, outsideIds: seq<nat>, gapIds: seq<nat>)
    requires Split(snaps, cutoff, markGaps, rows0, rows, due, k, outsideIds, gapIds) && k < |due|
    requires FateOf(snaps, cutoff, markGaps, rows0[due[k]]).Give?
    ensures Split(snaps, cutoff, markGaps, rows0, rows[due[k] := Settled(snaps, cutoff, markGaps, rows0[due[k]])], due, k + 1, outsideIds, gapIds)
  {
    assert due[..k + 1] == due[..k] + [due[k]];
  }

  lemma SplitMarks(snaps: seq<Snap>, cutoff: int, markGaps: bool, rows0: seq<Row>, rows: seq<Row>, due: seq<nat>, k: nat, outsideIds: seq<nat>, gapIds: seq<nat>)
    requires Split(snaps, cutoff, markGaps, rows0, rows, due, k, outsideIds, gapIds) && k < |due|
    requires FateOf(snaps, cutoff, markGaps, rows0[due[k]]).Mark?
    ensures var outside := FateOf(snaps, cutoff, markGaps, rows0[due[k]]).reason == TargetOutsideRetention;
            Split(snaps, cutoff, markGaps, rows0, rows, due, k + 1,
                  if outside then outsideIds + [due[k]] else outsideIds, if outside then gapIds else gapIds + [due[k]])
  {
    assert due[..k + 1] == due[..k] + [due[k]];
    CollectedNext(snaps, cutoff, markGaps, rows0, due, k, outsideIds, TargetOutsideRetention);
    CollectedNext(snaps, cutoff, markGaps, rows0, due, k, gapIds, TargetInGap);
  }

  lemma CollectedNext(snaps: seq<Snap>, cutoff: int, markGaps: bool, rows0: seq<Row>, due: seq<nat>, k: nat, ids: seq<nat>, reason: Reason)
    requires Batch(rows0, due) && k < |due| && Collected(snaps, cutoff, markGaps, rows0, due, k, ids, reason)
    ensures Collected(snaps, cutoff, markGaps, rows0, due, k + 1,
                      if FateOf(snaps, cutoff, markGaps, rows0[due[k]]) == Mark(reason) then ids + [due[k]] else ids, reason)
  {
    assert due[..k + 1] == due[..k] + [due[k]];
    assert due[k] !in due[..k];
  }

  ghost predicate MarksApplied(before: seq<Row>, after: seq<Row>, ids: seq<nat>, reason: Reason) {
    && |after| == |before|
    && forall id :: 0 <= id < |after| ==>
         after[id] == if id in ids && before[id].given.None? && before[id].mark.None?
                      then before[id].(mark := Some(reason)) else before[id]
  }

  lemma BatchEnds(snaps: seq<Snap>, cutoff: int, markGaps: bool, rows0: seq<Row>, rows1: seq<Row>, rows2: seq<Row>,
                  rows3: seq<Row>, due: seq<nat>, outsideIds: seq<nat>, gapIds: seq<nat>)
    requires Split(snaps, cutoff, markGaps, rows0, rows1, due, |due|, outsideIds, gapIds)
    requires MarksApplied(rows1, rows2, outsideIds, TargetOutsideRetention) && MarksApplied(rows2, rows3, gapIds, TargetInGap)
    ensures BatchSettled(snaps, cutoff, markGaps, rows0, rows3, due)
  {
    assert due[..|due|] == due;
    forall id: nat | id < |rows3|
      ensures rows3[id] == if id in due then Settled(snaps, cutoff, markGaps, rows0[id]) else rows0[id]
    {
      assert id in due ==> rows0[id].Usable();
    }
  }

  // What a pass may have done to one row: nothing, or settled it while it was due.
  predicate Touched(snaps: seq<Snap>, cutoff: int, markGaps: bool, now: int, before: Row, after: Row) {
    after == before || (before.Due(now) && after == Settled(snaps, cutoff, markGaps, before))
  }

  // A due row nothing can be done about yet: its window is empty and may still fill.
  ghost predicate Waiting(snaps: seq<Snap>, cutoff: int, markGaps: bool, row: Row)
    requires row.Usable()
  {
    var windowEnd := row.Target() + TOLERANCE;
    && WindowEmpty(snaps, row.pair.value, row.Target())
    && !OutsideRetention(snaps, cutoff, windowEnd)
    && (markGaps ==> !WindowClosed(snaps, windowEnd))
  }

  // A batch that came back short held every due row, so those still due wait.
  lemma ShortBatchLeavesWaiting(snaps: seq<Snap>, cutoff: int, markGaps: bool, now: int, limit: nat,
                                before: seq<Row>, after: seq<Row>)
    requires |Pending(before, now, limit)| < limit
    requires BatchSettled(snaps, cutoff, markGaps, before, after, Pending(before, now, limit))
    ensures forall id: nat :: id < |after| && after[id].Due(now) ==> Waiting(snaps, cutoff, markGaps, after[id])
  {
    forall id: nat | id < |after| && after[id].Due(now) ensures Waiting(snaps, cutoff, markGaps, after[id]) {
      assert Pending(before, now, limit) == DueIds(before, now, |before|);
      assert id in DueIds(before, now, |before|) <==> before[id].Due(now);
    }
  }

  // Everything a pass has done so far.
  ghost predicate Progress(snaps: seq<Snap>, cutoff: int, markGaps: bool, now: int, rows0: seq<Row>, rows: seq<Row>) {
    && |rows| == |rows0|
    && forall id: nat :: id < |rows| ==> Touched(snaps, cutoff, markGaps, now, rows0[id], rows[id])
  }

  lemma ProgressExtends(snaps: seq<Snap>, cutoff: int, markGaps: bool, now: int, rows0: seq<Row>, before: seq<Row>, after: seq<Row>, due: seq<nat>)
    requires Progress(snaps, cutoff, markGaps, now, rows0, before)
    requires BatchSettled(snaps, cutoff, markGaps, before, after, due)
    requires Ids(before, due) && forall i :: 0 <= i < |due| ==> before[due[i]].Due(now)
    ensures Progress(snaps, cutoff, markGaps, now, rows0, after)
  {
    forall id: nat | id < |after| ensures Touched(snaps, cutoff, markGaps, now, rows0[id], after[id]) {
      assert Touched(snaps, cutoff, markGaps, now, rows0[id], before[id]);
      if id in due && before[id] != rows0[id] {
        SettlingIsExclusive(snaps, cutoff, markGaps, rows0[id]);
      }
    }
  }

  ghost predicate AllWaiting(snaps: seq<Snap>, cutoff: int, markGaps: bool, now: int, rows: seq<Row>) {
    forall id: nat :: id < |rows| && rows[id].Due(now) ==> Waiting(snaps, cutoff, markGaps, rows[id])
  }

  /**
   One labelling pass. `stopAfter` is the number of batches after which the pass
   budget is spent. Each row is settled at most once, and then as
   SettlingIsExclusive says; the counts returned are exactly the rows that left
   pending, by way out; and when the pass stops on a short batch, every row still
   due is waiting.
   */
  method LabelForwardReturns(store: Store, now: int, cutoff: int, markGaps: bool, batchLimit: nat, stopAfter: nat)
    returns (labelled: nat, outside: nat, gap: nat, batches: nat, short: bool)
    modifies store
    ensures Progress(store.snaps, cutoff, markGaps, now, old(store.rows), store.rows)
    ensures Counted(old(store.rows), store.rows, labelled, outside, gap)
    ensures 1 <= batches <= if markGaps then MAX_BATCHES else 1
    ensures AllLabelled(store.snaps, old(store.rows), store.rows)
    ensures short ==> AllWaiting(store.snaps, cutoff, markGaps, now, store.rows)
  {
    hide AllLabelled;
    var labeling := new ForwardReturnPass(store.snaps, cutoff, markGaps);
    var maxBatches := if markGaps then MAX_BATCHES else 1;
    ghost var rows0 := store.rows;
    labelled, outside, gap, batches := 0, 0, 0, 0;
    while true
      invariant fresh(labeling) && labeling.Valid() && labeling.snaps == store.snaps
      invariant labeling.cutoff == cutoff && labeling.markGaps == markGaps
      invariant batches < maxBatches
      invariant Progress(store.snaps, cutoff, markGaps, now, rows0, store.rows)
      invariant Counted(rows0, store.rows, labelled, outside, gap)
      decreases maxBatches - batches
    {
      ghost var before := store.rows;
      var due := Pending(store.rows, now, batchLimit);
      PendingIsTheOldest(store.rows, now, batchLimit);
      batches := batches + 1;
      var l, o, g := labeling.LabelBatch(store, due);
      ProgressExtends(store.snaps, cutoff, markGaps, now, rows0, before, store.rows, due);
      labelled, outside, gap := labelled + l, outside + o, gap + g;
      if |due| < batchLimit {
        ShortBatchLeavesWaiting(store.snaps, cutoff, markGaps, now, batchLimit, before, store.rows);
        short := true;
        break;
      }
      if l + o + g == 0 || batches >= maxBatches || batches >= stopAfter {
        short := false;
        break;
      }
    }
    SettledAreLabelled(store.snaps, cutoff, markGaps, rows0, store.rows);
  }
}
