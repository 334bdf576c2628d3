/**
 The spot snapshot table as forward-return labelling sees it (radar_v08/store.py):
 nearest lookup, oldest and latest stamps, inserts and pruning.

 Stamps are microseconds; the stored text form orders the same way (module IsoText).
 */
module SnapshotTable {
  import opened Numbers
  import opened Options

  const TOLERANCE: int := 120_000_000   // FORWARD_RETURN_LOOKUP_TOLERANCE_SECONDS
  const MARGIN: int := 5_000_000        // FORWARD_RETURN_GAP_MARGIN_SECONDS

  datatype Snap = Snap(pair: string, ts: int, last: real)

  // Does a snapshot belong to the pair asked for; no pair asks for all.
  predicate Of(s: Snap, pair: Option<string>) { pair.None? || s.pair == pair.value }

  function Min(x: Option<int>, y: int): Option<int> { if x.Some? && x.value <= y then x else Some(y) }

  function Max(x: Option<int>, y: int): Option<int> { if x.Some? && x.value >= y then x else Some(y) }

  // SELECT MIN(ts) and MAX(ts), for one pair or for all.
  function Oldest(snaps: seq<Snap>, pair: Option<string>): (r: Option<int>)
    ensures r.None? <==> forall i :: 0 <= i < |snaps| ==> !Of(snaps[i], pair)
    ensures r.Some? ==> exists i :: 0 <= i < |snaps| && Of(snaps[i], pair) && snaps[i].ts == r.value
    ensures r.Some? ==> forall i :: 0 <= i < |snaps| && Of(snaps[i], pair) ==> r.value <= snaps[i].ts
  {
    if snaps == [] then None
    else
      var rest := Oldest(snaps[..|snaps| - 1], pair);
      var s := snaps[|snaps| - 1];
      assert forall i :: 0 <= i < |snaps| - 1 ==> snaps[..|snaps| - 1][i] == snaps[i];
      if Of(s, pair) then Min(rest, s.ts) else rest
  }

  function Latest(snaps: seq<Snap>, pair: Option<string>): (r: Option<int>)
    ensures r.None? <==> forall i :: 0 <= i < |snaps| ==> !Of(snaps[i], pair)
    ensures r.Some? ==> exists i :: 0 <= i < |snaps| && Of(snaps[i], pair) && snaps[i].ts == r.value
    ensures r.Some? ==> forall i :: 0 <= i < |snaps| && Of(snaps[i], pair) ==> snaps[i].ts <= r.value
  {
    if snaps == [] then None
    else
      var rest := Latest(snaps[..|snaps| - 1], pair);
      var s := snaps[|snaps| - 1];
      assert forall i :: 0 <= i < |snaps| - 1 ==> snaps[..|snaps| - 1][i] == snaps[i];
      if Of(s, pair) then Max(rest, s.ts) else rest
  }

  // A snapshot of the pair in the lookup window around a target.
  predicate InWindow(s: Snap, pair: string, target: int) {
    s.pair == pair && target - TOLERANCE <= s.ts <= target + TOLERANCE
  }

  ghost predicate WindowEmpty(snaps: seq<Snap>, pair: string, target: int) {
    forall i :: 0 <= i < |snaps| ==> !InWindow(snaps[i], pair, target)
  }

  // nearest_spot_snapshot_by_pair: nearest to the target, the earlier of two equally near ones.
  function NearestSnap(snaps: seq<Snap>, pair: string, target: int): (r: Option<Snap>)
    ensures r.None? <==> WindowEmpty(snaps, pair, target)
    ensures r.Some? ==> InWindow(r.value, pair, target) && r.value in snaps
    ensures r.Some? ==> forall i :: 0 <= i < |snaps| && InWindow(snaps[i], pair, target) ==>
                                      AbsInt(r.value.ts - target) <= AbsInt(snaps[i].ts - target)
  {
    if snaps == [] then None
    else
      var best := NearestSnap(snaps[..|snaps| - 1], pair, target);
      var s := snaps[|snaps| - 1];
      assert forall i :: 0 <= i < |snaps| - 1 ==> snaps[..|snaps| - 1][i] == snaps[i];
      if !InWindow(s, pair, target) then best
      else if best.None? || AbsInt(s.ts - target) < AbsInt(best.value.ts - target)
              || (AbsInt(s.ts - target) == AbsInt(best.value.ts - target) && s.ts < best.value.ts) then Some(s)
      else best
  }

  /** Of two equally near snapshots the earlier one is found. */
  lemma {:induction false} NearestSnapIsEarlier(snaps: seq<Snap>, pair: string, target: int, i: nat)
    requires i < |snaps| && InWindow(snaps[i], pair, target)
    ensures var r := NearestSnap(snaps, pair, target);
            r.Some? && (AbsInt(snaps[i].ts - target) == AbsInt(r.value.ts - target) ==> r.value.ts <= snaps[i].ts)
  {
    if i < |snaps| - 1 {
      NearestSnapIsEarlier(snaps[..|snaps| - 1], pair, target, i);
    }
  }

  // --- the two tests that make a mark irrevocable ------------------------------------------

  // The whole window lies before the retention boundary.
  predicate OutsideRetention(snaps: seq<Snap>, cutoff: int, windowEnd: int) {
    windowEnd < cutoff || (Oldest(snaps, None).Some? && windowEnd < Oldest(snaps, None).value)
  }

  // Some snapshot lies strictly after the window's end plus the margin.
  predicate WindowClosed(snaps: seq<Snap>, windowEnd: int) {
    Latest(snaps, None).Some? && Latest(snaps, None).value > windowEnd + MARGIN
  }

  // --- the table over time -------------------------------------------------------------------

  // `applied` is the latest retention cutoff any prune or labelling pass has computed.
  datatype Table = Table(snaps: seq<Snap>, applied: Option<int>)

  datatype Change = Insert(snap: Snap) | Prune(cutoff: int) | Pass(cutoff: int)

  function Kept(snaps: seq<Snap>, cutoff: int): (r: seq<Snap>)
    ensures forall s <- r :: s in snaps && s.ts >= cutoff
    ensures forall s <- snaps :: s.ts >= cutoff ==> s in r
  {
    if snaps == [] then []
    else
      var s := snaps[|snaps| - 1];
      assert snaps == snaps[..|snaps| - 1] + [s];
      Kept(snaps[..|snaps| - 1], cutoff) + if s.ts >= cutoff then [s] else []
  }

  function Apply(t: Table, c: Change): Table {
    match c
    case Insert(s) => t.(snaps := t.snaps + [s])
    case Prune(cutoff) => Table(Kept(t.snaps, cutoff), Max(t.applied, cutoff))
    case Pass(cutoff) => t.(applied := Max(t.applied, cutoff))
  }

  // New stamps never precede the oldest retained one, and never fall more than the margin behind the latest.
  predicate NearlyOrdered(snaps: seq<Snap>, ts: int) {
    && (Oldest(snaps, None).Some? ==> Oldest(snaps, None).value <= ts)
    && (Latest(snaps, None).Some? ==> Latest(snaps, None).value - MARGIN <= ts)
  }

  // Nor do they precede a retention cutoff already applied: snapshots carry the current cycle's time.
  predicate Allowed(t: Table, c: Change) {
    c.Insert? ==> NearlyOrdered(t.snaps, c.snap.ts) && (t.applied.Some? ==> t.applied.value <= c.snap.ts)
  }

  function Run(t: Table, changes: seq<Change>): Table {
    if changes == [] then t else Apply(Run(t, changes[..|changes| - 1]), changes[|changes| - 1])
  }

  predicate AllowedRun(t: Table, changes: seq<Change>) {
    changes == [] ||
    (AllowedRun(t, changes[..|changes| - 1]) && Allowed(Run(t, changes[..|changes| - 1]), changes[|changes| - 1]))
  }

  // No allowed insert can land at or before the window's end.
  predicate Sealed(t: Table, windowEnd: int) {
    || (Oldest(t.snaps, None).Some? && windowEnd < Oldest(t.snaps, None).value)
    || WindowClosed(t.snaps, windowEnd)
    || (t.applied.Some? && windowEnd < t.applied.value)
  }

  lemma InsertKeepsSeal(t: Table, s: Snap, windowEnd: int)
    requires Sealed(t, windowEnd) && Allowed(t, Insert(s))
    ensures Sealed(Apply(t, Insert(s)), windowEnd) && windowEnd < s.ts
  {
    var u := t.snaps + [s];
    assert u[..|u| - 1] == t.snaps;
  }

  // The newest snapshot goes last.
  lemma PruneKeepsClosed(snaps: seq<Snap>, cutoff: int, windowEnd: int)
    requires WindowClosed(snaps, windowEnd) && cutoff <= windowEnd
    ensures WindowClosed(Kept(snaps, cutoff), windowEnd)
  {
    hide Kept, Oldest, Latest;
    var kept := Kept(snaps, cutoff);
    var i :| 0 <= i < |snaps| && snaps[i].ts == Latest(snaps, None).value;
    assert snaps[i] in kept;
    var k :| 0 <= k < |kept| && kept[k] == snaps[i];
    assert Of(kept[k], None);
  }

  lemma PruneKeepsOldest(snaps: seq<Snap>, cutoff: int, windowEnd: int)
    requires Oldest(snaps, None).Some? && windowEnd < Oldest(snaps, None).value && cutoff <= windowEnd
    ensures Oldest(Kept(snaps, cutoff), None).Some? && windowEnd < Oldest(Kept(snaps, cutoff), None).value
  {
    hide Kept, Oldest, Latest;
    var kept := Kept(snaps, cutoff);
    var i :| 0 <= i < |snaps| && snaps[i].ts == Oldest(snaps, None).value;
    assert snaps[i] in kept;
    var k :| 0 <= k < |kept| && kept[k] == snaps[i];
    assert Of(kept[k], None);
    var m :| 0 <= m < |kept| && kept[m].ts == Oldest(kept, None).value;
    assert kept[m] in snaps;
    var j :| 0 <= j < |snaps| && snaps[j] == kept[m];
    assert Of(snaps[j], None);
  }

  lemma PruneKeepsSeal(t: Table, cutoff: int, windowEnd: int)
    requires Sealed(t, windowEnd)
    ensures Sealed(Apply(t, Prune(cutoff)), windowEnd)
  {
    hide Kept, Oldest, Latest, WindowClosed;
    if !(windowEnd < cutoff) && !(t.applied.Some? && windowEnd < t.applied.value) {
      if WindowClosed(t.snaps, windowEnd) {
        PruneKeepsClosed(t.snaps, cutoff, windowEnd);
      } else {
        PruneKeepsOldest(t.snaps, cutoff, windowEnd);
      }
    }
  }

  lemma PruneKeepsEmpty(snaps: seq<Snap>, cutoff: int, pair: string, target: int)
    requires WindowEmpty(snaps, pair, target)
    ensures WindowEmpty(Kept(snaps, cutoff), pair, target)
  {
    var kept := Kept(snaps, cutoff);
    forall i | 0 <= i < |kept| ensures !InWindow(kept[i], pair, target) {
      assert kept[i] in snaps;
    }
  }

  lemma {:induction false} SealedForever(t: Table, changes: seq<Change>, pair: string, target: int)
    requires Sealed(t, target + TOLERANCE) && WindowEmpty(t.snaps, pair, target) && AllowedRun(t, changes)
    ensures Sealed(Run(t, changes), target + TOLERANCE) && WindowEmpty(Run(t, changes).snaps, pair, target)
  {
    if changes != [] {
      var before, c := changes[..|changes| - 1], changes[|changes| - 1];
      SealedForever(t, before, pair, target);
      var u := Run(t, before);
      match c
      case Insert(s) => InsertKeepsSeal(u, s, target + TOLERANCE);
      case Prune(cutoff) =>
        PruneKeepsSeal(u, cutoff, target + TOLERANCE);
        PruneKeepsEmpty(u.snaps, cutoff, pair, target);
      case Pass(_) =>
    }
  }

  /**
   Marking is final: a row marked by either test of a pass, its window empty then,
   never gains a snapshot of its pair inside that window, in any later run of
   inserts, prunes and passes.
   */
  lemma MarkIsFinal(t: Table, cutoff: int, changes: seq<Change>, pair: string, target: int)
    requires WindowEmpty(t.snaps, pair, target)
    requires OutsideRetention(t.snaps, cutoff, target + TOLERANCE) || WindowClosed(t.snaps, target + TOLERANCE)
    requires AllowedRun(Apply(t, Pass(cutoff)), changes)
    ensures NearestSnap(Run(Apply(t, Pass(cutoff)), changes).snaps, pair, target).None?
  {
    SealedForever(Apply(t, Pass(cutoff)), changes, pair, target);
  }

  // An unsealed window can be filled at once, by a stamp at its end.
  lemma UnsealedCanFill(t: Table, pair: string, target: int)
    requires !Sealed(t, target + TOLERANCE)
    ensures var s := Snap(pair, target + TOLERANCE, 1.0);
            AllowedRun(t, [Insert(s)]) && !WindowEmpty(Run(t, [Insert(s)]).snaps, pair, target)
  {
    var s := Snap(pair, target + TOLERANCE, 1.0);
    assert [Insert(s)][..0] == [];
    assert AllowedRun(t, []) && Run(t, []) == t;
    assert Run(t, [Insert(s)]).snaps[|t.snaps|] == s;
  }

  /** An empty window stays empty in every allowed run of inserts, prunes and passes if and only if it is sealed. */
  lemma EmptyForeverExactlyWhenSealed(t: Table, pair: string, target: int)
    requires WindowEmpty(t.snaps, pair, target)
    ensures (forall changes :: AllowedRun(t, changes) ==> WindowEmpty(Run(t, changes).snaps, pair, target))
            <==> Sealed(t, target + TOLERANCE)
  {
    hide Sealed, WindowEmpty, Run, AllowedRun;
    if Sealed(t, target + TOLERANCE) {
      forall changes | AllowedRun(t, changes) ensures WindowEmpty(Run(t, changes).snaps, pair, target) {
        SealedForever(t, changes, pair, target);
      }
    } else {
      UnsealedCanFill(t, pair, target);
      var changes := [Insert(Snap(pair, target + TOLERANCE, 1.0))];
      assert AllowedRun(t, changes) && !WindowEmpty(Run(t, changes).snaps, pair, target);
    }
  }

  /**
   A pass marks exactly the rows that can never be labelled: with an empty window, and no
   earlier cutoff beyond this one, the window stays empty in every allowed future if and
   only if one of the two tests holds.
   */
  lemma MarksAreExact(t: Table, cutoff: int, pair: string, target: int)
    requires WindowEmpty(t.snaps, pair, target) && (t.applied.Some? ==> t.applied.value <= cutoff)
    ensures var u := Apply(t, Pass(cutoff));
            (forall changes :: AllowedRun(u, changes) ==> NearestSnap(Run(u, changes).snaps, pair, target).None?)
            <==>
            OutsideRetention(t.snaps, cutoff, target + TOLERANCE) || WindowClosed(t.snaps, target + TOLERANCE)
  {
    hide WindowEmpty, WindowClosed, Oldest, Latest, Run, AllowedRun;
    EmptyForeverExactlyWhenSealed(Apply(t, Pass(cutoff)), pair, target);
  }

  /**
   The two snapshot tests are not only sufficient but exact: on a table that is
   only inserted into, in near order, a window can still receive a snapshot
   unless one of them holds.
   */
  lemma SnapshotTestsAreExact(snaps: seq<Snap>, windowEnd: int)
    ensures (forall ts: int :: NearlyOrdered(snaps, ts) ==> windowEnd < ts)
            <==>
            (Oldest(snaps, None).Some? && windowEnd < Oldest(snaps, None).value) || WindowClosed(snaps, windowEnd)
  {
    if !(Oldest(snaps, None).Some? && windowEnd < Oldest(snaps, None).value) && !WindowClosed(snaps, windowEnd) {
      assert NearlyOrdered(snaps, windowEnd);
    }
  }

  /**
   Near order alone does not make a mark by the prune cutoff final: with an old
   snapshot not yet pruned, a stamp older than the cutoff is still in near order
   and fills the marked window.
   */
  lemma CutoffMarkNeedsFreshStamps() returns (t: Table, cutoff: int, s: Snap, target: int)
    ensures WindowEmpty(t.snaps, s.pair, target) && OutsideRetention(t.snaps, cutoff, target + TOLERANCE)
    ensures NearlyOrdered(t.snaps, s.ts) && !Allowed(Apply(t, Pass(cutoff)), Insert(s))
    ensures !WindowEmpty(Apply(t, Insert(s)).snaps, s.pair, target)
  {
    t, cutoff, s, target := Table([Snap("XBT/USD", 0, 1.0)], None), 400_000_000, Snap("ETH/USD", 200_000_000, 1.0), 200_000_000;
    assert t.snaps[0].pair[0] != s.pair[0];
    assert Of(t.snaps[0], None);
    assert Apply(t, Insert(s)).snaps[1] == s;
  }
}
