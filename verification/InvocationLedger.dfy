/**
 The invocation ledger (radar_v08/adapters/invocation_store.py on the rules of
 radar_v08/domain/invocation.py): claims with budget reservations, fenced leases,
 recovery of expired ones. Every operation is one database transaction; a run is
 any interleaving of the transactions of any number of owners.

 An invocation's id is its position in the table. Times are microseconds.
 */
module InvocationLedger {
  import opened Options

  datatype Identity = Identity(
    venue: string, marketKind: string, nativeInstrument: string, setup: string,
    direction: string, evidenceHash: string, policyVersion: string)

  datatype State = Claimed | Completed | Released

  datatype Invocation = Invocation(
    identity: Identity, model: string, state: State, generation: nat,
    owner: string, expiresAt: int, demand: nat, attempts: nat)

  datatype Lease = Lease(id: nat, generation: nat, owner: string, expiresAt: int)

  datatype Window = Hour(n: int) | Day(n: int)

  // One counter row of the budget table.
  datatype Key = Key(model: string, window: Window)

  // `issued` is history: every lease ever handed out.
  datatype Ledger = Ledger(invocations: seq<Invocation>, reserved: map<Key, nat>, issued: seq<Lease>)

  const EMPTY := Ledger([], map[], [])

  // --- budgets --------------------------------------------------------------------------

  datatype Limits = Limits(hourly: nat, daily: nat)

  type Budgets = map<string, Limits>

  // An unknown model has no budget at all.
  function LimitsOf(budgets: Budgets, model: string): Limits {
    if model in budgets then budgets[model] else Limits(0, 0)
  }

  function Limit(budgets: Budgets, k: Key): nat {
    if k.window.Hour? then LimitsOf(budgets, k.model).hourly else LimitsOf(budgets, k.model).daily
  }

  function HourKey(model: string, now: int): Key { Key(model, Hour(now / 3_600_000_000)) }

  function DayKey(model: string, now: int): Key { Key(model, Day(now / 86_400_000_000)) }

  function Used(reserved: map<Key, nat>, k: Key): nat { if k in reserved then reserved[k] else 0 }

  datatype Refusal = HourlyExhausted | DailyExhausted

  function RefusalReason(l: Ledger, budgets: Budgets, model: string, now: int): Option<Refusal> {
    if Used(l.reserved, HourKey(model, now)) >= LimitsOf(budgets, model).hourly then Some(HourlyExhausted)
    else if Used(l.reserved, DayKey(model, now)) >= LimitsOf(budgets, model).daily then Some(DailyExhausted)
    else None
  }

  function Bump(reserved: map<Key, nat>, k: Key): map<Key, nat> { reserved[k := Used(reserved, k) + 1] }

  // One unit in the hour and in the day window.
  function Reserve(reserved: map<Key, nat>, model: string, now: int): map<Key, nat> {
    Bump(Bump(reserved, HourKey(model, now)), DayKey(model, now))
  }

  // --- transactions -------------------------------------------------------------------------

  datatype Claim =
    | Won(lease: Lease)
    | Duplicate(id: nat)
    | Refused(reason: Refusal)

  function FindActive(invocations: seq<Invocation>, identity: Identity): (r: Option<nat>)
    ensures r.Some? ==> r.value < |invocations| && invocations[r.value].state == Claimed
                        && invocations[r.value].identity == identity
    ensures r.None? ==> forall i :: 0 <= i < |invocations| && invocations[i].state == Claimed ==>
                                      invocations[i].identity != identity
  {
    if invocations == [] then None
    else
      var n := |invocations| - 1;
      if invocations[n].state == Claimed && invocations[n].identity == identity then Some(n)
      else FindActive(invocations[..n], identity)
  }

  function ClaimInvocation(l: Ledger, budgets: Budgets, identity: Identity, model: string, owner: string, now: int, expiresAt: int)
    : (Ledger, Claim)
  {
    match FindActive(l.invocations, identity)
    case Some(id) =>
      var inv := l.invocations[id];
      (l.(invocations := l.invocations[id := inv.(demand := inv.demand + 1)]), Duplicate(id))
    case None =>
      match RefusalReason(l, budgets, model, now)
      case Some(reason) => (l, Refused(reason))
      case None =>
        var lease := Lease(|l.invocations|, 1, owner, expiresAt);
        (Ledger(l.invocations + [Invocation(identity, model, Claimed, 1, owner, expiresAt, 1, 0)],
                Reserve(l.reserved, model, now), l.issued + [lease]),
         Won(lease))
  }

  datatype Status = Applied | Fenced | LeaseExpired | NotActive | NotFound | BudgetExhausted

  // Whether a lease may still act: missing row, terminal state, fence, then expiry.
  function FenceStatus(l: Ledger, lease: Lease, now: int): Status {
    if lease.id >= |l.invocations| then NotFound
    else
      var inv := l.invocations[lease.id];
      if inv.state != Claimed then NotActive
      else if inv.generation != lease.generation || inv.owner != lease.owner then Fenced
      else if now >= inv.expiresAt then LeaseExpired
      else Applied
  }

  // The claim's unit covers the first attempt; each further one reserves its own.
  function RecordAttempt(l: Ledger, budgets: Budgets, lease: Lease, now: int): (Ledger, Status) {
    var status := FenceStatus(l, lease, now);
    if status != Applied then (l, status)
    else
      var inv := l.invocations[lease.id];
      var attempted := l.(invocations := l.invocations[lease.id := inv.(attempts := inv.attempts + 1)]);
      if inv.attempts == 0 then (attempted, Applied)
      else if RefusalReason(l, budgets, inv.model, now).Some? then (l, BudgetExhausted)
      else (attempted.(reserved := Reserve(l.reserved, inv.model, now)), Applied)
  }

  // complete_invocation and release_invocation.
  function EndInvocation(l: Ledger, lease: Lease, now: int, completed: bool): (Ledger, Status) {
    var status := FenceStatus(l, lease, now);
    if status != Applied then (l, status)
    else
      var inv := l.invocations[lease.id];
      (l.(invocations := l.invocations[lease.id := inv.(state := if completed then Completed else Released)]), Applied)
  }

  predicate Expired(l: Ledger, id: nat, now: int) {
    id < |l.invocations| && l.invocations[id].state == Claimed && l.invocations[id].expiresAt <= now
  }

  // Taking over one expired invocation; a recovery transaction takes over several.
  function TakeOver(l: Ledger, id: nat, owner: string, now: int, expiresAt: int): Ledger {
    if !Expired(l, id, now) then l
    else
      var inv := l.invocations[id];
      Ledger(l.invocations[id := inv.(generation := inv.generation + 1, owner := owner, expiresAt := expiresAt)],
             l.reserved, l.issued + [Lease(id, inv.generation + 1, owner, expiresAt)])
  }

  datatype Action =
    | DoClaim(identity: Identity, model: string, owner: string, now: int, expiresAt: int)
    | DoAttempt(lease: Lease, now: int)
    | DoEnd(lease: Lease, now: int, completed: bool)
    | DoTakeOver(id: nat, owner: string, now: int, expiresAt: int)

  function Apply(l: Ledger, budgets: Budgets, a: Action): Ledger {
    match a
    case DoClaim(identity, model, owner, now, expiresAt) =>
      ClaimInvocation(l, budgets, identity, model, owner, now, expiresAt).0
    case DoAttempt(lease, now) => RecordAttempt(l, budgets, lease, now).0
    case DoEnd(lease, now, completed) => EndInvocation(l, lease, now, completed).0
    case DoTakeOver(id, owner, now, expiresAt) => TakeOver(l, id, owner, now, expiresAt)
  }

  function RunFrom(l: Ledger, budgets: Budgets, actions: seq<Action>): Ledger {
    if actions == [] then l
    else Apply(RunFrom(l, budgets, actions[..|actions| - 1]), budgets, actions[|actions| - 1])
  }

  function Run(budgets: Budgets, actions: seq<Action>): Ledger { RunFrom(EMPTY, budgets, actions) }

  // --- sums over the tables ---------------------------------------------------------------------

  ghost function SumOver(m: map<Key, nat>, keys: set<Key>): nat
    requires keys <= m.Keys
  {
    if keys == {} then 0
    else
      var k :| k in keys;
      m[k] + SumOver(m, keys - {k})
  }

  lemma {:induction false} SumTakesOut(m: map<Key, nat>, keys: set<Key>, k: Key)
    requires keys <= m.Keys && k in keys
    ensures SumOver(m, keys) == m[k] + SumOver(m, keys - {k})
    decreases keys
  {
    var c :| c in keys && SumOver(m, keys) == m[c] + SumOver(m, keys - {c});
    if c != k {
      SumTakesOut(m, keys - {c}, k);
      SumTakesOut(m, keys - {k}, c);
      assert keys - {c} - {k} == keys - {k} - {c};
    }
  }

  lemma {:induction false} SumDepends(m: map<Key, nat>, n: map<Key, nat>, keys: set<Key>)
    requires keys <= m.Keys && keys <= n.Keys && forall k <- keys :: m[k] == n[k]
    ensures SumOver(m, keys) == SumOver(n, keys)
    decreases keys
  {
    if keys != {} {
      var k :| k in keys && SumOver(m, keys) == m[k] + SumOver(m, keys - {k});
      SumTakesOut(n, keys, k);
      SumDepends(m, n, keys - {k});
    }
  }

  ghost function KeysOf(m: map<Key, nat>, model: string, hourly: bool): set<Key> {
    set k | k in m && k.model == model && k.window.Hour? == hourly
  }

  // All units ever reserved for a model, in its hour windows or in its day windows.
  ghost function TotalReserved(m: map<Key, nat>, model: string, hourly: bool): nat {
    SumOver(m, KeysOf(m, model, hourly))
  }

  lemma BumpAddsOne(m: map<Key, nat>, k: Key, model: string, hourly: bool)
    ensures TotalReserved(Bump(m, k), model, hourly)
         == TotalReserved(m, model, hourly) + if k.model == model && k.window.Hour? == hourly then 1 else 0
  {
    var n := Bump(m, k);
    var before, after := KeysOf(m, model, hourly), KeysOf(n, model, hourly);
    if k.model == model && k.window.Hour? == hourly {
      assert after - {k} == before - {k};
      SumTakesOut(n, after, k);
      SumDepends(m, n, before - {k});
      if k in before {
        SumTakesOut(m, before, k);
      } else {
        assert before - {k} == before;
      }
    } else {
      assert after == before;
      SumDepends(m, n, before);
    }
  }

  lemma ReserveAddsOne(m: map<Key, nat>, model: string, now: int, other: string, hourly: bool)
    ensures TotalReserved(Reserve(m, model, now), other, hourly)
         == TotalReserved(m, other, hourly) + if other == model then 1 else 0
  {
    BumpAddsOne(m, HourKey(model, now), other, hourly);
    BumpAddsOne(Bump(m, HourKey(model, now)), DayKey(model, now), other, hourly);
  }

  // What an invocation costs: one unit for its claim, which covers the first attempt.
  function Units(inv: Invocation): nat { if inv.attempts == 0 then 1 else inv.attempts }

  function SumUnits(invocations: seq<Invocation>, model: string): nat {
    if invocations == [] then 0
    else
      var last := invocations[|invocations| - 1];
      SumUnits(invocations[..|invocations| - 1], model) + if last.model == model then Units(last) else 0
  }

  function SumAttempts(invocations: seq<Invocation>, model: string): nat {
    if invocations == [] then 0
    else
      var last := invocations[|invocations| - 1];
      SumAttempts(invocations[..|invocations| - 1], model) + if last.model == model then last.attempts else 0
  }

  lemma {:induction false} SumsUpdated(invocations: seq<Invocation>, id: nat, inv: Invocation, model: string)
    requires id < |invocations| && inv.model == invocations[id].model
    ensures SumUnits(invocations[id := inv], model)
         == SumUnits(invocations, model) + if inv.model == model then Units(inv) - Units(invocations[id]) else 0
    ensures SumAttempts(invocations[id := inv], model)
         == SumAttempts(invocations, model) + if inv.model == model then inv.attempts - invocations[id].attempts else 0
  {
    var n := |invocations| - 1;
    if id < n {
      SumsUpdated(invocations[..n], id, inv, model);
      assert invocations[id := inv][..n] == invocations[..n][id := inv];
    } else {
      assert invocations[id := inv][..n] == invocations[..n];
    }
  }

  lemma {:induction false} AttemptsAtMostUnits(invocations: seq<Invocation>, model: string)
    ensures SumAttempts(invocations, model) <= SumUnits(invocations, model)
  {
    if invocations != [] {
      AttemptsAtMostUnits(invocations[..|invocations| - 1], model);
    }
  }

  // --- invariant -----------------------------------------------------------------------------------

  ghost predicate OneActivePerIdentity(l: Ledger) {
    forall i, j :: 0 <= i < j < |l.invocations| && l.invocations[i].state == Claimed && l.invocations[j].state == Claimed ==>
                     l.invocations[i].identity != l.invocations[j].identity
  }

  ghost predicate WithinBudget(l: Ledger, budgets: Budgets) {
    forall k <- l.reserved :: l.reserved[k] <= Limit(budgets, k)
  }

  // Every unit reserved is a unit some invocation costs, in hours and in days.
  ghost predicate Balanced(l: Ledger) {
    forall model: string, hourly: bool ::
      TotalReserved(l.reserved, model, hourly) == SumUnits(l.invocations, model)
  }

  // Leases number the generations of their invocation: none is issued twice, none is ahead.
  ghost predicate LeasesNumbered(l: Ledger) {
    && (forall i :: 0 <= i < |l.issued| ==>
          l.issued[i].id < |l.invocations| && l.issued[i].generation <= l.invocations[l.issued[i].id].generation)
    && (forall i, j :: 0 <= i < j < |l.issued| && l.issued[i].id == l.issued[j].id ==>
                         l.issued[i].generation < l.issued[j].generation)
  }

  ghost predicate Ok(l: Ledger, budgets: Budgets) {
    OneActivePerIdentity(l) && WithinBudget(l, budgets) && Balanced(l) && LeasesNumbered(l)
  }

  lemma ReserveWithinBudget(l: Ledger, budgets: Budgets, model: string, now: int)
    requires WithinBudget(l, budgets) && RefusalReason(l, budgets, model, now).None?
    ensures WithinBudget(l.(reserved := Reserve(l.reserved, model, now)), budgets)
  {
    var h, d := HourKey(model, now), DayKey(model, now);
    var r := Reserve(l.reserved, model, now);
    forall k <- r ensures r[k] <= Limit(budgets, k) {
      assert k == h || k == d || (k in l.reserved && r[k] == l.reserved[k]);
    }
  }

  // One more invocation, its unit reserved.
  lemma WonOk(l: Ledger, budgets: Budgets, inv: Invocation, now: int, lease: Lease)
    requires Ok(l, budgets) && RefusalReason(l, budgets, inv.model, now).None?
    requires inv.state == Claimed && inv.attempts == 0 && inv.generation == lease.generation && lease.id == |l.invocations|
    requires forall i :: 0 <= i < |l.invocations| && l.invocations[i].state == Claimed ==> l.invocations[i].identity != inv.identity
    ensures Ok(Ledger(l.invocations + [inv], Reserve(l.reserved, inv.model, now), l.issued + [lease]), budgets)
  {
    hide RefusalReason, Reserve;
    var t := Ledger(l.invocations + [inv], Reserve(l.reserved, inv.model, now), l.issued + [lease]);
    ReserveWithinBudget(l, budgets, inv.model, now);
    assert WithinBudget(t, budgets);
    assert t.invocations[..|l.invocations|] == l.invocations;
    forall model: string, hourly: bool
      ensures TotalReserved(t.reserved, model, hourly) == SumUnits(t.invocations, model)
    {
      ReserveAddsOne(l.reserved, inv.model, now, model, hourly);
    }
  }

  lemma ClaimOk(l: Ledger, budgets: Budgets, a: Action)
    requires Ok(l, budgets) && a.DoClaim?
    ensures Ok(Apply(l, budgets, a), budgets)
  {
    hide Ok, RefusalReason, Reserve;
    match FindActive(l.invocations, a.identity)
    case Some(id) =>
      var inv := l.invocations[id];
      RowOk(l, budgets, id, inv.(demand := inv.demand + 1));
    case None =>
      if RefusalReason(l, budgets, a.model, a.now).None? {
        var n := |l.invocations|;
        WonOk(l, budgets, Invocation(a.identity, a.model, Claimed, 1, a.owner, a.expiresAt, 1, 0), a.now,
              Lease(n, 1, a.owner, a.expiresAt));
      }
  }

  // A transaction that changes one claimed row and keeps its identity and model.
  lemma RowOk(l: Ledger, budgets: Budgets, id: nat, inv: Invocation)
    requires Ok(l, budgets) && id < |l.invocations| && l.invocations[id].state == Claimed
    requires inv.identity == l.invocations[id].identity && inv.model == l.invocations[id].model
    requires inv.attempts == l.invocations[id].attempts || (l.invocations[id].attempts == 0 && inv.attempts == 1)
    requires inv.generation == l.invocations[id].generation
    ensures Ok(l.(invocations := l.invocations[id := inv]), budgets)
  {
    var t := l.(invocations := l.invocations[id := inv]);
    forall model: string, hourly: bool
      ensures TotalReserved(t.reserved, model, hourly) == SumUnits(t.invocations, model)
    {
      SumsUpdated(l.invocations, id, inv, model);
    }
  }

  // A further attempt, its unit reserved.
  lemma AgainOk(l: Ledger, budgets: Budgets, id: nat, now: int)
    requires Ok(l, budgets) && id < |l.invocations| && l.invocations[id].attempts > 0
    requires l.invocations[id].state == Claimed && RefusalReason(l, budgets, l.invocations[id].model, now).None?
    ensures var inv := l.invocations[id];
            Ok(l.(invocations := l.invocations[id := inv.(attempts := inv.attempts + 1)], reserved := Reserve(l.reserved, inv.model, now)), budgets)
  {
    hide RefusalReason, Reserve;
    var inv := l.invocations[id];
    var more := inv.(attempts := inv.attempts + 1);
    var t := l.(invocations := l.invocations[id := more], reserved := Reserve(l.reserved, inv.model, now));
    ReserveWithinBudget(l, budgets, inv.model, now);
    forall model: string, hourly: bool
      ensures TotalReserved(t.reserved, model, hourly) == SumUnits(t.invocations, model)
    {
      SumsUpdated(l.invocations, id, more, model);
      ReserveAddsOne(l.reserved, inv.model, now, model, hourly);
    }
  }

  lemma AttemptOk(l: Ledger, budgets: Budgets, lease: Lease, now: int)
    requires Ok(l, budgets)
    ensures Ok(RecordAttempt(l, budgets, lease, now).0, budgets)
  {
    hide Ok, RefusalReason, Reserve;
    if FenceStatus(l, lease, now) == Applied {
      var inv := l.invocations[lease.id];
      if inv.attempts == 0 {
        RowOk(l, budgets, lease.id, inv.(attempts := inv.attempts + 1));
      } else if RefusalReason(l, budgets, inv.model, now).None? {
        AgainOk(l, budgets, lease.id, now);
      }
    }
  }

  lemma TakeOverOk(l: Ledger, budgets: Budgets, a: Action)
    requires Ok(l, budgets) && a.DoTakeOver?
    ensures Ok(Apply(l, budgets, a), budgets)
  {
    if Expired(l, a.id, a.now) {
      var t := Apply(l, budgets, a);
      forall model: string, hourly: bool
        ensures TotalReserved(t.reserved, model, hourly) == SumUnits(t.invocations, model)
      {
        SumsUpdated(l.invocations, a.id, t.invocations[a.id], model);
      }
    }
  }

  lemma StepOk(l: Ledger, budgets: Budgets, a: Action)
    requires Ok(l, budgets)
    ensures Ok(Apply(l, budgets, a), budgets)
  {
    match a
    case DoClaim(_, _, _, _, _) => ClaimOk(l, budgets, a);
    case DoAttempt(lease, now) => AttemptOk(l, budgets, lease, now);
    case DoEnd(lease, now, completed) =>
      if FenceStatus(l, lease, now) == Applied {
        RowOk(l, budgets, lease.id, l.invocations[lease.id].(state := if completed then Completed else Released));
      }
    case DoTakeOver(_, _, _, _) => TakeOverOk(l, budgets, a);
  }

  lemma EmptyOk(budgets: Budgets)
    ensures Ok(EMPTY, budgets)
  {
    forall model: string, hourly: bool ensures TotalReserved(EMPTY.reserved, model, hourly) == 0 {
      assert KeysOf(EMPTY.reserved, model, hourly) == {};
    }
  }

  lemma {:induction false} RunOk(budgets: Budgets, actions: seq<Action>)
    ensures Ok(Run(budgets, actions), budgets)
  {
    if actions == [] {
      EmptyOk(budgets);
    } else {
      RunOk(budgets, actions[..|actions| - 1]);
      StepOk(Run(budgets, actions[..|actions| - 1]), budgets, actions[|actions| - 1]);
    }
  }

  // --- theorems over every run ---------------------------------------------------------------------

  /**
   Budget conservation: in every run the units reserved for a model, summed over
   its hour windows or over its day windows, are exactly the units its invocations
   cost; so recorded attempts never exceed reservations, and no window exceeds its
   limit.
   */
  lemma BudgetIsConserved(budgets: Budgets, actions: seq<Action>, model: string, hourly: bool, k: Key)
    ensures var l := Run(budgets, actions);
            && TotalReserved(l.reserved, model, hourly) == SumUnits(l.invocations, model)
            && SumAttempts(l.invocations, model) <= TotalReserved(l.reserved, model, hourly)
            && Used(l.reserved, k) <= Limit(budgets, k)
  {
    RunOk(budgets, actions);
    AttemptsAtMostUnits(Run(budgets, actions).invocations, model);
  }

  /** A claim charges one unit in each kind of window exactly when it wins; otherwise none. */
  lemma OnlyWinningClaimsCharge(l: Ledger, budgets: Budgets, identity: Identity, model: string, owner: string, now: int, expiresAt: int, other: string, hourly: bool)
    ensures var (t, claim) := ClaimInvocation(l, budgets, identity, model, owner, now, expiresAt);
            TotalReserved(t.reserved, other, hourly)
            == TotalReserved(l.reserved, other, hourly) + if claim.Won? && other == model then 1 else 0
  {
    ReserveAddsOne(l.reserved, model, now, other, hourly);
  }

  /** At most one invocation per identity is active at any moment of any run. */
  lemma ActiveIsUnique(budgets: Budgets, actions: seq<Action>, i: nat, j: nat)
    requires var l := Run(budgets, actions);
             i < |l.invocations| && j < |l.invocations|
             && l.invocations[i].state == Claimed && l.invocations[j].state == Claimed
             && l.invocations[i].identity == l.invocations[j].identity
    ensures i == j
  {
    RunOk(budgets, actions);
  }

  /** Of all leases ever issued, at most one per invocation can act at any moment. */
  lemma OneLeaseActs(budgets: Budgets, actions: seq<Action>, i: nat, j: nat, now: int)
    requires var l := Run(budgets, actions);
             i < |l.issued| && j < |l.issued| && l.issued[i].id == l.issued[j].id
             && FenceStatus(l, l.issued[i], now) == Applied && FenceStatus(l, l.issued[j], now) == Applied
    ensures i == j
  {
    RunOk(budgets, actions);
  }

  // The invocation is over, or a newer generation holds it.
  predicate Stale(l: Ledger, lease: Lease) {
    && lease.id < |l.invocations|
    && (l.invocations[lease.id].state != Claimed || l.invocations[lease.id].generation > lease.generation)
  }

  lemma StepKeepsStale(l: Ledger, budgets: Budgets, lease: Lease, a: Action)
    requires Stale(l, lease)
    ensures Stale(Apply(l, budgets, a), lease)
  {
    hide FindActive, RefusalReason, Reserve;
  }

  lemma {:induction false} StaleStays(l: Ledger, budgets: Budgets, lease: Lease, actions: seq<Action>)
    requires Stale(l, lease)
    ensures Stale(RunFrom(l, budgets, actions), lease)
  {
    if actions != [] {
      hide Stale, Apply;
      StaleStays(l, budgets, lease, actions[..|actions| - 1]);
      StepKeepsStale(RunFrom(l, budgets, actions[..|actions| - 1]), budgets, lease, actions[|actions| - 1]);
    }
  }

  /**
   Fencing is forever: after its invocation ended or was taken over, a lease never
   again changes anything, whatever else happens: no attempt, no completion, no
   release.
   */
  lemma FencedForever(l: Ledger, budgets: Budgets, lease: Lease, actions: seq<Action>, now: int, completed: bool)
    requires Stale(l, lease)
    ensures var t := RunFrom(l, budgets, actions);
            && RecordAttempt(t, budgets, lease, now).0 == t && RecordAttempt(t, budgets, lease, now).1 != Applied
            && EndInvocation(t, lease, now, completed).0 == t && EndInvocation(t, lease, now, completed).1 != Applied
  {
    StaleStays(l, budgets, lease, actions);
  }

  // This completion or release takes effect.
  predicate Ends(l: Ledger, a: Action, id: nat) { a.DoEnd? && a.lease.id == id && FenceStatus(l, a.lease, a.now) == Applied }

  function IsOver(l: Ledger, id: nat): nat { if id < |l.invocations| && l.invocations[id].state != Claimed then 1 else 0 }

  // How many completions and releases of one invocation took effect in a run.
  function Endings(budgets: Budgets, actions: seq<Action>, id: nat): nat {
    if actions == [] then 0
    else
      Endings(budgets, actions[..|actions| - 1], id)
      + if Ends(Run(budgets, actions[..|actions| - 1]), actions[|actions| - 1], id) then 1 else 0
  }

  lemma StepEnds(l: Ledger, budgets: Budgets, a: Action, id: nat)
    ensures IsOver(Apply(l, budgets, a), id) == IsOver(l, id) + if Ends(l, a, id) then 1 else 0
  {
    hide FindActive, RefusalReason, Reserve;
  }

  /** An invocation ends at most once: one result at most is ever committed for it. */
  lemma {:induction false} EndsAtMostOnce(budgets: Budgets, actions: seq<Action>, id: nat)
    ensures Endings(budgets, actions, id) == IsOver(Run(budgets, actions), id) <= 1
  {
    if actions != [] {
      hide Apply, Ends, IsOver;
      EndsAtMostOnce(budgets, actions[..|actions| - 1], id);
      StepEnds(Run(budgets, actions[..|actions| - 1]), budgets, actions[|actions| - 1], id);
    }
  }
}
