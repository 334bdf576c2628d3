/**
 What each transaction of the invocation ledger answers and changes, exactly when
 (radar_v08/adapters/invocation_store.py, radar_v08/domain/invocation.py), and what the
 counters of the budget windows count over a run.
 */
module LedgerAnswers {
  import opened Numbers
  import opened InvocationLedger

  const HOUR: int := 3_600_000_000
  const DAY: int := 86_400_000_000

  // --- the windows ------------------------------------------------------------------------

  // A time lies in a window.
  predicate During(now: int, w: Window) {
    match w
    case Hour(n) => n * HOUR <= now < (n + 1) * HOUR
    case Day(n) => n * DAY <= now < (n + 1) * DAY
  }

  // The transaction reserves a unit of this model: a claim that wins, or an attempt after the first.
  predicate Charges(l: Ledger, budgets: Budgets, a: Action, model: string) {
    match a
    case DoClaim(identity, m, owner, now, expiresAt) =>
      m == model && ClaimInvocation(l, budgets, identity, m, owner, now, expiresAt).1.Won?
    case DoAttempt(lease, now) =>
      && RecordAttempt(l, budgets, lease, now).1 == Applied && lease.id < |l.invocations|
      && l.invocations[lease.id].model == model && l.invocations[lease.id].attempts > 0
    case _ => false
  }

  // How many units of a run were reserved at times in one window.
  function Charged(budgets: Budgets, actions: seq<Action>, k: Key): nat {
    if actions == [] then 0
    else
      var front, a := actions[..|actions| - 1], actions[|actions| - 1];
      Charged(budgets, front, k)
      + One((a.DoClaim? || a.DoAttempt?) && Charges(Run(budgets, front), budgets, a, k.model) && During(a.now, k.window))
  }

  lemma KeyOfTime(model: string, now: int, k: Key)
    ensures k == HourKey(model, now) <==> k.model == model && k.window.Hour? && During(now, k.window)
    ensures k == DayKey(model, now) <==> k.model == model && k.window.Day? && During(now, k.window)
  {
  }

  lemma ReserveUses(reserved: map<Key, nat>, model: string, now: int, k: Key)
    ensures Used(Reserve(reserved, model, now), k) == Used(reserved, k) + One(k.model == model && During(now, k.window))
  {
    KeyOfTime(model, now, k);
    assert HourKey(model, now) != DayKey(model, now);
  }

  lemma StepCharges(l: Ledger, budgets: Budgets, a: Action, k: Key)
    ensures Used(Apply(l, budgets, a).reserved, k)
         == Used(l.reserved, k)
            + One((a.DoClaim? || a.DoAttempt?) && Charges(l, budgets, a, k.model) && During(a.now, k.window))
  {
    hide During, Reserve, RefusalReason, FindActive, HourKey, DayKey;
    match a
    case DoClaim(_, model, _, now, _) => ReserveUses(l.reserved, model, now, k);
    case DoAttempt(lease, now) =>
      if lease.id < |l.invocations| {
        ReserveUses(l.reserved, l.invocations[lease.id].model, now, k);
      }
    case _ =>
  }

  /** The counter of a window is the number of units the run reserved at times in it. */
  lemma {:induction false} WindowsCountCharges(budgets: Budgets, actions: seq<Action>, k: Key)
    ensures Used(Run(budgets, actions).reserved, k) == Charged(budgets, actions, k)
  {
    if actions != [] {
      hide Apply, Charges, During;
      WindowsCountCharges(budgets, actions[..|actions| - 1], k);
      StepCharges(Run(budgets, actions[..|actions| - 1]), budgets, actions[|actions| - 1], k);
    }
  }

  // --- claims ---------------------------------------------------------------------------------

  predicate ActiveAt(l: Ledger, identity: Identity, id: nat) {
    id < |l.invocations| && l.invocations[id].state == Claimed && l.invocations[id].identity == identity
  }

  ghost predicate Active(l: Ledger, identity: Identity) { exists id: nat :: ActiveAt(l, identity, id) }

  // The windows a time lies in have a unit left.
  ghost predicate HourHasRoom(budgets: Budgets, actions: seq<Action>, model: string, now: int) {
    model in budgets && forall n: int :: During(now, Hour(n)) ==> Charged(budgets, actions, Key(model, Hour(n))) < budgets[model].hourly
  }

  ghost predicate DayHasRoom(budgets: Budgets, actions: seq<Action>, model: string, now: int) {
    model in budgets && forall n: int :: During(now, Day(n)) ==> Charged(budgets, actions, Key(model, Day(n))) < budgets[model].daily
  }

  lemma RoomMeans(budgets: Budgets, actions: seq<Action>, model: string, now: int)
    ensures var l := Run(budgets, actions);
            && (Used(l.reserved, HourKey(model, now)) < LimitsOf(budgets, model).hourly <==> HourHasRoom(budgets, actions, model, now))
            && (Used(l.reserved, DayKey(model, now)) < LimitsOf(budgets, model).daily <==> DayHasRoom(budgets, actions, model, now))
  {
    hide Run, Charged;
    WindowsCountCharges(budgets, actions, HourKey(model, now));
    WindowsCountCharges(budgets, actions, DayKey(model, now));
    KeyOfTime(model, now, HourKey(model, now));
    KeyOfTime(model, now, DayKey(model, now));
    forall n: int | During(now, Hour(n)) ensures Key(model, Hour(n)) == HourKey(model, now) {
      KeyOfTime(model, now, Key(model, Hour(n)));
    }
    forall n: int | During(now, Day(n)) ensures Key(model, Day(n)) == DayKey(model, now) {
      KeyOfTime(model, now, Key(model, Day(n)));
    }
  }

  // The invocation a winning claim opens.
  predicate Opened(l: Ledger, t: Ledger, lease: Lease, identity: Identity, model: string, owner: string, expiresAt: int) {
    var n := |l.invocations|;
    && |t.invocations| == n + 1 && t.invocations[..n] == l.invocations
    && var inv := t.invocations[n];
       && inv.identity == identity && inv.model == model && inv.state == Claimed && inv.owner == owner
       && inv.expiresAt == expiresAt && inv.attempts == 0 && inv.demand == 1
       && lease.id == n && lease.generation == inv.generation && lease.owner == owner && lease.expiresAt == expiresAt
       && t.issued == l.issued + [lease]
  }

  // Only this row changed.
  predicate OnlyRow(l: Ledger, t: Ledger, id: nat) {
    && id < |l.invocations| == |t.invocations|
    && forall k :: 0 <= k < |l.invocations| && k != id ==> t.invocations[k] == l.invocations[k]
  }

  /**
   In every run a claim wins if and only if no identical invocation is active and the hour
   and the day it falls in have a unit left; it is a duplicate if and only if one is active,
   and otherwise refused for the hour first.
   */
  lemma ClaimAnsweredExactly(budgets: Budgets, actions: seq<Action>, identity: Identity, model: string, owner: string, now: int, expiresAt: int)
    ensures var l := Run(budgets, actions);
            var (t, c) := ClaimInvocation(l, budgets, identity, model, owner, now, expiresAt);
            var hour, day := HourHasRoom(budgets, actions, model, now), DayHasRoom(budgets, actions, model, now);
            && (c.Won? <==> !Active(l, identity) && hour && day)
            && (c.Duplicate? <==> Active(l, identity))
            && (c == Refused(HourlyExhausted) <==> !Active(l, identity) && !hour)
            && (c == Refused(DailyExhausted) <==> !Active(l, identity) && hour && !day)
            && (c.Won? ==> Opened(l, t, c.lease, identity, model, owner, expiresAt))
            && (c.Duplicate? ==>
                  && ActiveAt(l, identity, c.id) && OnlyRow(l, t, c.id) && t.reserved == l.reserved && t.issued == l.issued
                  && t.invocations[c.id] == l.invocations[c.id].(demand := l.invocations[c.id].demand + 1))
            && (c.Refused? ==> t == l)
  {
    hide Run, HourHasRoom, DayHasRoom, HourKey, DayKey, Reserve;
    RoomMeans(budgets, actions, model, now);
    var l := Run(budgets, actions);
    var found := FindActive(l.invocations, identity);
    if found.Some? {
      assert ActiveAt(l, identity, found.value);
    }
  }

  // --- attempts and endings ---------------------------------------------------------------------

  // The lease may act: its invocation runs, nobody took it over, and it has not expired.
  predicate MayAct(l: Ledger, lease: Lease, now: int) {
    && lease.id < |l.invocations|
    && var inv := l.invocations[lease.id];
       inv.state == Claimed && inv.generation == lease.generation && inv.owner == lease.owner && now < inv.expiresAt
  }

  /**
   In every run an attempt is recorded if and only if the lease may act and the attempt is
   the first or its windows have a unit left; nothing changes otherwise.
   */
  lemma AttemptAnsweredExactly(budgets: Budgets, actions: seq<Action>, lease: Lease, now: int)
    ensures var l := Run(budgets, actions);
            var (t, status) := RecordAttempt(l, budgets, lease, now);
            && (status == Applied <==>
                  && MayAct(l, lease, now)
                  && var inv := l.invocations[lease.id];
                     inv.attempts == 0 || (HourHasRoom(budgets, actions, inv.model, now) && DayHasRoom(budgets, actions, inv.model, now)))
            && (status == BudgetExhausted ==> MayAct(l, lease, now))
            && (status != Applied ==> t == l)
            && (status == Applied ==>
                  && OnlyRow(l, t, lease.id) && t.issued == l.issued
                  && t.invocations[lease.id] == l.invocations[lease.id].(attempts := l.invocations[lease.id].attempts + 1))
  {
    hide Run, HourHasRoom, DayHasRoom, HourKey, DayKey, Reserve;
    if lease.id < |Run(budgets, actions).invocations| {
      RoomMeans(budgets, actions, Run(budgets, actions).invocations[lease.id].model, now);
    }
  }

  /** A completion or release takes effect if and only if the lease may act, and ends its invocation alone. */
  lemma EndAnsweredExactly(l: Ledger, lease: Lease, now: int, completed: bool)
    ensures var (t, status) := EndInvocation(l, lease, now, completed);
            && (status == Applied <==> MayAct(l, lease, now))
            && (status != Applied ==> t == l)
            && (status == Applied ==>
                  && OnlyRow(l, t, lease.id) && t.issued == l.issued && t.reserved == l.reserved
                  && t.invocations[lease.id] == l.invocations[lease.id].(state := if completed then Completed else Released))
  {
  }

  /** An invocation is taken over if and only if it runs past its expiry; only the new lease may then act, until its own. */
  lemma TakenOverExactly(budgets: Budgets, actions: seq<Action>, id: nat, owner: string, now: int, expiresAt: int)
    ensures var l := Run(budgets, actions);
            var t := TakeOver(l, id, owner, now, expiresAt);
            && (t != l <==> id < |l.invocations| && l.invocations[id].state == Claimed && l.invocations[id].expiresAt <= now)
            && (t != l ==>
                  && OnlyRow(l, t, id) && t.reserved == l.reserved
                  && |t.issued| == |l.issued| + 1 && t.issued[..|l.issued|] == l.issued
                  && forall k, at: int :: 0 <= k < |t.issued| && t.issued[k].id == id ==>
                       (MayAct(t, t.issued[k], at) <==> k == |l.issued| && at < expiresAt))
  {
    hide Run;
    RunOk(budgets, actions);
  }
}
