/**
 What the attempt limit of radar_v08/claude_bridge.py limits and what it does not: a
 crash after a failed call is stored and before it is applied hands the event back,
 whatever its attempts, so the limit is exactly one call looser for each such crash.
 */
module BridgeLimits {
  import opened Options
  import opened EventQueue
  import opened ClaudeBridge
  import BridgeRuns

  const EVENT: EventId := 0

  const FAILING := Step(0, true, Won, Applied, OtherFailure, false)

  predicate Scored(t: Tally, failures: nat, lost: nat, pending: bool) {
    && t.successes == 0 && t.failures == failures && t.lost == lost
    && t.analyses == failures + lost + (if pending then 1 else 0)
  }

  // The only event of the queue, with this many failed calls applied and lost to crashes,
  // and whether another is stored; until the first crash its attempts are the applied ones.
  ghost predicate Alone(w: World, failures: nat, lost: nat, pending: bool) {
    && w.q.events.Keys == {EVENT} && w.q.events[EVENT].cols.demand == "SONNET"
    && Scored(TallyOf(w, EVENT), failures, lost, pending)
    && (lost == 0 ==> w.q.events[EVENT].cols.attempts == failures)
  }

  predicate TakenRow(c: Columns) { c.status == Processing && c.startedAt.Some? }

  // The cycle is at this stage with it.
  ghost predicate During(w: World, stage: Stage, failures: nat, lost: nat) {
    && Alone(w, failures, lost, stage.Applying?)
    && (if stage == Seen then Claimable(w.q.events[EVENT].cols) else TakenRow(w.q.events[EVENT].cols))
    && w.cycle.Working? && w.cycle.rows == []
    && w.cycle.pc.At? && w.cycle.pc.stage == stage && w.cycle.pc.row.id == EVENT
    && w.cycle.pc.row.cols.attempts == w.q.events[EVENT].cols.attempts
  }

  // A crash left it behind.
  ghost predicate Stranded(w: World, failures: nat, lost: nat) {
    Alone(w, failures, lost, false) && TakenRow(w.q.events[EVENT].cols) && w.cycle.Idle?
  }

  // It waits for its backoff.
  ghost predicate Waiting(w: World, failures: nat, lost: nat) {
    && Alone(w, failures, lost, false) && w.cycle.Idle?
    && w.q.events[EVENT].cols.status == Deferred && w.q.events[EVENT].cols.nextAttemptAt.Some?
  }

  lemma Extends(actions: seq<Action>, a: Action)
    requires Enabled(Run(actions), a)
    ensures Run(actions + [a]) == Apply(Run(actions), a)
  {
    assert (actions + [a])[..|actions|] == actions;
  }

  // --- one cycle ----------------------------------------------------------------------------

  function Next(stage: Stage): Stage {
    match stage
    case Seen => Taken
    case Taken => Cooling
    case Cooling => Attempting
    case Attempting => Calling
    case Calling => Committing(OtherFailure)
    case Committing(_) => Recording(OtherFailure)
    case _ => Applying(OtherFailure)
  }

  lemma FailingStep(w: World, stage: Stage, failures: nat, lost: nat)
    requires During(w, stage, failures, lost)
    requires stage in [Seen, Taken, Cooling, Attempting, Calling, Committing(OtherFailure), Recording(OtherFailure)]
    ensures Enabled(w, FAILING) && During(Apply(w, FAILING), Next(stage), failures, lost)
  {
  }

  // From where the event is found to the failed call stored.
  lemma FailAndStore(actions: seq<Action>, failures: nat, lost: nat) returns (more: seq<Action>)
    requires During(Run(actions), Seen, failures, lost)
    ensures During(Run(more), Applying(OtherFailure), failures, lost)
  {
    hide During, Run;
    more := actions;
    var stages := [Seen, Taken, Cooling, Attempting, Calling, Committing(OtherFailure), Recording(OtherFailure)];
    for i := 0 to 7
      invariant During(Run(more), if i == 7 then Applying(OtherFailure) else stages[i], failures, lost)
    {
      FailingStep(Run(more), stages[i], failures, lost);
      Extends(more, FAILING);
      more := more + [FAILING];
    }
  }

  lemma CrashStrands(w: World, failures: nat, lost: nat)
    requires During(w, Applying(OtherFailure), failures, lost)
    ensures Enabled(w, Crash) && Stranded(Apply(w, Crash), failures, lost + 1)
  {
  }

  lemma FailAndCrash(actions: seq<Action>, failures: nat, lost: nat) returns (more: seq<Action>)
    requires During(Run(actions), Seen, failures, lost)
    ensures Stranded(Run(more), failures, lost + 1)
  {
    hide During, Run, Stranded;
    more := FailAndStore(actions, failures, lost);
    CrashStrands(Run(more), failures, lost);
    Extends(more, Crash);
    more := more + [Crash];
  }

  // Below the limit an applied failure puts the event back.
  lemma ApplyDefers(w: World, failures: nat)
    requires During(w, Applying(OtherFailure), failures, 0) && failures + 1 < MAX_ATTEMPTS
    ensures Enabled(w, FAILING)
    ensures var v := Apply(w, FAILING); Enabled(v, FAILING) && Waiting(Apply(v, FAILING), failures + 1, 0)
  {
  }

  lemma FailAndApply(actions: seq<Action>, failures: nat) returns (more: seq<Action>)
    requires During(Run(actions), Seen, failures, 0) && failures + 1 < MAX_ATTEMPTS
    ensures Waiting(Run(more), failures + 1, 0)
  {
    hide During, Run, Waiting;
    more := FailAndStore(actions, failures, 0);
    ApplyDefers(Run(more), failures);
    Extends(more, FAILING);
    Extends(more + [FAILING], FAILING);
    more := more + [FAILING] + [FAILING];
  }

  // --- taking it ------------------------------------------------------------------------------

  // A cycle that begins at this time and takes the event, having handed these back.
  lemma CycleTakes(actions: seq<Action>, now: int, stale: seq<EventId>, failures: nat, lost: nat) returns (more: seq<Action>)
    requires Run(actions).cycle.Idle? && Alone(Run(actions), failures, lost, false)
    requires StaleIds(Run(actions).q, now - STALE_AFTER, stale)
    requires stale == [EVENT] || (stale == [] && Actionable(Run(actions).q.events[EVENT].cols, now))
    requires stale == [EVENT] ==> lost > 0
    ensures During(Run(more), Seen, failures, lost)
  {
    var w0 := Run(actions);
    var w1 := Apply(w0, Begin(now, true));
    RecoverEffect(w1.q, stale, now);
    var w2 := Apply(w1, RecoverStale(stale));
    var w3 := Apply(w2, Select([EVENT]));
    TakesRow(w3, failures, lost);
    hide During, Run, StaleIds, Alone;
    Extends(actions, Begin(now, true));
    Extends(actions + [Begin(now, true)], RecoverStale(stale));
    Extends(actions + [Begin(now, true)] + [RecoverStale(stale)], Select([EVENT]));
    Extends(actions + [Begin(now, true)] + [RecoverStale(stale)] + [Select([EVENT])], FAILING);
    more := actions + [Begin(now, true)] + [RecoverStale(stale)] + [Select([EVENT])] + [FAILING];
  }

  lemma TakesRow(w: World, failures: nat, lost: nat)
    requires Alone(w, failures, lost, false) && w.cycle.Working? && w.cycle.pc == NextRow
    requires w.cycle.rows == [Row(EVENT, w.q.events[EVENT].cols)] && Actionable(w.q.events[EVENT].cols, w.cycle.now)
    ensures Enabled(w, FAILING) && During(Apply(w, FAILING), Seen, failures, lost)
  {
  }

  // A later cycle hands a stranded event back and takes it again.
  lemma TakeAgain(actions: seq<Action>, failures: nat, lost: nat) returns (more: seq<Action>)
    requires Stranded(Run(actions), failures, lost) && lost > 0
    ensures During(Run(more), Seen, failures, lost)
  {
    var c := Run(actions).q.events[EVENT].cols;
    more := CycleTakes(actions, c.startedAt.value + STALE_AFTER + 1, [EVENT], failures, lost);
  }

  // A later cycle takes a deferred event once its backoff is over.
  lemma TakeDeferred(actions: seq<Action>, failures: nat, lost: nat) returns (more: seq<Action>)
    requires Waiting(Run(actions), failures, lost)
    ensures During(Run(more), Seen, failures, lost)
  {
    more := CycleTakes(actions, Run(actions).q.events[EVENT].cols.nextAttemptAt.value, [], failures, lost);
  }

  lemma FirstTake() returns (actions: seq<Action>)
    ensures During(Run(actions), Seen, 0, 0)
  {
    var create := Create(EVENT, Columns("key", 0, "SONNET", Pending, 0, None, None, None, 0, false));
    Extends([], create);
    actions := CycleTakes([create], 0, [], 0, 0);
  }

  // --- how far it goes ----------------------------------------------------------------------------

  lemma {:induction false} StrandedAfter(n: nat) returns (actions: seq<Action>)
    ensures Stranded(Run(actions), 0, n + 1)
  {
    hide During, Run, Stranded;
    if n == 0 {
      actions := FirstTake();
    } else {
      actions := StrandedAfter(n - 1);
      actions := TakeAgain(actions, 0, n);
    }
    actions := FailAndCrash(actions, 0, n);
  }

  /** For every number there is a run with that many failed calls stored for one event that is still open. */
  lemma CrashesEscapeTheLimit(n: nat) returns (actions: seq<Action>, id: EventId)
    ensures id in Run(actions).q.events && Open(Run(actions).q.events[id].cols)
    ensures TallyOf(Run(actions), id).analyses == n + 1 && TallyOf(Run(actions), id).successes == 0
  {
    actions := StrandedAfter(n);
    id := EVENT;
  }

  // Found again after this many applied failures.
  lemma {:induction false} SeenAfter(failures: nat) returns (actions: seq<Action>)
    requires failures < MAX_ATTEMPTS
    ensures During(Run(actions), Seen, failures, 0)
  {
    hide During, Run, Waiting;
    if failures == 0 {
      actions := FirstTake();
    } else {
      actions := SeenAfter(failures - 1);
      actions := FailAndApply(actions, failures - 1);
      actions := TakeDeferred(actions, failures, 0);
    }
  }

  // And after this many crashes.
  lemma {:induction false} SeenAfterCrashes(lost: nat) returns (actions: seq<Action>)
    ensures During(Run(actions), Seen, MAX_ATTEMPTS - 1, lost)
  {
    hide During, Run, Stranded;
    if lost == 0 {
      actions := SeenAfter(MAX_ATTEMPTS - 1);
    } else {
      actions := SeenAfterCrashes(lost - 1);
      actions := FailAndCrash(actions, MAX_ATTEMPTS - 1, lost - 1);
      actions := TakeAgain(actions, MAX_ATTEMPTS - 1, lost);
    }
  }

  /** The limit, looser by the crashes, is reached: for every number of such crashes, by some run. */
  lemma LimitIsReached(lost: nat) returns (actions: seq<Action>, id: EventId)
    ensures var t := TallyOf(Run(actions), id); t.lost == lost && t.analyses - t.successes == MAX_ATTEMPTS + lost
  {
    id := EVENT;
    actions := SeenAfterCrashes(lost);
    actions := FailAndStore(actions, MAX_ATTEMPTS - 1, lost);
  }

  // The failed calls stored for any event that at most k crashes hit stay within b, in every run.
  ghost predicate Within(k: nat, b: int) {
    forall actions: seq<Action>, id: EventId ::
      TallyOf(Run(actions), id).lost <= k ==> TallyOf(Run(actions), id).analyses - TallyOf(Run(actions), id).successes <= b
  }

  /**
   The exact limit: over all runs and events hit by at most k such crashes the failed calls
   stored stay within b if and only if b leaves one call more for each crash.
   */
  lemma ExactLimit(k: nat, b: int)
    ensures Within(k, b) <==> b >= MAX_ATTEMPTS + k
  {
    hide Run, TallyOf;
    if b >= MAX_ATTEMPTS + k {
      forall actions: seq<Action>, id: EventId | TallyOf(Run(actions), id).lost <= k
        ensures TallyOf(Run(actions), id).analyses - TallyOf(Run(actions), id).successes <= b
      {
        BridgeRuns.FailedCallsAreLimited(actions, id);
      }
    } else {
      var actions, id := LimitIsReached(k);
      assert TallyOf(Run(actions), id).lost <= k;
    }
  }

  /** So the attempt limit itself holds if and only if no such crash hit the event: one is enough to break it. */
  lemma LimitHoldsExactlyWithoutCrashes(k: nat)
    ensures Within(k, MAX_ATTEMPTS) <==> k == 0
  {
    ExactLimit(k, MAX_ATTEMPTS);
  }
}
