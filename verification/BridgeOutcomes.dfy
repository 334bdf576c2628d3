/**
 What a run of radar_v08/claude_bridge.py does to an event and for what reason: exactly
 when it is taken, put back, handed back or closed, and that a due event is served when
 the ledger and the model cooperate.
 */
module BridgeOutcomes {
  import opened Options
  import opened EventQueue
  import opened ClaudeBridge
  import opened BridgeInvariant
  import opened BridgeRuns

  // --- reasons ----------------------------------------------------------------------------------

  // The cycle has this event in hand at this stage, and takes its next step.
  predicate StepsAt(w: World, a: Action, id: EventId, stage: Stage) {
    a.Step? && w.cycle.Working? && w.cycle.pc.At? && w.cycle.pc.row.id == id && w.cycle.pc.stage == stage
  }

  // The cycle comes to this event.
  predicate StepsTo(w: World, a: Action, id: EventId) {
    a.Step? && w.cycle.Working? && w.cycle.pc == NextRow && w.cycle.rows != [] && w.cycle.rows[0].id == id
  }

  predicate Served(c: Columns) { c.demand == "SONNET" || c.demand == "FABLE" }

  // A stored success is applied, or found.
  predicate SuccessSettles(w: World, a: Action, id: EventId)
    requires id in w.q.events
  {
    || StepsAt(w, a, id, Applying(Success))
    || (StepsTo(w, a, id) && Served(w.q.events[id].cols) && TallyOf(w, id).successes > 0)
  }

  // The attempt that reaches the limit.
  predicate LastAttempt(c: Columns) { c.attempts + 1 >= 6 }

  // A failed call is applied that was an authentication error or the last attempt, or the
  // event does not name what to call.
  predicate FailureSettles(w: World, a: Action, id: EventId)
    requires id in w.q.events
  {
    || StepsAt(w, a, id, Applying(AuthError))
    || (StepsAt(w, a, id, Applying(OtherFailure)) && LastAttempt(w.q.events[id].cols))
    || (StepsAt(w, a, id, Taken) && !a.valid)
  }

  // The ledger refuses a claim, has the invocation active elsewhere, or fails; or a failed
  // call is applied before the limit.
  predicate PutsBack(w: World, a: Action, id: EventId)
    requires id in w.q.events
  {
    || (StepsAt(w, a, id, Taken) && a.valid && (a.answer == RefusedClaim || a.answer == DuplicateClaim || a.answer == LedgerError))
    || (StepsAt(w, a, id, Attempting) && a.verdict == Failure)
    || ((exists r :: StepsAt(w, a, id, Committing(r))) && a.verdict == Failure)
    || (StepsAt(w, a, id, Applying(OtherFailure)) && !LastAttempt(w.q.events[id].cols))
  }

  // 1, 5, 15, 30 and then 60 minutes.
  function Pause(attempt: nat): int {
    (if attempt <= 1 then 60 else if attempt == 2 then 300 else if attempt == 3 then 900 else if attempt == 4 then 1800 else 3600)
    * 1_000_000
  }

  // --- one step at the event in hand ------------------------------------------------------------------

  // What the step does to the columns, by stage.
  predicate Effect(c: Columns, d: Columns, stage: Stage, a: Action, now: int)
    requires a.Step?
  {
    match stage
    case Seen => d == if Claimable(c) then c.(status := Processing, startedAt := Some(a.clock), updatedAt := a.clock) else c
    case Taken => if !a.valid then FailedFrom(c, d) else if a.answer == Won then d == c else DeferredFrom(c, d, now)
    case Attempting => if a.verdict == Failure then DeferredFrom(c, d, now) else d == c
    case Committing(_) => if a.verdict == Failure then DeferredFrom(c, d, now) else d == c
    case Applying(result) =>
      if result == Success then d.status == Processed
      else if result == AuthError || LastAttempt(c) then FailedFrom(c, d)
      else DeferredFrom(c, d, now)
    case MarkingNotified => d == c.(notified := true, updatedAt := now)
    case _ => d == c
  }

  predicate FailedFrom(c: Columns, d: Columns) { d.status == Failed && d.attempts == c.attempts + 1 && d.nextAttemptAt.None? }

  predicate DeferredFrom(c: Columns, d: Columns, now: int) {
    d.status == Deferred && d.attempts == c.attempts + 1 && d.nextAttemptAt == Some(now + Pause(c.attempts + 1)) && d.startedAt.None?
  }

  lemma PutBackDefers(c: Columns, row: Row, now: int, reason: string)
    requires c.attempts == row.cols.attempts
    ensures DeferredFrom(c, PutBack(c, row, now, reason), now)
  {
  }

  lemma OutcomeEffect(c: Columns, row: Row, now: int, result: Result)
    requires c.attempts == row.cols.attempts
    ensures var d := Outcome(c, row, result, now);
            if result == Success then d.status == Processed
            else if result == AuthError || LastAttempt(c) then FailedFrom(c, d)
            else DeferredFrom(c, d, now)
  {
  }

  lemma StepEffect(c: Columns, t: Tally, row: Row, now: int, stage: Stage, a: Action)
    requires a.Step? && AtHandOk(c, t, row, stage)
    ensures Effect(c, Continue(c, t, row, now, stage, a).cols, stage, a, now)
    ensures stage != Seen && stage != Notifying && stage != MarkingNotified ==> c.status == Processing && c.attempts == row.cols.attempts
    ensures stage == Notifying || stage == MarkingNotified ==> c.status == Processed
  {
    hide Agrees, Conserved, Timely, TallyAtHand, PutBack, Outcome, DeferredFrom;
    if stage != Seen && stage != Notifying && stage != MarkingNotified {
      PutBackDefers(c, row, now, "budget_exhausted");
      PutBackDefers(c, row, now, "invocation_active_elsewhere");
      PutBackDefers(c, row, now, "invocation_store");
      if stage.Applying? {
        OutcomeEffect(c, row, now, stage.result);
      }
    }
  }

  // What any step of a run does to an event it is about.
  lemma StepOn(actions: seq<Action>, a: Action, id: EventId)
    requires var w := Run(actions); Enabled(w, a) && a.Step? && id in w.q.events
    ensures var w, v := Run(actions), Apply(Run(actions), a);
            && id in v.q.events
            && var c, d := w.q.events[id].cols, v.q.events[id].cols;
               if w.cycle.pc.At? && w.cycle.pc.row.id == id then Effect(c, d, w.cycle.pc.stage, a, w.cycle.now)
               else if StepsTo(w, a, id) && Served(c) && TallyOf(w, id).successes > 0 then d.status == Processed
               else d == c
  {
    hide Run, Agrees, Conserved, Timely, Effect, RowsOk, CurrentOk, OneOpenPerKey, Continue;
    var w, v := Run(actions), Apply(Run(actions), a);
    RunKeepsQueue(actions);
    RunKeepsEvent(actions, id);
    if Subject(w).Some? && Subject(w).value.id == id {
      var row := Subject(w).value;
      SubjectIsOk(w, row);
      AdvanceHere(w, a, row, v);
      if w.cycle.pc.At? {
        StepEffect(w.q.events[id].cols, TallyOf(w, id), row, w.cycle.now, w.cycle.pc.stage, a);
      }
    } else {
      AdvanceElsewhere(w, a, id);
    }
  }

  // What any other action does to an event.
  lemma OtherwiseOn(actions: seq<Action>, a: Action, id: EventId)
    requires var w := Run(actions); Enabled(w, a) && !a.Step? && id in w.q.events
    ensures var w, v := Run(actions), Apply(Run(actions), a);
            && id in v.q.events
            && var c, d := w.q.events[id].cols, v.q.events[id].cols;
               if a.RecoverStale? && Stale(c, w.cycle.now - 600_000_000)
               then d.status == Pending && d.attempts == c.attempts + 1
               else d == c
  {
    hide Run, RecoverAll;
    var w, v := Run(actions), Apply(Run(actions), a);
    match a
    case Create(other, cols) => CreateMoves(w, other, cols, id, v);
    case RecoverStale(ids) => RecoverMoves(w, ids, id, v);
    case _ =>
  }

  lemma HandSays(actions: seq<Action>, id: EventId)
    requires var w := Run(actions); id in w.q.events && w.cycle.Working? && w.cycle.pc.At? && w.cycle.pc.row.id == id
    ensures var w := Run(actions);
            var c, t, stage := w.q.events[id].cols, TallyOf(w, id), w.cycle.pc.stage;
            if stage == Notifying || stage == MarkingNotified then c.status == Processed
            else (stage != Seen ==> c.status == Processing) && (stage == Applying(Success) ==> t.successes > 0)
  {
    hide Agrees, Conserved, Timely;
    RunKeepsEvent(actions, id);
  }

  // --- exactly when ---------------------------------------------------------------------------------------

  /**
   Over every run an open event is closed exactly when a stored success is applied or found,
   or a failed call is applied that was an authentication error or the attempt at the limit,
   or it does not name what to call: as processed in the first case, failed in the others.
   */
  lemma ClosedExactlyWhen(actions: seq<Action>, a: Action, id: EventId)
    requires var w := Run(actions); Enabled(w, a) && id in w.q.events && Open(w.q.events[id].cols)
    ensures var w, v := Run(actions), Apply(Run(actions), a);
            && id in v.q.events
            && (!Open(v.q.events[id].cols) <==> SuccessSettles(w, a, id) || FailureSettles(w, a, id))
            && (v.q.events[id].cols.status == Processed <==> SuccessSettles(w, a, id))
            && (v.q.events[id].cols.status == Failed <==> FailureSettles(w, a, id))
            && (SuccessSettles(w, a, id) ==> TallyOf(w, id).successes > 0)
  {
    hide Run, Apply;
    if a.Step? {
      StepOn(actions, a, id);
      var w := Run(actions);
      if w.cycle.pc.At? && w.cycle.pc.row.id == id {
        HandSays(actions, id);
      }
    } else {
      OtherwiseOn(actions, a, id);
    }
  }

  /**
   A taken event is put back exactly when the ledger refuses its claim, has it active
   elsewhere or fails, or a failed call before the limit is applied; it is then due again
   exactly from its pause on, one attempt later.
   */
  lemma PutBackExactlyWhen(actions: seq<Action>, a: Action, id: EventId)
    requires var w := Run(actions); Enabled(w, a) && id in w.q.events && w.q.events[id].cols.status == Processing
    ensures var w, v := Run(actions), Apply(Run(actions), a);
            && id in v.q.events
            && var c, d := w.q.events[id].cols, v.q.events[id].cols;
               && (d.status == Deferred <==> PutsBack(w, a, id))
               && (PutsBack(w, a, id) ==>
                     d.attempts == c.attempts + 1 && forall now: int :: Actionable(d, now) <==> now >= w.cycle.now + Pause(c.attempts + 1))
  {
    hide Run, Apply;
    if a.Step? {
      StepOn(actions, a, id);
      var w := Run(actions);
      if w.cycle.pc.At? && w.cycle.pc.row.id == id {
        HandSays(actions, id);
        if w.cycle.pc.stage.Committing? {
          assert StepsAt(w, a, id, Committing(w.cycle.pc.stage.result));
        }
      }
    } else {
      OtherwiseOn(actions, a, id);
    }
  }

  /** An event is taken exactly when the cycle has found it without a success and it is still waiting. */
  lemma TakenExactlyWhen(actions: seq<Action>, a: Action, id: EventId)
    requires var w := Run(actions); Enabled(w, a) && id in w.q.events && w.q.events[id].cols.status != Processing
    ensures var w, v := Run(actions), Apply(Run(actions), a);
            && id in v.q.events
            && var c, d := w.q.events[id].cols, v.q.events[id].cols;
               && (d.status == Processing <==> StepsAt(w, a, id, Seen) && (c.status == Pending || c.status == Deferred))
               && (d.status == Processing ==> d.startedAt == Some(a.clock) && d.attempts == c.attempts)
  {
    hide Run, Apply;
    if a.Step? {
      StepOn(actions, a, id);
      var w := Run(actions);
      if w.cycle.pc.At? && w.cycle.pc.row.id == id {
        HandSays(actions, id);
      }
    } else {
      OtherwiseOn(actions, a, id);
    }
  }

  /** A taken event is handed back exactly by a recovery that finds it taken ten minutes ago or longer. */
  lemma HandedBackExactlyWhen(actions: seq<Action>, a: Action, id: EventId)
    requires var w := Run(actions); Enabled(w, a) && id in w.q.events && w.q.events[id].cols.status == Processing
    ensures var w, v := Run(actions), Apply(Run(actions), a);
            && id in v.q.events
            && var c, d := w.q.events[id].cols, v.q.events[id].cols;
               && (d.status == Pending <==> a.RecoverStale? && c.startedAt.Some? && c.startedAt.value + 600_000_000 < w.cycle.now)
               && (d.status == Pending ==> d.attempts == c.attempts + 1)
  {
    hide Run, Apply;
    if a.Step? {
      StepOn(actions, a, id);
      var w := Run(actions);
      if w.cycle.pc.At? && w.cycle.pc.row.id == id {
        HandSays(actions, id);
      }
    } else {
      OtherwiseOn(actions, a, id);
    }
  }

  /** A cycle has one time from its beginning to its end: the one it was begun with. */
  lemma CycleKeepsItsTime(actions: seq<Action>, a: Action)
    requires Enabled(Run(actions), a)
    ensures var w, v := Run(actions), Apply(Run(actions), a);
            !v.cycle.Idle? ==> if w.cycle.Idle? then a.Begin? && a.dispatch && v.cycle.now == a.now else v.cycle.now == w.cycle.now
  {
    hide Run, StepAbout;
  }

  // --- when all goes well -----------------------------------------------------------------------------------

  const PATH := [Seen, Taken, Cooling, Attempting, Calling, Committing(Success), Recording(Success), Applying(Success), Notifying, MarkingNotified]

  // The ledger grants everything and the model answers.
  function Good(clock: int, notify: bool): Action { Step(clock, true, Won, Verdict.Applied, Success, notify) }

  // The account so far at the k-th stage of the path.
  function Account(t: Tally, k: nat): Tally {
    t.(accepted := t.accepted + (if k >= 2 then 1 else 0), cooldowns := t.cooldowns + (if k >= 3 then 1 else 0),
    calls := t.calls + (if k >= 5 then 1 else 0), analyses := t.analyses + (if k >= 7 then 1 else 0),
    successes := t.successes + (if k >= 7 then 1 else 0), notices := t.notices + (if k >= 9 then 1 else 0))
  }

  // The event in hand at the k-th stage, as it was found but for what the path did.
  predicate OnPath(w: World, row: Row, k: nat, t: Tally, rest: seq<Row>)
    requires k < 10
  {
    && w.cycle.Working? && w.cycle.pc == At(row, PATH[k]) && w.cycle.rows == rest && row.id in w.q.events
    && w.tallies(row.id) == Account(t, k)
    && var c := w.q.events[row.id].cols;
       && (if k == 0 then Claimable(c) else if k < 8 then c.status == Processing else c.status == Processed)
       && c.notified == row.cols.notified && c.attempts == row.cols.attempts
  }

  lemma PathStep(w: World, row: Row, k: nat, t: Tally, rest: seq<Row>, clock: int)
    requires k < 9 && OnPath(w, row, k, t, rest) && (k == 7 ==> !row.cols.notified)
    ensures Enabled(w, Good(clock, true)) && OnPath(Apply(w, Good(clock, true)), row, k + 1, t, rest)
  {
  }

  lemma Extends(actions: seq<Action>, a: Action)
    requires Enabled(Run(actions), a)
    ensures Run(actions + [a]) == Apply(Run(actions), a)
  {
    assert (actions + [a])[..|actions|] == actions;
  }

  // From where the event is found up to the n-th stage.
  lemma Follow(actions: seq<Action>, row: Row, t: Tally, rest: seq<Row>, clock: int, n: nat) returns (more: seq<Action>)
    requires n < 10 && OnPath(Run(actions), row, 0, t, rest) && (n > 7 ==> !row.cols.notified)
    ensures OnPath(Run(more), row, n, t, rest)
  {
    hide OnPath, Run, Good;
    more := actions;
    for k := 0 to n
      invariant OnPath(Run(more), row, k, t, rest)
    {
      PathStep(Run(more), row, k, t, rest, clock);
      Extends(more, Good(clock, true));
      more := more + [Good(clock, true)];
    }
  }

  // The cycle comes to an event that is due and has no success.
  predicate Finds(w: World, id: EventId) {
    && w.cycle.Working? && w.cycle.pc == NextRow && w.cycle.rows != [] && w.cycle.rows[0].id == id
    && Served(w.cycle.rows[0].cols) && w.tallies(id).successes == 0
  }

  lemma Found(actions: seq<Action>, id: EventId, clock: int)
    requires Finds(Run(actions), id)
    ensures var w := Run(actions);
            var v := Run(actions + [Good(clock, true)]);
            && id in w.q.events && w.cycle.rows[0].cols == w.q.events[id].cols
            && OnPath(v, w.cycle.rows[0], 0, w.tallies(id), w.cycle.rows[1..])
  {
    RunKeepsQueue(actions);
    var w := Run(actions);
    assert RowOk(w, w.cycle.rows[0]);
    Extends(actions, Good(clock, true));
  }

  // The last step, of an event notified now or one that was before or need not be.
  lemma Finishes(w: World, row: Row, k: nat, t: Tally, rest: seq<Row>, clock: int, notify: bool)
    requires (k == 9 || (k == 7 && (!notify || row.cols.notified))) && OnPath(w, row, k, t, rest)
    ensures var a := Good(clock, notify);
            && Enabled(w, a)
            && var v := Apply(w, a);
               && row.id in v.q.events && v.q.events[row.id].cols.status == Processed
               && (v.q.events[row.id].cols.notified <==> k == 9 || row.cols.notified)
               && v.tallies(row.id) == Account(t, k) && v.cycle.Working? && v.cycle.pc == NextRow && v.cycle.rows == rest
  {
  }

  /**
   Over every run: whenever the cycle comes to a due event without a success and the ledger
   and the model cooperate, it claims, cools down, calls and stores once, settles the event,
   notifies once if asked to and not done before, and goes on to the next row.
   */
  lemma DueEventIsServed(actions: seq<Action>, id: EventId, clock: int, notify: bool) returns (more: seq<Action>)
    requires Finds(Run(actions), id)
    ensures var w, v := Run(actions), Run(more);
            var t, u := w.tallies(id), v.tallies(id);
            && id in w.q.events && id in v.q.events
            && var notifies := notify && !w.q.events[id].cols.notified;
               && v.q.events[id].cols.status == Processed
               && (v.q.events[id].cols.notified <==> w.q.events[id].cols.notified || notify)
               && u.accepted == t.accepted + 1 && u.cooldowns == t.cooldowns + 1 && u.calls == t.calls + 1
               && u.analyses == t.analyses + 1 && u.successes == 1 && u.failures == t.failures
               && u.notices == t.notices + (if notifies then 1 else 0)
               && v.cycle.Working? && v.cycle.pc == NextRow && v.cycle.rows == w.cycle.rows[1..]
  {
    var w := Run(actions);
    var row, t, rest := w.cycle.rows[0], w.tallies(id), w.cycle.rows[1..];
    Found(actions, id, clock);
    hide OnPath, Run, Good;
    var n := if notify && !row.cols.notified then 9 else 7;
    more := Follow(actions + [Good(clock, true)], row, t, rest, clock, n);
    Finishes(Run(more), row, n, t, rest, clock, notify);
    Extends(more, Good(clock, notify));
    more := more + [Good(clock, notify)];
  }
}
