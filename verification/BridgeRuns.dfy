/**
 What every run of radar_v08/claude_bridge.py's cycle keeps: the outbox, the queue
 and the account of claims, calls and results, through crashes between any two
 transactions and for any answers of the ledger and the model.
 */
module BridgeRuns {
  import opened Options
  import opened EventQueue
  import opened ClaudeBridge
  import opened BridgeInvariant

  // --- one step, at the event it is about ---------------------------------------------------------

  lemma TakeRowStep(c: Columns, t: Tally, row: Row, now: int)
    requires c == row.cols && Actionable(c, now)
    ensures var l := TakeRow(c, t, row, now); RowStep(c, row, l) && (EventOk(c, t) ==> LocalOk(l))
  {
  }

  lemma ContinueRowStep(c: Columns, t: Tally, row: Row, now: int, stage: Stage, a: Action)
    requires a.Step? && RowAtHand(c, row, stage)
    ensures RowStep(c, row, Continue(c, t, row, now, stage, a))
  {
  }

  lemma AbandonedOk(c: Columns, t: Tally, row: Row, stage: Stage, now: int)
    requires AtHandOk(c, t, row, stage) && (stage == Taken || stage == Attempting || stage.Committing?)
    ensures LocalOk(Abandoned(c, t, row, stage, now))
  {
  }

  lemma WonOk(c: Columns, t: Tally, row: Row)
    requires AtHandOk(c, t, row, Taken)
    ensures AtHandOk(c, t.(accepted := t.accepted + 1), row, Cooling)
  {
  }

  lemma PutBackOk(c: Columns, t: Tally, row: Row, now: int, reason: string)
    requires AtHandOk(c, t, row, Taken)
    ensures EventOk(PutBack(c, row, now, reason), t) && EventOk(AsFailed(c, now, reason), t)
  {
  }

  lemma ClaimOk(c: Columns, t: Tally, row: Row, now: int, valid: bool, answer: Answer)
    requires AtHandOk(c, t, row, Taken)
    ensures LocalOk(ClaimInLedger(c, t, row, now, valid, answer))
  {
    hide AtHandOk, EventOk, Abandoned, PutBack, AsFailed;
    WonOk(c, t, row);
    PutBackOk(c, t, row, now, "invocation_identity_invalid");
    PutBackOk(c, t, row, now, "budget_exhausted");
    PutBackOk(c, t, row, now, "invocation_active_elsewhere");
    AbandonedOk(c, t, row, Taken, now);
  }

  lemma FencedOk(c: Columns, t: Tally, row: Row, now: int, stage: Stage, verdict: Verdict, onward: Stage)
    requires AtHandOk(c, t, row, stage)
    requires (stage == Attempting && onward == Calling) || (stage.Committing? && onward == Recording(stage.result))
    ensures LocalOk(Fenced(c, t, row, now, stage, verdict, onward))
  {
    hide Abandoned;
    AbandonedOk(c, t, row, stage, now);
  }

  lemma OutcomeOk(c: Columns, t: Tally, row: Row, now: int, result: Result, notify: bool)
    requires AtHandOk(c, t, row, Applying(result))
    ensures LocalOk(ApplyOutcome(c, t, row, now, result, notify))
  {
  }

  lemma ContinueOk(c: Columns, t: Tally, row: Row, now: int, stage: Stage, a: Action)
    requires a.Step? && AtHandOk(c, t, row, stage)
    ensures LocalOk(Continue(c, t, row, now, stage, a))
  {
    match stage
    case Taken => ClaimOk(c, t, row, now, a.valid, a.answer);
    case Attempting => FencedOk(c, t, row, now, stage, a.verdict, Calling);
    case Committing(result) => FencedOk(c, t, row, now, stage, a.verdict, Recording(result));
    case Applying(result) => OutcomeOk(c, t, row, now, result, a.notify);
    case _ =>
  }

  // --- the queue over a step --------------------------------------------------------------------------

  lemma CommitKeepsOneOpen(q: Queue, id: EventId, c: Columns)
    requires OneOpenPerKey(q) && id in q.events && NotReopened(q.events[id].cols, c)
    ensures OneOpenPerKey(Commit(q, id, c))
  {
    var r := Commit(q, id, c);
    forall i, j | i in r.events && j in r.events && Clash(r.events[i].cols, r.events[j].cols) ensures i == j {
      assert Clash(q.events[i].cols, q.events[j].cols);
    }
  }

  lemma FetchedRows(w: World)
    requires RowsOk(w) && Subject(w).Some?
    ensures var f, row := Fetched(w), Subject(w).value;
            && RowsOk(f) && f.q == w.q && f.tallies == w.tallies
            && (w.cycle.pc == NextRow ==> RowOk(w, row))
            && forall i :: 0 <= i < |f.cycle.rows| ==> f.cycle.rows[i].id != row.id
  {
    var f := Fetched(w);
    if w.cycle.pc == NextRow {
      forall i | 0 <= i < |f.cycle.rows| ensures RowOk(f, f.cycle.rows[i]) && f.cycle.rows[i].id != w.cycle.rows[0].id {
        assert RowOk(w, w.cycle.rows[i + 1]);
      }
    } else {
      forall i | 0 <= i < |f.cycle.rows| ensures f.cycle.rows[i].id != w.cycle.pc.row.id {
        assert RowOk(w, w.cycle.rows[i]);
      }
    }
  }

  lemma StepRow(w: World, a: Action)
    requires QueueOk(w) && Enabled(w, a) && a.Step? && Subject(w).Some?
    ensures var row := Subject(w).value;
            RowStep(w.q.events[row.id].cols, row, StepAbout(w, row, a))
  {
    var row := Subject(w).value;
    var c, t := w.q.events[row.id].cols, TallyOf(w, row.id);
    match w.cycle.pc
    case At(_, stage) => ContinueRowStep(c, t, row, w.cycle.now, stage, a);
    case NextRow =>
      FetchedRows(w);
      TakeRowStep(c, t, row, w.cycle.now);
  }

  lemma PlacedKeepsQueue(w: World, row: Row, l: Local)
    requires w.cycle.Working? && row.id in w.q.events && OneOpenPerKey(w.q) && RowsOk(w)
    requires RowStep(w.q.events[row.id].cols, row, l)
    requires forall i :: 0 <= i < |w.cycle.rows| ==> w.cycle.rows[i].id != row.id
    ensures QueueOk(Placed(w, row.id, l))
  {
    var v := Placed(w, row.id, l);
    if l.writes {
      CommitKeepsOneOpen(w.q, row.id, l.cols);
    }
    if v.cycle.Working? {
      forall i | 0 <= i < |v.cycle.rows| ensures RowOk(v, v.cycle.rows[i]) {
        assert RowOk(w, w.cycle.rows[i]);
      }
    }
  }

  lemma AdvanceKeepsQueue(w: World, a: Action)
    requires QueueOk(w) && Enabled(w, a) && a.Step?
    ensures QueueOk(Advance(w, a))
  {
    if Subject(w).Some? {
      var row := Subject(w).value;
      StepRow(w, a);
      FetchedRows(w);
      PlacedKeepsQueue(Fetched(w), row, StepAbout(w, row, a));
    }
  }

  lemma RecoverKeepsQueue(w: World, a: Action)
    requires QueueOk(w) && Enabled(w, a) && a.RecoverStale?
    ensures QueueOk(Apply(w, a))
  {
    var q, r := w.q, Apply(w, a).q;
    RecoverEffect(q, a.ids, w.cycle.now);
    forall i, j | i in r.events && j in r.events && Clash(r.events[i].cols, r.events[j].cols) ensures i == j {
      assert Clash(q.events[i].cols, q.events[j].cols);
    }
  }

  lemma DeliverKeepsQueue(w: World, id: EventId, push: Push)
    requires QueueOk(w)
    ensures QueueOk(w.(q := SetPush(w.q, id, push)))
  {
    var v := w.(q := SetPush(w.q, id, push));
    forall i, j | i in v.q.events && j in v.q.events && Clash(v.q.events[i].cols, v.q.events[j].cols) ensures i == j {
      assert Clash(w.q.events[i].cols, w.q.events[j].cols);
    }
    if v.cycle.Working? {
      forall i | 0 <= i < |v.cycle.rows| ensures RowOk(v, v.cycle.rows[i]) {
        assert RowOk(w, w.cycle.rows[i]);
      }
    }
  }

  lemma StepKeepsQueue(w: World, a: Action)
    requires QueueOk(w) && Enabled(w, a)
    ensures QueueOk(Apply(w, a))
  {
    match a
    case Create(id, cols) => CreateKeepsOneOpen(w.q, id, cols);
    case Deliver(id, push) => DeliverKeepsQueue(w, id, push);
    case RecoverStale(_) => RecoverKeepsQueue(w, a);
    case Step(_, _, _, _, _, _) => AdvanceKeepsQueue(w, a);
    case _ =>
  }

  // --- one event over a step ----------------------------------------------------------------------------

  lemma PlacedElsewhere(w: World, row: Row, l: Local, id: EventId)
    requires w.cycle.Working? && row.id in w.q.events && row.id != id
    requires (l.pc.At? ==> l.pc.row == row) && (l.ends ==> l.pc == NextRow) && (w.cycle.pc.At? ==> w.cycle.pc.row == row)
    ensures Untouched(w, Placed(w, row.id, l), id)
  {
  }

  // Where the subject's event stands after the step.
  lemma PlacedHere(w: World, row: Row, l: Local)
    requires w.cycle.Working? && row.id in w.q.events && RowStep(w.q.events[row.id].cols, row, l)
    ensures var v := Placed(w, row.id, l);
            && row.id in v.q.events && v.q.events[row.id].cols == l.cols && TallyOf(v, row.id) == l.tally && PcOf(v) == l.pc
  {
  }

  lemma LocalInvariant(v: World, l: Local, id: EventId)
    requires id in v.q.events && v.q.events[id].cols == l.cols && TallyOf(v, id) == l.tally && PcOf(v) == l.pc
    requires LocalOk(l) && (l.pc.At? ==> l.pc.row.id == id)
    ensures EventInvariant(v, id)
  {
  }

  lemma StepAboutOk(w: World, a: Action, row: Row)
    requires w.cycle.Working? && a.Step? && row.id in w.q.events && EventInvariant(w, row.id)
    requires if w.cycle.pc == NextRow then RowOk(w, row) else w.cycle.pc.row == row
    ensures LocalOk(StepAbout(w, row, a))
  {
    var c, t := w.q.events[row.id].cols, TallyOf(w, row.id);
    match w.cycle.pc
    case At(_, stage) =>
      assert AtHandOk(c, t, row, stage);
      ContinueOk(c, t, row, w.cycle.now, stage, a);
    case NextRow =>
      assert EventOk(c, t);
      TakeRowStep(c, t, row, w.cycle.now);
  }

  lemma UntouchedKeeps(w: World, v: World, id: EventId)
    requires EventInvariant(w, id) && Untouched(w, v, id)
    ensures EventInvariant(v, id)
  {
  }

  lemma AdvanceHere(w: World, a: Action, row: Row, v: World)
    requires QueueOk(w) && Enabled(w, a) && a.Step? && Subject(w) == Some(row) && v == Advance(w, a)
    ensures var l := StepAbout(w, row, a);
            && row.id in v.q.events && v.q.events[row.id].cols == l.cols && TallyOf(v, row.id) == l.tally
            && PcOf(v) == l.pc && (l.pc.At? ==> l.pc.row.id == row.id)
  {
    FetchedRows(w);
    StepRow(w, a);
    PlacedHere(Fetched(w), row, StepAbout(w, row, a));
  }

  lemma SubjectIsOk(w: World, row: Row)
    requires QueueOk(w) && Subject(w) == Some(row)
    ensures if w.cycle.pc == NextRow then RowOk(w, row) else w.cycle.pc.row == row
  {
    FetchedRows(w);
  }

  lemma AdvanceElsewhere(w: World, a: Action, id: EventId)
    requires QueueOk(w) && Enabled(w, a) && a.Step? && (Subject(w).Some? ==> Subject(w).value.id != id)
    ensures Untouched(w, Advance(w, a), id)
  {
    if Subject(w).Some? {
      StepRow(w, a);
      PlacedElsewhere(Fetched(w), Subject(w).value, StepAbout(w, Subject(w).value, a), id);
    }
  }

  lemma AdvanceKeepsEvent(w: World, a: Action, id: EventId, v: World)
    requires QueueOk(w) && Enabled(w, a) && a.Step? && EventInvariant(w, id) && v == Advance(w, a)
    ensures EventInvariant(v, id)
  {
    hide EventOk, AtHandOk, LocalOk, Advance, RecoverAll, OneOpenPerKey;
    if Subject(w).Some? && Subject(w).value.id == id {
      var row := Subject(w).value;
      SubjectIsOk(w, row);
      AdvanceHere(w, a, row, v);
      StepAboutOk(w, a, row);
      LocalInvariant(v, StepAbout(w, row, a), id);
    } else {
      AdvanceElsewhere(w, a, id);
      UntouchedKeeps(w, v, id);
    }
  }

  lemma GivenUpOk(c: Columns, t: Tally, row: Row, stage: Stage)
    requires AtHandOk(c, t, row, stage)
    ensures EventOk(c, GivenUp(t, stage))
  {
  }

  // An event no longer at hand.
  lemma LeftOk(v: World, id: EventId, c: Columns, t: Tally)
    requires id in v.q.events && v.q.events[id].cols == c && TallyOf(v, id) == t && !Involves(PcOf(v), id) && EventOk(c, t)
    ensures EventInvariant(v, id)
  {
  }

  lemma StoppedHere(w: World, id: EventId, v: World)
    requires CurrentOk(w) && Involves(PcOf(w), id) && v == Stopped(w)
    ensures id in v.q.events && v.q.events[id].cols == w.q.events[id].cols && !Involves(PcOf(v), id)
    ensures TallyOf(v, id) == GivenUp(TallyOf(w, id), PcOf(w).stage)
  {
  }

  lemma StoppedElsewhere(w: World, id: EventId, v: World)
    requires !Involves(PcOf(w), id) && v == Stopped(w)
    ensures Untouched(w, v, id)
  {
  }

  lemma StoppedKeepsEvent(w: World, id: EventId, v: World)
    requires CurrentOk(w) && EventInvariant(w, id) && v == Stopped(w)
    ensures EventInvariant(v, id)
  {
    if Involves(PcOf(w), id) {
      var c, t, stage := w.q.events[id].cols, TallyOf(w, id), PcOf(w).stage;
      StoppedHere(w, id, v);
      GivenUpOk(c, t, PcOf(w).row, stage);
      LeftOk(v, id, c, GivenUp(t, stage));
    } else {
      StoppedElsewhere(w, id, v);
      UntouchedKeeps(w, v, id);
    }
  }

  lemma RecoveredOk(c: Columns, t: Tally, now: int)
    requires EventOk(c, t) && c.status == Processing
    ensures EventOk(EventQueue.Recovered(c, now), t)
  {
  }

  lemma RecoverMoves(w: World, ids: seq<EventId>, id: EventId, v: World)
    requires Enabled(w, RecoverStale(ids)) && v == Apply(w, RecoverStale(ids))
    ensures id !in ids ==> Untouched(w, v, id)
    ensures id in ids ==>
              && id in w.q.events && id in v.q.events && w.q.events[id].cols.status == Processing
              && v.q.events[id].cols == EventQueue.Recovered(w.q.events[id].cols, w.cycle.now)
              && TallyOf(v, id) == TallyOf(w, id) && PcOf(v) == PcOf(w) == NextRow
  {
    RecoverEffect(w.q, ids, w.cycle.now);
  }

  lemma CreateMoves(w: World, other: EventId, cols: Columns, id: EventId, v: World)
    requires Enabled(w, Create(other, cols)) && v == Apply(w, Create(other, cols))
    ensures Untouched(w, v, id) || (id !in w.q.events && id in v.q.events && v.q.events[id].cols == cols
                                    && TallyOf(v, id) == TallyOf(w, id) && PcOf(v) == NextRow && Fresh(cols))
  {
  }

  lemma FreshOk(c: Columns)
    requires Fresh(c)
    ensures EventOk(c, ZERO)
  {
  }

  lemma AbsentIsZero(w: World, id: EventId)
    requires EventInvariant(w, id) && id !in w.q.events
    ensures TallyOf(w, id) == ZERO
  {
  }

  lemma QuietMoves(w: World, a: Action, id: EventId, v: World)
    requires Enabled(w, a) && (a.Deliver? || a.Begin? || a.Select?) && v == Apply(w, a)
    ensures Untouched(w, v, id)
  {
  }

  // --- the outbox over a step ------------------------------------------------------------------------------

  lemma CommitMirrors(q: Queue, id: EventId, c: Columns)
    requires Mirrored(q) && id in q.events
    ensures Mirrored(Commit(q, id, c))
  {
    AppendMirrors(q, id, q.events[id].(cols := c));
  }

  lemma InsertMirrors(q: Queue, id: EventId, c: Columns, r: Queue)
    requires Mirrored(q) && r == InsertEvent(q, id, c)
    ensures Mirrored(r)
  {
    hide Mirrored;
    if id !in q.events {
      AppendMirrors(q, id, Event(c, Push(None, 0, None)));
    }
  }

  lemma PushMirrors(q: Queue, id: EventId, push: Push)
    requires Mirrored(q)
    ensures Mirrored(SetPush(q, id, push))
  {
  }

  lemma StepMirrors(w: World, a: Action)
    requires Mirrored(w.q) && Enabled(w, a)
    ensures Mirrored(Apply(w, a).q)
  {
    match a
    case Create(id, cols) => InsertMirrors(w.q, id, cols, InsertEvent(w.q, id, cols));
    case Deliver(id, push) => PushMirrors(w.q, id, push);
    case RecoverStale(ids) => RecoverMirrors(w.q, ids, w.cycle.now);
    case Step(_, _, _, _, _, _) =>
      if Subject(w).Some? {
        var row := Subject(w).value;
        CommitMirrors(w.q, row.id, StepAbout(w, row, a).cols);
      }
    case _ =>
  }

  // --- whole runs --------------------------------------------------------------------------------------------

  lemma {:induction false} RunKeepsQueue(actions: seq<Action>)
    ensures QueueOk(Run(actions))
  {
    if actions != [] {
      var front, last := actions[..|actions| - 1], actions[|actions| - 1];
      RunKeepsQueue(front);
      if Enabled(Run(front), last) {
        hide QueueOk;
        StepKeepsQueue(Run(front), last);
      }
    }
  }

  lemma LastStep(actions: seq<Action>)
    requires actions != [] && Enabled(Run(actions[..|actions| - 1]), actions[|actions| - 1])
    ensures Run(actions) == Apply(Run(actions[..|actions| - 1]), actions[|actions| - 1])
  {
  }

  lemma {:induction false} RunKeepsEvent(actions: seq<Action>, id: EventId)
    ensures EventInvariant(Run(actions), id)
  {
    if actions != [] {
      var front, a := actions[..|actions| - 1], actions[|actions| - 1];
      RunKeepsEvent(front, id);
      var w, v := Run(front), Run(actions);
      if Enabled(w, a) {
        LastStep(actions);
        hide EventInvariant, RowsOk, CurrentOk, OneOpenPerKey, Untouched, Run, RunFrom, Advance, Stopped, RecoverAll, CreateIfNew;
        RunKeepsQueue(front);
        match a
        case Create(other, cols) =>
          CreateMoves(w, other, cols, id, v);
          if Untouched(w, v, id) {
            UntouchedKeeps(w, v, id);
          } else {
            AbsentIsZero(w, id);
            FreshOk(cols);
            LeftOk(v, id, cols, ZERO);
          }
        case RecoverStale(ids) =>
          RecoverMoves(w, ids, id, v);
          if id in ids {
            var c, t := w.q.events[id].cols, TallyOf(w, id);
            RecoveredOk(c, t, w.cycle.now);
            LeftOk(v, id, EventQueue.Recovered(c, w.cycle.now), t);
          } else {
            UntouchedKeeps(w, v, id);
          }
        case Step(_, _, _, _, _, _) => AdvanceKeepsEvent(w, a, id, v);
        case Crash => StoppedKeepsEvent(w, id, v);
        case _ =>
          QuietMoves(w, a, id, v);
          UntouchedKeeps(w, v, id);
      }
    }
  }

  /** After any run, each event's latest outbox row carries the event's current columns. */
  lemma {:induction false} OutboxMirrors(actions: seq<Action>)
    ensures Mirrored(Run(actions).q)
  {
    if actions != [] {
      var front, last := actions[..|actions| - 1], actions[|actions| - 1];
      OutboxMirrors(front);
      if Enabled(Run(front), last) {
        hide Mirrored, Apply;
        StepMirrors(Run(front), last);
      }
    }
  }

  /** After any run, at most one event of a dedup key is open. */
  lemma OneOpenEvent(actions: seq<Action>, i: EventId, j: EventId)
    requires var events := Run(actions).q.events; i in events && j in events && Clash(events[i].cols, events[j].cols)
    ensures i == j
  {
    RunKeepsQueue(actions);
  }

  lemma TimelyIsNotLost(c: Columns, now: int)
    requires Timely(c) && Open(c) && now > c.updatedAt + LONGEST_BACKOFF
    ensures Actionable(c, now) || Stale(c, now - STALE_AFTER)
  {
  }

  lemma EventIsTimely(w: World, id: EventId)
    requires EventInvariant(w, id) && id in w.q.events
    ensures Timely(w.q.events[id].cols)
  {
    hide Timely;
  }

  /** No open event is lost: past the longest backoff it is due, or stale enough to be handed back. */
  lemma NoOpenEventIsLost(actions: seq<Action>, id: EventId, now: int)
    requires id in Run(actions).q.events && Open(Run(actions).q.events[id].cols)
    requires now > Run(actions).q.events[id].cols.updatedAt + LONGEST_BACKOFF
    ensures var c := Run(actions).q.events[id].cols; Actionable(c, now) || Stale(c, now - STALE_AFTER)
  {
    hide EventInvariant, Timely;
    RunKeepsEvent(actions, id);
    EventIsTimely(Run(actions), id);
    TimelyIsNotLost(Run(actions).q.events[id].cols, now);
  }

  /** Between cycles the account of an event balances: every claim, call and result is somewhere. */
  lemma AccountsBalance(actions: seq<Action>, id: EventId)
    requires !Run(actions).cycle.Working?
    ensures var t := TallyOf(Run(actions), id);
            && t.accepted == t.cooldowns + t.uncooled
            && t.accepted == t.calls + t.unused
            && t.calls == t.analyses + t.discarded
            && t.analyses == t.successes + t.failures + t.lost
  {
    RunKeepsEvent(actions, id);
  }

  /** Every call has its own accepted claim, every stored result its own call, every notice its own success. */
  lemma EveryCallIsClaimed(actions: seq<Action>, id: EventId)
    ensures var t := TallyOf(Run(actions), id);
            t.notices <= t.successes <= t.analyses <= t.calls <= t.accepted && t.cooldowns <= t.accepted && t.successes <= 1
  {
    RunKeepsEvent(actions, id);
  }

  /**
   The failed calls stored for one event are at most the limit plus the crashes that kept
   one of them from being applied, at every moment; so the limit holds for an event that
   no such crash hit.
   */
  lemma FailedCallsAreLimited(actions: seq<Action>, id: EventId)
    ensures var t := TallyOf(Run(actions), id);
            && t.analyses - t.successes <= MAX_ATTEMPTS + t.lost
            && (t.lost == 0 ==> t.analyses - t.successes <= MAX_ATTEMPTS)
  {
    RunKeepsEvent(actions, id);
  }

  /** Failures applied to one event stop at the limit, and an event at the limit is no longer open. */
  lemma FailuresAreLimited(actions: seq<Action>, id: EventId)
    requires id in Run(actions).q.events
    ensures var t, c := TallyOf(Run(actions), id), Run(actions).q.events[id].cols;
            && t.successes + t.failures <= MAX_ATTEMPTS
            && t.failures <= c.attempts
            && (t.failures == MAX_ATTEMPTS ==> !Open(c))
  {
    RunKeepsEvent(actions, id);
  }

  // --- finished events ------------------------------------------------------------------------------------------

  // Settled, or with a success stored that a crash kept from settling it.
  predicate Done(c: Columns, t: Tally) { !Open(c) || t.successes > 0 }

  predicate Finished(w: World, id: EventId) { id in w.q.events && Done(w.q.events[id].cols, TallyOf(w, id)) }

  // Nothing is claimed, called or stored any more, and what is settled stays as it is.
  predicate StaysDone(c: Columns, t: Tally, d: Columns, u: Tally) {
    u.(notices := t.notices) == t && Done(d, u) && (!Open(c) ==> d.status == c.status)
  }

  predicate StaysFinished(w: World, v: World, id: EventId) {
    && id in w.q.events && id in v.q.events
    && StaysDone(w.q.events[id].cols, TallyOf(w, id), v.q.events[id].cols, TallyOf(v, id))
  }

  lemma ContinueDone(c: Columns, t: Tally, row: Row, now: int, stage: Stage, a: Action)
    requires a.Step? && RowAtHand(c, row, stage) && TallyAtHand(t, stage) && Done(c, t)
    ensures var l := Continue(c, t, row, now, stage, a); StaysDone(c, t, l.cols, l.tally)
  {
  }

  lemma TakeRowDone(c: Columns, t: Tally, row: Row, now: int)
    requires Actionable(c, now) && Done(c, t)
    ensures var l := TakeRow(c, t, row, now); StaysDone(c, t, l.cols, l.tally)
  {
  }

  lemma StepAboutDone(w: World, a: Action, row: Row)
    requires w.cycle.Working? && a.Step? && row.id in w.q.events && EventInvariant(w, row.id) && CurrentOk(w)
    requires if w.cycle.pc == NextRow then RowOk(w, row) else w.cycle.pc.row == row
    requires Done(w.q.events[row.id].cols, TallyOf(w, row.id))
    ensures var l := StepAbout(w, row, a); StaysDone(w.q.events[row.id].cols, TallyOf(w, row.id), l.cols, l.tally)
  {
    hide Agrees, Conserved, Timely, StaysDone, Done;
    var c, t := w.q.events[row.id].cols, TallyOf(w, row.id);
    match w.cycle.pc
    case At(_, stage) =>
      assert AtHandOk(c, t, row, stage);
      ContinueDone(c, t, row, w.cycle.now, stage, a);
    case NextRow => TakeRowDone(c, t, row, w.cycle.now);
  }

  lemma UntouchedDone(w: World, v: World, id: EventId)
    requires Untouched(w, v, id) && Finished(w, id)
    ensures StaysFinished(w, v, id)
  {
  }

  lemma AdvanceDone(w: World, a: Action, id: EventId, v: World)
    requires QueueOk(w) && Enabled(w, a) && a.Step? && EventInvariant(w, id) && v == Advance(w, a) && Finished(w, id)
    ensures StaysFinished(w, v, id)
  {
    hide EventInvariant, Advance, StaysDone, Done;
    if Subject(w).Some? && Subject(w).value.id == id {
      var row := Subject(w).value;
      SubjectIsOk(w, row);
      AdvanceHere(w, a, row, v);
      StepAboutDone(w, a, row);
    } else {
      AdvanceElsewhere(w, a, id);
      UntouchedDone(w, v, id);
    }
  }

  lemma GivenUpDone(c: Columns, t: Tally, row: Row, stage: Stage)
    requires AtHandOk(c, t, row, stage) && Done(c, t)
    ensures StaysDone(c, t, c, GivenUp(t, stage))
  {
  }

  lemma StoppedDone(w: World, id: EventId, v: World)
    requires CurrentOk(w) && EventInvariant(w, id) && v == Stopped(w) && Finished(w, id)
    ensures StaysFinished(w, v, id)
  {
    hide AtHandOk, EventOk, StaysDone, Done, GivenUp;
    if Involves(PcOf(w), id) {
      StoppedHere(w, id, v);
      GivenUpDone(w.q.events[id].cols, TallyOf(w, id), PcOf(w).row, PcOf(w).stage);
    } else {
      StoppedElsewhere(w, id, v);
      UntouchedDone(w, v, id);
    }
  }

  lemma RecoverDone(w: World, ids: seq<EventId>, id: EventId, v: World)
    requires Enabled(w, RecoverStale(ids)) && v == Apply(w, RecoverStale(ids)) && Finished(w, id)
    ensures StaysFinished(w, v, id)
  {
    RecoverMoves(w, ids, id, v);
  }

  lemma StepKeepsFinished(w: World, a: Action, id: EventId, v: World)
    requires QueueOk(w) && Enabled(w, a) && EventInvariant(w, id) && v == Apply(w, a) && Finished(w, id)
    ensures StaysFinished(w, v, id)
  {
    hide EventInvariant, Advance, Stopped, Done, StaysFinished;
    match a
    case Create(other, cols) =>
      CreateMoves(w, other, cols, id, v);
      UntouchedDone(w, v, id);
    case RecoverStale(ids) => RecoverDone(w, ids, id, v);
    case Step(_, _, _, _, _, _) => AdvanceDone(w, a, id, v);
    case Crash => StoppedDone(w, id, v);
    case _ =>
      QuietMoves(w, a, id, v);
      UntouchedDone(w, v, id);
  }

  lemma StaysDoneTransitive(u: World, v: World, w: World, id: EventId)
    requires StaysFinished(u, v, id) && StaysFinished(v, w, id)
    ensures StaysFinished(u, w, id)
  {
  }

  /**
   Once an event is settled, or has a success stored, no later part of any run claims it,
   calls a model for it or stores a result for it again; and settled events stay settled.
   */
  lemma {:induction false} FinishedForever(actions: seq<Action>, n: nat, id: EventId)
    requires n <= |actions| && Finished(Run(actions[..n]), id)
    ensures StaysFinished(Run(actions[..n]), Run(actions), id)
    decreases |actions|
  {
    if n == |actions| {
      assert actions[..n] == actions;
    } else {
      var front, last := actions[..|actions| - 1], actions[|actions| - 1];
      assert front[..n] == actions[..n];
      FinishedForever(front, n, id);
      if Enabled(Run(front), last) {
        hide EventInvariant, QueueOk, Apply, Done;
        RunKeepsQueue(front);
        RunKeepsEvent(front, id);
        StepKeepsFinished(Run(front), last, id, Run(actions));
        StaysDoneTransitive(Run(actions[..n]), Run(front), Run(actions), id);
      }
    }
  }

  // --- dispatch switched off -------------------------------------------------------------------------------------

  predicate NoDispatch(a: Action) { a.Begin? ==> !a.dispatch }

  /** With dispatch switched off, any number of cycles claims nothing and calls nothing: no row is even taken. */
  lemma {:induction false} DisabledBridgeIsReadOnly(actions: seq<Action>, id: EventId)
    requires forall i :: 0 <= i < |actions| ==> NoDispatch(actions[i])
    ensures var w := Run(actions);
            && w.cycle.Idle? && TallyOf(w, id) == ZERO
            && (id in w.q.events ==> w.q.events[id].cols.status != Processing)
  {
    if actions != [] {
      DisabledBridgeIsReadOnly(actions[..|actions| - 1], id);
      assert NoDispatch(actions[|actions| - 1]);
    }
  }
}
