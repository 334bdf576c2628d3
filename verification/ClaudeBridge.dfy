/**
 The bridge cycle (radar_v08/claude_bridge.py) as a state machine whose steps are
 the cycle's transactions and calls, so that a crash can fall between any two.
 The heartbeat creates events only between cycles, as in the loop. What the
 invocation ledger and the model answer is an argument of each step: any answer
 is possible. Times are microseconds.
 */
module ClaudeBridge {
  import opened Options
  import opened EventQueue

  const SECOND: int := 1_000_000
  const STALE_AFTER: int := 600_000_000        // CLAUDE_BRIDGE_PROCESSING_STALE_SECONDS
  const LONGEST_BACKOFF: int := 3_600_000_000  // the last entry of CLAUDE_BRIDGE_RETRY_BACKOFF_SECONDS
  const MAX_ATTEMPTS: nat := 6                 // CLAUDE_BRIDGE_MAX_ATTEMPTS_BEFORE_FAILED

  // CLAUDE_BRIDGE_RETRY_BACKOFF_SECONDS
  const SCHEDULE: seq<int> := [60, 300, 900, 1800, 3600]

  // The entry of the attempt just failed; the first one below it, the last one beyond it.
  function Backoff(attempts: int): (d: int)
    ensures d == SCHEDULE[if attempts < 1 then 0 else if attempts > |SCHEDULE| then |SCHEDULE| - 1 else attempts - 1] * SECOND
    ensures 60_000_000 <= d <= LONGEST_BACKOFF
  {
    if attempts <= 1 then 60_000_000
    else if attempts == 2 then 300_000_000
    else if attempts == 3 then 900_000_000
    else if attempts == 4 then 1_800_000_000
    else 3_600_000_000
  }

  // --- state ----------------------------------------------------------------------------

  // A candidate as its SELECT returned it.
  datatype Row = Row(id: EventId, cols: Columns)

  datatype Result = Success | AuthError | OtherFailure

  // How far the cycle is with the event at hand.
  datatype Stage =
    | Seen                          // found without a success, to be claimed
    | Taken                         // claimed in the queue
    | Cooling                       // claimed in the ledger, cooldown to start
    | Attempting
    | Calling
    | Committing(result: Result)    // the call is made
    | Recording(result: Result)     // the lease still held
    | Applying(result: Result)      // the result is stored
    | Notifying
    | MarkingNotified

  datatype Pc = NextRow | At(row: Row, stage: Stage)

  datatype Cycle =
    | Idle
    | Begun(now: int)                              // expired leases fenced
    | Recovered(now: int)                          // stale events handed back
    | Working(now: int, rows: seq<Row>, pc: Pc)

  // One event's history, counted.
  datatype Tally = Tally(
    accepted: nat,    // ledger claims won
    cooldowns: nat,   // cooldown starts
    uncooled: nat,    // crashes between those two
    unused: nat,      // claims given up before the call
    calls: nat,       // model calls made
    discarded: nat,   // calls whose result was never stored: fenced, ledger error, crash
    analyses: nat,    // results stored
    successes: nat,   // successful ones among them
    failures: nat,    // failed ones, applied to the event
    lost: nat,        // failed ones, stored but never applied: crashes
    notices: nat)     // notifications sent

  const ZERO := Tally(0, 0, 0, 0, 0, 0, 0, 0, 0, 0, 0)

  datatype World = World(q: Queue, cycle: Cycle, tallies: EventId -> Tally)

  const START := World(EMPTY, Idle, (_: EventId) => ZERO)

  function TallyOf(w: World, id: EventId): Tally { w.tallies(id) }

  function Tallied(w: World, id: EventId, t: Tally): EventId -> Tally {
    (x: EventId) => if x == id then t else w.tallies(x)
  }

  function PcOf(w: World): Pc { if w.cycle.Working? then w.cycle.pc else NextRow }

  // --- steps ------------------------------------------------------------------------------

  datatype Answer = Won | DuplicateClaim | RefusedClaim | LedgerError

  datatype Verdict = Applied | NotApplied | Failure

  datatype Action =
    | Create(id: EventId, cols: Columns)          // the heartbeat's create_event_if_new
    | Deliver(id: EventId, push: Push)            // push delivery state, at any time
    | Begin(now: int, dispatch: bool)             // a call of run_bridge_cycle
    | RecoverStale(ids: seq<EventId>)
    | Select(ids: seq<EventId>)                   // or no SDK, no credentials: nothing selected
    | Step(clock: int, valid: bool, answer: Answer, verdict: Verdict, result: Result, notify: bool)
    | Crash

  ghost predicate ActionableIds(q: Queue, now: int, ids: seq<EventId>) {
    NoRepeats(ids) && forall id <- ids :: id in q.events && Actionable(q.events[id].cols, now)
  }

  // The columns insert_event fills in for a new event; no caller creates one as PROCESSING.
  predicate Fresh(c: Columns) { c.status != Processing && c.attempts == 0 && c.nextAttemptAt.None? && !c.notified }

  ghost predicate Enabled(w: World, a: Action) {
    match a
    case Create(_, cols) => w.cycle.Idle? && Fresh(cols)
    case Deliver(_, _) => true
    case Begin(_, _) => w.cycle.Idle?
    case RecoverStale(ids) => w.cycle.Begun? && StaleIds(w.q, w.cycle.now - STALE_AFTER, ids)
    case Select(ids) => w.cycle.Recovered? && ActionableIds(w.q, w.cycle.now, ids)
    case Step(_, _, _, _, _, _) => w.cycle.Working? && (Subject(w).Some? ==> Subject(w).value.id in w.q.events)
    case Crash => !w.cycle.Idle?
  }

  function RowsFor(q: Queue, ids: seq<EventId>): (rows: seq<Row>)
    requires forall id <- ids :: id in q.events
    ensures |rows| == |ids| && forall i :: 0 <= i < |ids| ==> rows[i] == Row(ids[i], q.events[ids[i]].cols)
  {
    seq(|ids|, i requires 0 <= i < |ids| => Row(ids[i], q.events[ids[i]].cols))
  }

  // What a step leaves of the event it is about: its row, whether a transaction wrote
  // it, its account, where the cycle goes on or that it ends.
  datatype Local = Local(cols: Columns, writes: bool, tally: Tally, pc: Pc, ends: bool)

  function Wrote(c: Columns, t: Tally, pc: Pc): Local { Local(c, true, t, pc, false) }

  function Kept(c: Columns, t: Tally, pc: Pc): Local { Local(c, false, t, pc, false) }

  // Put a taken event back with a backoff.
  function PutBack(c: Columns, row: Row, now: int, reason: string): Columns {
    AsDeferred(c, now, reason, now + Backoff(row.cols.attempts + 1))
  }

  // _apply_outcome.
  function Outcome(c: Columns, row: Row, result: Result, now: int): Columns {
    var attempts := row.cols.attempts + 1;
    if result == Success then AsProcessed(c, now)
    else if result == AuthError then AsFailed(c, now, "auth_error")
    else if attempts >= MAX_ATTEMPTS then AsFailed(c, now, "max_attempts_exceeded")
    else AsDeferred(c, now, "call_failed", now + Backoff(attempts))
  }

  // What giving up at this stage adds to the tally.
  function GivenUp(t: Tally, stage: Stage): Tally {
    match stage
    case Cooling => t.(uncooled := t.uncooled + 1, unused := t.unused + 1)
    case Attempting => t.(unused := t.unused + 1)
    case Calling => t.(unused := t.unused + 1)
    case Committing(_) => t.(discarded := t.discarded + 1)
    case Recording(_) => t.(discarded := t.discarded + 1)
    case Applying(result) => if result == Success then t else t.(lost := t.lost + 1)
    case _ => t
  }

  // After a ledger error: the event is deferred if still taken, and the cycle ends.
  function Abandoned(c: Columns, t: Tally, row: Row, stage: Stage, now: int): Local {
    if c.status == Processing then Local(PutBack(c, row, now, "invocation_store"), true, GivenUp(t, stage), NextRow, true)
    else Local(c, false, GivenUp(t, stage), NextRow, true)
  }

  function TakeRow(c: Columns, t: Tally, row: Row, now: int): Local {
    if row.cols.demand != "SONNET" && row.cols.demand != "FABLE" then Kept(c, t, NextRow)
    else if t.successes > 0 then Wrote(AsProcessed(c, now), t, NextRow)
    else Kept(c, t, At(row, Seen))
  }

  // A lost race leaves the row alone.
  function ClaimRow(c: Columns, t: Tally, row: Row, clock: int): Local {
    if Claimable(c) then Wrote(Claimed(c, clock), t, At(row, Taken)) else Kept(c, t, NextRow)
  }

  function ClaimInLedger(c: Columns, t: Tally, row: Row, now: int, valid: bool, answer: Answer): Local {
    if !valid then Wrote(AsFailed(c, now, "invocation_identity_invalid"), t, NextRow)
    else
      match answer
      case Won => Kept(c, t.(accepted := t.accepted + 1), At(row, Cooling))
      case RefusedClaim => Wrote(PutBack(c, row, now, "budget_exhausted"), t, NextRow)
      case DuplicateClaim => Wrote(PutBack(c, row, now, "invocation_active_elsewhere"), t, NextRow)
      case LedgerError => Abandoned(c, t, row, Taken, now)
  }

  // A fenced ledger transition: APPLIED, refused to a lost lease, or storage trouble.
  function Fenced(c: Columns, t: Tally, row: Row, now: int, stage: Stage, verdict: Verdict, onward: Stage): Local {
    match verdict
    case Applied => Kept(c, t, At(row, onward))
    case NotApplied => Kept(c, GivenUp(t, stage), NextRow)
    case Failure => Abandoned(c, t, row, stage, now)
  }

  function ApplyOutcome(c: Columns, t: Tally, row: Row, now: int, result: Result, notify: bool): Local {
    if result != Success then Wrote(Outcome(c, row, result, now), t.(failures := t.failures + 1), NextRow)
    else Wrote(Outcome(c, row, result, now), t, if notify && !row.cols.notified then At(row, Notifying) else NextRow)
  }

  function Continue(c: Columns, t: Tally, row: Row, now: int, stage: Stage, a: Action): Local
    requires a.Step?
  {
    match stage
    case Seen => ClaimRow(c, t, row, a.clock)
    case Taken => ClaimInLedger(c, t, row, now, a.valid, a.answer)
    case Cooling => Kept(c, t.(cooldowns := t.cooldowns + 1), At(row, Attempting))
    case Attempting => Fenced(c, t, row, now, stage, a.verdict, Calling)
    case Calling => Kept(c, t.(calls := t.calls + 1), At(row, Committing(a.result)))
    case Committing(result) => Fenced(c, t, row, now, stage, a.verdict, Recording(result))
    case Recording(result) =>
      Kept(c, t.(analyses := t.analyses + 1, successes := t.successes + if result == Success then 1 else 0),
           At(row, Applying(result)))
    case Applying(result) => ApplyOutcome(c, t, row, now, result, a.notify)
    case Notifying => Kept(c, t.(notices := t.notices + 1), At(row, MarkingNotified))
    case MarkingNotified => Wrote(AsNotified(c, now), t, NextRow)
  }

  function Placed(w: World, id: EventId, l: Local): World
    requires w.cycle.Working? && id in w.q.events
  {
    World(if l.writes then Commit(w.q, id, l.cols) else w.q,
          if l.ends then Idle else w.cycle.(pc := l.pc),
          Tallied(w, id, l.tally))
  }

  // The event the next step is about.
  function Subject(w: World): Option<Row> {
    if !w.cycle.Working? then None
    else
      match w.cycle.pc
      case At(row, _) => Some(row)
      case NextRow => if w.cycle.rows == [] then None else Some(w.cycle.rows[0])
  }

  function StepAbout(w: World, row: Row, a: Action): Local
    requires w.cycle.Working? && row.id in w.q.events && a.Step?
  {
    var c, t := w.q.events[row.id].cols, TallyOf(w, row.id);
    match w.cycle.pc
    case At(_, stage) => Continue(c, t, row, w.cycle.now, stage, a)
    case NextRow => TakeRow(c, t, row, w.cycle.now)
  }

  // The rows still to come once the step has its subject.
  function Fetched(w: World): World {
    if w.cycle.Working? && w.cycle.pc == NextRow && w.cycle.rows != [] then w.(cycle := w.cycle.(rows := w.cycle.rows[1..]))
    else w
  }

  ghost function Advance(w: World, a: Action): World
    requires Enabled(w, a) && a.Step?
  {
    match Subject(w)
    case None => w.(cycle := Idle)
    case Some(row) => Placed(Fetched(w), row.id, StepAbout(w, row, a))
  }

  // The end of the cycle, wherever it is.
  function Stopped(w: World): World {
    match PcOf(w)
    case NextRow => w.(cycle := Idle)
    case At(row, stage) => w.(cycle := Idle, tallies := Tallied(w, row.id, GivenUp(TallyOf(w, row.id), stage)))
  }

  ghost function Apply(w: World, a: Action): World
    requires Enabled(w, a)
  {
    match a
    case Create(id, cols) => w.(q := CreateIfNew(w.q, id, cols))
    case Deliver(id, push) => w.(q := SetPush(w.q, id, push))
    case Begin(now, dispatch) => if dispatch then w.(cycle := Begun(now)) else w
    case RecoverStale(ids) => w.(q := RecoverAll(w.q, ids, w.cycle.now), cycle := Recovered(w.cycle.now))
    case Select(ids) => w.(cycle := Working(w.cycle.now, RowsFor(w.q, ids), NextRow))
    case Step(_, _, _, _, _, _) => Advance(w, a)
    case Crash => Stopped(w)
  }

  ghost function RunFrom(w: World, actions: seq<Action>): World {
    if actions == [] then w
    else
      var v := RunFrom(w, actions[..|actions| - 1]);
      var a := actions[|actions| - 1];
      if Enabled(v, a) then Apply(v, a) else v
  }

  ghost function Run(actions: seq<Action>): World { RunFrom(START, actions) }
}
