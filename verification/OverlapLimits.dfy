/**
 How far the single success of an event reaches when several bridge cycles overlap: it
 holds in every run of one cycle, and with two a desk that stalls between its committed
 result and the storing of it leads to a second success.
 */
module OverlapLimits {
  import opened Options
  import opened EventQueue
  import opened ClaudeBridge
  import opened Shared = OverlappingCycles
  import Composed = BridgeAndLedger
  import Ledger = InvocationLedger

  const EVENT: EventId := 0

  const DAY: int := 86_400_000_000

  // The bridge serves this model and its budget has a unit.
  predicate Served(cfg: Composed.Setting, model: string) {
    && (model == "SONNET" || model == "FABLE")
    && Ledger.LimitsOf(cfg.budgets, model).hourly >= 1 && Ledger.LimitsOf(cfg.budgets, model).daily >= 1
  }

  // The only event of the queue, without a success or a notice.
  ghost predicate Alone(s: Office, model: string) {
    && s.q.events.Keys == {EVENT} && s.q.events[EVENT].cols.demand == model && !s.q.events[EVENT].cols.notified
    && s.tallies(EVENT).successes == 0 && s.tallies(EVENT).notices == 0
  }

  // No budget is used from this day on.
  predicate Unused(reserved: map<Ledger.Key, nat>, day: nat) {
    forall k <- reserved :: if k.window.Hour? then k.window.n < 24 * day else k.window.n < day
  }

  // No invocation but this one is active.
  predicate Inactive(l: Ledger.Ledger, but: nat) {
    forall k: nat :: k < |l.invocations| && k != but ==> l.invocations[k].state != Ledger.Claimed
  }

  predicate Quiet(l: Ledger.Ledger, day: nat) { Unused(l.reserved, day) && Inactive(l, |l.invocations|) }

  // The lease may act on this day.
  predicate Mine(l: Ledger.Ledger, lease: Ledger.Lease, day: nat, attempts: nat) {
    && Unused(l.reserved, day + 1) && Inactive(l, lease.id)
    && Ledger.FenceStatus(l, lease, day * DAY) == Ledger.Applied && l.invocations[lease.id].attempts == attempts
  }

  predicate LedgerAt(l: Ledger.Ledger, lease: Ledger.Lease, day: nat, stage: Stage) {
    match stage
    case Seen => Quiet(l, day)
    case Taken => Quiet(l, day)
    case Cooling => Mine(l, lease, day, 0)
    case Attempting => Mine(l, lease, day, 0)
    case Recording(_) => Quiet(l, day + 1)
    case _ => Mine(l, lease, day, 1)
  }

  // A desk has the event in hand at this stage.
  predicate HasIt(d: Desk, stage: Stage, model: string) {
    && d.cycle.Working? && d.cycle.rows == [] && d.cycle.pc.At? && d.cycle.pc.stage == stage
    && d.cycle.pc.row.id == EVENT && d.cycle.pc.row.cols.demand == model && !d.cycle.pc.row.cols.notified
  }

  predicate RowAt(c: Columns, stage: Stage, day: nat) {
    if stage == Seen then Claimable(c) else c.status == Processing && c.startedAt == Some(day * DAY)
  }

  // On this day this desk works on the event, and nobody else at the ledger.
  ghost predicate Works(s: Office, i: nat, stage: Stage, day: nat, model: string) {
    && i < |s.desks| && Alone(s, model) && HasIt(s.desks[i], stage, model)
    && RowAt(s.q.events[EVENT].cols, stage, day) && LedgerAt(s.ledger, s.desks[i].lease, day, stage)
  }

  function Good(day: nat): Action { Step(day * DAY, true, Answer.Won, Verdict.Applied, Success, true) }

  // The move at this stage when all goes well.
  function MoveAt(stage: Stage, day: nat): Composed.Move {
    if stage == Taken || stage == Attempting || stage.Committing?
    then Composed.BridgeTransacts(Good(day), day * DAY, "owner", day * DAY + 1)
    else Composed.BridgeMoves(Good(day))
  }

  const STAGES := [Seen, Taken, Cooling, Attempting, Calling, Committing(Success), Recording(Success)]

  // --- one turn ---------------------------------------------------------------------------------

  lemma Extends(cfg: Composed.Setting, n: nat, turns: seq<Turn>, t: Turn)
    requires Possible(Shared.Run(cfg, n, turns), t)
    ensures Shared.Run(cfg, n, turns + [t]) == Shared.Apply(Shared.Run(cfg, n, turns), cfg, t)
  {
    assert (turns + [t])[..|turns|] == turns;
  }

  lemma NothingUsed(l: Ledger.Ledger, cfg: Composed.Setting, model: string, day: nat)
    requires Unused(l.reserved, day) && Served(cfg, model)
    ensures Ledger.RefusalReason(l, cfg.budgets, model, day * DAY).None?
    ensures Unused(Ledger.Reserve(l.reserved, model, day * DAY), day + 1)
  {
    assert day * DAY / 3_600_000_000 == 24 * day && day * DAY / DAY == day;
  }

  lemma ClaimWins(l: Ledger.Ledger, cfg: Composed.Setting, identity: Ledger.Identity, model: string, day: nat)
    requires Quiet(l, day) && Served(cfg, model)
    ensures var (m, c) := Ledger.ClaimInvocation(l, cfg.budgets, identity, model, "owner", day * DAY, day * DAY + 1);
            c.Won? && Mine(m, c.lease, day, 0)
  {
    hide Served, Unused, Ledger.RefusalReason, Ledger.Reserve;
    NothingUsed(l, cfg, model, day);
  }

  lemma AttemptCounts(l: Ledger.Ledger, cfg: Composed.Setting, lease: Ledger.Lease, day: nat)
    requires Mine(l, lease, day, 0)
    ensures var (m, status) := Ledger.RecordAttempt(l, cfg.budgets, lease, day * DAY); status == Ledger.Applied && Mine(m, lease, day, 1)
  {
    hide Unused, Ledger.RefusalReason, Ledger.Reserve;
  }

  lemma EndFrees(l: Ledger.Ledger, lease: Ledger.Lease, day: nat)
    requires Mine(l, lease, day, 1)
    ensures var (m, status) := Ledger.EndInvocation(l, lease, day * DAY, true); status == Ledger.Applied && Quiet(m, day + 1)
  {
    hide Unused;
  }

  // What a turn of this desk does to its work.
  ghost predicate Proceeds(s: Office, cfg: Composed.Setting, i: nat, k: nat, day: nat, model: string)
    requires k < 6
  {
    var t := Turn(i, MoveAt(STAGES[k], day));
    && Possible(s, t) && Works(Shared.Apply(s, cfg, t), i, STAGES[k + 1], day, model)
    && OnlyDesk(s, Shared.Apply(s, cfg, t), i)
  }

  // Without the ledger.
  lemma OwnStep(s: Office, cfg: Composed.Setting, i: nat, k: nat, day: nat, model: string)
    requires k in [0, 2, 4] && Works(s, i, STAGES[k], day, model)
    ensures Proceeds(s, cfg, i, k, day, model)
  {
    hide Quiet, Mine, Ledger.ClaimInvocation, Ledger.RecordAttempt, Ledger.EndInvocation;
  }

  // With it.
  lemma LedgerStep(s: Office, cfg: Composed.Setting, i: nat, k: nat, day: nat, model: string)
    requires k in [1, 3, 5] && Works(s, i, STAGES[k], day, model) && Served(cfg, model)
    ensures Proceeds(s, cfg, i, k, day, model)
  {
    hide Quiet, Mine, Served, Ledger.ClaimInvocation, Ledger.RecordAttempt, Ledger.EndInvocation;
    var row := s.desks[i].cycle.pc.row;
    if k == 1 {
      ClaimWins(s.ledger, cfg, cfg.identity(row.id), row.cols.demand, day);
    } else if k == 3 {
      AttemptCounts(s.ledger, cfg, s.desks[i].lease, day);
    } else {
      EndFrees(s.ledger, s.desks[i].lease, day);
    }
  }

  // The other desks stay as they are.
  ghost predicate OnlyDesk(s: Office, t: Office, i: nat) {
    |t.desks| == |s.desks| && forall j: nat :: j < |s.desks| && j != i ==> t.desks[j] == s.desks[j]
  }

  // --- the run ------------------------------------------------------------------------------------

  // From where the event is found to its committed result.
  lemma CallAndCommit(cfg: Composed.Setting, n: nat, turns: seq<Turn>, i: nat, day: nat, model: string) returns (more: seq<Turn>)
    requires Works(Shared.Run(cfg, n, turns), i, Seen, day, model) && Served(cfg, model)
    ensures Works(Shared.Run(cfg, n, more), i, Recording(Success), day, model) && OnlyDesk(Shared.Run(cfg, n, turns), Shared.Run(cfg, n, more), i)
  {
    hide Works, Shared.Run, Served, MoveAt, Possible, Shared.Apply;
    more := turns;
    for k := 0 to 6
      invariant Works(Shared.Run(cfg, n, more), i, STAGES[k], day, model) && OnlyDesk(Shared.Run(cfg, n, turns), Shared.Run(cfg, n, more), i)
    {
      var t := Turn(i, MoveAt(STAGES[k], day));
      if k % 2 == 0 {
        OwnStep(Shared.Run(cfg, n, more), cfg, i, k, day, model);
      } else {
        LedgerStep(Shared.Run(cfg, n, more), cfg, i, k, day, model);
      }
      Extends(cfg, n, more, t);
      more := more + [t];
    }
  }

  ghost predicate Waits(s: Office, i: nat, day: nat, model: string) {
    && i < |s.desks| && s.desks[i].cycle.Idle? && Alone(s, model) && Quiet(s.ledger, day)
  }

  // A cycle that begins on this day, hands these back and finds the event.
  lemma CycleFinds(
    cfg: Composed.Setting, n: nat, turns: seq<Turn>, i: nat, day: nat, stale: seq<EventId>, model: string)
    returns (more: seq<Turn>)
    requires Waits(Shared.Run(cfg, n, turns), i, day, model) && Served(cfg, model)
    requires StaleIds(Shared.Run(cfg, n, turns).q, day * DAY - STALE_AFTER, stale)
    requires stale == [EVENT] || (stale == [] && Shared.Run(cfg, n, turns).q.events[EVENT].cols.status == Pending)
    ensures Works(Shared.Run(cfg, n, more), i, Seen, day, model) && OnlyDesk(Shared.Run(cfg, n, turns), Shared.Run(cfg, n, more), i)
  {
    more := turns;
    for k := 0 to 4
      invariant Finding(Shared.Run(cfg, n, turns), Shared.Run(cfg, n, more), i, k, day, stale, model)
    {
      var s := Shared.Run(cfg, n, more);
      var t := Turn(i, Composed.BridgeMoves(FindingAt(k, day, stale)));
      FindingStep(Shared.Run(cfg, n, turns), s, cfg, i, k, day, stale, model);
      Extends(cfg, n, more, t);
      more := more + [t];
    }
  }

  function FindingAt(k: nat, day: nat, stale: seq<EventId>): Action {
    match k
    case 0 => Begin(day * DAY, true)
    case 1 => RecoverStale(stale)
    case 2 => Select([EVENT])
    case _ => Good(day)
  }

  predicate FoundSoFar(c: Cycle, cols: Columns, k: nat, day: nat) {
    match k
    case 0 => c.Idle?
    case 1 => c == Begun(day * DAY)
    case 2 => c == Cycle.Recovered(day * DAY) && cols.status == Pending
    case 3 => c == Working(day * DAY, [Row(EVENT, cols)], NextRow) && cols.status == Pending
    case _ => c == Working(day * DAY, [], At(Row(EVENT, cols), Seen)) && cols.status == Pending
  }

  // How far the cycle came since it was idle.
  ghost predicate Finding(start: Office, s: Office, i: nat, k: nat, day: nat, stale: seq<EventId>, model: string) {
    && i < |s.desks| && OnlyDesk(start, s, i) && Alone(s, model) && Quiet(s.ledger, day)
    && FoundSoFar(s.desks[i].cycle, s.q.events[EVENT].cols, k, day)
    && (k <= 1 ==> StaleIds(s.q, day * DAY - STALE_AFTER, stale)
                   && (stale == [EVENT] || (stale == [] && s.q.events[EVENT].cols.status == Pending)))
  }

  lemma FindingStep(start: Office, s: Office, cfg: Composed.Setting, i: nat, k: nat, day: nat, stale: seq<EventId>, model: string)
    requires k < 4 && Finding(start, s, i, k, day, stale, model) && Served(cfg, model)
    ensures var t := Turn(i, Composed.BridgeMoves(FindingAt(k, day, stale)));
            && Possible(s, t) && Finding(start, Shared.Apply(s, cfg, t), i, k + 1, day, stale, model)
  {
    hide Quiet, RecoverAll;
    if k == 1 {
      RecoverEffect(s.q, stale, day * DAY);
    }
  }

  // What is left to do with a committed result.
  const CLOSING := [Recording(Success), Applying(Success), Notifying, MarkingNotified]

  lemma CloseStep(s: Office, cfg: Composed.Setting, i: nat, k: nat, model: string)
    requires k < 3 && i < |s.desks| && HasIt(s.desks[i], CLOSING[k], model) && EVENT in s.q.events
    ensures var t := Turn(i, Composed.BridgeMoves(Good(0)));
            && Possible(s, t) && OnlyDesk(s, Shared.Apply(s, cfg, t), i) && HasIt(Shared.Apply(s, cfg, t).desks[i], CLOSING[k + 1], model)
            && EVENT in Shared.Apply(s, cfg, t).q.events
            && Shared.Apply(s, cfg, t).tallies(EVENT).successes == s.tallies(EVENT).successes + (if k == 0 then 1 else 0)
            && Shared.Apply(s, cfg, t).tallies(EVENT).notices == s.tallies(EVENT).notices + (if k == 2 then 1 else 0)
  {
  }

  lemma Created(cfg: Composed.Setting, n: nat, model: string) returns (turns: seq<Turn>)
    requires n >= 2
    ensures var s := Shared.Run(cfg, n, turns);
            Waits(s, 0, 0, model) && Waits(s, 1, 0, model) && s.q.events[EVENT].cols.status == Pending
  {
    var create := Create(EVENT, Columns("key", 0, model, Pending, 0, None, None, None, 0, false));
    var t := Turn(0, Composed.BridgeMoves(create));
    Extends(cfg, n, [], t);
    turns := [] + [t];
  }

  // The first desk commits its result and stalls.
  lemma FirstStalls(cfg: Composed.Setting, n: nat, model: string) returns (turns: seq<Turn>)
    requires n >= 2 && Served(cfg, model)
    ensures var s := Shared.Run(cfg, n, turns); Works(s, 0, Recording(Success), 0, model) && |s.desks| > 1 && s.desks[1].cycle.Idle?
  {
    hide Works, Shared.Run, Served, Quiet;
    turns := Created(cfg, n, model);
    turns := CycleFinds(cfg, n, turns, 0, 0, [], model);
    turns := CallAndCommit(cfg, n, turns, 0, 0, model);
  }

  // A day later it is handed back.
  lemma MayBeTakenOver(s: Office, model: string)
    requires Works(s, 0, Recording(Success), 0, model) && |s.desks| > 1 && s.desks[1].cycle.Idle?
    ensures Waits(s, 1, 1, model) && StaleIds(s.q, 1 * DAY - STALE_AFTER, [EVENT]) && HasIt(s.desks[0], Recording(Success), model)
  {
    hide Quiet;
  }

  // And the second one does the same.
  lemma BothStall(cfg: Composed.Setting, n: nat, model: string) returns (turns: seq<Turn>)
    requires n >= 2 && Served(cfg, model)
    ensures var s := Shared.Run(cfg, n, turns);
            && Alone(s, model) && |s.desks| > 1
            && HasIt(s.desks[0], Recording(Success), model) && HasIt(s.desks[1], Recording(Success), model)
  {
    hide Shared.Run, Served, HasIt, Waits, StaleIds;
    turns := FirstStalls(cfg, n, model);
    MayBeTakenOver(Shared.Run(cfg, n, turns), model);
    turns := CycleFinds(cfg, n, turns, 1, 1, [EVENT], model);
    turns := CallAndCommit(cfg, n, turns, 1, 1, model);
  }

  // Storing, applying and notifying a committed result, whatever happened since.
  lemma Closes(cfg: Composed.Setting, n: nat, turns: seq<Turn>, i: nat, model: string) returns (more: seq<Turn>)
    requires var s := Shared.Run(cfg, n, turns); i < |s.desks| && HasIt(s.desks[i], Recording(Success), model) && EVENT in s.q.events
    ensures var s, t := Shared.Run(cfg, n, turns), Shared.Run(cfg, n, more);
            && OnlyDesk(s, t, i) && EVENT in t.q.events
            && t.tallies(EVENT).successes == s.tallies(EVENT).successes + 1 && t.tallies(EVENT).notices == s.tallies(EVENT).notices + 1
  {
    hide Shared.Run, HasIt, Possible, Shared.Apply, Good;
    more := turns;
    for k := 0 to 3
      invariant var s, t := Shared.Run(cfg, n, turns), Shared.Run(cfg, n, more);
                && OnlyDesk(s, t, i) && EVENT in t.q.events && HasIt(t.desks[i], CLOSING[k], model)
                && t.tallies(EVENT).successes == s.tallies(EVENT).successes + (if k == 0 then 0 else 1)
                && t.tallies(EVENT).notices == s.tallies(EVENT).notices + (if k == 3 then 1 else 0)
    {
      var t := Turn(i, Composed.BridgeMoves(Good(0)));
      CloseStep(Shared.Run(cfg, n, more), cfg, i, k, model);
      Extends(cfg, n, more, t);
      more := more + [t];
    }
  }

  /**
   With two desks an event may succeed twice: one commits its result and stalls before it
   stores it, the event is handed back as stale, and the other finds no success and repeats it.
   */
  lemma StalledDeskSucceedsTwice(cfg: Composed.Setting, n: nat, model: string) returns (turns: seq<Turn>, id: EventId)
    requires n >= 2 && Served(cfg, model)
    ensures var t := Shared.Run(cfg, n, turns).tallies(id); t.successes == 2 && t.notices == 2
  {
    hide Shared.Run, Served, HasIt;
    id := EVENT;
    turns := BothStall(cfg, n, model);
    turns := Closes(cfg, n, turns, 1, model);
    turns := Closes(cfg, n, turns, 0, model);
  }

  // --- one desk -------------------------------------------------------------------------------------

  // A desk about to hand events back has none in hand, and there is no other.
  lemma OneDeskIsPatient(s: Office, t: Turn, id: EventId)
    requires |s.desks| <= 1
    ensures Patient(s, t, id)
  {
  }

  lemma {:induction false} DesksStay(cfg: Composed.Setting, n: nat, turns: seq<Turn>)
    ensures |Shared.Run(cfg, n, turns).desks| == n
  {
    hide Composed.Apply, Composed.Possible;
    if turns != [] {
      DesksStay(cfg, n, turns[..|turns| - 1]);
    }
  }

  // --- no budget ----------------------------------------------------------------------------------------

  // No event was called for, and none is about to be.
  predicate BeforeClaim(pc: Pc) {
    pc.At? ==> (pc.stage == Seen || pc.stage == Taken) && (pc.row.cols.demand == "SONNET" || pc.row.cols.demand == "FABLE")
  }

  ghost predicate NoSuccess(tallies: EventId -> Tally) { forall id: EventId :: tallies(id).successes == 0 && tallies(id).notices == 0 }

  ghost predicate NoWork(s: Office) {
    NoSuccess(s.tallies) && forall i :: 0 <= i < |s.desks| ==> BeforeClaim(PcAt(s.desks[i]))
  }

  lemma NeverWins(l: Ledger.Ledger, cfg: Composed.Setting, identity: Ledger.Identity, model: string, owner: string, now: int, expiresAt: int)
    requires (model == "SONNET" || model == "FABLE") && !Served(cfg, model)
    ensures !Ledger.ClaimInvocation(l, cfg.budgets, identity, model, owner, now, expiresAt).1.Won?
  {
  }

  lemma NoWorkStep(w: World, a: Action, v: World)
    requires Enabled(w, a) && BeforeClaim(PcOf(w)) && NoSuccess(w.tallies) && v == ClaudeBridge.Apply(w, a)
    requires a.Step? && PcOf(w).At? && PcOf(w).stage == Taken && a.valid ==> a.answer != Answer.Won
    ensures BeforeClaim(PcOf(v)) && NoSuccess(v.tallies)
  {
    hide Commit, CreateIfNew, RecoverAll, RowsFor;
  }

  lemma NoWorkTurn(s: Office, cfg: Composed.Setting, t: Turn)
    requires Possible(s, t) && NoWork(s) && !Served(cfg, "SONNET") && !Served(cfg, "FABLE")
    ensures NoWork(Shared.Apply(s, cfg, t))
  {
    hide ClaudeBridge.Apply, Served, NoSuccess, Ledger.ClaimInvocation, Ledger.Apply;
    var v, w := View(s, t.desk), View(s, t.desk).world;
    assert PcAt(s.desks[t.desk]) == PcOf(w);
    match t.m
    case LedgerMoves(_) =>
    case BridgeMoves(a) => NoWorkStep(w, a, ClaudeBridge.Apply(w, a));
    case BridgeTransacts(a, now, owner, expiresAt) =>
      var row := PcOf(w).row;
      NeverWins(s.ledger, cfg, cfg.identity(row.id), row.cols.demand, owner, now, expiresAt);
      var c := Ledger.ClaimInvocation(s.ledger, cfg.budgets, cfg.identity(row.id), row.cols.demand, owner, now, expiresAt).1;
      var answered := a.(answer := Composed.AnswerOf(c));
      NoWorkStep(w, answered, ClaudeBridge.Apply(w, answered));
  }

  lemma {:induction false} NothingWithoutBudget(cfg: Composed.Setting, n: nat, turns: seq<Turn>)
    requires !Served(cfg, "SONNET") && !Served(cfg, "FABLE")
    ensures NoWork(Shared.Run(cfg, n, turns))
  {
    hide Served, Possible, Shared.Apply;
    if turns != [] {
      NothingWithoutBudget(cfg, n, turns[..|turns| - 1]);
      var s, t := Shared.Run(cfg, n, turns[..|turns| - 1]), turns[|turns| - 1];
      if Possible(s, t) {
        NoWorkTurn(s, cfg, t);
      }
    }
  }

  // --- exactly when -----------------------------------------------------------------------------------------

  ghost predicate OneSuccess(cfg: Composed.Setting, n: nat) {
    forall turns: seq<Turn>, id: EventId :: Shared.Run(cfg, n, turns).tallies(id).successes <= 1
  }

  ghost predicate OneNotice(cfg: Composed.Setting, n: nat) {
    forall turns: seq<Turn>, id: EventId :: Shared.Run(cfg, n, turns).tallies(id).notices <= 1
  }

  // A model the bridge serves has a unit in the hour and in the day.
  predicate Funded(cfg: Composed.Setting) { Served(cfg, "SONNET") || Served(cfg, "FABLE") }

  lemma OneDesk(cfg: Composed.Setting, n: nat, turns: seq<Turn>, id: EventId)
    requires n <= 1
    ensures var t := Shared.Run(cfg, n, turns).tallies(id); t.notices <= t.successes <= 1
  {
    hide Shared.Run, Patient;
    forall k | 0 <= k < |turns| ensures Patient(Shared.Run(cfg, n, turns[..k]), turns[k], id) {
      DesksStay(cfg, n, turns[..k]);
      OneDeskIsPatient(Shared.Run(cfg, n, turns[..k]), turns[k], id);
    }
    OneSuccessWhenPatient(cfg, n, turns, id);
  }

  /**
   That no event ever succeeds twice, and that none is ever notified twice, holds over all runs
   if and only if cycles never overlap, or no model has a budget at all.
   */
  lemma OnceExactlyWithoutOverlap(cfg: Composed.Setting, n: nat)
    ensures OneSuccess(cfg, n) <==> n <= 1 || !Funded(cfg)
    ensures OneNotice(cfg, n) <==> n <= 1 || !Funded(cfg)
  {
    hide Shared.Run, Served;
    if n <= 1 || !Funded(cfg) {
      forall turns: seq<Turn>, id: EventId
        ensures Shared.Run(cfg, n, turns).tallies(id).successes <= 1 && Shared.Run(cfg, n, turns).tallies(id).notices <= 1
      {
        if n <= 1 {
          OneDesk(cfg, n, turns, id);
        } else {
          NothingWithoutBudget(cfg, n, turns);
        }
      }
    } else {
      var turns, id := StalledDeskSucceedsTwice(cfg, n, if Served(cfg, "SONNET") then "SONNET" else "FABLE");
    }
  }
}
