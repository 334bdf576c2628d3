/**
 The bridge cycle (radar_v08/claude_bridge.py) over the invocation ledger
 (radar_v08/adapters/invocation_store.py): the cycle's claims, attempts and commits
 are ledger transactions under the lease its claim won, and other owners'
 transactions fall anywhere between its steps.
 */
module BridgeAndLedger {
  import opened Numbers
  import EventQueue
  import Bridge = ClaudeBridge
  import Ledger = InvocationLedger

  // `lease` is the cycle's own, from its last won claim.
  datatype System = System(world: Bridge.World, ledger: Ledger.Ledger, lease: Ledger.Lease)

  datatype Move =
    | BridgeMoves(a: Bridge.Action)
    | BridgeTransacts(a: Bridge.Action, now: int, owner: string, expiresAt: int)
    | LedgerMoves(t: Ledger.Action)   // any transaction of anyone

  // The ledger's budgets, and the identity the bridge derives from an event.
  datatype Setting = Setting(budgets: Ledger.Budgets, identity: EventQueue.EventId -> Ledger.Identity)

  // The step calls the ledger.
  predicate AtLedger(w: Bridge.World, a: Bridge.Action) {
    && a.Step? && Bridge.PcOf(w).At?
    && var stage := Bridge.PcOf(w).stage;
       (stage == Bridge.Taken && a.valid) || stage == Bridge.Attempting || stage.Committing?
  }

  function AnswerOf(c: Ledger.Claim): Bridge.Answer {
    match c
    case Won(_) => Bridge.Won
    case Duplicate(_) => Bridge.DuplicateClaim
    case Refused(_) => Bridge.RefusedClaim
  }

  function VerdictOf(s: Ledger.Status): Bridge.Verdict {
    if s == Ledger.Applied then Bridge.Applied else Bridge.NotApplied
  }

  // Without a transaction a ledger call can only have failed.
  predicate StorageError(a: Bridge.Action)
    requires a.Step?
  {
    a.answer == Bridge.LedgerError && a.verdict == Bridge.Failure
  }

  ghost predicate Possible(s: System, m: Move) {
    match m
    case BridgeMoves(a) => Bridge.Enabled(s.world, a) && (AtLedger(s.world, a) ==> StorageError(a))
    case BridgeTransacts(a, _, _, _) => Bridge.Enabled(s.world, a) && AtLedger(s.world, a)
    case LedgerMoves(_) => true
  }

  ghost function Claims(s: System, cfg: Setting, m: Move): System
    requires Possible(s, m) && m.BridgeTransacts? && Bridge.PcOf(s.world).stage == Bridge.Taken
  {
    var row := Bridge.PcOf(s.world).row;
    var (l, c) := Ledger.ClaimInvocation(s.ledger, cfg.budgets, cfg.identity(row.id), row.cols.demand, m.owner, m.now, m.expiresAt);
    System(Bridge.Apply(s.world, m.a.(answer := AnswerOf(c))), l, if c.Won? then c.lease else s.lease)
  }

  ghost function Attempts(s: System, cfg: Setting, m: Move): System
    requires Possible(s, m) && m.BridgeTransacts? && Bridge.PcOf(s.world).stage == Bridge.Attempting
  {
    var (l, status) := Ledger.RecordAttempt(s.ledger, cfg.budgets, s.lease, m.now);
    System(Bridge.Apply(s.world, m.a.(verdict := VerdictOf(status))), l, s.lease)
  }

  ghost function Commits(s: System, m: Move): System
    requires Possible(s, m) && m.BridgeTransacts? && Bridge.PcOf(s.world).stage.Committing?
  {
    var completed := Bridge.PcOf(s.world).stage.result == Bridge.Success;
    var (l, status) := Ledger.EndInvocation(s.ledger, s.lease, m.now, completed);
    System(Bridge.Apply(s.world, m.a.(verdict := VerdictOf(status))), l, s.lease)
  }

  ghost function Apply(s: System, cfg: Setting, m: Move): System
    requires Possible(s, m)
  {
    match m
    case BridgeMoves(a) => s.(world := Bridge.Apply(s.world, a))
    case LedgerMoves(t) => s.(ledger := Ledger.Apply(s.ledger, cfg.budgets, t))
    case BridgeTransacts(_, _, _, _) =>
      if Bridge.PcOf(s.world).stage == Bridge.Taken then Claims(s, cfg, m)
      else if Bridge.PcOf(s.world).stage == Bridge.Attempting then Attempts(s, cfg, m)
      else Commits(s, m)
  }

  const START := System(Bridge.START, Ledger.EMPTY, Ledger.Lease(0, 0, "", 0))

  ghost function Run(cfg: Setting, moves: seq<Move>): System {
    if moves == [] then START
    else
      var s, m := Run(cfg, moves[..|moves| - 1]), moves[|moves| - 1];
      if Possible(s, m) then Apply(s, cfg, m) else s
  }

  // --- counting -----------------------------------------------------------------------------

  // The cycle is about to call this model.
  predicate AboutToCall(w: Bridge.World, model: string) {
    Bridge.PcOf(w).At? && Bridge.PcOf(w).row.cols.demand == model && Bridge.PcOf(w).stage == Bridge.Calling
  }

  // The cycle is about to store a result of this model.
  predicate AboutToStore(w: Bridge.World, model: string) {
    Bridge.PcOf(w).At? && Bridge.PcOf(w).row.cols.demand == model && Bridge.PcOf(w).stage.Recording?
  }

  predicate Steps(m: Move) { m.BridgeMoves? && m.a.Step? }

  // How many calls of a model a run made.
  ghost function CallsOf(cfg: Setting, moves: seq<Move>, model: string): nat {
    if moves == [] then 0
    else
      var s, m := Run(cfg, moves[..|moves| - 1]), moves[|moves| - 1];
      CallsOf(cfg, moves[..|moves| - 1], model) + One(Possible(s, m) && Steps(m) && AboutToCall(s.world, model))
  }

  // How many results of a model it stored.
  ghost function ResultsOf(cfg: Setting, moves: seq<Move>, model: string): nat {
    if moves == [] then 0
    else
      var s, m := Run(cfg, moves[..|moves| - 1]), moves[|moves| - 1];
      ResultsOf(cfg, moves[..|moves| - 1], model) + One(Possible(s, m) && Steps(m) && AboutToStore(s.world, model))
  }

  // The invocations of a model that were completed or released: each by one effective ending.
  function Ended(invocations: seq<Ledger.Invocation>, model: string): nat {
    if invocations == [] then 0
    else
      var last := invocations[|invocations| - 1];
      Ended(invocations[..|invocations| - 1], model) + One(last.model == model && last.state != Ledger.Claimed)
  }

  lemma {:induction false} EndedUpdated(invocations: seq<Ledger.Invocation>, id: nat, inv: Ledger.Invocation, model: string)
    requires id < |invocations| && inv.model == invocations[id].model
    ensures Ended(invocations[id := inv], model) + One(inv.model == model && invocations[id].state != Ledger.Claimed)
         == Ended(invocations, model) + One(inv.model == model && inv.state != Ledger.Claimed)
  {
    var n := |invocations| - 1;
    if id < n {
      EndedUpdated(invocations[..n], id, inv, model);
      assert invocations[id := inv][..n] == invocations[..n][id := inv];
    } else {
      assert invocations[id := inv][..n] == invocations[..n];
    }
  }

  // --- the ledger's side ----------------------------------------------------------------------

  // What one transaction may do to the invocations: append a new one, or change one, keeping its model.
  predicate OneRow(before: seq<Ledger.Invocation>, after: seq<Ledger.Invocation>, id: nat) {
    || after == before
    || (id == |before| && |after| == id + 1 && after[..id] == before && after[id].attempts == 0 && after[id].state == Ledger.Claimed)
    || (id < |before| && |after| == |before| && after == before[id := after[id]]
        && after[id].model == before[id].model && after[id].attempts >= before[id].attempts
        && (before[id].state != Ledger.Claimed ==> after[id].state != Ledger.Claimed))
  }

  lemma OneRowGrows(before: seq<Ledger.Invocation>, after: seq<Ledger.Invocation>, id: nat, model: string)
    requires OneRow(before, after, id)
    ensures Ledger.SumAttempts(after, model) >= Ledger.SumAttempts(before, model) && Ended(after, model) >= Ended(before, model)
    ensures |after| >= |before| && forall k :: 0 <= k < |before| ==> after[k].model == before[k].model
  {
    hide Ledger.SumAttempts, Ended;
    if after != before {
      if id < |before| {
        Ledger.SumsUpdated(before, id, after[id], model);
        EndedUpdated(before, id, after[id], model);
      } else {
        RowAppended(before, after, model);
      }
    }
  }

  lemma RowAppended(before: seq<Ledger.Invocation>, after: seq<Ledger.Invocation>, model: string)
    requires |after| == |before| + 1 && after[..|before|] == before
    requires after[|before|].attempts == 0 && after[|before|].state == Ledger.Claimed
    ensures Ledger.SumAttempts(after, model) == Ledger.SumAttempts(before, model) && Ended(after, model) == Ended(before, model)
  {
  }

  lemma TransactionIsOneRow(l: Ledger.Ledger, budgets: Ledger.Budgets, t: Ledger.Action) returns (id: nat)
    ensures OneRow(l.invocations, Ledger.Apply(l, budgets, t).invocations, id)
  {
    hide Ledger.FindActive, Ledger.RefusalReason, Ledger.Reserve;
    match t
    case DoClaim(identity, _, _, _, _) =>
      id := if Ledger.FindActive(l.invocations, identity).Some? then Ledger.FindActive(l.invocations, identity).value else |l.invocations|;
    case DoTakeOver(k, _, _, _) => id := k;
    case _ => id := t.lease.id;
  }

  // --- one move -----------------------------------------------------------------------------------

  // While the cycle holds a claim, its lease names an invocation for the model it is to call.
  predicate Held(s: System) {
    match Bridge.PcOf(s.world)
    case NextRow => true
    case At(row, stage) =>
      stage == Bridge.Cooling || stage == Bridge.Attempting || stage == Bridge.Calling || stage.Committing? ==>
        s.lease.id < |s.ledger.invocations| && s.ledger.invocations[s.lease.id].model == row.cols.demand
  }

  // Calls made or about to be made are recorded attempts; results stored or about to be are endings.
  predicate Covered(s: System, calls: nat, results: nat, model: string) {
    && calls + One(AboutToCall(s.world, model)) <= Ledger.SumAttempts(s.ledger.invocations, model)
    && results + One(AboutToStore(s.world, model)) <= Ended(s.ledger.invocations, model)
  }

  // A step without the ledger leads neither to a call nor to a commit, and takes no new claim in hand.
  lemma PlainStep(w: Bridge.World, a: Bridge.Action, model: string, v: Bridge.World)
    requires Bridge.Enabled(w, a) && (AtLedger(w, a) ==> StorageError(a)) && v == Bridge.Apply(w, a)
    ensures One(AboutToCall(v, model)) + One(a.Step? && AboutToCall(w, model)) <= One(AboutToCall(w, model))
    ensures One(AboutToStore(v, model)) + One(a.Step? && AboutToStore(w, model)) <= One(AboutToStore(w, model))
    ensures Bridge.PcOf(v).At? ==> PlainFrom(w, Bridge.PcOf(v))
  {
  }

  predicate HasClaim(stage: Bridge.Stage) {
    stage == Bridge.Cooling || stage == Bridge.Attempting || stage == Bridge.Calling || stage.Committing?
  }

  predicate PlainFrom(w: Bridge.World, pc: Bridge.Pc)
    requires pc.At?
  {
    HasClaim(pc.stage) ==> Bridge.PcOf(w).At? && HasClaim(Bridge.PcOf(w).stage) && Bridge.PcOf(w).row == pc.row
  }

  lemma PlainMove(s: System, cfg: Setting, m: Move, calls: nat, results: nat, model: string, v: System)
    requires Possible(s, m) && m.BridgeMoves? && v == Apply(s, cfg, m) && Held(s) && Covered(s, calls, results, model)
    ensures Held(v) && Covered(v, calls + One(Steps(m) && AboutToCall(s.world, model)), results + One(Steps(m) && AboutToStore(s.world, model)), model)
  {
    hide Bridge.Apply, Bridge.Enabled, Ledger.SumAttempts, Ended;
    PlainStep(s.world, m.a, model, v.world);
  }

  lemma LedgerMove(s: System, cfg: Setting, m: Move, calls: nat, results: nat, model: string, v: System)
    requires m.LedgerMoves? && v == Apply(s, cfg, m) && Held(s) && Covered(s, calls, results, model)
    ensures Held(v) && Covered(v, calls, results, model)
  {
    hide Ledger.Apply, Ledger.SumAttempts, Ended, OneRow;
    var id := TransactionIsOneRow(s.ledger, cfg.budgets, m.t);
    OneRowGrows(s.ledger.invocations, v.ledger.invocations, id, model);
  }

  // Where a step goes once the ledger has answered.
  lemma AfterClaim(w: Bridge.World, a: Bridge.Action, v: Bridge.World)
    requires Bridge.Enabled(w, a) && AtLedger(w, a) && Bridge.PcOf(w).stage == Bridge.Taken && v == Bridge.Apply(w, a)
    ensures Bridge.PcOf(v) == if a.answer == Bridge.Won then Bridge.At(Bridge.PcOf(w).row, Bridge.Cooling) else Bridge.NextRow
  {
  }

  lemma AfterAttempt(w: Bridge.World, a: Bridge.Action, v: Bridge.World)
    requires Bridge.Enabled(w, a) && AtLedger(w, a) && Bridge.PcOf(w).stage == Bridge.Attempting && v == Bridge.Apply(w, a)
    ensures Bridge.PcOf(v) == if a.verdict == Bridge.Applied then Bridge.At(Bridge.PcOf(w).row, Bridge.Calling) else Bridge.NextRow
  {
  }

  lemma AfterCommit(w: Bridge.World, a: Bridge.Action, v: Bridge.World)
    requires Bridge.Enabled(w, a) && AtLedger(w, a) && Bridge.PcOf(w).stage.Committing? && v == Bridge.Apply(w, a)
    ensures Bridge.PcOf(v) == if a.verdict == Bridge.Applied
                              then Bridge.At(Bridge.PcOf(w).row, Bridge.Recording(Bridge.PcOf(w).stage.result)) else Bridge.NextRow
  {
  }

  // A won claim appends an invocation of the model, under the lease returned.
  lemma ClaimGrows(l: Ledger.Ledger, budgets: Ledger.Budgets, identity: Ledger.Identity, demand: string, owner: string,
                   now: int, expiresAt: int, model: string)
    ensures var (t, c) := Ledger.ClaimInvocation(l, budgets, identity, demand, owner, now, expiresAt);
            && Ledger.SumAttempts(t.invocations, model) >= Ledger.SumAttempts(l.invocations, model)
            && Ended(t.invocations, model) >= Ended(l.invocations, model)
            && (c.Won? ==> c.lease.id < |t.invocations| && t.invocations[c.lease.id].model == demand)
  {
    hide Ledger.SumAttempts, Ended, Ledger.FindActive, Ledger.RefusalReason, Ledger.Reserve, OneRow;
    var id := TransactionIsOneRow(l, budgets, Ledger.DoClaim(identity, demand, owner, now, expiresAt));
    OneRowGrows(l.invocations, Ledger.ClaimInvocation(l, budgets, identity, demand, owner, now, expiresAt).0.invocations, id, model);
  }

  // An applied attempt is one more recorded for the invocation's model.
  lemma AttemptGrows(l: Ledger.Ledger, budgets: Ledger.Budgets, lease: Ledger.Lease, now: int, model: string)
    requires lease.id < |l.invocations|
    ensures var (t, status) := Ledger.RecordAttempt(l, budgets, lease, now);
            && Ledger.SumAttempts(t.invocations, model)
               == Ledger.SumAttempts(l.invocations, model) + One(status == Ledger.Applied && l.invocations[lease.id].model == model)
            && Ended(t.invocations, model) == Ended(l.invocations, model)
            && |t.invocations| == |l.invocations| && t.invocations[lease.id].model == l.invocations[lease.id].model
  {
    hide Ledger.SumAttempts, Ended, Ledger.RefusalReason, Ledger.Reserve;
    var inv := l.invocations[lease.id];
    Ledger.SumsUpdated(l.invocations, lease.id, inv.(attempts := inv.attempts + 1), model);
    EndedUpdated(l.invocations, lease.id, inv.(attempts := inv.attempts + 1), model);
  }

  // An applied commit is one more ending of the invocation's model.
  lemma CommitGrows(l: Ledger.Ledger, lease: Ledger.Lease, now: int, completed: bool, model: string)
    requires lease.id < |l.invocations|
    ensures var (t, status) := Ledger.EndInvocation(l, lease, now, completed);
            && Ledger.SumAttempts(t.invocations, model) == Ledger.SumAttempts(l.invocations, model)
            && Ended(t.invocations, model) == Ended(l.invocations, model) + One(status == Ledger.Applied && l.invocations[lease.id].model == model)
  {
    hide Ledger.SumAttempts, Ended;
    var inv := l.invocations[lease.id].(state := if completed then Ledger.Completed else Ledger.Released);
    Ledger.SumsUpdated(l.invocations, lease.id, inv, model);
    EndedUpdated(l.invocations, lease.id, inv, model);
  }

  lemma ClaimMove(s: System, cfg: Setting, m: Move, calls: nat, results: nat, model: string, v: System)
    requires Possible(s, m) && m.BridgeTransacts? && Bridge.PcOf(s.world).stage == Bridge.Taken && v == Claims(s, cfg, m)
    requires Held(s) && Covered(s, calls, results, model)
    ensures Held(v) && Covered(v, calls, results, model)
  {
    hide Bridge.Apply, Bridge.Enabled, Ledger.SumAttempts, Ended, Ledger.ClaimInvocation;
    var row := Bridge.PcOf(s.world).row;
    var c := Ledger.ClaimInvocation(s.ledger, cfg.budgets, cfg.identity(row.id), row.cols.demand, m.owner, m.now, m.expiresAt).1;
    ClaimGrows(s.ledger, cfg.budgets, cfg.identity(row.id), row.cols.demand, m.owner, m.now, m.expiresAt, model);
    SameEnabled(s.world, m.a, m.a.(answer := AnswerOf(c)));
    AfterClaim(s.world, m.a.(answer := AnswerOf(c)), v.world);
  }

  lemma SameEnabled(w: Bridge.World, a: Bridge.Action, b: Bridge.Action)
    requires Bridge.Enabled(w, a) && a.Step? && b.Step?
    ensures Bridge.Enabled(w, b)
  {
  }

  lemma AttemptMove(s: System, cfg: Setting, m: Move, calls: nat, results: nat, model: string, v: System)
    requires Possible(s, m) && m.BridgeTransacts? && Bridge.PcOf(s.world).stage == Bridge.Attempting && v == Attempts(s, cfg, m)
    requires Held(s) && Covered(s, calls, results, model)
    ensures Held(v) && Covered(v, calls, results, model)
  {
    hide Bridge.Apply, Bridge.Enabled, Ledger.SumAttempts, Ended, Ledger.RecordAttempt;
    var status := Ledger.RecordAttempt(s.ledger, cfg.budgets, s.lease, m.now).1;
    AttemptGrows(s.ledger, cfg.budgets, s.lease, m.now, model);
    SameEnabled(s.world, m.a, m.a.(verdict := VerdictOf(status)));
    AfterAttempt(s.world, m.a.(verdict := VerdictOf(status)), v.world);
  }

  lemma CommitMove(s: System, m: Move, calls: nat, results: nat, model: string, v: System)
    requires Possible(s, m) && m.BridgeTransacts? && Bridge.PcOf(s.world).stage.Committing? && v == Commits(s, m)
    requires Held(s) && Covered(s, calls, results, model)
    ensures Held(v) && Covered(v, calls, results, model)
  {
    hide Bridge.Apply, Bridge.Enabled, Ledger.SumAttempts, Ended, Ledger.EndInvocation;
    var completed := Bridge.PcOf(s.world).stage.result == Bridge.Success;
    var status := Ledger.EndInvocation(s.ledger, s.lease, m.now, completed).1;
    CommitGrows(s.ledger, s.lease, m.now, completed, model);
    SameEnabled(s.world, m.a, m.a.(verdict := VerdictOf(status)));
    AfterCommit(s.world, m.a.(verdict := VerdictOf(status)), v.world);
  }

  // Each move keeps calls covered by recorded attempts and results by endings.
  lemma MoveIsCovered(s: System, cfg: Setting, m: Move, calls: nat, results: nat, model: string, v: System)
    requires Possible(s, m) && v == Apply(s, cfg, m) && Held(s) && Covered(s, calls, results, model)
    ensures Held(v) && Covered(v, calls + One(Steps(m) && AboutToCall(s.world, model)), results + One(Steps(m) && AboutToStore(s.world, model)), model)
  {
    hide Held, Covered, Claims, Attempts, Commits, Bridge.Apply, Bridge.Enabled;
    match m
    case BridgeMoves(_) => PlainMove(s, cfg, m, calls, results, model, v);
    case LedgerMoves(_) => LedgerMove(s, cfg, m, calls, results, model, v);
    case BridgeTransacts(_, _, _, _) =>
      if Bridge.PcOf(s.world).stage == Bridge.Taken {
        ClaimMove(s, cfg, m, calls, results, model, v);
      } else if Bridge.PcOf(s.world).stage == Bridge.Attempting {
        AttemptMove(s, cfg, m, calls, results, model, v);
      } else {
        CommitMove(s, m, calls, results, model, v);
      }
  }

  lemma TransactKeepsLedger(s: System, cfg: Setting, m: Move)
    requires Possible(s, m) && m.BridgeTransacts? && Ledger.Ok(s.ledger, cfg.budgets)
    ensures Ledger.Ok(Apply(s, cfg, m).ledger, cfg.budgets)
  {
    hide Bridge.Apply, Bridge.Enabled, Ledger.Ok, Ledger.ClaimInvocation, Ledger.RecordAttempt, Ledger.EndInvocation;
    var row, stage := Bridge.PcOf(s.world).row, Bridge.PcOf(s.world).stage;
    var t := if stage == Bridge.Taken then Ledger.DoClaim(cfg.identity(row.id), row.cols.demand, m.owner, m.now, m.expiresAt)
             else if stage == Bridge.Attempting then Ledger.DoAttempt(s.lease, m.now)
             else Ledger.DoEnd(s.lease, m.now, stage.result == Bridge.Success);
    Ledger.StepOk(s.ledger, cfg.budgets, t);
  }

  lemma MoveKeepsLedger(s: System, cfg: Setting, m: Move)
    requires Possible(s, m) && Ledger.Ok(s.ledger, cfg.budgets)
    ensures Ledger.Ok(Apply(s, cfg, m).ledger, cfg.budgets)
  {
    hide Bridge.Apply, Bridge.Enabled, Ledger.Ok, Claims, Attempts, Commits;
    match m
    case BridgeMoves(_) =>
    case LedgerMoves(t) => Ledger.StepOk(s.ledger, cfg.budgets, t);
    case BridgeTransacts(_, _, _, _) => TransactKeepsLedger(s, cfg, m);
  }

  // --- whole runs --------------------------------------------------------------------------------------

  lemma StartIsCovered(cfg: Setting, model: string)
    ensures Ledger.Ok(START.ledger, cfg.budgets) && Held(START) && Covered(START, 0, 0, model)
  {
    Ledger.EmptyOk(cfg.budgets);
  }

  lemma {:induction false} RunIsCovered(cfg: Setting, moves: seq<Move>, model: string)
    ensures var s := Run(cfg, moves);
            && Ledger.Ok(s.ledger, cfg.budgets) && Held(s)
            && Covered(s, CallsOf(cfg, moves, model), ResultsOf(cfg, moves, model), model)
  {
    hide Ledger.Ok, Held, Covered, Apply, Possible, AboutToCall, AboutToStore;
    if moves == [] {
      StartIsCovered(cfg, model);
    } else {
      var front, m := moves[..|moves| - 1], moves[|moves| - 1];
      RunIsCovered(cfg, front, model);
      if Possible(Run(cfg, front), m) {
        MoveIsCovered(Run(cfg, front), cfg, m, CallsOf(cfg, front, model), ResultsOf(cfg, front, model), model, Run(cfg, moves));
        MoveKeepsLedger(Run(cfg, front), cfg, m);
      }
    }
  }

  /**
   Calls never exceed what was charged: in any run of the bridge over the ledger, with any
   transactions of other owners between its steps, the calls of a model are at most the
   attempts recorded for it, and those at most the units reserved for it, in its hour
   windows and in its day windows; and no window ever exceeds its limit.
   */
  lemma CallsArePaid(cfg: Setting, moves: seq<Move>, model: string, hourly: bool, k: Ledger.Key)
    ensures var l := Run(cfg, moves).ledger;
            && CallsOf(cfg, moves, model) <= Ledger.SumAttempts(l.invocations, model) <= Ledger.TotalReserved(l.reserved, model, hourly)
            && Ledger.Used(l.reserved, k) <= Ledger.Limit(cfg.budgets, k)
  {
    RunIsCovered(cfg, moves, model);
    Ledger.AttemptsAtMostUnits(Run(cfg, moves).ledger.invocations, model);
  }

  /** Results stored for a model are at most its invocations that were completed or released: each is stored after an ending of its own. */
  lemma ResultsAreEndings(cfg: Setting, moves: seq<Move>, model: string)
    ensures ResultsOf(cfg, moves, model) <= Ended(Run(cfg, moves).ledger.invocations, model)
  {
    RunIsCovered(cfg, moves, model);
  }
}
