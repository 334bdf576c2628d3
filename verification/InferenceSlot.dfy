/**
 The inference-slot protocol of radar_v08/qwen.py as interleaved atomic steps.

 Every review batch is one caller thread and one worker thread sharing the flags
 `work_started` and `slot_released` under the batch's own `ownership` lock; all
 batches share one process-wide slot, a lock without an owner. A step is one
 access to shared state, so the critical sections are not atomic here: entering,
 testing, releasing the slot and leaving are separate steps.
 */
module InferenceSlot {
  import opened Options

  // --- state ---------------------------------------------------------------------

  // The four steps of `release_slot`.
  datatype Stage = Enter | Test | Free | Leave

  datatype Fate = StartRaised | TimedOut | WaitRaised | Delivered

  datatype CallerPc =
    | Starting                  // before the native thread exists
    | Launched                  // it exists, start() has not returned
    | Waiting
    | Cancelling(fate: Fate)
    | GivingUp(stage: Stage)    // release_slot(only_unstarted=True)
    | Gone(fate: Fate)

  datatype WorkerPc =
    | Unborn
    | Entering
    | EntryTest
    | EntryAbandon              // found the slot given up
    | EntryLeave
    | Checking(attempt: nat)    // before a post: deadline and cancellation
    | Posted(attempt: nat)      // the request is out
    | Finishing(stage: Stage)   // release_slot()
    | Signalling
    | Ended

  datatype Side = CallerSide | WorkerSide

  datatype Outcome = Result | Error

  datatype Batch = Batch(
    caller: CallerPc,
    worker: WorkerPc,
    ownership: Option<Side>,
    workStarted: bool,
    slotReleased: bool,
    cancelled: bool,
    done: bool,
    outcome: Option<Outcome>,
    posts: nat,
    releases: nat)

  const FRESH := Batch(Starting, Unborn, None, false, false, false, false, None, 0, 0)

  // `holder` and the counters `posts`, `releases` are history: no step tests them.
  datatype System = System(locked: bool, batches: seq<Batch>, holder: Option<nat>, refused: nat)

  const IDLE := System(false, [], None, 0)

  // --- steps -----------------------------------------------------------------------

  datatype WorkerChoice = OutOfTime | InTime | Retry | Return(outcome: Outcome)

  datatype Action =
    | Acquire                           // a caller tries the slot, without blocking
    | StartFails(b: nat)                // no native thread was created
    | Launch(b: nat)
    | StartReturns(b: nat)
    | StartInterrupted(b: nat)          // start() raises after launching the thread
    | WaitEnds(b: nat, late: bool)      // late: not finished, or at or past the deadline
    | WaitInterrupted(b: nat)
    | CallerStep(b: nat)
    | WorkerStep(b: nat, choice: WorkerChoice)

  predicate Has(s: System, b: nat) { b < |s.batches| }

  // Steps of release_slot: entering waits for the batch's lock, the rest cannot block.
  predicate StageEnabled(x: Batch, stage: Stage) { stage == Enter ==> x.ownership.None? }

  predicate Enabled(s: System, a: Action, maxAttempts: nat) {
    match a
    case Acquire => true
    case StartFails(b) => Has(s, b) && s.batches[b].caller == Starting
    case Launch(b) => Has(s, b) && s.batches[b].caller == Starting
    case StartReturns(b) => Has(s, b) && s.batches[b].caller == Launched
    case StartInterrupted(b) => Has(s, b) && s.batches[b].caller == Launched
    case WaitEnds(b, late) => Has(s, b) && s.batches[b].caller == Waiting && (late || s.batches[b].done)
    case WaitInterrupted(b) => Has(s, b) && s.batches[b].caller == Waiting
    case CallerStep(b) =>
      Has(s, b) && var x := s.batches[b];
      x.caller.Cancelling? || (x.caller.GivingUp? && StageEnabled(x, x.caller.stage))
    case WorkerStep(b, choice) =>
      Has(s, b) && var x := s.batches[b];
      match x.worker
      case Unborn => false
      case Ended => false
      case Entering => x.ownership.None?
      case Checking(k) => choice == OutOfTime || (choice == InTime && !x.cancelled && k < maxAttempts)
      case Posted(_) => choice.Retry? || choice.Return?
      case Finishing(stage) => StageEnabled(x, stage)
      case _ => true
  }

  // One step of release_slot by one side; `may` is the test of only_unstarted.
  function ReleaseStep(x: Batch, side: Side, stage: Stage, may: bool): (Batch, Stage) {
    match stage
    case Enter => (x.(ownership := Some(side)), Test)
    case Test => if !x.slotReleased && may then (x.(slotReleased := true), Free) else (x, Leave)
    case Free => (x.(releases := x.releases + 1), Leave)
    case Leave => (x.(ownership := None), Leave)
  }

  function CallerMoves(x: Batch): Batch
    requires x.caller.Cancelling? || x.caller.GivingUp?
  {
    match x.caller
    case Cancelling(fate) =>
      x.(cancelled := true, caller := if fate == StartRaised then GivingUp(Enter) else Gone(fate))
    case GivingUp(stage) =>
      var (y, next) := ReleaseStep(x, CallerSide, stage, !x.workStarted);
      y.(caller := if stage == Leave then Gone(StartRaised) else GivingUp(next))
  }

  function WorkerMoves(x: Batch, choice: WorkerChoice, maxAttempts: nat): Batch {
    match x.worker
    case Unborn => x
    case Ended => x
    case Entering => x.(ownership := Some(WorkerSide), worker := EntryTest)
    case EntryTest =>
      if x.slotReleased then x.(done := true, worker := EntryAbandon)
      else x.(workStarted := true, worker := EntryLeave)
    case EntryAbandon => x.(ownership := None, worker := Ended)
    case EntryLeave => x.(ownership := None, worker := Checking(0))
    case Checking(k) =>
      if choice == InTime && k < maxAttempts then x.(posts := x.posts + 1, worker := Posted(k))
      else x.(outcome := Some(Result), worker := Finishing(Enter))
    case Posted(k) =>
      if choice.Return? then x.(outcome := Some(choice.outcome), worker := Finishing(Enter))
      else x.(worker := Checking(k + 1))
    case Finishing(stage) =>
      var (y, next) := ReleaseStep(x, WorkerSide, stage, true);
      y.(worker := if stage == Leave then Signalling else Finishing(next))
    case Signalling => x.(done := true, worker := Ended)
  }

  // Does this action call the slot's release()?
  predicate FreesSlot(s: System, a: Action) {
    || (a.CallerStep? && Has(s, a.b) && s.batches[a.b].caller == GivingUp(Free))
    || (a.WorkerStep? && Has(s, a.b) && s.batches[a.b].worker == Finishing(Free))
  }

  function Put(s: System, b: nat, x: Batch): System
    requires Has(s, b)
  {
    s.(batches := s.batches[b := x])
  }

  // The slot is a plain lock: releasing it makes it free, whoever held it.
  function Freed(s: System): System { s.(locked := false, holder := None) }

  function Apply(s: System, a: Action, maxAttempts: nat): System
    requires Enabled(s, a, maxAttempts)
  {
    match a
    case Acquire =>
      if s.locked then s.(refused := s.refused + 1)
      else s.(locked := true, holder := Some(|s.batches|), batches := s.batches + [FRESH])
    case StartFails(b) => Put(s, b, s.batches[b].(caller := Cancelling(StartRaised)))
    case Launch(b) => Put(s, b, s.batches[b].(caller := Launched, worker := Entering))
    case StartReturns(b) => Put(s, b, s.batches[b].(caller := Waiting))
    case StartInterrupted(b) => Put(s, b, s.batches[b].(caller := Cancelling(StartRaised)))
    case WaitEnds(b, late) =>
      Put(s, b, s.batches[b].(caller := if late then Cancelling(TimedOut) else Gone(Delivered)))
    case WaitInterrupted(b) => Put(s, b, s.batches[b].(caller := Cancelling(WaitRaised)))
    case CallerStep(b) =>
      var t := Put(s, b, CallerMoves(s.batches[b]));
      if FreesSlot(s, a) then Freed(t) else t
    case WorkerStep(b, choice) =>
      var t := Put(s, b, WorkerMoves(s.batches[b], choice, maxAttempts));
      if FreesSlot(s, a) then Freed(t) else t
  }

  // A run tries any sequence of actions; one that is not enabled has no effect.
  function Run(actions: seq<Action>, maxAttempts: nat): System {
    if actions == [] then IDLE
    else
      var s := Run(actions[..|actions| - 1], maxAttempts);
      var a := actions[|actions| - 1];
      if Enabled(s, a, maxAttempts) then Apply(s, a, maxAttempts) else s
  }

  // --- invariant --------------------------------------------------------------------

  predicate Started(p: WorkerPc) {
    p.EntryLeave? || p.Checking? || p.Posted? || p.Finishing? || p.Signalling?
  }

  predicate Freeing(x: Batch) { x.caller == GivingUp(Free) || x.worker == Finishing(Free) }

  // The worker has the slot and has not begun to hand it back.
  predicate Working(p: WorkerPc) {
    p.EntryLeave? || p.Checking? || p.Posted? || p == Finishing(Enter) || p == Finishing(Test)
  }

  predicate GaveUp(p: CallerPc) { p == GivingUp(Free) || p == GivingUp(Leave) || p == Gone(StartRaised) }

  predicate BatchOk(x: Batch, maxAttempts: nat) {
    // the batch's lock is held by whoever is inside a critical section
    && (x.ownership == Some(CallerSide) <==> x.caller.GivingUp? && x.caller.stage != Enter)
    && (x.ownership == Some(WorkerSide) <==>
          x.worker.EntryTest? || x.worker.EntryAbandon? || x.worker.EntryLeave?
          || (x.worker.Finishing? && x.worker.stage != Enter))
    // the flag is set by whoever will call release(), and never twice
    && x.releases <= 1
    && (x.slotReleased <==> x.releases == 1 || Freeing(x))
    && (Freeing(x) ==> x.releases == 0)
    // who started, who gave up
    && (Started(x.worker) ==> x.workStarted)
    && (x.workStarted ==> Started(x.worker) || x.worker == Ended)
    && (Working(x.worker) ==> !x.slotReleased)
    && (x.caller == GivingUp(Free) ==> !x.workStarted)
    && (x.slotReleased && !x.workStarted ==> GaveUp(x.caller))
    && (x.worker == EntryAbandon ==> x.slotReleased)
    && (x.worker == Ended && !x.workStarted ==> x.slotReleased)
    && (x.workStarted && (x.worker == Ended || x.worker == Signalling || x.worker == Finishing(Leave)) ==>
          x.releases == 1)
    // an interrupted start always ends with the slot given up or work started
    && (x.caller == GivingUp(Leave) || x.caller == Gone(StartRaised) ==> x.slotReleased || x.workStarted)
    && (x.caller == Starting ==> x.worker == Unborn)
    && (x.worker == Unborn ==>
          x.caller == Starting || x.caller == Cancelling(StartRaised) || x.caller.GivingUp? || x.caller == Gone(StartRaised))
    // reviewing
    && (x.posts > 0 ==> x.workStarted && x.worker != EntryLeave)
    && (x.worker.Checking? ==> x.posts == x.worker.attempt <= maxAttempts)
    && (x.worker.Posted? ==> x.posts == x.worker.attempt + 1 <= maxAttempts)
    && x.posts <= maxAttempts
    && (x.worker.Finishing? || x.worker.Signalling? || (x.worker == Ended && x.workStarted) ==> x.outcome.Some?)
    && (x.done ==> x.worker == EntryAbandon || x.worker == Ended)
  }

  ghost predicate Ok(s: System, maxAttempts: nat) {
    && (forall b :: 0 <= b < |s.batches| ==> BatchOk(s.batches[b], maxAttempts))
    && (s.locked <==> s.holder.Some?)
    && (s.holder.Some? ==> Has(s, s.holder.value))
    && (forall b :: 0 <= b < |s.batches| ==> (s.holder == Some(b) <==> s.batches[b].releases == 0))
  }

  lemma CallerMovesOk(x: Batch, maxAttempts: nat)
    requires BatchOk(x, maxAttempts)
    requires x.caller.Cancelling? || (x.caller.GivingUp? && StageEnabled(x, x.caller.stage))
    ensures BatchOk(CallerMoves(x), maxAttempts)
    ensures CallerMoves(x).releases == x.releases + if x.caller == GivingUp(Free) then 1 else 0
  {
  }

  lemma WorkerMovesOk(s: System, b: nat, choice: WorkerChoice, maxAttempts: nat)
    requires Has(s, b) && BatchOk(s.batches[b], maxAttempts) && Enabled(s, WorkerStep(b, choice), maxAttempts)
    ensures var x := s.batches[b];
            && BatchOk(WorkerMoves(x, choice, maxAttempts), maxAttempts)
            && WorkerMoves(x, choice, maxAttempts).releases
               == x.releases + if x.worker == Finishing(Free) then 1 else 0
  {
  }

  lemma PutOk(s: System, b: nat, x: Batch, maxAttempts: nat)
    requires Ok(s, maxAttempts) && Has(s, b) && BatchOk(x, maxAttempts) && x.releases == s.batches[b].releases
    ensures Ok(Put(s, b, x), maxAttempts)
  {
  }

  lemma FreeOk(s: System, b: nat, x: Batch, maxAttempts: nat)
    requires Ok(s, maxAttempts) && Has(s, b) && BatchOk(x, maxAttempts)
    requires s.batches[b].releases == 0 && x.releases == 1
    ensures Ok(Freed(Put(s, b, x)), maxAttempts)
  {
  }

  lemma CallerStepOk(s: System, a: Action, maxAttempts: nat)
    requires Ok(s, maxAttempts) && Enabled(s, a, maxAttempts) && !a.Acquire? && !a.WorkerStep?
    ensures Ok(Apply(s, a, maxAttempts), maxAttempts)
  {
    hide CallerMoves;
    var x := s.batches[a.b];
    assert BatchOk(x, maxAttempts);
    match a
    case StartFails(b) => PutOk(s, b, x.(caller := Cancelling(StartRaised)), maxAttempts);
    case Launch(b) => PutOk(s, b, x.(caller := Launched, worker := Entering), maxAttempts);
    case StartReturns(b) => PutOk(s, b, x.(caller := Waiting), maxAttempts);
    case StartInterrupted(b) => PutOk(s, b, x.(caller := Cancelling(StartRaised)), maxAttempts);
    case WaitEnds(b, late) =>
      PutOk(s, b, x.(caller := if late then Cancelling(TimedOut) else Gone(Delivered)), maxAttempts);
    case WaitInterrupted(b) => PutOk(s, b, x.(caller := Cancelling(WaitRaised)), maxAttempts);
    case CallerStep(b) =>
      CallerMovesOk(x, maxAttempts);
      if x.caller == GivingUp(Free) {
        FreeOk(s, b, CallerMoves(x), maxAttempts);
      } else {
        PutOk(s, b, CallerMoves(x), maxAttempts);
      }
  }

  lemma StepOk(s: System, a: Action, maxAttempts: nat)
    requires Ok(s, maxAttempts) && Enabled(s, a, maxAttempts)
    ensures Ok(Apply(s, a, maxAttempts), maxAttempts)
  {
    match a
    case Acquire =>
    case WorkerStep(b, choice) =>
      var x := s.batches[b];
      assert BatchOk(x, maxAttempts);
      WorkerMovesOk(s, b, choice, maxAttempts);
      if x.worker == Finishing(Free) {
        FreeOk(s, b, WorkerMoves(x, choice, maxAttempts), maxAttempts);
      } else {
        PutOk(s, b, WorkerMoves(x, choice, maxAttempts), maxAttempts);
      }
    case _ => CallerStepOk(s, a, maxAttempts);
  }

  lemma {:induction false} RunOk(actions: seq<Action>, maxAttempts: nat)
    ensures Ok(Run(actions, maxAttempts), maxAttempts)
  {
    if actions != [] {
      var s, a := Run(actions[..|actions| - 1], maxAttempts), actions[|actions| - 1];
      RunOk(actions[..|actions| - 1], maxAttempts);
      if Enabled(s, a, maxAttempts) {
        StepOk(s, a, maxAttempts);
      }
    }
  }

  // --- theorems over every run ---------------------------------------------------------

  // The batches that acquired the slot and have not released it.
  ghost function Unreleased(s: System): set<nat> {
    set b: nat | b < |s.batches| && s.batches[b].releases == 0
  }

  /** The slot is held exactly while one acquiring batch has not released it; two never overlap. */
  lemma HeldIffOneUnreleased(actions: seq<Action>, maxAttempts: nat)
    ensures var s := Run(actions, maxAttempts);
            && (s.locked <==> Unreleased(s) != {})
            && (forall b <- Unreleased(s), c <- Unreleased(s) :: b == c)
  {
    RunOk(actions, maxAttempts);
    var s := Run(actions, maxAttempts);
    if s.locked {
      assert s.holder.value in Unreleased(s);
    }
  }

  /** Every call of release() finds the slot held by the calling batch itself. */
  lemma OnlyOwnSlotIsReleased(actions: seq<Action>, a: Action, maxAttempts: nat)
    requires var s := Run(actions, maxAttempts); Enabled(s, a, maxAttempts) && FreesSlot(s, a)
    ensures var s := Run(actions, maxAttempts); s.locked && s.holder == Some(a.b)
  {
    RunOk(actions, maxAttempts);
    assert BatchOk(Run(actions, maxAttempts).batches[a.b], maxAttempts);
  }

  predicate Finished(x: Batch) { x.caller.Gone? && (x.worker == Ended || x.worker == Unborn) }

  /** Each acquisition is released at most once, and exactly once when its batch has finished. */
  lemma ReleasedExactlyOnce(actions: seq<Action>, b: nat, maxAttempts: nat)
    requires Has(Run(actions, maxAttempts), b)
    ensures var x := Run(actions, maxAttempts).batches[b];
            x.releases <= 1 && (Finished(x) ==> x.releases == 1)
  {
    RunOk(actions, maxAttempts);
  }

  /** A request goes out only while the slot is held by its own batch, and at most `maxAttempts` times. */
  lemma PostsHoldTheSlot(actions: seq<Action>, b: nat, maxAttempts: nat)
    requires Has(Run(actions, maxAttempts), b)
    ensures var s := Run(actions, maxAttempts);
            && (s.batches[b].worker.Posted? ==> s.holder == Some(b))
            && s.batches[b].posts <= maxAttempts
            && (forall c :: 0 <= c < |s.batches| && s.batches[b].worker.Posted? && s.batches[c].worker.Posted? ==> b == c)
  {
    RunOk(actions, maxAttempts);
  }

  /** A timed-out batch keeps the slot until its worker hands it back: newcomers are refused. */
  lemma TimedOutBatchKeepsSlot(actions: seq<Action>, b: nat, maxAttempts: nat)
    requires var s := Run(actions, maxAttempts);
             Has(s, b) && s.batches[b].caller == Gone(TimedOut) && !s.batches[b].slotReleased
    ensures var s := Run(actions, maxAttempts);
            && s.locked && s.holder == Some(b)
            && !s.batches[b].worker.Ended?
            && Apply(s, Acquire, maxAttempts) == s.(refused := s.refused + 1)
  {
    RunOk(actions, maxAttempts);
    assert BatchOk(Run(actions, maxAttempts).batches[b], maxAttempts);
  }

  // After a time-out only the worker's own release_slot can give the slot back.
  lemma TimedOutReleasedByWorker(actions: seq<Action>, a: Action, b: nat, maxAttempts: nat)
    requires var s := Run(actions, maxAttempts);
             Has(s, b) && s.batches[b].caller == Gone(TimedOut) && Enabled(s, a, maxAttempts)
    requires var s := Run(actions, maxAttempts); s.holder == Some(b) && Apply(s, a, maxAttempts).holder != Some(b)
    ensures a.WorkerStep? && a.b == b && Run(actions, maxAttempts).batches[b].worker == Finishing(Free)
  {
    RunOk(actions, maxAttempts);
    assert a.CallerStep? || a.WorkerStep? ==> BatchOk(Run(actions, maxAttempts).batches[a.b], maxAttempts);
  }

  predicate Relinquished(x: Batch) { x.slotReleased && !x.workStarted }

  // Once given up before the work started, a batch stays that way.
  lemma RelinquishedStays(s: System, a: Action, b: nat, maxAttempts: nat)
    requires Ok(s, maxAttempts) && Enabled(s, a, maxAttempts) && Has(s, b) && Relinquished(s.batches[b])
    ensures Has(Apply(s, a, maxAttempts), b) && Relinquished(Apply(s, a, maxAttempts).batches[b])
  {
    assert BatchOk(s.batches[b], maxAttempts);
  }

  /** A worker that starts after its slot was given up posts nothing, now or in any continuation. */
  lemma {:induction false} LateWorkerPostsNothing(actions: seq<Action>, more: seq<Action>, b: nat, maxAttempts: nat)
    requires var s := Run(actions, maxAttempts); Has(s, b) && Relinquished(s.batches[b])
    ensures var t := Run(actions + more, maxAttempts);
            Has(t, b) && Relinquished(t.batches[b]) && t.batches[b].posts == 0
    decreases |more|
  {
    if more == [] {
      assert actions + more == actions;
    } else {
      var init, a := more[..|more| - 1], more[|more| - 1];
      LateWorkerPostsNothing(actions, init, b, maxAttempts);
      assert (actions + more)[..|actions + more| - 1] == actions + init;
      RunOk(actions + init, maxAttempts);
      var s := Run(actions + init, maxAttempts);
      if Enabled(s, a, maxAttempts) {
        RelinquishedStays(s, a, b, maxAttempts);
      }
    }
    RunOk(actions + more, maxAttempts);
  }

  /** A caller that returns before its deadline finds a result or an error to hand over. */
  lemma DeliveryHasOutcome(actions: seq<Action>, b: nat, maxAttempts: nat)
    requires Enabled(Run(actions, maxAttempts), WaitEnds(b, false), maxAttempts)
    ensures Run(actions, maxAttempts).batches[b].outcome.Some?
  {
    RunOk(actions, maxAttempts);
    assert BatchOk(Run(actions, maxAttempts).batches[b], maxAttempts);
  }

  // --- the slot is not leaked -------------------------------------------------------------

  function StageRank(stage: Stage): nat {
    match stage case Enter => 4 case Test => 3 case Free => 2 case Leave => 1
  }

  function CallerRank(p: CallerPc): nat {
    match p
    case Starting => 9
    case Launched => 8
    case Waiting => 7
    case Cancelling(fate) => if fate == StartRaised then 6 else 1
    case GivingUp(stage) => StageRank(stage)
    case Gone(_) => 0
  }

  function WorkerRank(p: WorkerPc, maxAttempts: nat): int {
    match p
    case Unborn => 2 * maxAttempts + 20
    case Entering => 2 * maxAttempts + 13
    case EntryTest => 2 * maxAttempts + 12
    case EntryAbandon => 1
    case EntryLeave => 2 * maxAttempts + 11
    case Checking(k) => 2 * (maxAttempts - k) + 10
    case Posted(k) => 2 * (maxAttempts - k) + 9
    case Finishing(stage) => 1 + StageRank(stage)
    case Signalling => 1
    case Ended => 0
  }

  function Rank(x: Batch, maxAttempts: nat): int { CallerRank(x.caller) + WorkerRank(x.worker, maxAttempts) }

  lemma CallerRankFalls(x: Batch, maxAttempts: nat)
    requires BatchOk(x, maxAttempts) && (x.caller.Cancelling? || x.caller.GivingUp?)
    ensures Rank(CallerMoves(x), maxAttempts) < Rank(x, maxAttempts)
  {
  }

  lemma WorkerRankFalls(s: System, b: nat, choice: WorkerChoice, maxAttempts: nat)
    requires Has(s, b) && BatchOk(s.batches[b], maxAttempts) && Enabled(s, WorkerStep(b, choice), maxAttempts)
    ensures Rank(WorkerMoves(s.batches[b], choice, maxAttempts), maxAttempts) < Rank(s.batches[b], maxAttempts)
  {
  }

  // Every own step of a batch brings it closer to its end, and no other batch's step moves it.
  lemma RankFalls(s: System, a: Action, b: nat, maxAttempts: nat)
    requires Ok(s, maxAttempts) && Enabled(s, a, maxAttempts) && Has(s, b)
    ensures var t := Apply(s, a, maxAttempts);
            && Has(t, b) && 0 <= Rank(s.batches[b], maxAttempts)
            && (if !a.Acquire? && a.b == b then Rank(t.batches[b], maxAttempts) < Rank(s.batches[b], maxAttempts)
                else t.batches[b] == s.batches[b])
  {
    hide CallerMoves, WorkerMoves;
    assert BatchOk(s.batches[b], maxAttempts);
    if a.CallerStep? && a.b == b {
      CallerRankFalls(s.batches[b], maxAttempts);
    } else if a.WorkerStep? && a.b == b {
      WorkerRankFalls(s, b, a.choice, maxAttempts);
    }
  }

  /**
   No leak: a batch that still holds the slot always has a step of its own to
   take, and its steps are finitely many (RankFalls), so it ends and
   ReleasedExactlyOnce applies.
   */
  lemma HolderCanMove(actions: seq<Action>, b: nat, maxAttempts: nat) returns (a: Action)
    requires Has(Run(actions, maxAttempts), b) && Run(actions, maxAttempts).batches[b].releases == 0
    ensures Enabled(Run(actions, maxAttempts), a, maxAttempts) && !a.Acquire? && a.b == b
  {
    RunOk(actions, maxAttempts);
    var s := Run(actions, maxAttempts);
    var x := s.batches[b];
    assert BatchOk(x, maxAttempts);
    assert x.ownership.None? || x.ownership.value == CallerSide || x.ownership.value == WorkerSide;
    if x.ownership == Some(CallerSide) || x.caller.Cancelling? {
      a := CallerStep(b);
    } else if x.caller == Starting {
      a := Launch(b);
    } else if x.caller == Launched {
      a := StartReturns(b);
    } else if x.worker == Unborn {
      a := CallerStep(b);
    } else if x.worker.Posted? {
      a := WorkerStep(b, Retry);
    } else {
      a := WorkerStep(b, OutOfTime);
    }
  }

  // How many steps of a run were taken by batch b.
  function OwnSteps(actions: seq<Action>, b: nat, maxAttempts: nat): nat {
    if actions == [] then 0
    else
      var a := actions[|actions| - 1];
      OwnSteps(actions[..|actions| - 1], b, maxAttempts)
      + if Enabled(Run(actions[..|actions| - 1], maxAttempts), a, maxAttempts) && !a.Acquire? && a.b == b then 1 else 0
  }

  /** A batch takes a bounded number of steps in any run, however long and however interleaved. */
  lemma {:induction false} OwnStepsBounded(actions: seq<Action>, b: nat, maxAttempts: nat)
    ensures var s := Run(actions, maxAttempts);
            if Has(s, b)
            then OwnSteps(actions, b, maxAttempts) + Rank(s.batches[b], maxAttempts) <= Rank(FRESH, maxAttempts)
            else OwnSteps(actions, b, maxAttempts) == 0
    ensures OwnSteps(actions, b, maxAttempts) <= 2 * maxAttempts + 29
  {
    RunOk(actions, maxAttempts);
    if actions != [] {
      var before, a := actions[..|actions| - 1], actions[|actions| - 1];
      OwnStepsBounded(before, b, maxAttempts);
      RunOk(before, maxAttempts);
      var s := Run(before, maxAttempts);
      if Enabled(s, a, maxAttempts) && Has(s, b) {
        RankFalls(s, a, b, maxAttempts);
      }
    }
    if Has(Run(actions, maxAttempts), b) {
      assert BatchOk(Run(actions, maxAttempts).batches[b], maxAttempts);
    }
  }
}
