/**
 What the inference slot of radar_v08/qwen.py is good for, over whole runs: a free slot is
 granted, a granted batch that nothing disturbs is served and gives the slot back, and a
 cancelled one sends no further request.
 */
module SlotService {
  import opened Options
  import opened InferenceSlot

  lemma Extends(actions: seq<Action>, a: Action, maxAttempts: nat)
    requires Enabled(Run(actions, maxAttempts), a, maxAttempts)
    ensures Run(actions + [a], maxAttempts) == Apply(Run(actions, maxAttempts), a, maxAttempts)
  {
    assert (actions + [a])[..|actions|] == actions;
  }

  // Every batch so far has given the slot back.
  predicate AllReleased(s: System) { forall b :: 0 <= b < |s.batches| ==> s.batches[b].releases > 0 }

  // Nothing has happened to this batch yet.
  predicate Untried(x: Batch) {
    && x.caller == Starting && x.worker == Unborn && x.ownership.None? && x.outcome.None? && x.posts == 0 && x.releases == 0
    && !x.workStarted && !x.slotReleased && !x.cancelled && !x.done
  }

  /**
   After any run, a caller that tries the slot gets it, as a new batch behind all earlier
   ones, if and only if every earlier batch has released it; otherwise it is counted as
   refused and nothing else changes.
   */
  lemma GrantedExactlyWhenFree(actions: seq<Action>, maxAttempts: nat)
    ensures var s, t := Run(actions, maxAttempts), Run(actions + [Acquire], maxAttempts);
            var n := |s.batches|;
            && (|t.batches| == n + 1 <==> AllReleased(s))
            && (AllReleased(s) ==>
                  && t.batches[..n] == s.batches && Untried(t.batches[n])
                  && t.locked && t.holder == Some(n) && t.refused == s.refused)
            && (!AllReleased(s) ==> t == s.(refused := s.refused + 1))
  {
    HeldIffOneUnreleased(actions, maxAttempts);
    Extends(actions, Acquire, maxAttempts);
    var s := Run(actions, maxAttempts);
    if s.locked {
      var b :| b in Unreleased(s);
    } else {
      forall b | 0 <= b < |s.batches| ensures s.batches[b].releases > 0 {
        assert b !in Unreleased(s);
      }
    }
  }

  // --- a batch that nothing disturbs -----------------------------------------------------------

  // Behind the earlier batches one more, which has the slot or has given it back.
  predicate Holding(s: System, before: System, x: Batch, locked: bool) {
    s == System(locked, before.batches + [x], if locked then Some(|before.batches|) else None, before.refused)
  }

  // One step of the last batch.
  lemma Takes(actions: seq<Action>, before: System, x: Batch, locked: bool, a: Action, maxAttempts: nat, y: Batch)
    returns (more: seq<Action>)
    requires Holding(Run(actions, maxAttempts), before, x, locked)
    requires !a.Acquire? && a.b == |before.batches| && Enabled(Run(actions, maxAttempts), a, maxAttempts)
    requires !FreesSlot(Run(actions, maxAttempts), a) && Apply(Run(actions, maxAttempts), a, maxAttempts).batches[a.b] == y
    ensures Holding(Run(more, maxAttempts), before, y, locked)
  {
    hide Run;
    more := actions + [a];
    Extends(actions, a, maxAttempts);
    var s, t := Run(actions, maxAttempts), Run(more, maxAttempts);
    assert t.batches == s.batches[a.b := y] == before.batches + [y];
  }

  // Where a batch with its worker at this place stands, otherwise as it began.
  function WorkingAt(worker: WorkerPc, posts: nat): Batch {
    Batch(Waiting, worker, None, true, false, false, false, None, posts, 0)
  }

  // Where a batch stands once its start returned.
  function StartedAt(worker: WorkerPc): Batch { Batch(Waiting, worker, None, false, false, false, false, None, 0, 0) }

  lemma Launches(actions: seq<Action>, maxAttempts: nat) returns (more: seq<Action>)
    requires AllReleased(Run(actions, maxAttempts))
    ensures Holding(Run(more, maxAttempts), Run(actions, maxAttempts), StartedAt(Entering), true)
  {
    var before := Run(actions, maxAttempts);
    GrantedExactlyWhenFree(actions, maxAttempts);
    var b := |before.batches|;
    more := actions + [Acquire];
    var x := Batch(Starting, Unborn, None, false, false, false, false, None, 0, 0);
    assert Run(more, maxAttempts).batches == before.batches + [x];
    hide Run;
    more := Takes(more, before, x, true, Launch(b), maxAttempts, x.(caller := Launched, worker := Entering));
    more := Takes(more, before, x.(caller := Launched, worker := Entering), true, StartReturns(b), maxAttempts, StartedAt(Entering));
  }

  lemma Begins(actions: seq<Action>, maxAttempts: nat) returns (more: seq<Action>)
    requires AllReleased(Run(actions, maxAttempts))
    ensures Holding(Run(more, maxAttempts), Run(actions, maxAttempts), WorkingAt(Checking(0), 0), true)
  {
    hide Run;
    var before := Run(actions, maxAttempts);
    var b := |before.batches|;
    more := Launches(actions, maxAttempts);
    var y := StartedAt(EntryTest).(ownership := Some(WorkerSide));
    more := Takes(more, before, StartedAt(Entering), true, WorkerStep(b, OutOfTime), maxAttempts, y);
    more := Takes(more, before, y, true, WorkerStep(b, OutOfTime), maxAttempts, y.(workStarted := true, worker := EntryLeave));
    more := Takes(more, before, y.(workStarted := true, worker := EntryLeave), true, WorkerStep(b, OutOfTime), maxAttempts,
                  WorkingAt(Checking(0), 0));
  }

  // The k-th request goes out.
  lemma {:induction false} Posts(actions: seq<Action>, maxAttempts: nat, k: nat) returns (more: seq<Action>)
    requires AllReleased(Run(actions, maxAttempts)) && k < maxAttempts
    ensures Holding(Run(more, maxAttempts), Run(actions, maxAttempts), WorkingAt(Posted(k), k + 1), true)
  {
    var before := Run(actions, maxAttempts);
    var b := |before.batches|;
    hide Run;
    if k == 0 {
      more := Begins(actions, maxAttempts);
    } else {
      more := Posts(actions, maxAttempts, k - 1);
      more := Takes(more, before, WorkingAt(Posted(k - 1), k), true, WorkerStep(b, Retry), maxAttempts, WorkingAt(Checking(k), k));
    }
    more := Takes(more, before, WorkingAt(Checking(k), k), true, WorkerStep(b, InTime), maxAttempts, WorkingAt(Posted(k), k + 1));
  }

  lemma FreesOwn(actions: seq<Action>, before: System, x: Batch, maxAttempts: nat) returns (more: seq<Action>)
    requires Holding(Run(actions, maxAttempts), before, x, true) && x.worker == Finishing(Free)
    ensures Holding(Run(more, maxAttempts), before, x.(releases := x.releases + 1, worker := Finishing(Leave)), false)
  {
    hide Run;
    var a := WorkerStep(|before.batches|, OutOfTime);
    more := actions + [a];
    Extends(actions, a, maxAttempts);
    var s, t := Run(actions, maxAttempts), Run(more, maxAttempts);
    var y := x.(releases := x.releases + 1, worker := Finishing(Leave));
    assert t.batches == s.batches[a.b := y] == before.batches + [y];
  }

  /**
   A free slot serves: after any run that left it free, and for any number of requests up to
   the limit and any outcome, the next batch can send exactly that many requests, hand its
   caller that outcome, and leave the slot free with all earlier batches as they were.
   */
  lemma FreeSlotServes(actions: seq<Action>, maxAttempts: nat, posts: nat, outcome: Outcome) returns (more: seq<Action>)
    requires AllReleased(Run(actions, maxAttempts)) && 1 <= posts <= maxAttempts
    ensures var s, t := Run(actions, maxAttempts), Run(more, maxAttempts);
            var n := |s.batches|;
            && |t.batches| == n + 1 && t.batches[..n] == s.batches && !t.locked && t.refused == s.refused
            && t.batches[n].caller == Gone(Delivered) && t.batches[n].outcome == Some(outcome)
            && t.batches[n].posts == posts && t.batches[n].releases == 1
  {
    var before := Run(actions, maxAttempts);
    var b := |before.batches|;
    hide Run;
    more := Posts(actions, maxAttempts, posts - 1);
    var x := WorkingAt(Finishing(Enter), posts).(outcome := Some(outcome));
    more := Takes(more, before, WorkingAt(Posted(posts - 1), posts), true, WorkerStep(b, Return(outcome)), maxAttempts, x);
    var y := x.(ownership := Some(WorkerSide), worker := Finishing(Test));
    more := Takes(more, before, x, true, WorkerStep(b, OutOfTime), maxAttempts, y);
    var z := y.(slotReleased := true, worker := Finishing(Free));
    more := Takes(more, before, y, true, WorkerStep(b, OutOfTime), maxAttempts, z);
    more := FreesOwn(more, before, z, maxAttempts);
    more := Ends(more, before, z.(releases := 1, worker := Finishing(Leave)), maxAttempts);
  }

  lemma Ends(actions: seq<Action>, before: System, x: Batch, maxAttempts: nat) returns (more: seq<Action>)
    requires Holding(Run(actions, maxAttempts), before, x, false) && x.worker == Finishing(Leave) && x.caller == Waiting
    ensures Holding(Run(more, maxAttempts), before, x.(ownership := None, worker := Ended, done := true, caller := Gone(Delivered)), false)
  {
    hide Run;
    var b := |before.batches|;
    var y := x.(ownership := None, worker := Signalling);
    more := Takes(actions, before, x, false, WorkerStep(b, OutOfTime), maxAttempts, y);
    var z := y.(worker := Ended, done := true);
    more := Takes(more, before, y, false, WorkerStep(b, OutOfTime), maxAttempts, z);
    more := Takes(more, before, z, false, WaitEnds(b, false), maxAttempts, z.(caller := Gone(Delivered)));
  }

  // --- time-outs --------------------------------------------------------------------------------

  /**
   A caller that is late gives its batch up as timed out in its next step, whether or not the
   worker is done: the batch is cancelled, and the slot stays with a worker that has it.
   */
  lemma LateCallerTimesOut(actions: seq<Action>, b: nat, maxAttempts: nat)
    requires Enabled(Run(actions, maxAttempts), WaitEnds(b, true), maxAttempts)
    ensures var s, t := Run(actions, maxAttempts), Run(actions + [WaitEnds(b, true)] + [CallerStep(b)], maxAttempts);
            && t.batches == s.batches[b := s.batches[b].(caller := Gone(TimedOut), cancelled := true)]
            && t.locked == s.locked && t.holder == s.holder && t.refused == s.refused
  {
    Extends(actions, WaitEnds(b, true), maxAttempts);
    Extends(actions + [WaitEnds(b, true)], CallerStep(b), maxAttempts);
  }

  // --- cancelling ---------------------------------------------------------------------------------

  lemma CallerKeeps(x: Batch)
    requires x.caller.Cancelling? || x.caller.GivingUp?
    ensures CallerMoves(x).posts == x.posts && (x.cancelled ==> CallerMoves(x).cancelled)
    ensures (x.caller.GivingUp? ==> x.cancelled) ==> (CallerMoves(x).caller.GivingUp? || CallerMoves(x).caller.Gone? ==> CallerMoves(x).cancelled)
  {
  }

  lemma ReleaseKeeps(x: Batch, side: Side, stage: Stage, may: bool)
    ensures var y := ReleaseStep(x, side, stage, may).0;
            y.cancelled == x.cancelled && y.caller == x.caller && y.worker == x.worker && y.posts == x.posts
  {
  }

  lemma WorkerKeeps(x: Batch, choice: WorkerChoice, maxAttempts: nat)
    requires x.worker.Checking? ==> choice == OutOfTime || (choice == InTime && !x.cancelled && x.worker.attempt < maxAttempts)
    ensures var y := WorkerMoves(x, choice, maxAttempts);
            y.cancelled == x.cancelled && y.caller == x.caller && (x.cancelled ==> y.posts == x.posts)
  {
    hide ReleaseStep;
    if x.worker.Finishing? {
      ReleaseKeeps(x, WorkerSide, x.worker.stage, true);
    }
  }

  lemma CancelledStep(s: System, a: Action, b: nat, maxAttempts: nat)
    requires Enabled(s, a, maxAttempts) && Has(s, b) && s.batches[b].cancelled
    ensures var t := Apply(s, a, maxAttempts); Has(t, b) && t.batches[b].cancelled && t.batches[b].posts == s.batches[b].posts
  {
    hide CallerMoves, WorkerMoves;
    if a.CallerStep? {
      CallerKeeps(s.batches[a.b]);
    } else if a.WorkerStep? {
      WorkerKeeps(s.batches[a.b], a.choice, maxAttempts);
    }
  }

  /** A cancelled batch sends no further request, in any continuation. */
  lemma {:induction false} CancelledPostsNothing(actions: seq<Action>, more: seq<Action>, b: nat, maxAttempts: nat)
    requires var s := Run(actions, maxAttempts); Has(s, b) && s.batches[b].cancelled
    ensures var s, t := Run(actions, maxAttempts), Run(actions + more, maxAttempts);
            Has(t, b) && t.batches[b].cancelled && t.batches[b].posts == s.batches[b].posts
    decreases |more|
  {
    if more == [] {
      assert actions + more == actions;
    } else {
      var init, a := more[..|more| - 1], more[|more| - 1];
      CancelledPostsNothing(actions, init, b, maxAttempts);
      assert (actions + more)[..|actions + more| - 1] == actions + init;
      if Enabled(Run(actions + init, maxAttempts), a, maxAttempts) {
        hide Apply;
        CancelledStep(Run(actions + init, maxAttempts), a, b, maxAttempts);
      }
    }
  }

  // Its caller gave it up.
  predicate GivenUp(x: Batch) { x.caller.GivingUp? || (x.caller.Gone? && x.caller.fate != Delivered) }

  lemma GivingUpStep(s: System, a: Action, b: nat, maxAttempts: nat)
    requires Enabled(s, a, maxAttempts) && (Has(s, b) && GivenUp(s.batches[b]) ==> s.batches[b].cancelled)
    ensures var t := Apply(s, a, maxAttempts); Has(t, b) && GivenUp(t.batches[b]) ==> t.batches[b].cancelled
  {
    hide CallerMoves, WorkerMoves;
    if a.CallerStep? {
      CallerKeeps(s.batches[a.b]);
    } else if a.WorkerStep? {
      WorkerKeeps(s.batches[a.b], a.choice, maxAttempts);
    }
  }

  /** A caller that gives up on its batch, by time-out or interruption, has cancelled it. */
  lemma {:induction false} GivingUpCancels(actions: seq<Action>, b: nat, maxAttempts: nat)
    ensures var s := Run(actions, maxAttempts); Has(s, b) && GivenUp(s.batches[b]) ==> s.batches[b].cancelled
  {
    if actions != [] {
      hide Apply, GivenUp;
      var s, a := Run(actions[..|actions| - 1], maxAttempts), actions[|actions| - 1];
      GivingUpCancels(actions[..|actions| - 1], b, maxAttempts);
      if Enabled(s, a, maxAttempts) {
        GivingUpStep(s, a, b, maxAttempts);
      }
    }
  }
}
