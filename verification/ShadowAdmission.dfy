/**
 What the shadow submitter's two tests are worth over whole runs: when an admitted
 batch saw the inference slot free, and when two review threads can be alive at once.
 */
module ShadowAdmission {
  import opened Options
  import opened QwenShadow

  // --- the slot test ----------------------------------------------------------------------

  // Admitted: past both tests, or further.
  predicate Admitted(p: SubmitPc) {
    p == Starting || p == Started || p == Leaving(true) || p == Returned(true) || p == Raised
  }

  // The step at which a batch passed the slot test.
  ghost predicate PassedAt(actions: seq<Action>, n: nat, b: nat) {
    && n < |actions| && actions[n] == SubmitStep(b)
    && var s := Run(actions[..n]);
       Has(s, b) && s.batches[b].submit == TestSlot && !s.slotHeld && !ThreadAlive(s)
  }

  // The slot as the last change since position n left it; free if there was none.
  function TakenSince(actions: seq<Action>, n: nat): bool {
    if |actions| <= n then false
    else
      var last := actions[|actions| - 1];
      if last.SlotChanges? then last.held else TakenSince(actions[..|actions| - 1], n)
  }

  lemma OneStepAdmits(s: System, a: Action, b: nat)
    requires Ok(s) && Enabled(s, a) && Has(Apply(s, a), b) && Admitted(Apply(s, a).batches[b].submit)
    requires !(Has(s, b) && Admitted(s.batches[b].submit))
    ensures a == SubmitStep(b) && Has(s, b) && s.batches[b].submit == TestSlot && !s.slotHeld && !ThreadAlive(s)
  {
    if Has(s, b) {
      assert BatchOk(s, b);
    }
  }

  /**
   Every admitted batch passed the slot test at some step of its run, with the slot free
   and no recorded thread alive; and the slot is held now exactly if it was taken since.
   */
  lemma {:induction false} AdmittedSawTheSlotFree(actions: seq<Action>, b: nat) returns (n: nat)
    requires Has(Run(actions), b) && Admitted(Run(actions).batches[b].submit)
    ensures PassedAt(actions, n, b) && (Run(actions).slotHeld <==> TakenSince(actions, n))
  {
    var front, a := actions[..|actions| - 1], actions[|actions| - 1];
    var s := Run(front);
    RunOk(front);
    if Has(s, b) && Admitted(s.batches[b].submit) {
      n := AdmittedSawTheSlotFree(front, b);
      assert front[..n] == actions[..n];
    } else {
      hide Ok;
      OneStepAdmits(s, a, b);
      n := |front|;
    }
  }

  /** The test does not reserve the slot: a batch can come to life while someone else holds it. */
  lemma SlotCanBeTakenBeforeTheStart() returns (actions: seq<Action>)
    ensures |actions| > 0
    ensures var before, after := Run(actions[..|actions| - 1]), Run(actions);
            && Has(before, 0) && !Alive(before.batches[0]) && before.slotHeld
            && Has(after, 0) && Alive(after.batches[0]) && after.slotHeld
  {
    var s;
    actions, s := [], IDLE;
    actions, s := Extended(actions, Submit, s);
    actions, s := Extended(actions, SubmitStep(0), s);
    actions, s := Extended(actions, SubmitStep(0), s);
    actions, s := Extended(actions, SubmitStep(0), s);
    actions, s := Extended(actions, SlotChanges(true), s);
    assert s.batches == [Batch(Starting, NoThread, false)] && s.slotHeld;
    var before := actions;
    actions, s := Extended(actions, SubmitStep(0), s);
    assert actions[..|actions| - 1] == before;
  }

  // --- the answer of a submission --------------------------------------------------------------

  lemma Extends(actions: seq<Action>, a: Action)
    ensures Run(actions + [a]) == if Enabled(Run(actions), a) then Apply(Run(actions), a) else Run(actions)
  {
    assert (actions + [a])[..|actions|] == actions;
  }

  // A submission taken through all its steps, with nothing in between.
  function Submission(actions: seq<Action>, n: nat): seq<Action> {
    if n == 0 then actions + [Submit] else Submission(actions, n - 1) + [SubmitStep(|Run(actions).batches|)]
  }

  // How a submission that found this state stands after so many steps.
  function Submitted(s: System, n: nat): System {
    var b := |s.batches|;
    var refused := ThreadAlive(s) || s.slotHeld;
    var submit :=
      match n
      case 0 => WantLock
      case 1 => TestThread
      case 2 => if ThreadAlive(s) then Leaving(false) else TestSlot
      case 3 => if ThreadAlive(s) then Returned(false) else if s.slotHeld then Leaving(false) else Starting
      case 4 => if refused then Returned(false) else Started
      case 5 => if refused then Returned(false) else Leaving(true)
      case _ => Returned(!refused);
    s.(batches := s.batches + [Batch(submit, if n >= 4 && !refused then Reviewing else NoThread, false)],
    lock := if n == 0 || submit.Returned? then None else Some(b),
    current := if n >= 5 && !refused then Some(b) else s.current)
  }

  lemma SubmittedStep(s: System, n: nat)
    requires Ok(s) && s.lock.None? && n < 6
    ensures var t, a := Submitted(s, n), SubmitStep(|s.batches|);
            Submitted(s, n + 1) == if Enabled(t, a) then Apply(t, a) else t
  {
    var t, b := Submitted(s, n), |s.batches|;
    assert s.current.Some? ==> t.batches[s.current.value] == s.batches[s.current.value];
    assert t.batches[..b] == s.batches;
    if Enabled(t, SubmitStep(b)) {
      assert Apply(t, SubmitStep(b)).batches == s.batches + [Submitted(s, n + 1).batches[b]];
    }
  }

  lemma {:induction false} SubmissionRuns(actions: seq<Action>, n: nat)
    requires Run(actions).lock.None? && n <= 6
    ensures Run(Submission(actions, n)) == Submitted(Run(actions), n)
  {
    RunOk(actions);
    hide Ok, Run;
    if n == 0 {
      Extends(actions, Submit);
    } else {
      SubmissionRuns(actions, n - 1);
      SubmittedStep(Run(actions), n - 1);
      Extends(Submission(actions, n - 1), SubmitStep(|Run(actions).batches|));
    }
  }

  /**
   From every reachable state with the submitters' lock free: a submission with nothing in
   between starts a review and returns true if and only if no recorded thread is alive and
   the slot is free; otherwise it returns false and starts nothing.
   */
  lemma SubmitAnsweredExactly(actions: seq<Action>)
    requires Run(actions).lock.None?
    ensures var s, t := Run(actions), Run(Submission(actions, 6));
            var b, free := |s.batches|, !ThreadAlive(s) && !s.slotHeld;
            && |t.batches| == b + 1 && t.batches[..b] == s.batches && t.batches[b].submit == Returned(free)
            && t.batches[b].thread == (if free then Reviewing else NoThread)
            && t.current == (if free then Some(b) else s.current)
            && t.lock.None? && t.queue == s.queue && t.drained == s.drained && t.untracked == s.untracked
  {
    hide Run, Submission;
    SubmissionRuns(actions, 6);
  }

  // --- continuations ------------------------------------------------------------------------

  function RunFrom(s: System, more: seq<Action>): System {
    if more == [] then s
    else
      var t := RunFrom(s, more[..|more| - 1]);
      var a := more[|more| - 1];
      if Enabled(t, a) then Apply(t, a) else t
  }

  predicate Uninterrupted(more: seq<Action>) { forall i :: 0 <= i < |more| ==> !more[i].StartInterrupted? }

  predicate Live(s: System, b: nat) { Has(s, b) && Alive(s.batches[b]) }

  ghost predicate TwoLive(s: System) { exists b: nat, c: nat :: b != c && Live(s, b) && Live(s, c) }

  // A thread that `_thread` does not name is still running.
  ghost predicate Stray(s: System) { exists b <- s.untracked :: Live(s, b) }

  lemma OneStepNoStray(s: System, a: Action)
    requires Ok(s) && Enabled(s, a) && !a.StartInterrupted? && !Stray(s)
    ensures !Stray(Apply(s, a))
  {
    var t := Apply(s, a);
    forall b <- t.untracked ensures !Live(t, b) {
      assert b in s.untracked && !Live(s, b) && BatchOk(s, b);
    }
  }

  lemma {:induction false} NoStrayStays(s: System, more: seq<Action>)
    requires Ok(s) && !Stray(s) && Uninterrupted(more)
    ensures Ok(RunFrom(s, more)) && !Stray(RunFrom(s, more))
  {
    if more != [] {
      var front, a := more[..|more| - 1], more[|more| - 1];
      assert Uninterrupted(front);
      NoStrayStays(s, front);
      if Enabled(RunFrom(s, front), a) {
        hide Ok, Stray;
        StepOk(RunFrom(s, front), a);
        OneStepNoStray(RunFrom(s, front), a);
      }
    }
  }

  lemma NoStrayMeansOne(s: System)
    requires Ok(s) && !Stray(s)
    ensures !TwoLive(s)
  {
    forall b: nat, c: nat | Live(s, b) && Live(s, c) ensures b == c {
      assert BatchOk(s, b) && BatchOk(s, c);
    }
  }

  // --- a second thread beside a stray one ------------------------------------------------------

  // One more action of a continuation.
  lemma Then(s: System, more: seq<Action>, a: Action) returns (longer: seq<Action>)
    requires Uninterrupted(more) && Enabled(RunFrom(s, more), a) && !a.StartInterrupted?
    ensures Uninterrupted(longer) && RunFrom(s, longer) == Apply(RunFrom(s, more), a)
  {
    longer := more + [a];
    assert longer[..|more|] == more;
  }

  // The thread u runs on, and no recorded thread does.
  predicate Alone(t: System, u: nat) { Live(t, u) && !ThreadAlive(t) && t.batches[u].submit == Raised }

  // A submitter inside the lock, past the thread test, starts its thread.
  lemma StartFromTest(s: System, more: seq<Action>, u: nat, b: nat) returns (longer: seq<Action>)
    requires Uninterrupted(more) && Alone(RunFrom(s, more), u) && u != b
    requires var t := RunFrom(s, more); Has(t, b) && t.batches[b].submit == TestSlot
    ensures Uninterrupted(longer) && TwoLive(RunFrom(s, longer))
  {
    hide Run, RunFrom;
    longer := Then(s, more, SlotChanges(false));
    longer := Then(s, longer, SubmitStep(b));
    longer := Then(s, longer, SubmitStep(b));
    var t := RunFrom(s, longer);
    assert Live(t, u) && Live(t, b);
  }

  // With the lock free, a new submission goes all the way.
  lemma SubmitAnother(s: System, more: seq<Action>, u: nat) returns (longer: seq<Action>)
    requires Uninterrupted(more) && Alone(RunFrom(s, more), u) && RunFrom(s, more).lock.None?
    ensures Uninterrupted(longer) && TwoLive(RunFrom(s, longer))
  {
    hide Run, RunFrom;
    var b := |RunFrom(s, more).batches|;
    longer := Then(s, more, Submit);
    longer := Then(s, longer, SubmitStep(b));
    longer := Then(s, longer, SubmitStep(b));
    longer := StartFromTest(s, longer, u, b);
  }

  // The submitter holding the lock leaves it, its own thread being over.
  lemma LeaveTheLock(s: System, more: seq<Action>, u: nat, b: nat) returns (longer: seq<Action>)
    requires Uninterrupted(more) && Alone(RunFrom(s, more), u) && u != b
    requires var t := RunFrom(s, more); Has(t, b) && !Alive(t.batches[b]) && t.lock == Some(b)
                                        && (t.batches[b].submit == Started || t.batches[b].submit.Leaving?)
    ensures Uninterrupted(longer) && Alone(RunFrom(s, longer), u) && RunFrom(s, longer).lock.None?
  {
    hide Run, RunFrom;
    longer := more;
    if RunFrom(s, longer).batches[b].submit == Started {
      longer := Then(s, longer, SubmitStep(b));
    }
    longer := Then(s, longer, SubmitStep(b));
  }

  // Wherever the holder of the lock is, a second thread can be brought to life.
  lemma SecondThread(s: System, u: nat) returns (more: seq<Action>)
    requires Ok(s) && u in s.untracked && Live(s, u)
    ensures Uninterrupted(more) && TwoLive(RunFrom(s, more))
  {
    assert BatchOk(s, u);
    more := [];
    if ThreadAlive(s) {
      assert BatchOk(s, s.current.value);
      assert Live(s, u) && Live(s, s.current.value);
      return;
    }
    if s.lock.None? {
      more := SubmitAnother(s, [], u);
      return;
    }
    var b := s.lock.value;
    assert BatchOk(s, b);
    if Live(s, b) {
      assert Live(s, u) && Live(s, b);
      return;
    }
    hide Ok, BatchOk;
    match s.batches[b].submit
    case TestThread =>
      more := Then(s, [], SubmitStep(b));
      more := StartFromTest(s, more, u, b);
    case TestSlot => more := StartFromTest(s, [], u, b);
    case Starting =>
      more := Then(s, [], SubmitStep(b));
      assert Live(RunFrom(s, more), u) && Live(RunFrom(s, more), b);
    case _ =>
      more := LeaveTheLock(s, [], u, b);
      more := SubmitAnother(s, more, u);
  }

  /**
   From any reachable state, two review threads can be alive at once without another
   interrupted start if and only if a thread of an interrupted start is still alive.
   */
  lemma TwoThreadsExactlyWhenStray(actions: seq<Action>)
    ensures var s := Run(actions); (exists more :: Uninterrupted(more) && TwoLive(RunFrom(s, more))) <==> Stray(s)
  {
    RunOk(actions);
    var s := Run(actions);
    if Stray(s) {
      var u :| u in s.untracked && Live(s, u);
      var more := SecondThread(s, u);
    } else {
      hide TwoLive, Stray, Ok;
      forall more | Uninterrupted(more) ensures !TwoLive(RunFrom(s, more)) {
        NoStrayStays(s, more);
        NoStrayMeansOne(RunFrom(s, more));
      }
    }
  }
}
