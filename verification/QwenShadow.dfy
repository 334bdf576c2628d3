/**
 The shadow submitter of radar_v08/qwen_shadow.py as interleaved atomic steps:
 submitters under one lock, background review threads, a completion queue, and
 an inference slot that anyone may take or leave at any moment.

 A batch is named by its submission number.
 */
module QwenShadow {
  import opened Options

  // --- state -------------------------------------------------------------------

  datatype SubmitPc =
    | WantLock
    | TestThread
    | TestSlot
    | Starting              // admitted: the thread object is about to start
    | Started               // the native thread runs, `_thread` not yet set
    | Leaving(ok: bool)
    | Returned(ok: bool)
    | Raised

  // Alive until Dead; the batch is posted to the queue on leaving Posting.
  datatype ThreadPc = NoThread | Reviewing | Posting(failed: bool) | Exiting | Dead

  datatype Batch = Batch(submit: SubmitPc, thread: ThreadPc, errorCode: bool)

  datatype System = System(
    lock: Option<nat>,
    current: Option<nat>,        // `_thread`, by its batch
    batches: seq<Batch>,
    queue: seq<nat>,
    drained: seq<nat>,
    slotHeld: bool,
    untracked: set<nat>)         // history: threads whose start() raised after launching them

  const IDLE := System(None, None, [], [], [], false, {})

  predicate Has(s: System, b: nat) { b < |s.batches| }

  predicate Alive(x: Batch) { x.thread != NoThread && x.thread != Dead }

  predicate ThreadAlive(s: System) {
    s.current.Some? && Has(s, s.current.value) && Alive(s.batches[s.current.value])
  }

  // Admitted and not yet handed to the queue.
  predicate Running(x: Batch) { x.thread == Reviewing || x.thread.Posting? }

  // --- steps ---------------------------------------------------------------------

  datatype Action =
    | Submit                           // a new call of submit
    | SubmitStep(b: nat)
    | StartFails(b: nat)               // start() raises, no native thread
    | StartInterrupted(b: nat)         // start() raises, the native thread runs
    | ThreadStep(b: nat, raises: bool)
    | DrainOne                         // one get_nowait of drain
    | SlotChanges(held: bool)

  predicate Enabled(s: System, a: Action) {
    match a
    case Submit => true
    case SubmitStep(b) =>
      Has(s, b) && (match s.batches[b].submit
                    case WantLock => s.lock.None?
                    case Returned(_) => false
                    case Raised => false
                    case _ => true)
    case StartFails(b) => Has(s, b) && s.batches[b].submit == Starting
    case StartInterrupted(b) => Has(s, b) && s.batches[b].submit == Starting
    case ThreadStep(b, _) => Has(s, b) && Alive(s.batches[b])
    case DrainOne => s.queue != []
    case SlotChanges(_) => true
  }

  function Put(s: System, b: nat, x: Batch): System
    requires Has(s, b)
  {
    s.(batches := s.batches[b := x])
  }

  function SubmitMoves(s: System, b: nat): System
    requires Has(s, b)
  {
    var x := s.batches[b];
    match x.submit
    case WantLock => Put(s, b, x.(submit := TestThread)).(lock := Some(b))
    case TestThread => Put(s, b, x.(submit := if ThreadAlive(s) then Leaving(false) else TestSlot))
    case TestSlot => Put(s, b, x.(submit := if s.slotHeld then Leaving(false) else Starting))
    case Starting => Put(s, b, x.(submit := Started, thread := Reviewing))
    case Started => Put(s, b, x.(submit := Leaving(true))).(current := Some(b))
    case Leaving(ok) => Put(s, b, x.(submit := Returned(ok))).(lock := None)
    case _ => s
  }

  function ThreadMoves(s: System, b: nat, raises: bool): System
    requires Has(s, b)
  {
    var x := s.batches[b];
    match x.thread
    case Reviewing => Put(s, b, x.(thread := Posting(raises), errorCode := raises))
    case Posting(_) => Put(s, b, x.(thread := Exiting)).(queue := s.queue + [b])
    case Exiting => Put(s, b, x.(thread := Dead))
    case _ => s
  }

  function Apply(s: System, a: Action): System
    requires Enabled(s, a)
  {
    match a
    case Submit => s.(batches := s.batches + [Batch(WantLock, NoThread, false)])
    case SubmitStep(b) => SubmitMoves(s, b)
    case StartFails(b) => Put(s, b, s.batches[b].(submit := Raised)).(lock := None)
    case StartInterrupted(b) =>
      Put(s, b, s.batches[b].(submit := Raised, thread := Reviewing)).(lock := None, untracked := s.untracked + {b})
    case ThreadStep(b, raises) => ThreadMoves(s, b, raises)
    case DrainOne => s.(queue := s.queue[1..], drained := s.drained + [s.queue[0]])
    case SlotChanges(held) => s.(slotHeld := held)
  }

  function Run(actions: seq<Action>): System {
    if actions == [] then IDLE
    else
      var s := Run(actions[..|actions| - 1]);
      var a := actions[|actions| - 1];
      if Enabled(s, a) then Apply(s, a) else s
  }

  // --- invariant -------------------------------------------------------------------

  predicate InLock(p: SubmitPc) {
    p == TestThread || p == TestSlot || p == Starting || p == Started || p.Leaving?
  }

  // What the threads' and submitters' positions say about each other.
  ghost predicate BatchOk(s: System, b: nat)
    requires Has(s, b)
  {
    var x := s.batches[b];
    && (InLock(x.submit) <==> s.lock == Some(b))
    && (x.thread != NoThread ==>
          x.submit == Started || x.submit == Leaving(true) || x.submit == Returned(true) || x.submit == Raised)
    && (x.submit == Leaving(true) || x.submit == Returned(true) || x.submit == Started ==> x.thread != NoThread)
    // only a thread recorded in `_thread`, being recorded, or of an interrupted start can be alive
    && (Alive(x) ==> s.current == Some(b) || x.submit == Started || b in s.untracked)
    && (b in s.untracked ==> x.submit == Raised)
    && (s.current == Some(b) ==> x.submit == Leaving(true) || x.submit == Returned(true))
    // between the test and the record, no recorded thread is alive
    && (x.submit == TestSlot || x.submit == Starting || x.submit == Started ==> !ThreadAlive(s))
  }

  // Every batch is in the log of finished batches exactly when its thread has posted it.
  ghost predicate Logged(s: System) {
    && (forall i :: 0 <= i < |s.drained + s.queue| ==> Has(s, (s.drained + s.queue)[i]))
    && (forall i, j :: 0 <= i < j < |s.drained + s.queue| ==> (s.drained + s.queue)[i] != (s.drained + s.queue)[j])
    && (forall b :: 0 <= b < |s.batches| ==>
          (b in s.drained + s.queue <==> s.batches[b].thread == Exiting || s.batches[b].thread == Dead))
  }

  ghost predicate Ok(s: System) {
    && (forall b :: 0 <= b < |s.batches| ==> BatchOk(s, b))
    && (s.lock.Some? ==> Has(s, s.lock.value))
    && (s.current.Some? ==> Has(s, s.current.value))
    && (forall b <- s.untracked :: Has(s, b))
    && Logged(s)
  }

  lemma SubmitStepLogged(s: System, b: nat)
    requires Logged(s) && Enabled(s, SubmitStep(b)) && BatchOk(s, b)
    ensures Logged(SubmitMoves(s, b))
  {
    assert SubmitMoves(s, b).drained + SubmitMoves(s, b).queue == s.drained + s.queue;
  }

  lemma SubmitStepOk(s: System, b: nat)
    requires Ok(s) && Enabled(s, SubmitStep(b))
    ensures Ok(SubmitMoves(s, b))
  {
    hide Logged;
    var t := SubmitMoves(s, b);
    assert BatchOk(s, b);
    SubmitStepLogged(s, b);
    assert s.current.Some? ==> BatchOk(s, s.current.value);
    forall c | 0 <= c < |t.batches| ensures BatchOk(t, c) {
      assert BatchOk(s, c) && BatchOk(s, b);
    }
  }

  // Posting appends the batch to the log; nothing else about the log changes.
  lemma ThreadStepLogged(s: System, b: nat, raises: bool)
    requires Logged(s) && Enabled(s, ThreadStep(b, raises))
    ensures Logged(ThreadMoves(s, b, raises))
  {
    var t := ThreadMoves(s, b, raises);
    if s.batches[b].thread.Posting? {
      assert t.drained + t.queue == (s.drained + s.queue) + [b];
    } else {
      assert t.drained + t.queue == s.drained + s.queue;
    }
  }

  lemma ThreadStepOk(s: System, b: nat, raises: bool)
    requires Ok(s) && Enabled(s, ThreadStep(b, raises))
    ensures Ok(ThreadMoves(s, b, raises))
  {
    hide Logged;
    var t := ThreadMoves(s, b, raises);
    ThreadStepLogged(s, b, raises);
    forall c | 0 <= c < |t.batches| ensures BatchOk(t, c) {
      assert BatchOk(s, c) && BatchOk(s, b);
    }
  }

  lemma StartRaisesOk(s: System, a: Action)
    requires Ok(s) && (a.StartFails? || a.StartInterrupted?) && Enabled(s, a)
    ensures Ok(Apply(s, a))
  {
    var t := Apply(s, a);
    assert BatchOk(s, a.b);
    forall c | 0 <= c < |t.batches| ensures BatchOk(t, c) {
      assert BatchOk(s, c);
    }
  }

  lemma StepOk(s: System, a: Action)
    requires Ok(s) && Enabled(s, a)
    ensures Ok(Apply(s, a))
  {
    match a
    case SubmitStep(b) => SubmitStepOk(s, b);
    case ThreadStep(b, raises) => ThreadStepOk(s, b, raises);
    case StartFails(_) => StartRaisesOk(s, a);
    case StartInterrupted(_) => StartRaisesOk(s, a);
    case DrainOne =>
      var t := Apply(s, a);
      assert t.drained + t.queue == s.drained + s.queue;
      forall c | 0 <= c < |t.batches| ensures BatchOk(t, c) {
        assert BatchOk(s, c);
      }
    case _ =>
      var t := Apply(s, a);
      assert t.drained + t.queue == s.drained + s.queue;
      forall c | 0 <= c < |t.batches| ensures BatchOk(t, c) {
        assert c < |s.batches| ==> BatchOk(s, c);
      }
  }

  lemma {:induction false} RunOk(actions: seq<Action>)
    ensures Ok(Run(actions))
  {
    if actions != [] {
      RunOk(actions[..|actions| - 1]);
      var s, a := Run(actions[..|actions| - 1]), actions[|actions| - 1];
      if Enabled(s, a) {
        StepOk(s, a);
      }
    }
  }

  // --- theorems over every run --------------------------------------------------------

  // A live thread whose start() returned.
  predicate Tracked(s: System, b: nat) { Has(s, b) && Alive(s.batches[b]) && b !in s.untracked }

  /**
   At most one shadow thread is alive besides those whose start() raised after
   launching them; without such an interruption, at most one.
   */
  lemma AtMostOneThread(actions: seq<Action>)
    ensures var s := Run(actions);
            forall b: nat, c: nat :: Tracked(s, b) && Tracked(s, c) ==> b == c
  {
    RunOk(actions);
    var s := Run(actions);
    forall b: nat, c: nat | Tracked(s, b) && Tracked(s, c) ensures b == c
    {
      assert BatchOk(s, b) && BatchOk(s, c);
    }
  }

  /** An interrupted start leaves a thread `_thread` never names: a second one can then run beside it. */
  lemma InterruptedStartAdmitsTwo() returns (actions: seq<Action>)
    ensures var s := Run(actions); |s.batches| == 2 && Alive(s.batches[0]) && Alive(s.batches[1])
  {
    var s;
    actions, s := [], IDLE;
    actions, s := Extended(actions, Submit, s);
    actions, s := Extended(actions, SubmitStep(0), s);
    actions, s := Extended(actions, SubmitStep(0), s);
    actions, s := Extended(actions, SubmitStep(0), s);
    actions, s := Extended(actions, StartInterrupted(0), s);
    assert s.batches == [Batch(Raised, Reviewing, false)] && s.lock.None? && s.current.None?;
    actions, s := Extended(actions, Submit, s);
    actions, s := Extended(actions, SubmitStep(1), s);
    actions, s := Extended(actions, SubmitStep(1), s);
    actions, s := Extended(actions, SubmitStep(1), s);
    actions, s := Extended(actions, SubmitStep(1), s);
  }

  lemma Extended(actions: seq<Action>, a: Action, s: System) returns (more: seq<Action>, t: System)
    requires Run(actions) == s && Enabled(s, a)
    ensures t == Apply(s, a) && Run(more) == t && more == actions + [a]
  {
    more, t := actions + [a], Apply(s, a);
    assert more[..|actions|] == actions;
  }

  /**
   Conservation: each batch whose thread was launched is running, queued or
   drained, and never two of these; no batch is queued or drained twice; a batch
   not launched is none of them.
   */
  lemma BatchesAreConserved(actions: seq<Action>, b: nat)
    requires Has(Run(actions), b)
    ensures var s := Run(actions);
            && (s.batches[b].thread == NoThread ==> !Running(s.batches[b]) && b !in s.queue && b !in s.drained)
            && (s.batches[b].thread != NoThread ==>
                  || (Running(s.batches[b]) && b !in s.queue && b !in s.drained)
                  || (!Running(s.batches[b]) && b in s.queue && b !in s.drained)
                  || (!Running(s.batches[b]) && b !in s.queue && b in s.drained))
            && (forall i, j :: 0 <= i < j < |s.queue| ==> s.queue[i] != s.queue[j])
            && (forall i, j :: 0 <= i < j < |s.drained| ==> s.drained[i] != s.drained[j])
  {
    RunOk(actions);
    var s := Run(actions);
    var log := s.drained + s.queue;
    assert b in log <==> b in s.drained || b in s.queue;
    forall i, j | 0 <= i < |s.drained| && 0 <= j < |s.queue| ensures s.drained[i] != s.queue[j] {
      assert log[i] == s.drained[i] && log[|s.drained| + j] == s.queue[j];
    }
    forall i, j | 0 <= i < j < |s.queue| ensures s.queue[i] != s.queue[j] {
      assert log[|s.drained| + i] == s.queue[i] && log[|s.drained| + j] == s.queue[j];
    }
    forall i, j | 0 <= i < j < |s.drained| ensures s.drained[i] != s.drained[j] {
      assert log[i] == s.drained[i] && log[j] == s.drained[j];
    }
  }

  // The batches in the order in which their threads posted them.
  function Completions(actions: seq<Action>): seq<nat> {
    if actions == [] then []
    else
      var s := Run(actions[..|actions| - 1]);
      var a := actions[|actions| - 1];
      Completions(actions[..|actions| - 1])
      + if a.ThreadStep? && Enabled(s, a) && s.batches[a.b].thread.Posting? then [a.b] else []
  }

  /** Drained batches come out in completion order, whether or not their review raised, and none is skipped. */
  lemma {:induction false} DrainedInCompletionOrder(actions: seq<Action>)
    ensures var s := Run(actions); s.drained + s.queue == Completions(actions)
  {
    if actions != [] {
      DrainedInCompletionOrder(actions[..|actions| - 1]);
      var s := Run(actions[..|actions| - 1]);
      var t := Run(actions);
      var a := actions[|actions| - 1];
      if Enabled(s, a) && a.ThreadStep? && s.batches[a.b].thread.Posting? {
        assert t.drained + t.queue == (s.drained + s.queue) + [a.b];
      } else {
        assert t.drained + t.queue == s.drained + s.queue;
      }
    }
  }

  /**
   Whenever a thread comes to life through submit, its submitter holds the lock and no
   recorded thread is alive.
   */
  lemma AdmissionIsExclusive(actions: seq<Action>, a: Action, b: nat)
    requires var s := Run(actions);
             Enabled(s, a) && Has(s, b) && !Alive(s.batches[b]) && Has(Apply(s, a), b) && Alive(Apply(s, a).batches[b])
    ensures var s := Run(actions); s.lock == Some(b) && !ThreadAlive(s) && s.batches[b].submit == Starting
  {
    RunOk(actions);
    assert BatchOk(Run(actions), b);
  }
}
