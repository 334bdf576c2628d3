/**
 The corrected clock of radar_v08/clock_reference.py.

 Times are seconds as reals. The estimator's state is the value `State`; every
 operation is a function on it, and class `ClockReference` is the imperative
 object proved against those functions.
 */
module ClockModel {
  import opened Numbers
  import opened Options

  const WINDOW_SAMPLES: nat := 8
  const MAX_SAMPLE_AGE: real := 300.0
  const SERVER_TIME_RESOLUTION: real := 0.001
  const MAX_PLAUSIBLE_OFFSET: real := 60.0
  const JUMP_TOLERANCE: real := 0.1

  // The allowed rate error of the monotonic clock, 100 ppm, over a duration.
  function Drift(duration: real): real { duration * 0.0001 }

  // One paired wall/monotonic reading.
  datatype Reading = Reading(wall: real, mono: real)

  // How far the wall clock moved against the monotonic clock from a to b.
  function Movement(a: Reading, b: Reading): real {
    (b.wall - a.wall) - (b.mono - a.mono)
  }

  datatype Sample = Sample(offset: real, rtt: real, wall: real, mono: real) {
    function Receipt(): Reading { Reading(wall, mono) }

    function Age(r: Reading): real { r.mono - mono }

    // Half the round trip plus the server stamp's resolution: the bound at receipt.
    function Own(): real { rtt / 2.0 + SERVER_TIME_RESOLUTION }

    function Uncertainty(r: Reading): real {
      Own() + Drift(Age(r)) + Abs(Movement(Receipt(), r))
    }

    predicate ValidAt(r: Reading) { 0.0 <= Age(r) <= MAX_SAMPLE_AGE }
  }

  datatype Status =
    | Unavailable
    | RejectedClockJump
    | RejectedImplausibleOffset
    | RejectedInconsistentOffset
    | Applied

  // A round trip in flight; `epoch` is the estimator's epoch when it was sent.
  datatype Probe = Probe(sent: Reading, epoch: nat, received: Option<Reading>)

  datatype State = State(
    samples: seq<Sample>,
    anchor: Option<Reading>,
    epoch: nat,
    backwardPending: Option<real>,
    status: Status,
    cycleJump: Option<real>)

  const INITIAL := State([], None, 0, None, Unavailable, None)

  // The step a reading shows against the previous one; zero for the first reading.
  function StepSeen(s: State, r: Reading): real {
    if s.anchor.Some? then Movement(s.anchor.value, r) else 0.0
  }

  predicate IsJump(s: State, r: Reading) { Abs(StepSeen(s, r)) > JUMP_TOLERANCE }

  function AfterRead(s: State, r: Reading): State {
    var t := s.(anchor := Some(r));
    if IsJump(s, r) then
      var step := StepSeen(s, r);
      t.(samples := [], epoch := s.epoch + 1, cycleJump := Some(step),
      backwardPending := if step < 0.0 then Some(step) else s.backwardPending)
    else t
  }

  // The valid sample of lowest uncertainty, the earliest on ties.
  function Best(samples: seq<Sample>, r: Reading): (b: Option<Sample>)
    ensures b.None? <==> forall s <- samples :: !s.ValidAt(r)
    ensures b.Some? ==> b.value in samples && b.value.ValidAt(r)
    ensures b.Some? ==> forall s <- samples :: s.ValidAt(r) ==> b.value.Uncertainty(r) <= s.Uncertainty(r)
  {
    if samples == [] then None
    else
      var last := samples[|samples| - 1];
      var front := Best(samples[..|samples| - 1], r);
      assert samples == samples[..|samples| - 1] + [last];
      if !last.ValidAt(r) then front
      else if front.Some? && front.value.Uncertainty(r) <= last.Uncertainty(r) then front
      else Some(last)
  }

  /** Best is the first sample, in window order, among the valid ones of least uncertainty. */
  lemma {:induction false} BestIsFirst(samples: seq<Sample>, r: Reading) returns (k: nat)
    requires Best(samples, r).Some?
    ensures k < |samples| && Best(samples, r) == Some(samples[k])
    ensures forall i :: 0 <= i < k && samples[i].ValidAt(r) ==> samples[k].Uncertainty(r) < samples[i].Uncertainty(r)
  {
    var n := |samples| - 1;
    var front := Best(samples[..n], r);
    assert samples == samples[..n] + [samples[n]];
    if front.Some? && Best(samples, r) == front {
      k := BestIsFirst(samples[..n], r);
    } else {
      k := n;
      assert front.Some? ==> forall s <- samples[..n] :: s.ValidAt(r) ==> front.value.Uncertainty(r) <= s.Uncertainty(r);
    }
  }

  // The offset in effect at a reading already taken: only a cycle with its own
  // applied measurement is corrected.
  function InEffect(s: State, r: Reading): Option<Sample> {
    if s.status == Applied then Best(s.samples, r) else None
  }

  function CorrectedTime(s: State, r: Reading): real {
    match InEffect(s, r)
    case Some(b) => r.wall + b.offset
    case None => r.wall
  }

  function AfterBegin(s: State, r: Reading): State {
    AfterRead(s.(status := Unavailable, cycleJump := None), r)
  }

  predicate Consistent(samples: seq<Sample>, sample: Sample, r: Reading) {
    forall other <- samples ::
      other.ValidAt(r) ==> Abs(sample.offset - other.offset) <= sample.Own() + other.Uncertainty(r)
  }

  // A deque of bounded length: appending to a full window drops the oldest item.
  function Push<T>(window: seq<T>, x: T): (r: seq<T>)
    ensures |window| <= WINDOW_SAMPLES ==> |r| <= WINDOW_SAMPLES
    ensures r != [] && r[|r| - 1] == x
    ensures forall y <- r :: y == x || y in window
  {
    if |window| < WINDOW_SAMPLES then window + [x] else window[1..] + [x]
  }

  /** After the push the window holds the newest sample, and before it the newest others that fit, in their order. */
  lemma PushSlides<T>(window: seq<T>, x: T, k: nat)
    requires |window| <= WINDOW_SAMPLES && k < |Push(window, x)|
    ensures |Push(window, x)| == if |window| < WINDOW_SAMPLES then |window| + 1 else WINDOW_SAMPLES
    ensures Push(window, x)[k] == (window + [x])[|window| + 1 - |Push(window, x)| + k]
  {
  }

  function SampleOf(sent: Reading, received: Reading, server: real): Sample {
    var rtt := received.mono - sent.mono;
    Sample(server - (sent.wall + rtt / 2.0), rtt, received.wall, received.mono)
  }

  // What a completed round trip is judged to be, in the state that holds its receipt reading.
  function Verdict(s: State, p: Probe, server: Option<real>, received: Reading): Status {
    if server.None? then Unavailable
    else if p.epoch != s.epoch || received.mono < p.sent.mono then RejectedClockJump
    else
      var sample := SampleOf(p.sent, received, server.value);
      if Abs(sample.offset) > MAX_PLAUSIBLE_OFFSET then RejectedImplausibleOffset
      else if !Consistent(s.samples, sample, received) then RejectedInconsistentOffset
      else Applied
  }

  // The estimator reads its clocks on finishing only if the receipt did not.
  function BeforeVerdict(s: State, p: Probe, r: Reading): State {
    if p.received.Some? then s else AfterRead(s, r)
  }

  function ReceiptOf(p: Probe, r: Reading): Reading {
    if p.received.Some? then p.received.value else r
  }

  function AfterFinish(s: State, p: Probe, server: Option<real>, r: Reading): State {
    var t := BeforeVerdict(s, p, r);
    var received := ReceiptOf(p, r);
    var verdict := Verdict(t, p, server, received);
    if verdict == Applied then
      t.(samples := Push(t.samples, SampleOf(p.sent, received, server.value)),
      backwardPending := None, status := Applied)
    else t.(status := verdict)
  }

  // The clock evidence: synchronised is unknown, denied or granted with a bound.
  datatype Evidence = Evidence(synchronised: Option<bool>, uncertainty: Option<real>, backwardJump: Option<real>)

  function EvidenceOf(s: State, r: Reading): Evidence {
    if s.status == Unavailable then Evidence(None, None, s.backwardPending)
    else
      match InEffect(s, r)
      case None => Evidence(Some(false), None, s.backwardPending)
      case Some(b) => Evidence(Some(true), Some(b.Uncertainty(r)), s.backwardPending)
  }

  // The numeric part of the cycle's run record.
  datatype RunRecord = RunRecord(
    applied: bool, noValidSample: bool, offset: Option<real>, uncertainty: Option<real>,
    samplesInWindow: nat, jump: Option<real>)

  function CountValid(samples: seq<Sample>, r: Reading): nat {
    if samples == [] then 0
    else CountValid(samples[..|samples| - 1], r) + if samples[|samples| - 1].ValidAt(r) then 1 else 0
  }

  function RecordOf(s: State, r: Reading): RunRecord {
    var best := InEffect(s, r);
    RunRecord(
      s.status == Applied && best.Some?,
      s.status == Applied && best.None?,
      if best.Some? then Some(best.value.offset) else None,
      if best.Some? then Some(best.value.Uncertainty(r)) else None,
      CountValid(s.samples, r),
      s.cycleJump)
  }

  function ValidPositions(samples: seq<Sample>, r: Reading): set<nat> { set k: nat | k < |samples| && samples[k].ValidAt(r) }

  /** The record's count is the number of valid samples in the window. */
  lemma {:induction false} CountValidCounts(samples: seq<Sample>, r: Reading)
    ensures CountValid(samples, r) == |ValidPositions(samples, r)|
  {
    if samples != [] {
      var n := |samples| - 1;
      CountValidCounts(samples[..n], r);
      var front := ValidPositions(samples[..n], r);
      assert ValidPositions(samples, r) == front + if samples[n].ValidAt(r) then {n} else {};
    }
  }

  lemma CountValidPositive(samples: seq<Sample>, r: Reading)
    ensures CountValid(samples, r) > 0 <==> exists s <- samples :: s.ValidAt(r)
  {
    CountValidCounts(samples, r);
    if s :| s in samples && s.ValidAt(r) {
      var k :| 0 <= k < |samples| && samples[k] == s;
      assert k in ValidPositions(samples, r);
    }
    if k :| k in ValidPositions(samples, r) {
      assert samples[k] in samples;
    } else {
      assert ValidPositions(samples, r) == {};
    }
  }

  /**
   At one reading the three reports agree: the time handed out is the wall time
   moved by exactly the offset the record names, the evidence claims exactly the
   record's uncertainty, and it is granted only while the window counts a valid sample.
   */
  lemma ReportsAgree(s: State, r: Reading)
    ensures RecordOf(s, r).offset.Some? ==> CorrectedTime(s, r) == r.wall + RecordOf(s, r).offset.value
    ensures RecordOf(s, r).offset.None? ==> CorrectedTime(s, r) == r.wall
    ensures EvidenceOf(s, r).synchronised == Some(true) <==> RecordOf(s, r).applied
    ensures EvidenceOf(s, r).uncertainty == RecordOf(s, r).uncertainty
    ensures RecordOf(s, r).applied <==> s.status == Applied && RecordOf(s, r).samplesInWindow > 0
  {
    CountValidPositive(s.samples, r);
  }

  /** One round trip in flight, as an object its fetcher stamps on receipt. */
  class ClockProbe {
    const sent: Reading
    const epoch: nat
    var received: Option<Reading>

    constructor (sent: Reading, epoch: nat)
      ensures this.sent == sent && this.epoch == epoch && received == None
    {
      this.sent, this.epoch, received := sent, epoch, None;
    }

    ghost function View(): Probe
      reads this
    {
      Probe(sent, epoch, received)
    }
  }

  /**
   The estimator object. The two clock reads of each call are its arguments;
   each method is one critical section of the source's lock.
   */
  class ClockReference {
    var samples: seq<Sample>
    var anchor: Option<Reading>
    var epoch: nat
    var backwardPending: Option<real>
    var status: Status
    var cycleJump: Option<real>

    constructor ()
      ensures View() == INITIAL
    {
      samples, anchor, epoch := [], None, 0;
      backwardPending, status, cycleJump := None, Unavailable, None;
    }

    ghost function View(): State
      reads this
    {
      State(samples, anchor, epoch, backwardPending, status, cycleJump)
    }

    method ReadClocks(wall: real, mono: real) returns (r: Reading)
      modifies this
      ensures r == Reading(wall, mono)
      ensures View() == AfterRead(old(View()), r)
    {
      r := Reading(wall, mono);
      if anchor.Some? {
        var step := (wall - anchor.value.wall) - (mono - anchor.value.mono);
        if Abs(step) > JUMP_TOLERANCE {
          samples := [];
          epoch := epoch + 1;
          cycleJump := Some(step);
          if step < 0.0 {
            backwardPending := Some(step);
          }
        }
      }
      anchor := Some(r);
    }

    method Now(wall: real, mono: real) returns (t: real)
      modifies this
      ensures View() == AfterRead(old(View()), Reading(wall, mono))
      ensures t == CorrectedTime(View(), Reading(wall, mono))
    {
      var r := ReadClocks(wall, mono);
      t := wall;
      if status == Applied {
        var best := Best(samples, r);
        if best.Some? {
          t := wall + best.value.offset;
        }
      }
    }

    method BeginCycle(wall: real, mono: real)
      modifies this
      ensures View() == AfterBegin(old(View()), Reading(wall, mono))
    {
      status, cycleJump := Unavailable, None;
      var _ := ReadClocks(wall, mono);
    }

    method StartProbe(wall: real, mono: real) returns (p: ClockProbe)
      modifies this
      ensures fresh(p)
      ensures View() == AfterRead(old(View()), Reading(wall, mono))
      ensures p.View() == Probe(Reading(wall, mono), View().epoch, None)
    {
      var sent := ReadClocks(wall, mono);
      p := new ClockProbe(sent, epoch);
    }

    // The probe's receipt callback: one reading of this estimator, kept by the probe.
    method Receive(p: ClockProbe, wall: real, mono: real) returns (t: real)
      modifies this, p
      ensures View() == AfterRead(old(View()), Reading(wall, mono))
      ensures p.View() == old(p.View()).(received := Some(Reading(wall, mono)))
      ensures t == wall
    {
      var r := ReadClocks(wall, mono);
      p.received := Some(r);
      t := wall;
    }

    // A search over the window that stops at the first contradiction.
    method CheckConsistent(sample: Sample, r: Reading) returns (ok: bool)
      ensures ok <==> Consistent(samples, sample, r)
    {
      var own := sample.rtt / 2.0 + SERVER_TIME_RESOLUTION;
      for k := 0 to |samples|
        invariant Consistent(samples[..k], sample, r)
      {
        var other := samples[k];
        assert samples[..k + 1] == samples[..k] + [other];
        if 0.0 <= other.Age(r) <= MAX_SAMPLE_AGE {
          if Abs(sample.offset - other.offset) > own + other.Uncertainty(r) {
            assert other in samples;
            return false;
          }
        }
      }
      assert samples[..|samples|] == samples;
      return true;
    }

    method FinishProbe(p: ClockProbe, server: Option<real>, wall: real, mono: real) returns (verdict: Status)
      modifies this
      ensures View() == AfterFinish(old(View()), p.View(), server, Reading(wall, mono))
      ensures verdict == View().status
    {
      var received: Reading;
      if p.received.Some? {
        received := p.received.value;
      } else {
        received := ReadClocks(wall, mono);
      }
      var rtt := received.mono - p.sent.mono;
      if server.None? {
        verdict := Unavailable;
      } else if p.epoch != epoch || rtt < 0.0 {
        verdict := RejectedClockJump;
      } else {
        var sample := Sample(server.value - (p.sent.wall + rtt / 2.0), rtt, received.wall, received.mono);
        var consistent := CheckConsistent(sample, received);
        if Abs(sample.offset) > MAX_PLAUSIBLE_OFFSET {
          verdict := RejectedImplausibleOffset;
        } else if !consistent {
          verdict := RejectedInconsistentOffset;
        } else {
          samples := Push(samples, sample);
          backwardPending := None;
          verdict := Applied;
        }
      }
      status := verdict;
    }

    method Sampled(wall: real, mono: real) returns (e: Evidence)
      modifies this
      ensures View() == AfterRead(old(View()), Reading(wall, mono))
      ensures e == EvidenceOf(View(), Reading(wall, mono))
    {
      var r := ReadClocks(wall, mono);
      var jump := backwardPending;
      if status == Unavailable {
        return Evidence(None, None, jump);
      }
      var best := if status == Applied then Best(samples, r) else None;
      if best.None? {
        return Evidence(Some(false), None, jump);
      }
      return Evidence(Some(true), Some(best.value.Uncertainty(r)), jump);
    }
  }
}
