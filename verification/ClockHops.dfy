/**
 What the term JUMP_TOLERANCE per reading in the soundness of the corrected clock
 counts: the readings a run took between a probe's send and its receipt.
 */
module ClockHops {
  import opened Numbers
  import opened Options
  import opened ClockModel
  import opened ClockRuns
  import opened ClockEvidence

  // How many of the first n calls of a run read the clocks.
  function Readings(calls: seq<Call>, n: nat): nat
    requires n <= |calls|
  {
    if n == 0 then 0 else Readings(calls, n - 1) + One(Reads(Run(calls[..n - 1]), calls[n - 1]))
  }

  lemma {:induction false} ReadingsOfPrefix(calls: seq<Call>, c: Call, n: nat)
    requires n <= |calls|
    ensures Readings(calls + [c], n) == Readings(calls, n)
  {
    if n > 0 {
      assert (calls + [c])[..n - 1] == calls[..n - 1];
      ReadingsOfPrefix(calls, c, n - 1);
    }
  }

  lemma {:induction false} ReadingsGrow(calls: seq<Call>, m: nat, n: nat)
    requires m <= n <= |calls|
    ensures Readings(calls, m) <= Readings(calls, n)
    decreases n
  {
    if m < n {
      ReadingsGrow(calls, m, n - 1);
    }
  }

  // A flight's counters are the readings of the run up to its send and up to its receipt.
  predicate FlightCounted(calls: seq<Call>, f: Flight) {
    && f.sentStep < |calls| && f.sentReads == Readings(calls, f.sentStep + 1)
    && (f.received.Some? ==>
          f.sentStep <= f.receivedStep < |calls| && f.receivedReads == Readings(calls, f.receivedStep + 1))
  }

  // So an origin's hops are the readings after its send, up to its receipt.
  predicate OriginCounted(calls: seq<Call>, o: Origin) {
    && 0 <= o.sentStep <= o.receivedStep < |calls|
    && o.hops == Readings(calls, o.receivedStep + 1) - Readings(calls, o.sentStep + 1)
  }

  ghost predicate Counted(calls: seq<Call>, w: World) {
    && w.steps == |calls| && w.taken == Readings(calls, |calls|)
    && (forall id <- w.flights :: FlightCounted(calls, w.flights[id]))
    && (forall k :: 0 <= k < |w.origins| ==> OriginCounted(calls, w.origins[k]))
  }

  lemma FlightCountedLater(calls: seq<Call>, c: Call, f: Flight)
    requires FlightCounted(calls, f)
    ensures FlightCounted(calls + [c], f)
  {
    ReadingsOfPrefix(calls, c, f.sentStep + 1);
    if f.received.Some? {
      ReadingsOfPrefix(calls, c, f.receivedStep + 1);
    }
  }

  lemma OriginCountedLater(calls: seq<Call>, c: Call, o: Origin)
    requires OriginCounted(calls, o)
    ensures OriginCounted(calls + [c], o)
  {
    ReadingsOfPrefix(calls, c, o.sentStep + 1);
    ReadingsOfPrefix(calls, c, o.receivedStep + 1);
  }

  lemma OneMoreReading(calls: seq<Call>, c: Call)
    ensures Readings(calls + [c], |calls| + 1) == Readings(calls, |calls|) + One(Reads(Run(calls), c))
  {
    assert (calls + [c])[..|calls|] == calls;
    ReadingsOfPrefix(calls, c, |calls|);
  }

  lemma OriginOfCounted(calls: seq<Call>, f: Flight, server: real)
    requires FlightCounted(calls, f) && f.received.Some?
    ensures OriginCounted(calls, OriginOf(f, server))
  {
    ReadingsGrow(calls, f.sentStep + 1, f.receivedStep + 1);
  }

  // Where the flights and the window come from in one step.
  lemma StepShape(w: World, c: Call)
    ensures var v := Step(w, c);
            && v.steps == w.steps + 1 && v.taken == w.taken + One(Reads(w, c))
            && (forall id <- v.flights :: FlightFrom(w, c, v.flights[id]))
            && (forall k :: 0 <= k < |v.origins| ==> OriginFrom(w, c, v.origins[k]))
  {
    hide Verdict, IsJump;
    assert Finishes(w, c) ==> Step(w, c).flights == w.flights;
  }

  predicate FlightFrom(w: World, c: Call, f: Flight) {
    || (exists id <- w.flights :: f == w.flights[id])
    || (Reads(w, c) && f.sentStep == w.steps && f.sentReads == w.taken + 1 && f.received.None?)
    || (Reads(w, c) && f.received.Some? && f.receivedStep == w.steps && f.receivedReads == w.taken + 1
        && exists id <- w.flights :: f.sentStep == w.flights[id].sentStep && f.sentReads == w.flights[id].sentReads)
  }

  predicate OriginFrom(w: World, c: Call, o: Origin) {
    || (exists k :: 0 <= k < |w.origins| && o == w.origins[k])
    || (Finishes(w, c) && o == OriginOf(Landed(w, c), o.server))
  }

  lemma FlightCountedStep(calls: seq<Call>, c: Call, f: Flight)
    requires Counted(calls, Run(calls)) && FlightFrom(Run(calls), c, f)
    ensures FlightCounted(calls + [c], f)
  {
    hide Run, Reads, Readings;
    var w := Run(calls);
    OneMoreReading(calls, c);
    forall id <- w.flights ensures FlightCounted(calls + [c], w.flights[id]) {
      FlightCountedLater(calls, c, w.flights[id]);
    }
  }

  lemma OriginCountedStep(calls: seq<Call>, c: Call, o: Origin)
    requires Counted(calls, Run(calls)) && OriginFrom(Run(calls), c, o)
    ensures OriginCounted(calls + [c], o)
  {
    hide Run, Readings;
    var w := Run(calls);
    if k :| 0 <= k < |w.origins| && o == w.origins[k] {
      OriginCountedLater(calls, c, o);
    } else {
      var f := w.flights[c.id];
      FlightCountedLater(calls, c, f);
      OneMoreReading(calls, c);
      OriginOfCounted(calls + [c], Landed(w, c), o.server);
    }
  }

  lemma {:induction false} RunCounted(calls: seq<Call>)
    ensures Counted(calls, Run(calls))
  {
    if calls != [] {
      hide FlightCounted, OriginCounted, FlightFrom, OriginFrom, Step, Reads;
      var before, c := calls[..|calls| - 1], calls[|calls| - 1];
      assert before + [c] == calls;
      RunCounted(before);
      StepShape(Run(before), c);
      OneMoreReading(before, c);
      forall id <- Run(calls).flights ensures FlightCounted(calls, Run(calls).flights[id]) {
        FlightCountedStep(before, c, Run(calls).flights[id]);
      }
      forall k | 0 <= k < |Run(calls).origins| ensures OriginCounted(calls, Run(calls).origins[k]) {
        OriginCountedStep(before, c, Run(calls).origins[k]);
      }
    }
  }

  // The readings a run took after a probe's send, up to and with its receipt.
  function ReadingsInFlight(calls: seq<Call>, o: Origin): int
    requires 0 <= o.sentStep <= o.receivedStep < |calls|
  {
    Readings(calls, o.receivedStep + 1) - Readings(calls, o.sentStep + 1)
  }

  /**
   Soundness with every term a fact of the run: whenever a reading is corrected, by the
   sample of some probe, the true time lies within the claimed uncertainty plus the drift
   over that probe's flight plus JUMP_TOLERANCE per reading the run took in that flight;
   and just one JUMP_TOLERANCE if the receipt was the only one.
   */
  lemma CorrectedTimeByReadings(calls: seq<Call>, q: Stamp) returns (o: Origin)
    requires PhysicalRun(calls + [Look(q)]) && InEffect(Run(calls + [Look(q)]).state, q.reading).Some?
    ensures var all := calls + [Look(q)];
            var s := InEffect(Run(all).state, q.reading).value;
            var off := Abs(q.instant - CorrectedTime(Run(all).state, q.reading)) - s.Uncertainty(q.reading) - Drift(s.rtt);
            && Measured(all, s, o) && o.sentStep <= o.receivedStep
            && off <= Allowed(ReadingsInFlight(all, o))
            && (ReadingsInFlight(all, o) == 1 ==> off <= JUMP_TOLERANCE)
  {
    hide Run, Readings, PhysicalRun, FlightsSent, InEffect, CorrectedTime, SampleOf, SentBy, ReadBy, Abs, Drift;
    var all := calls + [Look(q)];
    var w := Run(all);
    CorrectedTimeIsSound(calls, q);
    RunMeasured(all);
    RunCounted(all);
    var k :| 0 <= k < |w.state.samples|
             && var s := w.state.samples[k];
                && InEffect(w.state, q.reading) == Some(s)
                && Abs(q.instant - CorrectedTime(w.state, q.reading))
                   <= s.Uncertainty(q.reading) + Drift(s.rtt) + Allowed(w.origins[k].hops);
    o := w.origins[k];
    assert Measured(all, w.state.samples[k], o) && OriginCounted(all, o);
  }
}
