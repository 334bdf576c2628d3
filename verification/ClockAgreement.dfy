/**
 Agreement of the window's intervals: each accepted sample was checked once, at its
 own receipt. When that single check makes all valid intervals overlap for good, and
 when it does not.
 */
module ClockAgreement {
  import opened Numbers
  import opened Options
  import opened ClockModel
  import opened ClockRuns
  import opened ClockEvidence

  predicate Overlap(a: Sample, b: Sample, r: Reading) {
    Abs(b.offset - a.offset) <= a.Uncertainty(r) + b.Uncertainty(r)
  }

  ghost predicate AlwaysOverlap(a: Sample, b: Sample) {
    forall r: Reading :: a.ValidAt(r) && b.ValidAt(r) ==> Overlap(a, b, r)
  }

  // --- one window sample and one probe -----------------------------------------------------

  // The answer gives a sample that passes the checks beside this window sample.
  predicate Passes(a: Sample, sent: Reading, received: Reading, server: real) {
    var b := SampleOf(sent, received, server);
    Abs(b.offset) <= MAX_PLAUSIBLE_OFFSET && Consistent([a], b, received)
  }

  // Half the sum of the two intervals' lengths at its least, when a was received later.
  function LeastReach(a: Sample, sent: Reading, received: Reading): real {
    a.Own() + SampleOf(sent, received, 0.0).Own() + Drift(a.mono - received.mono) + Abs(Movement(received, a.Receipt()))
  }

  // What can be known of a window sample and a probe before its answer arrives: a was
  // received first, or so much later that both are never valid at once, or the
  // intervals are too wide to be apart.
  predicate Compatible(a: Sample, sent: Reading, received: Reading) {
    || a.mono <= received.mono
    || a.mono - received.mono > MAX_SAMPLE_AGE
    || MAX_PLAUSIBLE_OFFSET + Abs(a.offset) <= LeastReach(a, sent, received)
  }

  // However the wall clock moves afterwards, a sample checked against an earlier one overlaps it.
  lemma CheckedOverlapLater(a: Sample, b: Sample, r: Reading)
    requires a.mono <= b.mono && b.rtt >= 0.0 && Consistent([a], b, b.Receipt()) && a.ValidAt(r) && b.ValidAt(r)
    ensures Overlap(a, b, r)
  {
    assert a in [a];
    assert a.ValidAt(b.Receipt());
    assert Movement(a.Receipt(), r) == Movement(a.Receipt(), b.Receipt()) + Movement(b.Receipt(), r);
  }

  lemma WideOverlap(a: Sample, sent: Reading, received: Reading, server: real, r: Reading)
    requires sent.mono <= received.mono < a.mono && Passes(a, sent, received, server)
    requires MAX_PLAUSIBLE_OFFSET + Abs(a.offset) <= LeastReach(a, sent, received)
    requires var b := SampleOf(sent, received, server); a.ValidAt(r) && b.ValidAt(r)
    ensures Overlap(a, SampleOf(sent, received, server), r)
  {
    var b := SampleOf(sent, received, server);
    assert Movement(received, r) == Movement(received, a.Receipt()) + Movement(a.Receipt(), r);
    assert b.Own() == SampleOf(sent, received, 0.0).Own();
  }

  lemma CompatibleOverlap(a: Sample, sent: Reading, received: Reading, server: real)
    requires sent.mono <= received.mono && Compatible(a, sent, received) && Passes(a, sent, received, server)
    ensures AlwaysOverlap(a, SampleOf(sent, received, server))
  {
    hide Overlap, Consistent;
    var b := SampleOf(sent, received, server);
    forall r: Reading | a.ValidAt(r) && b.ValidAt(r) ensures Overlap(a, b, r) {
      if a.mono <= received.mono {
        CheckedOverlapLater(a, b, r);
      } else {
        WideOverlap(a, sent, received, server, r);
      }
    }
  }

  // An answer as far from a as is plausible, at a's own receipt.
  lemma IncompatibleMiss(a: Sample, sent: Reading, received: Reading) returns (server: real)
    requires sent.mono <= received.mono && !Compatible(a, sent, received)
    ensures Passes(a, sent, received, server) && !AlwaysOverlap(a, SampleOf(sent, received, server))
  {
    var rtt := received.mono - sent.mono;
    var offset := if a.offset >= 0.0 then -MAX_PLAUSIBLE_OFFSET else MAX_PLAUSIBLE_OFFSET;
    server := offset + (sent.wall + rtt / 2.0);
    var b, r := SampleOf(sent, received, server), a.Receipt();
    assert b.offset == offset && !a.ValidAt(received);
    assert a.ValidAt(r) && b.ValidAt(r) && Movement(a.Receipt(), r) == 0.0 && Movement(b.Receipt(), r) == Movement(received, r);
    assert a.Uncertainty(r) + b.Uncertainty(r) == LeastReach(a, sent, received);
    assert !Overlap(a, b, r);
  }

  /**
   A probe and a window sample agree, for every answer the server can give that passes
   the checks and at every later reading, if and only if they are compatible.
   */
  lemma AgreeExactlyWhenCompatible(a: Sample, sent: Reading, received: Reading)
    requires sent.mono <= received.mono
    ensures (forall server: real ::
               Passes(a, sent, received, server) ==> AlwaysOverlap(a, SampleOf(sent, received, server)))
            <==> Compatible(a, sent, received)
  {
    hide AlwaysOverlap, Passes, Compatible;
    if Compatible(a, sent, received) {
      forall server: real | Passes(a, sent, received, server) ensures AlwaysOverlap(a, SampleOf(sent, received, server)) {
        CompatibleOverlap(a, sent, received, server);
      }
    } else {
      var server := IncompatibleMiss(a, sent, received);
    }
  }

  // --- runs ---------------------------------------------------------------------------

  // The world a finished probe is judged in.
  function Judged(w: World, c: Call): World
    requires Finishes(w, c)
  {
    if w.flights[c.id].received.Some? then w else Observe(w, c.at)
  }

  // An accepted probe is compatible with every window sample.
  ghost predicate CompatibleStep(w: World, c: Call) {
    Accepts(w, c) ==>
      forall k :: 0 <= k < |Judged(w, c).state.samples| ==>
                    Compatible(Judged(w, c).state.samples[k], w.flights[c.id].sent.reading, Landed(w, c).received.value.reading)
  }

  ghost predicate CompatibleRun(calls: seq<Call>) {
    forall n :: 0 <= n < |calls| ==> CompatibleStep(Run(calls[..n]), calls[n])
  }

  ghost predicate WindowAgrees(samples: seq<Sample>) {
    forall i, j :: 0 <= i < j < |samples| ==> AlwaysOverlap(samples[i], samples[j])
  }

  lemma PushAgrees(samples: seq<Sample>, s: Sample)
    requires WindowAgrees(samples) && forall i :: 0 <= i < |samples| ==> AlwaysOverlap(samples[i], s)
    ensures WindowAgrees(Push(samples, s))
  {
    hide AlwaysOverlap;
  }

  // Finishing only appends to the window, and only what the checks let through.
  lemma FinishShape(w: World, c: Call)
    requires Finishes(w, c)
    ensures var before, v, f := Judged(w, c), FinishIn(w, c), w.flights[c.id];
            && (v.state.status != Applied ==> v.state.samples == before.state.samples)
            && (v.state.status == Applied ==>
                  && c.server.Some?
                  && var sent, received := f.sent.reading, Landed(w, c).received.value.reading;
                     && sent.mono <= received.mono
                     && v.state.samples == Push(before.state.samples, SampleOf(sent, received, c.server.value))
                     && forall k :: 0 <= k < |before.state.samples| ==> Passes(before.state.samples[k], sent, received, c.server.value))
  {
  }

  lemma FinishAgrees(w: World, c: Call)
    requires Finishes(w, c) && WindowAgrees(Judged(w, c).state.samples) && CompatibleStep(w, c)
    ensures WindowAgrees(FinishIn(w, c).state.samples)
  {
    hide AlwaysOverlap, Passes, Compatible, Observe, AfterFinish;
    FinishShape(w, c);
    if FinishIn(w, c).state.status == Applied {
      var samples := Judged(w, c).state.samples;
      var sent, received := w.flights[c.id].sent.reading, Landed(w, c).received.value.reading;
      var s := SampleOf(sent, received, c.server.value);
      forall i | 0 <= i < |samples| ensures AlwaysOverlap(samples[i], s) {
        CompatibleOverlap(samples[i], sent, received, c.server.value);
      }
      PushAgrees(samples, s);
    }
  }

  lemma StepAgrees(w: World, c: Call)
    requires WindowAgrees(w.state.samples) && CompatibleStep(w, c)
    ensures WindowAgrees(Step(w, c).state.samples)
  {
    hide AlwaysOverlap, CompatibleStep, AfterFinish;
    if Finishes(w, c) {
      FinishAgrees(w, c);
    }
  }

  /** Over every run whose accepted probes are compatible with the window, all window samples overlap for good. */
  lemma {:induction false} RunAgrees(calls: seq<Call>)
    requires CompatibleRun(calls)
    ensures WindowAgrees(Run(calls).state.samples)
  {
    if calls != [] {
      hide WindowAgrees, CompatibleStep, Step;
      var n := |calls| - 1;
      forall k | 0 <= k < n ensures CompatibleStep(Run(calls[..n][..k]), calls[..n][k]) {
        assert calls[..n][..k] == calls[..k];
      }
      RunAgrees(calls[..n]);
      StepAgrees(Run(calls[..n]), calls[n]);
    }
  }

  // --- receipts in order --------------------------------------------------------------------

  // The monotonic clock never goes back between readings.
  predicate NeverBack(calls: seq<Call>) {
    forall i, j :: 0 <= i <= j < |calls| && Reads(Run(calls[..i]), calls[i]) && Reads(Run(calls[..j]), calls[j]) ==>
                     calls[i].at.reading.mono <= calls[j].at.reading.mono
  }

  // A probe is accepted only when every window sample was received no later than it was.
  predicate InReceiptOrder(w: World, c: Call) {
    Accepts(w, c) ==> forall k :: 0 <= k < |Judged(w, c).origins| ==> Judged(w, c).origins[k].receivedStep <= Landed(w, c).receivedStep
  }

  ghost predicate OrderedReceipts(calls: seq<Call>) {
    NeverBack(calls) && forall n :: 0 <= n < |calls| ==> InReceiptOrder(Run(calls[..n]), calls[n])
  }

  lemma InOrder(calls: seq<Call>, i: int, a: Stamp, j: int, b: Stamp)
    requires NeverBack(calls) && ReadBy(calls, i, a) && ReadBy(calls, j, b) && i <= j
    ensures a.reading.mono <= b.reading.mono
  {
  }

  lemma ReadLater(calls: seq<Call>, n: nat, step: int, at: Stamp)
    requires n < |calls| && ReadBy(calls[..n], step, at)
    ensures ReadBy(calls, step, at)
  {
    assert calls[..n][..step] == calls[..step];
  }

  // Where a finished probe was received.
  lemma LandedReadBy(calls: seq<Call>, n: nat)
    requires n < |calls| && Finishes(Run(calls[..n]), calls[n])
    ensures var f := Landed(Run(calls[..n]), calls[n]); ReadBy(calls, f.receivedStep, f.received.value)
  {
    hide Run, WindowMeasured;
    var w, c := Run(calls[..n]), calls[n];
    RunMeasured(calls[..n]);
    var f := w.flights[c.id];
    assert FlightSent(calls[..n], f);
    if f.received.Some? {
      ReadLater(calls, n, f.receivedStep, f.received.value);
    }
  }

  // What the window held when a probe was judged.
  lemma WindowReadBy(calls: seq<Call>, n: nat, k: nat)
    requires n < |calls| && Finishes(Run(calls[..n]), calls[n]) && k < |Judged(Run(calls[..n]), calls[n]).state.samples|
    ensures var v := Judged(Run(calls[..n]), calls[n]);
            && k < |v.origins| && ReadBy(calls, v.origins[k].receivedStep, v.origins[k].received)
            && v.state.samples[k].mono == v.origins[k].received.reading.mono
  {
    hide Run, FlightsSent, IsJump;
    var w := Run(calls[..n]);
    RunMeasured(calls[..n]);
    assert Measured(calls[..n], w.state.samples[k], w.origins[k]);
    ReadLater(calls, n, w.origins[k].receivedStep, w.origins[k].received);
  }

  /** Probes accepted in the order of their receipts are compatible, whether or not they overlap in flight. */
  lemma OrderedReceiptsAreCompatible(calls: seq<Call>)
    requires OrderedReceipts(calls)
    ensures CompatibleRun(calls)
  {
    hide NeverBack, Run, ReadBy, LeastReach;
    forall n | 0 <= n < |calls| ensures CompatibleStep(Run(calls[..n]), calls[n]) {
      var w, c := Run(calls[..n]), calls[n];
      if Accepts(w, c) {
        assert InReceiptOrder(w, c);
        var v, f := Judged(w, c), Landed(w, c);
        LandedReadBy(calls, n);
        forall k | 0 <= k < |v.state.samples| ensures Compatible(v.state.samples[k], w.flights[c.id].sent.reading, f.received.value.reading) {
          WindowReadBy(calls, n, k);
          InOrder(calls, v.origins[k].receivedStep, v.origins[k].received, f.receivedStep, f.received.value);
        }
      }
    }
  }

  // --- the common point -----------------------------------------------------------------

  predicate Holds(s: Sample, r: Reading, x: real) { Abs(x - s.offset) <= s.Uncertainty(r) }

  // Pairwise overlapping intervals share a point: the greatest lower end does.
  lemma {:induction false} GreatestLowerEnd(samples: seq<Sample>, r: Reading) returns (x: real)
    requires exists s <- samples :: s.ValidAt(r)
    ensures forall s <- samples :: s.ValidAt(r) ==> s.offset - s.Uncertainty(r) <= x
    ensures exists s <- samples :: s.ValidAt(r) && x == s.offset - s.Uncertainty(r)
  {
    var front, last := samples[..|samples| - 1], samples[|samples| - 1];
    assert samples == front + [last];
    if exists s <- front :: s.ValidAt(r) {
      x := GreatestLowerEnd(front, r);
      if last.ValidAt(r) && last.offset - last.Uncertainty(r) > x {
        x := last.offset - last.Uncertainty(r);
      }
    } else {
      x := last.offset - last.Uncertainty(r);
    }
  }

  lemma PairOverlaps(samples: seq<Sample>, i: nat, j: nat, r: Reading)
    requires WindowAgrees(samples) && i < |samples| && j < |samples| && i != j && samples[i].ValidAt(r) && samples[j].ValidAt(r)
    ensures Overlap(samples[i], samples[j], r)
  {
    if i < j {
      assert AlwaysOverlap(samples[i], samples[j]);
    } else {
      assert AlwaysOverlap(samples[j], samples[i]);
      assert Overlap(samples[j], samples[i], r);
    }
  }

  lemma LowerEndHolds(s: Sample, t: Sample, r: Reading, x: real)
    requires x == t.offset - t.Uncertainty(r) && s.offset - s.Uncertainty(r) <= x
    requires (s == t && s.Uncertainty(r) >= 0.0) || Overlap(s, t, r)
    ensures Holds(s, r, x)
  {
  }

  /**
   At every later reading, whatever the wall clock did since, the intervals of all valid
   window samples overlap pairwise and share a common offset.
   */
  lemma ValidIntervalsShareAPoint(calls: seq<Call>, r: Reading) returns (x: real)
    requires CompatibleRun(calls)
    ensures var samples := Run(calls).state.samples;
            && (forall i, j :: 0 <= i < j < |samples| && samples[i].ValidAt(r) && samples[j].ValidAt(r) ==>
                  Overlap(samples[i], samples[j], r))
            && (forall k :: 0 <= k < |samples| && samples[k].ValidAt(r) ==> Holds(samples[k], r, x))
  {
    hide Overlap, Holds, Run;
    RunAgrees(calls);
    RunPlausible(calls);
    var samples := Run(calls).state.samples;
    forall i, j | 0 <= i < j < |samples| && samples[i].ValidAt(r) && samples[j].ValidAt(r) ensures Overlap(samples[i], samples[j], r) {
      PairOverlaps(samples, i, j, r);
    }
    x := 0.0;
    if exists s <- samples :: s.ValidAt(r) {
      x := GreatestLowerEnd(samples, r);
      var t :| t in samples && t.ValidAt(r) && x == t.offset - t.Uncertainty(r);
      var m :| 0 <= m < |samples| && samples[m] == t;
      forall k | 0 <= k < |samples| && samples[k].ValidAt(r) ensures Holds(samples[k], r, x) {
        if m != k {
          PairOverlaps(samples, k, m, r);
        }
        LowerEndHolds(samples[k], t, r, x);
      }
    }
  }

  // Two probes sent in order and received in the opposite order, with clocks in step.
  lemma TwoFlights(t0: Stamp, t1: Stamp, t2: Stamp, t3: Stamp)
    requires forall t <- [t0, t1, t2, t3] :: t.reading.wall == t.reading.mono
    ensures var w := Step(Step(Step(Step(START, StartProbe(0, t0)), StartProbe(1, t1)), Receive(1, t2)), Receive(0, t3));
            && w.state.samples == [] && w.state.epoch == 0 && w.flights.Keys == {0, 1}
            && w.flights[0].View() == Probe(t0.reading, 0, Some(t3.reading))
            && w.flights[1].View() == Probe(t1.reading, 0, Some(t2.reading))
  {
    assert t0 in [t0, t1, t2, t3] && t1 in [t0, t1, t2, t3] && t2 in [t0, t1, t2, t3] && t3 in [t0, t1, t2, t3];
    var w2 := Step(Step(START, StartProbe(0, t0)), StartProbe(1, t1));
    assert w2.state.anchor == Some(t1.reading) && w2.state.epoch == 0 && w2.flights.Keys == {0, 1};
    var w3 := Step(w2, Receive(1, t2));
    assert w3.state.anchor == Some(t2.reading) && w3.state.epoch == 0 && w3.flights.Keys == {0, 1};
  }

  /**
   Probes accepted against the order of their receipts break it: the second probe sent
   is received first and finished last, so the window sample it should be compared with has a negative
   age at its receipt and is skipped.
   */
  lemma OverlappingProbesDisagree() returns (calls: seq<Call>, r: Reading)
    ensures var samples := Run(calls).state.samples;
            && |samples| == 2 && samples[0].ValidAt(r) && samples[1].ValidAt(r)
            && !Overlap(samples[0], samples[1], r)
  {
    var t0, t1, t2, t3 := Stamp(Reading(0.0, 0.0), 0.0), Stamp(Reading(0.01, 0.01), 0.01),
                          Stamp(Reading(0.02, 0.02), 0.02), Stamp(Reading(0.04, 0.04), 0.04);
    var c := [StartProbe(0, t0), StartProbe(1, t1), Receive(1, t2), Receive(0, t3),
              FinishProbe(0, Some(0.02), t3), FinishProbe(1, Some(10.015), t3)];
    calls, r := c, t3.reading;
    Disagreement(c, t0, t1, t2, t3);
    DisjointAt(r);
  }

  lemma Disagreement(c: seq<Call>, t0: Stamp, t1: Stamp, t2: Stamp, t3: Stamp)
    requires t0.reading == Reading(0.0, 0.0) && t1.reading == Reading(0.01, 0.01)
    requires t2.reading == Reading(0.02, 0.02) && t3.reading == Reading(0.04, 0.04)
    requires |c| == 6 && c[..4] == [StartProbe(0, t0), StartProbe(1, t1), Receive(1, t2), Receive(0, t3)]
    requires c[4] == FinishProbe(0, Some(0.02), t3) && c[5] == FinishProbe(1, Some(10.015), t3)
    ensures Run(c).state.samples == [Sample(0.0, 0.04, 0.04, 0.04), Sample(10.0, 0.01, 0.02, 0.02)]
  {
    FirstFour(c[..4], t0, t1, t2, t3);
    LastTwo(c);
    TwoFinishes(Run(c[..4]), t3);
  }

  lemma LastTwo(c: seq<Call>)
    requires |c| == 6
    ensures Run(c) == Step(Step(Run(c[..4]), c[4]), c[5])
  {
    hide Step;
    RunExtends(c[..4], c[4]);
    RunExtends(c[..5], c[5]);
    assert c[..4] + [c[4]] == c[..5] && c[..5] + [c[5]] == c;
  }

  lemma FirstFour(c: seq<Call>, t0: Stamp, t1: Stamp, t2: Stamp, t3: Stamp)
    requires forall t <- [t0, t1, t2, t3] :: t.reading.wall == t.reading.mono
    requires c == [StartProbe(0, t0), StartProbe(1, t1), Receive(1, t2), Receive(0, t3)]
    ensures var w := Run(c);
            && w.state.samples == [] && w.state.epoch == 0 && w.flights.Keys == {0, 1}
            && w.flights[0].View() == Probe(t0.reading, 0, Some(t3.reading))
            && w.flights[1].View() == Probe(t1.reading, 0, Some(t2.reading))
  {
    RunFour(c);
    TwoFlights(t0, t1, t2, t3);
  }

  lemma RunFour(c: seq<Call>)
    requires |c| == 4
    ensures Run(c) == Step(Step(Step(Step(START, c[0]), c[1]), c[2]), c[3])
  {
    RunExtends(c[..0], c[0]);
    RunExtends(c[..1], c[1]);
    RunExtends(c[..2], c[2]);
    RunExtends(c[..3], c[3]);
    assert c[..0] + [c[0]] == c[..1] && c[..1] + [c[1]] == c[..2] && c[..2] + [c[2]] == c[..3] && c[..3] + [c[3]] == c;
  }

  lemma DisjointAt(r: Reading)
    requires r == Reading(0.04, 0.04)
    ensures var a, b := Sample(0.0, 0.04, 0.04, 0.04), Sample(10.0, 0.01, 0.02, 0.02);
            a.ValidAt(r) && b.ValidAt(r) && !Overlap(a, b, r)
  {
  }

  lemma TwoFinishes(w: World, t3: Stamp)
    requires w.state.samples == [] && w.state.epoch == 0 && w.flights.Keys == {0, 1}
    requires w.flights[0].View() == Probe(Reading(0.0, 0.0), 0, Some(Reading(0.04, 0.04)))
    requires w.flights[1].View() == Probe(Reading(0.01, 0.01), 0, Some(Reading(0.02, 0.02)))
    ensures Step(Step(w, FinishProbe(0, Some(0.02), t3)), FinishProbe(1, Some(10.015), t3)).state.samples
         == [Sample(0.0, 0.04, 0.04, 0.04), Sample(10.0, 0.01, 0.02, 0.02)]
  {
    var s0, s1 := Sample(0.0, 0.04, 0.04, 0.04), Sample(10.0, 0.01, 0.02, 0.02);
    assert s0 == SampleOf(Reading(0.0, 0.0), Reading(0.04, 0.04), 0.02);
    var w5 := Step(w, FinishProbe(0, Some(0.02), t3));
    assert w5.state.samples == [s0] && w5.flights == w.flights && w5.state.epoch == 0;
    assert s1 == SampleOf(Reading(0.01, 0.01), Reading(0.02, 0.02), 10.015);
    assert !s0.ValidAt(Reading(0.02, 0.02));
  }
}
