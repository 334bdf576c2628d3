/**
 When a round trip is accepted (radar_v08/clock_reference.py, finish_probe): the verdict
 in terms of offsets that the probe and the window still allow, in seconds, and what
 follows for a probe and a window that tell the truth.
 */
module ClockVerdicts {
  import opened Numbers
  import opened Options
  import opened ClockModel
  import opened ClockRuns
  import opened ClockEvidence
  import opened ClockAgreement

  // A window sample in use at a reading: at most 300 s old, and not received after it.
  predicate InUse(a: Sample, r: Reading) { a.mono <= r.mono <= a.mono + 300.0 }

  // How far a sample's offset may be off at a reading: half its round trip and a millisecond,
  // 100 ppm of its age, and whatever the wall clock moved since.
  function Width(a: Sample, r: Reading): real {
    var age := r.mono - a.mono;
    var moved := (r.wall - a.wall) - age;
    a.rtt / 2.0 + 0.001 + age / 10000.0 + (if moved >= 0.0 then moved else -moved)
  }

  // The offsets a window sample still allows at a reading.
  predicate StillAllows(a: Sample, r: Reading, x: real) {
    a.offset - Width(a, r) <= x <= a.offset + Width(a, r)
  }

  // --- what a reading changes and what is handed out -------------------------------------------

  // How far the wall clock stepped against the monotonic clock since the last reading.
  function Stepped(s: State, r: Reading): real {
    if s.anchor.None? then 0.0 else (r.wall - s.anchor.value.wall) - (r.mono - s.anchor.value.mono)
  }

  /** A reading gives the window up, in a new epoch, exactly if the wall clock stepped by more than 100 ms since the last one. */
  lemma ReadingGivesUpExactly(s: State, r: Reading)
    ensures var t, step := AfterRead(s, r), Stepped(s, r);
            && t.anchor == Some(r) && t.status == s.status
            && (t.epoch != s.epoch <==> step > 0.1 || step < -0.1)
            && (t.epoch == s.epoch ==> t == s.(anchor := Some(r)))
            && (t.epoch != s.epoch ==>
                  && t.epoch == s.epoch + 1 && t.samples == [] && t.cycleJump == Some(step)
                  && t.backwardPending == if step < 0.0 then Some(step) else s.backwardPending)
  {
  }

  // The first of the samples in use of least width.
  predicate Tightest(samples: seq<Sample>, r: Reading, k: nat) {
    && k < |samples| && InUse(samples[k], r)
    && forall i :: 0 <= i < |samples| && InUse(samples[i], r) ==>
         Width(samples[k], r) <= Width(samples[i], r) && (i < k ==> Width(samples[k], r) < Width(samples[i], r))
  }

  /**
   After a cycle's own accepted measurement the time handed out is the wall time moved by the
   tightest sample in use, and the evidence is granted with its width; without such a sample
   or measurement the wall time is handed out as it is, and the evidence is not granted.
   */
  lemma TightestIsHandedOut(s: State, r: Reading)
    ensures var e := EvidenceOf(s, r);
            var granted := s.status == Applied && exists a <- s.samples :: InUse(a, r);
            && e.backwardJump == s.backwardPending
            && e.synchronised == (if s.status == Unavailable then None else Some(granted))
            && (!granted ==> CorrectedTime(s, r) == r.wall && e.uncertainty == None)
            && (granted ==>
                  exists k: nat :: Tightest(s.samples, r, k)
                                   && CorrectedTime(s, r) == r.wall + s.samples[k].offset
                                   && e.uncertainty == Some(Width(s.samples[k], r)))
  {
    forall a <- s.samples ensures a.ValidAt(r) <==> InUse(a, r) {
    }
    forall a <- s.samples ensures a.Uncertainty(r) == Width(a, r) {
    }
    if Best(s.samples, r).Some? {
      var k := BestIsFirst(s.samples, r);
      assert Tightest(s.samples, r, k);
    }
  }

  // A round trip: where it was sent and received, and the server's stamp.
  datatype Trip = Trip(sent: Reading, received: Reading, server: real) {
    function Length(): real { received.mono - sent.mono }

    // The server's lead over the wall clock half-way.
    function Lead(): real { server - (sent.wall + Length() / 2.0) }

    predicate Allows(x: real) { Lead() - (Length() / 2.0 + 0.001) <= x <= Lead() + (Length() / 2.0 + 0.001) }

    // Some offset suits the trip and a window sample.
    ghost predicate Meets(a: Sample) { exists x: real :: StillAllows(a, received, x) && Allows(x) }

    ghost predicate MeetsAll(samples: seq<Sample>) { forall a <- samples :: InUse(a, received) ==> Meets(a) }
  }

  // Round trips in the window never have a negative length.
  predicate Forward(samples: seq<Sample>) { forall a <- samples :: a.rtt >= 0.0 }

  lemma MeetsExactlyWhen(a: Sample, trip: Trip)
    requires a.rtt >= 0.0 && trip.Length() >= 0.0 && InUse(a, trip.received)
    ensures trip.Meets(a) <==>
            Abs(SampleOf(trip.sent, trip.received, trip.server).offset - a.offset)
            <= SampleOf(trip.sent, trip.received, trip.server).Own() + a.Uncertainty(trip.received)
  {
    var b := SampleOf(trip.sent, trip.received, trip.server);
    var own, other := b.Own(), a.Uncertainty(trip.received);
    assert own >= 0.0 && other >= 0.0;
    if Abs(b.offset - a.offset) <= own + other {
      var x := if b.offset - own >= a.offset - other then b.offset - own else a.offset - other;
      assert StillAllows(a, trip.received, x) && trip.Allows(x);
    }
  }

  lemma ConsistentMeansMeets(samples: seq<Sample>, trip: Trip)
    requires Forward(samples) && trip.Length() >= 0.0
    ensures Consistent(samples, SampleOf(trip.sent, trip.received, trip.server), trip.received) <==> trip.MeetsAll(samples)
  {
    forall a <- samples | InUse(a, trip.received) {
      MeetsExactlyWhen(a, trip);
    }
  }

  // --- the verdict ---------------------------------------------------------------------------

  // The state a finished probe is judged in, and where it was received.
  function JudgedIn(s: State, p: Probe, r: Reading): State { if p.received.Some? then s else AfterRead(s, r) }

  function TripOf(p: Probe, server: real, r: Reading): Trip {
    Trip(p.sent, if p.received.Some? then p.received.value else r, server)
  }

  // Answered, in the epoch it was sent in, and not received before it was sent.
  predicate Comparable(t: State, p: Probe, server: Option<real>, r: Reading) {
    server.Some? && p.epoch == t.epoch && TripOf(p, server.value, r).Length() >= 0.0
  }

  predicate Believable(trip: Trip) { -60.0 <= trip.Lead() <= 60.0 }

  // Everything a probe needs beside the window.
  predicate Acceptable(t: State, p: Probe, server: Option<real>, r: Reading) {
    Comparable(t, p, server, r) && Believable(TripOf(p, server.value, r))
  }

  /**
   A probe is accepted if and only if it is answered, of the current epoch, not received
   before it was sent, within a minute of the wall clock, and for each window sample in use
   some offset suits both; each other verdict has its own first test that failed.
   */
  lemma AcceptedExactlyWhen(s: State, p: Probe, server: Option<real>, r: Reading)
    requires Forward(s.samples)
    ensures var t, u := JudgedIn(s, p, r), AfterFinish(s, p, server, r);
            && (u.status == Unavailable <==> server.None?)
            && (u.status == RejectedClockJump <==> server.Some? && !Comparable(t, p, server, r))
            && (u.status == RejectedImplausibleOffset <==>
                  Comparable(t, p, server, r) && !Believable(TripOf(p, server.value, r)))
            && (u.status == RejectedInconsistentOffset <==>
                  Comparable(t, p, server, r) && Believable(TripOf(p, server.value, r)) && !TripOf(p, server.value, r).MeetsAll(t.samples))
            && (u.status == Applied <==>
                  Comparable(t, p, server, r) && Believable(TripOf(p, server.value, r)) && TripOf(p, server.value, r).MeetsAll(t.samples))
  {
    var t := JudgedIn(s, p, r);
    if Comparable(t, p, server, r) {
      hide Consistent, AfterRead;
      assert Forward(t.samples) by {
        ReadingForward(s, r);
      }
      ConsistentMeansMeets(t.samples, TripOf(p, server.value, r));
    }
  }

  lemma ReadingForward(s: State, r: Reading)
    requires Forward(s.samples)
    ensures Forward(AfterRead(s, r).samples)
  {
  }

  /** What finishing a probe leaves: the window slides on exactly if it was accepted, and only then the jump report ends. */
  lemma FinishLeaves(s: State, p: Probe, server: Option<real>, r: Reading)
    ensures var t, u := JudgedIn(s, p, r), AfterFinish(s, p, server, r);
            && u.anchor == t.anchor && u.epoch == t.epoch && u.cycleJump == t.cycleJump
            && (u.status != Applied ==> u.samples == t.samples && u.backwardPending == t.backwardPending)
            && (u.status == Applied ==>
                  && u.backwardPending.None?
                  && var trip := TripOf(p, server.value, r);
                     var all := t.samples + [Sample(trip.Lead(), trip.Length(), trip.received.wall, trip.received.mono)];
                     u.samples == if |all| <= 8 then all else all[1..])
  {
  }

  // --- the truth is never rejected -----------------------------------------------------------

  /** An offset that the trip and every window sample in use allow keeps the probe from being called inconsistent. */
  lemma SharedOffsetIsAccepted(calls: seq<Call>, p: Probe, server: real, r: Reading, x: real)
    requires Acceptable(JudgedIn(Run(calls).state, p, r), p, Some(server), r)
    requires var trip := TripOf(p, server, r);
             trip.Allows(x) && forall a <- JudgedIn(Run(calls).state, p, r).samples :: InUse(a, trip.received) ==> StillAllows(a, trip.received, x)
    ensures AfterFinish(Run(calls).state, p, Some(server), r).status == Applied
  {
    hide Run, StillAllows, AfterFinish;
    RunPlausible(calls);
    AcceptedExactlyWhen(Run(calls).state, p, Some(server), r);
  }

  // In a physical run every reading is steady with the last one.
  lemma {:induction false} ReadingSteady(calls: seq<Call>, i: int, a: Stamp)
    requires PhysicalRun(calls) && ReadBy(calls, i, a)
    ensures Run(calls).last.Some? && Steady(a, Run(calls).last.value)
  {
    hide Steady;
    var n := |calls| - 1;
    var w, c := Run(calls[..n]), calls[n];
    if i == n {
      SteadyReflexive(a);
    } else {
      assert calls[..n][..i] == calls[..i];
      ReadingSteady(calls[..n], i, a);
      if Reads(w, c) {
        SteadyChains(a, w.last.value, c.at);
      }
    }
  }

  lemma {:induction false} PrefixPhysical(calls: seq<Call>, n: nat)
    requires PhysicalRun(calls) && n <= |calls|
    ensures PhysicalRun(calls[..n])
  {
    if n == |calls| {
      assert calls[..n] == calls;
    } else {
      PrefixPhysical(calls[..|calls| - 1], n);
      assert calls[..|calls| - 1][..n] == calls[..n];
    }
  }

  lemma ReadingsSteady(calls: seq<Call>, i: int, a: Stamp, j: int, b: Stamp)
    requires PhysicalRun(calls) && ReadBy(calls, i, a) && ReadBy(calls, j, b) && i <= j
    ensures Steady(a, b)
  {
    hide Steady;
    PrefixPhysical(calls, j + 1);
    assert calls[..j + 1][..i] == calls[..i] && calls[..j + 1][..j] == calls[..j];
    ReadingSteady(calls[..j + 1], i, a);
  }

  // The flight lasted at most as long in true time as on the wall clock, and there at most
  // as long as on the monotonic clock: when its claim can be trusted (ClaimHoldsExactlyWhen).
  predicate InStep(sent: Stamp, received: Stamp) {
    received.instant - sent.instant <= received.reading.wall - sent.reading.wall <= received.reading.mono - sent.reading.mono
  }

  // Received at one monotonic time, at one true time.
  lemma SteadyBack(a: Stamp, b: Stamp)
    requires Steady(a, b) && b.reading.mono <= a.reading.mono
    ensures Steady(b, a)
  {
  }

  lemma OriginAllowsTruth(s: Sample, o: Origin, q: Stamp)
    requires s == SampleOf(o.sent.reading, o.received.reading, o.server) && Honest(o.sent, o.received, o.server)
    requires Steady(o.sent, o.received) && Steady(o.received, q) && InStep(o.sent, o.received)
    ensures StillAllows(s, q.reading, q.instant - q.reading.wall)
  {
    ClaimHoldsExactlyWhen(o.sent, o.received);
    assert WithinClaim(SampleOf(o.sent.reading, o.received.reading, o.server), q);
  }

  lemma TripAllowsTruth(sent: Stamp, q: Stamp, server: real)
    requires Steady(sent, q) && Honest(sent, q, server) && InStep(sent, q)
    ensures Trip(sent.reading, q.reading, server).Allows(q.instant - q.reading.wall)
  {
    SteadyReflexive(q);
    ClaimHoldsExactlyWhen(sent, q);
    assert WithinClaim(SampleOf(sent.reading, q.reading, server), q);
  }

  // At the receipt of a finished probe, a window sample of an in-step flight allows the true lead.
  lemma WindowAllowsTruth(calls: seq<Call>, n: nat, k: nat)
    requires PhysicalRun(calls) && n < |calls| && Finishes(Run(calls[..n]), calls[n])
    requires k < |Judged(Run(calls[..n]), calls[n]).state.samples|
    requires var v, q := Judged(Run(calls[..n]), calls[n]), Landed(Run(calls[..n]), calls[n]).received.value;
             && k < |v.origins| && InStep(v.origins[k].sent, v.origins[k].received) && InUse(v.state.samples[k], q.reading)
    ensures var v, q := Judged(Run(calls[..n]), calls[n]), Landed(Run(calls[..n]), calls[n]).received.value;
            StillAllows(v.state.samples[k], q.reading, q.instant - q.reading.wall)
  {
    hide Steady, StillAllows, InStep, Run, Honest;
    var w, c := Run(calls[..n]), calls[n];
    var v, f := Judged(w, c), Landed(w, c);
    LandedReadBy(calls, n);
    WindowReadBy(calls, n, k);
    var o, q := v.origins[k], f.received.value;
    JudgedSound(calls, n);
    assert Traced(v.state.samples[k], o, v.last.value);
    if o.receivedStep <= f.receivedStep {
      ReadingsSteady(calls, o.receivedStep, o.received, f.receivedStep, q);
    } else {
      ReadingsSteady(calls, f.receivedStep, q, o.receivedStep, o.received);
      SteadyBack(q, o.received);
    }
    OriginAllowsTruth(v.state.samples[k], o, q);
  }

  lemma JudgedSound(calls: seq<Call>, n: nat)
    requires PhysicalRun(calls) && n < |calls| && Finishes(Run(calls[..n]), calls[n])
    ensures Sound(Judged(Run(calls[..n]), calls[n]))
    ensures PhysicalStep(Run(calls[..n]), calls[n])
    ensures var f := Landed(Run(calls[..n]), calls[n]); Steady(f.sent, f.received.value)
  {
    hide Steady, Honest, TracedFlight;
    PrefixPhysical(calls, n);
    PrefixPhysical(calls, n + 1);
    assert calls[..n + 1][..n] == calls[..n];
    RunSound(calls[..n]);
    var w, c := Run(calls[..n]), calls[n];
    var f := w.flights[c.id];
    assert TracedFlight(w, f);
    if f.received.None? {
      ObserveSound(w, c.at);
      assert TracedFlight(Observe(w, c.at), f);
    }
    FlightSteady(Judged(w, c), f);
  }

  lemma FlightSteady(w: World, f: Flight)
    requires TracedFlight(w, f)
    ensures Steady(f.sent, w.last.value) && (f.received.Some? ==> Steady(f.sent, f.received.value))
  {
  }

  // Where a finished probe was received, the true lead suits it and every window sample in use.
  lemma TruthIsShared(calls: seq<Call>, n: nat)
    requires PhysicalRun(calls) && n < |calls| && Finishes(Run(calls[..n]), calls[n]) && calls[n].server.Some?
    requires var w, c := Run(calls[..n]), calls[n];
             && InStep(Landed(w, c).sent, Landed(w, c).received.value)
             && forall o <- Judged(w, c).origins :: InStep(o.sent, o.received)
    ensures var w, c := Run(calls[..n]), calls[n];
            var q := Landed(w, c).received.value;
            && Trip(Landed(w, c).sent.reading, q.reading, c.server.value).Allows(q.instant - q.reading.wall)
            && forall a <- Judged(w, c).state.samples :: InUse(a, q.reading) ==> StillAllows(a, q.reading, q.instant - q.reading.wall)
  {
    hide Steady, StillAllows, InStep, Run, Honest, TracedFlight, Sound, IsJump, InUse;
    var w, c := Run(calls[..n]), calls[n];
    var q := Landed(w, c).received.value;
    JudgedSound(calls, n);
    TripAllowsTruth(Landed(w, c).sent, q, c.server.value);
    forall k | 0 <= k < |Judged(w, c).state.samples| && InUse(Judged(w, c).state.samples[k], q.reading)
      ensures StillAllows(Judged(w, c).state.samples[k], q.reading, q.instant - q.reading.wall)
    {
      WindowReadBy(calls, n, k);
      WindowAllowsTruth(calls, n, k);
    }
  }

  lemma VerdictOfRun(calls: seq<Call>, p: Probe, server: Option<real>, r: Reading)
    ensures var s := Run(calls).state;
            AfterFinish(s, p, server, r).status == Applied ==>
              Acceptable(JudgedIn(s, p, r), p, server, r)
  {
    hide Run, AfterFinish;
    RunPlausible(calls);
    AcceptedExactlyWhen(Run(calls).state, p, server, r);
  }

  lemma AcceptableAnswered(t: State, p: Probe, server: Option<real>, r: Reading)
    requires Acceptable(t, p, server, r)
    ensures server.Some?
  {
  }

  /**
   Over every physical run: a probe whose flight was in step, finished while the flights
   behind the window samples were too, is never rejected as inconsistent; it is accepted
   if and only if it is answered, of the current epoch, forward and believable.
   */
  lemma InStepFlightsAreAccepted(calls: seq<Call>, n: nat)
    requires PhysicalRun(calls) && n < |calls| && Finishes(Run(calls[..n]), calls[n])
    requires var w, c := Run(calls[..n]), calls[n];
             && InStep(Landed(w, c).sent, Landed(w, c).received.value)
             && forall o <- Judged(w, c).origins :: InStep(o.sent, o.received)
    ensures var w, c, v := Run(calls[..n]), calls[n], Run(calls[..n + 1]);
            var p := w.flights[c.id].View();
            (v.state.status == Applied <==> Acceptable(Judged(w, c).state, p, c.server, c.at.reading))
  {
    hide Steady, StillAllows, InStep, Run, Honest, AfterFinish, TracedFlight, Sound, Acceptable, IsJump;
    var w, c := Run(calls[..n]), calls[n];
    var p := w.flights[c.id].View();
    RunExtends(calls[..n], c);
    assert calls[..n] + [c] == calls[..n + 1];
    VerdictOfRun(calls[..n], p, c.server, c.at.reading);
    if Acceptable(Judged(w, c).state, p, c.server, c.at.reading) {
      AcceptableAnswered(Judged(w, c).state, p, c.server, c.at.reading);
      TruthIsShared(calls, n);
      SharedOffsetIsAccepted(calls[..n], p, c.server.value, c.at.reading,
                             Landed(w, c).received.value.instant - Landed(w, c).received.value.reading.wall);
    }
  }
}
