/**
 Whole runs of the corrected clock. A run is a sequence of calls from any
 threads; each call is one critical section, so any interleaving is a sequence.

 `World` carries, beside the estimator's state, what the proofs need to talk
 about: the probes in flight, and for each window sample the round trip it came
 from. A `Stamp` pairs a reading with the true time at which it was taken, which
 the estimator never sees.
 */
module ClockRuns {
  import opened Numbers
  import opened Options
  import opened ClockModel

  datatype Stamp = Stamp(reading: Reading, instant: real)

  // `Look` stands for raw_now, now, sample and record: each is one reading.
  datatype Call =
    | Look(at: Stamp)
    | BeginCycle(at: Stamp)
    | StartProbe(id: nat, at: Stamp)
    | Receive(id: nat, at: Stamp)
    | FinishProbe(id: nat, server: Option<real>, at: Stamp)

  // `sentStep`, `sentReads` and `receivedReads` are positions in the run: calls and readings before.
  datatype Flight = Flight(
    sent: Stamp, epoch: nat, sentStep: nat, sentReads: nat, received: Option<Stamp>, receivedReads: nat, receivedStep: nat)
  {
    function View(): Probe {
      Probe(sent.reading, epoch, if received.Some? then Some(received.value.reading) else None)
    }
  }

  // The round trip behind one window sample; `hops` counts its readings after the send.
  datatype Origin = Origin(sent: Stamp, received: Stamp, server: real, hops: nat, sentStep: nat, receivedStep: nat)

  datatype World = World(
    state: State, last: Option<Stamp>, flights: map<nat, Flight>, origins: seq<Origin>, taken: nat, steps: nat)

  const START := World(INITIAL, None, map[], [], 0, 0)

  predicate Known(w: World, c: Call) { (c.Receive? || c.FinishProbe?) ==> c.id in w.flights }

  // Does this call read the clocks?
  predicate Reads(w: World, c: Call) {
    Known(w, c) && (c.FinishProbe? ==> w.flights[c.id].received.None?)
  }

  function Observe(w: World, at: Stamp): World {
    w.(state := AfterRead(w.state, at.reading), last := Some(at), taken := w.taken + 1,
    origins := if IsJump(w.state, at.reading) then [] else w.origins)
  }

  // The flight with its receipt, once the estimator has read it.
  function Landed(w: World, c: Call): Flight
    requires c.FinishProbe? && c.id in w.flights
  {
    var f := w.flights[c.id];
    if f.received.Some? then f
    else f.(received := Some(c.at), receivedReads := w.taken + 1, receivedStep := w.steps)
  }

  function OriginOf(f: Flight, server: real): Origin
    requires f.received.Some?
  {
    Origin(f.sent, f.received.value, server,
           if f.receivedReads >= f.sentReads then f.receivedReads - f.sentReads else 0, f.sentStep, f.receivedStep)
  }

  function FinishIn(w: World, c: Call): World
    requires c.FinishProbe? && c.id in w.flights
  {
    var f := w.flights[c.id];
    var before := if f.received.Some? then w else Observe(w, c.at);
    var state := AfterFinish(w.state, f.View(), c.server, c.at.reading);
    before.(state := state,
    origins := if state.status == Applied then Push(before.origins, OriginOf(Landed(w, c), c.server.value))
    else before.origins)
  }

  function Step(w: World, c: Call): World {
    var u :=
      if !Known(w, c) then w
      else match c
           case Look(at) => Observe(w, at)
           case BeginCycle(at) => Observe(w, at).(state := AfterBegin(w.state, at.reading))
           case StartProbe(id, at) =>
             var v := Observe(w, at);
             v.(flights := w.flights[id := Flight(at, v.state.epoch, w.steps, v.taken, None, 0, 0)])
           case Receive(id, at) =>
             var v := Observe(w, at);
             v.(flights := w.flights[id :=
             w.flights[id].(received := Some(at), receivedReads := v.taken, receivedStep := w.steps)])
           case FinishProbe(_, _, _) => FinishIn(w, c);
    u.(steps := w.steps + 1)
  }

  function Run(calls: seq<Call>): World {
    if calls == [] then START else Step(Run(calls[..|calls| - 1]), calls[|calls| - 1])
  }

  lemma RunExtends(calls: seq<Call>, c: Call)
    ensures Run(calls + [c]) == Step(Run(calls), c)
  {
    assert (calls + [c])[..|calls|] == calls;
  }

  // --- the physical world ------------------------------------------------------

  // From a to b true time passes and the monotonic clock's rate error stays in the allowance.
  predicate Steady(a: Stamp, b: Stamp) {
    && a.instant <= b.instant
    && a.reading.mono <= b.reading.mono
    && Abs((b.reading.mono - a.reading.mono) - (b.instant - a.instant))
       <= Drift(b.reading.mono - a.reading.mono)
  }

  lemma SteadyChains(a: Stamp, b: Stamp, c: Stamp)
    requires Steady(a, b) && Steady(b, c)
    ensures Steady(a, c)
  {
  }

  // A server stamp taken inside the flight, to its resolution.
  predicate Honest(sent: Stamp, received: Stamp, server: real) {
    sent.instant - SERVER_TIME_RESOLUTION <= server <= received.instant + SERVER_TIME_RESOLUTION
  }

  predicate PhysicalStep(w: World, c: Call) {
    && (Reads(w, c) && w.last.Some? ==> Steady(w.last.value, c.at))
    && (c.FinishProbe? && c.id in w.flights && c.server.Some? ==>
          Honest(w.flights[c.id].sent, Landed(w, c).received.value, c.server.value))
  }

  predicate PhysicalRun(calls: seq<Call>) {
    calls == [] ||
    (PhysicalRun(calls[..|calls| - 1]) && PhysicalStep(Run(calls[..|calls| - 1]), calls[|calls| - 1]))
  }

  // --- soundness ---------------------------------------------------------------

  function Allowed(hops: int): real { (hops as real) * 0.1 }

  // What the run keeps true of one window sample and its round trip.
  predicate Traced(s: Sample, o: Origin, last: Stamp) {
    && s == SampleOf(o.sent.reading, o.received.reading, o.server)
    && Steady(o.sent, o.received) && Steady(o.received, last)
    && Honest(o.sent, o.received, o.server)
    && Abs(Movement(o.sent.reading, o.received.reading)) <= Allowed(o.hops)
  }

  predicate TracedFlight(w: World, f: Flight) {
    && w.last.Some?
    && Steady(f.sent, w.last.value)
    && f.epoch <= w.state.epoch
    && f.sentReads <= w.taken && f.sentStep < w.steps
    && (f.epoch == w.state.epoch ==>
          Abs(Movement(f.sent.reading, w.last.value.reading)) <= Allowed(w.taken - f.sentReads))
    && (f.received.Some? ==>
          && f.sentReads <= f.receivedReads <= w.taken
          && f.sentStep < f.receivedStep < w.steps
          && Steady(f.sent, f.received.value) && Steady(f.received.value, w.last.value)
          && (f.epoch == w.state.epoch ==>
                Abs(Movement(f.sent.reading, f.received.value.reading)) <= Allowed(f.receivedReads - f.sentReads)))
  }

  ghost predicate Sound(w: World) {
    && |w.origins| == |w.state.samples| <= WINDOW_SAMPLES
    && (w.state.anchor.Some? <==> w.last.Some?)
    && (w.last.Some? ==> w.state.anchor.value == w.last.value.reading)
    && (w.last.None? ==> w.state.samples == [])
    && (forall k :: 0 <= k < |w.origins| ==> Traced(w.state.samples[k], w.origins[k], w.last.value))
    && (forall id <- w.flights :: TracedFlight(w, w.flights[id]))
  }

  lemma ObserveKeepsFlight(w: World, at: Stamp, f: Flight)
    requires Sound(w) && (w.last.Some? ==> Steady(w.last.value, at)) && TracedFlight(w, f)
    ensures TracedFlight(Observe(w, at), f)
  {
    SteadyChains(f.sent, w.last.value, at);
    if f.received.Some? {
      SteadyChains(f.received.value, w.last.value, at);
    }
    if f.epoch == w.state.epoch && !IsJump(w.state, at.reading) {
      assert Allowed(w.taken + 1 - f.sentReads) == Allowed(w.taken - f.sentReads) + JUMP_TOLERANCE;
      assert Movement(f.sent.reading, at.reading)
          == Movement(f.sent.reading, w.last.value.reading) + Movement(w.last.value.reading, at.reading);
    }
  }

  lemma ObserveSound(w: World, at: Stamp)
    requires Sound(w) && (w.last.Some? ==> Steady(w.last.value, at))
    ensures Sound(Observe(w, at))
  {
    var v := Observe(w, at);
    forall k | 0 <= k < |v.origins| ensures Traced(v.state.samples[k], v.origins[k], at) {
      assert Traced(w.state.samples[k], w.origins[k], w.last.value);
      SteadyChains(w.origins[k].received, w.last.value, at);
    }
    forall id <- v.flights ensures TracedFlight(v, v.flights[id]) {
      ObserveKeepsFlight(w, at, w.flights[id]);
    }
  }

  lemma SteadyReflexive(a: Stamp)
    ensures Steady(a, a)
  {
  }

  ghost predicate WindowTraced(samples: seq<Sample>, origins: seq<Origin>, last: Stamp) {
    |origins| == |samples| <= WINDOW_SAMPLES && forall k :: 0 <= k < |origins| ==> Traced(samples[k], origins[k], last)
  }

  lemma PushTraced(samples: seq<Sample>, origins: seq<Origin>, last: Stamp, s: Sample, o: Origin)
    requires WindowTraced(samples, origins, last) && Traced(s, o, last)
    ensures WindowTraced(Push(samples, s), Push(origins, o), last)
  {
    hide Traced;
  }

  lemma FinishSound(w: World, c: Call)
    requires Sound(w) && c.FinishProbe? && c.id in w.flights && PhysicalStep(w, c)
    ensures Sound(FinishIn(w, c))
  {
    hide Steady, Movement, Push, Abs;
    var f := w.flights[c.id];
    var before := if f.received.Some? then w else Observe(w, c.at);
    var landed := Landed(w, c);
    if f.received.None? {
      ObserveSound(w, c.at);
      SteadyReflexive(c.at);
    }
    assert TracedFlight(before, f);
    var v := FinishIn(w, c);
    if v.state.status == Applied {
      var o := OriginOf(landed, c.server.value);
      assert before.state == BeforeVerdict(w.state, f.View(), c.at.reading);
      assert f.epoch == before.state.epoch;
      var s := SampleOf(f.sent.reading, landed.received.value.reading, c.server.value);
      assert Traced(s, o, before.last.value);
      assert v.state.samples == Push(before.state.samples, s);
      assert v.origins == Push(before.origins, o);
      PushTraced(before.state.samples, before.origins, before.last.value, s, o);
    }
  }

  // Replacing or adding one traced flight keeps the world sound.
  lemma FlightSound(w: World, id: nat, f: Flight)
    requires Sound(w) && TracedFlight(w, f)
    ensures Sound(w.(flights := w.flights[id := f]))
  {
    var v := w.(flights := w.flights[id := f]);
    forall j <- v.flights ensures TracedFlight(v, v.flights[j]) {
      assert j != id ==> TracedFlight(w, w.flights[j]);
    }
  }

  // Counting one more call changes nothing else.
  lemma CountedSound(w: World, steps: nat)
    requires Sound(w) && w.steps <= steps
    ensures Sound(w.(steps := steps))
  {
    var v := w.(steps := steps);
    forall id <- v.flights ensures TracedFlight(v, v.flights[id]) {
      assert TracedFlight(w, w.flights[id]);
    }
  }

  lemma StartSound(w: World, c: Call)
    requires Sound(w) && c.StartProbe? && PhysicalStep(w, c)
    ensures Sound(Step(w, c))
  {
    var v := Observe(w, c.at).(steps := w.steps + 1);
    ObserveSound(w, c.at);
    CountedSound(Observe(w, c.at), w.steps + 1);
    SteadyReflexive(c.at);
    FlightSound(v, c.id, Flight(c.at, v.state.epoch, w.steps, v.taken, None, 0, 0));
  }

  lemma ReceiveSound(w: World, c: Call)
    requires Sound(w) && c.Receive? && c.id in w.flights && PhysicalStep(w, c)
    ensures Sound(Step(w, c))
  {
    var v := Observe(w, c.at).(steps := w.steps + 1);
    ObserveSound(w, c.at);
    CountedSound(Observe(w, c.at), w.steps + 1);
    SteadyReflexive(c.at);
    assert TracedFlight(w, w.flights[c.id]) && TracedFlight(v, v.flights[c.id]);
    FlightSound(v, c.id, w.flights[c.id].(received := Some(c.at), receivedReads := v.taken, receivedStep := w.steps));
  }

  lemma StepSound(w: World, c: Call)
    requires Sound(w) && PhysicalStep(w, c)
    ensures Sound(Step(w, c))
  {
    hide Sound, AfterBegin, Steady, Honest;
    if !Known(w, c) {
      CountedSound(w, w.steps + 1);
    } else {
      match c
      case Look(at) =>
        ObserveSound(w, at);
        CountedSound(Observe(w, at), w.steps + 1);
      case BeginCycle(at) =>
        ObserveSound(w, at);
        BeginSound(w, at);
        CountedSound(Observe(w, at).(state := AfterBegin(w.state, at.reading)), w.steps + 1);
      case StartProbe(_, _) => StartSound(w, c);
      case Receive(_, _) => ReceiveSound(w, c);
      case FinishProbe(_, _, _) =>
        FinishSound(w, c);
        CountedSound(FinishIn(w, c), w.steps + 1);
    }
  }

  lemma BeginSound(w: World, at: Stamp)
    requires Sound(Observe(w, at))
    ensures Sound(Observe(w, at).(state := AfterBegin(w.state, at.reading)))
  {
    var v := Observe(w, at);
    var u := v.(state := AfterBegin(w.state, at.reading));
    assert u.state.samples == v.state.samples && u.state.epoch == v.state.epoch;
    forall id <- u.flights ensures TracedFlight(u, u.flights[id]) {
      assert TracedFlight(v, v.flights[id]);
    }
  }

  lemma {:induction false} RunSound(calls: seq<Call>)
    requires PhysicalRun(calls)
    ensures Sound(Run(calls))
  {
    if calls != [] {
      RunSound(calls[..|calls| - 1]);
      StepSound(Run(calls[..|calls| - 1]), calls[|calls| - 1]);
    }
  }

  /**
   One round trip: at every later reading the true time lies within the sample's
   uncertainty of the corrected time, widened by the monotonic drift over the
   flight and by the wall clock's own movement during it.
   */
  lemma SampleBoundsTrueTime(sent: Stamp, received: Stamp, server: real, q: Stamp)
    requires Steady(sent, received) && Steady(received, q) && Honest(sent, received, server)
    ensures var s := SampleOf(sent.reading, received.reading, server);
            Abs(q.instant - (q.reading.wall + s.offset))
            <= s.Uncertainty(q.reading) + Drift(s.rtt) + Abs(Movement(sent.reading, received.reading))
  {
    var s := SampleOf(sent.reading, received.reading, server);
    var aging := q.instant - received.instant - s.Age(q.reading);
    var flight := (received.instant - sent.instant) - s.rtt;
    assert Abs(aging) <= Drift(s.Age(q.reading));
    assert Abs(flight) <= Drift(s.rtt);
    assert q.instant - (q.reading.wall + s.offset)
        == (received.instant - server - s.rtt / 2.0) + aging
           - Movement(received.reading, q.reading) - Movement(sent.reading, received.reading);
  }

  /**
   Soundness over every physical run: whenever a reading is corrected, the true
   time lies within the claimed uncertainty of the corrected time plus the drift
   over the sample's flight plus JUMP_TOLERANCE per reading taken in that flight.
   */
  lemma CorrectedTimeIsSound(calls: seq<Call>, q: Stamp)
    requires PhysicalRun(calls + [Look(q)])
    ensures var w := Run(calls + [Look(q)]);
            |w.origins| == |w.state.samples| &&
            (InEffect(w.state, q.reading).Some? ==>
               exists k :: 0 <= k < |w.state.samples| &&
                           var s := w.state.samples[k];
                           && InEffect(w.state, q.reading) == Some(s)
                           && CorrectedTime(w.state, q.reading) == q.reading.wall + s.offset
                           && Abs(q.instant - CorrectedTime(w.state, q.reading))
                              <= s.Uncertainty(q.reading) + Drift(s.rtt) + Allowed(w.origins[k].hops))
  {
    hide Steady, Movement, TracedFlight, Run;
    var all := calls + [Look(q)];
    RunSound(all);
    RunExtends(calls, Look(q));
    var w := Run(all);
    if InEffect(w.state, q.reading).Some? {
      var b := InEffect(w.state, q.reading).value;
      var k :| 0 <= k < |w.state.samples| && w.state.samples[k] == b;
      var o := w.origins[k];
      assert Traced(b, o, q);
      SampleBoundsTrueTime(o.sent, o.received, o.server, q);
    }
  }

  predicate WithinClaim(s: Sample, q: Stamp) {
    Abs(q.instant - (q.reading.wall + s.offset)) <= s.Uncertainty(q.reading)
  }

  // The uncertainty the estimator claims, with nothing added, bounds the error of every
  // sample this flight can give, at every later reading.
  ghost predicate ClaimHolds(sent: Stamp, received: Stamp) {
    forall server: real, q: Stamp ::
      Honest(sent, received, server) && Steady(received, q) ==>
        WithinClaim(SampleOf(sent.reading, received.reading, server), q)
  }

  /**
   When the claim alone is a bound: exactly when the flight lasted at most as long
   in true time as on the wall clock, and at most as long there as on the
   monotonic clock.
   */
  lemma ClaimHoldsExactlyWhen(sent: Stamp, received: Stamp)
    requires Steady(sent, received)
    ensures ClaimHolds(sent, received) <==>
            received.instant - sent.instant
            <= received.reading.wall - sent.reading.wall
            <= received.reading.mono - sent.reading.mono
  {
    SteadyReflexive(received);
    if ClaimHolds(sent, received) {
      var low, high := sent.instant - SERVER_TIME_RESOLUTION, received.instant + SERVER_TIME_RESOLUTION;
      assert Honest(sent, received, low) && Honest(sent, received, high);
      assert WithinClaim(SampleOf(sent.reading, received.reading, low), received);
      assert WithinClaim(SampleOf(sent.reading, received.reading, high), received);
    } else {
      var server: real, q: Stamp :| Honest(sent, received, server) && Steady(received, q) &&
                                    !WithinClaim(SampleOf(sent.reading, received.reading, server), q);
      var s := SampleOf(sent.reading, received.reading, server);
      var aging := q.instant - received.instant - s.Age(q.reading);
      assert q.instant - (q.reading.wall + s.offset)
          == (received.instant - server - s.rtt / 2.0) + aging
             - Movement(received.reading, q.reading) - Movement(sent.reading, received.reading);
    }
  }

  // An honest round trip whose wall movement passed the jump test, and a later
  // reading at which the true time lies outside the claimed interval.
  predicate Misled(sent: Stamp, received: Stamp, server: real, q: Stamp) {
    var s := SampleOf(sent.reading, received.reading, server);
    && Steady(sent, received) && Steady(received, q) && Honest(sent, received, server)
    && Abs(Movement(sent.reading, received.reading)) <= JUMP_TOLERANCE
    && !WithinClaim(s, q)
  }

  /**
   The claimed uncertainty alone is not a bound: a wall clock stepping by 90 ms
   inside a 2 ms flight is below the jump tolerance, and the sample taken then is
   wrong by that step while it claims 2 ms.
   */
  lemma ClaimAloneIsUnsound() returns (sent: Stamp, received: Stamp, server: real, q: Stamp)
    ensures Misled(sent, received, server, q)
  {
    sent, received, server := Stamp(Reading(0.0, 0.0), 0.0), Stamp(Reading(0.092, 0.002), 0.002), 0.001;
    q := received;
    assert SampleOf(sent.reading, received.reading, server) == Sample(0.0, 0.002, 0.092, 0.002);
  }
}
