/**
 What the clock evidence means over every run, physical or not: which past calls
 the estimator's flags stand for.
 */
module ClockEvidence {
  import opened Numbers
  import opened Options
  import opened ClockModel
  import opened ClockRuns

  // --- what happened at a call --------------------------------------------------

  predicate SeesJump(w: World, c: Call) { Reads(w, c) && IsJump(w.state, c.at.reading) }

  predicate SeesBackward(w: World, c: Call) { SeesJump(w, c) && StepSeen(w.state, c.at.reading) < 0.0 }

  predicate Finishes(w: World, c: Call) { c.FinishProbe? && c.id in w.flights }

  predicate Accepts(w: World, c: Call) { Finishes(w, c) && Step(w, c).state.status == Applied }

  // --- the last call at which it happened, -1 if never ----------------------------

  function LastJump(calls: seq<Call>): (k: int)
    ensures -1 <= k < |calls|
  {
    if calls == [] then -1
    else if SeesJump(Run(calls[..|calls| - 1]), calls[|calls| - 1]) then |calls| - 1
    else LastJump(calls[..|calls| - 1])
  }

  function LastBackward(calls: seq<Call>): (k: int)
    ensures -1 <= k < |calls|
  {
    if calls == [] then -1
    else if SeesBackward(Run(calls[..|calls| - 1]), calls[|calls| - 1]) then |calls| - 1
    else LastBackward(calls[..|calls| - 1])
  }

  function LastFinish(calls: seq<Call>): (k: int)
    ensures -1 <= k < |calls|
  {
    if calls == [] then -1
    else if Finishes(Run(calls[..|calls| - 1]), calls[|calls| - 1]) then |calls| - 1
    else LastFinish(calls[..|calls| - 1])
  }

  function LastAccept(calls: seq<Call>): (k: int)
    ensures -1 <= k < |calls|
  {
    if calls == [] then -1
    else if Accepts(Run(calls[..|calls| - 1]), calls[|calls| - 1]) then |calls| - 1
    else LastAccept(calls[..|calls| - 1])
  }

  function LastBegin(calls: seq<Call>): (k: int)
    ensures -1 <= k < |calls|
  {
    if calls == [] then -1
    else if calls[|calls| - 1].BeginCycle? then |calls| - 1
    else LastBegin(calls[..|calls| - 1])
  }

  // --- what the flags stand for ---------------------------------------------------

  ghost predicate FlagsMean(calls: seq<Call>) {
    var s := Run(calls).state;
    && (s.samples != [] <==> LastAccept(calls) > LastJump(calls))
    && (s.backwardPending.Some? <==> LastBackward(calls) > LastAccept(calls))
    && (s.status == Applied <==> LastAccept(calls) > LastBegin(calls) && LastAccept(calls) == LastFinish(calls))
  }

  ghost predicate EpochsBound(w: World) {
    forall id <- w.flights :: w.flights[id].epoch <= w.state.epoch
  }

  // An accepting call does not itself see a jump: its probe would be of an older epoch.
  lemma AcceptSeesNoJump(w: World, c: Call)
    requires EpochsBound(w)
    requires Accepts(w, c)
    ensures !SeesJump(w, c)
    ensures Step(w, c).state.samples != [] && Step(w, c).state.backwardPending.None?
  {
  }

  lemma {:induction false} EpochsBounded(calls: seq<Call>)
    ensures EpochsBound(Run(calls))
  {
    if calls != [] {
      EpochsBounded(calls[..|calls| - 1]);
    }
  }

  // How one call moves each flag.
  lemma FlagsStep(w: World, c: Call)
    requires EpochsBound(w)
    ensures var t := Step(w, c).state;
            && (t.samples != [] <==> Accepts(w, c) || (w.state.samples != [] && !SeesJump(w, c)))
            && (t.backwardPending.Some? <==>
                  SeesBackward(w, c) || (w.state.backwardPending.Some? && !Accepts(w, c)))
            && (t.status == Applied <==>
                  Accepts(w, c) || (w.state.status == Applied && !c.BeginCycle? && !Finishes(w, c)))
            && (Accepts(w, c) ==> !SeesJump(w, c))
  {
    if Accepts(w, c) {
      AcceptSeesNoJump(w, c);
    }
  }

  lemma {:induction false} FlagsMeanWhatHappened(calls: seq<Call>)
    ensures FlagsMean(calls)
  {
    if calls != [] {
      var before, c := calls[..|calls| - 1], calls[|calls| - 1];
      var w := Run(before);
      FlagsMeanWhatHappened(before);
      EpochsBounded(before);
      FlagsStep(w, c);
    }
  }

  /**
   Evidence over all runs: `sample()` says synchronised only if some measurement
   was accepted since both the last begin_cycle and the last discontinuity, with
   no later measurement of the cycle judged otherwise.
   */
  lemma SynchronisedMeansMeasured(calls: seq<Call>, at: Stamp)
    requires EvidenceOf(Run(calls + [Look(at)]).state, at.reading).synchronised == Some(true)
    ensures var all := calls + [Look(at)];
            && LastAccept(all) > LastJump(all)
            && LastAccept(all) > LastBegin(all)
            && LastAccept(all) == LastFinish(all)
  {
    FlagsMeanWhatHappened(calls + [Look(at)]);
  }

  /** A backward jump is reported exactly when no measurement was accepted since the last backward step. */
  lemma BackwardJumpReportedIff(calls: seq<Call>, at: Stamp)
    ensures var all := calls + [Look(at)];
            EvidenceOf(Run(all).state, at.reading).backwardJump.Some? <==> LastBackward(all) > LastAccept(all)
  {
    FlagsMeanWhatHappened(calls + [Look(at)]);
  }

  // Accepted within this cycle and since the last discontinuity, nothing judged since, and
  // not yet aged out: the evidence is granted.
  lemma MeasuredMeansSynchronised(calls: seq<Call>, at: Stamp)
    requires var all := calls + [Look(at)];
             LastAccept(all) == LastFinish(all) > LastBegin(all) && LastAccept(all) > LastJump(all)
    requires var s := Run(calls + [Look(at)]).state; s.samples != [] ==> s.samples[|s.samples| - 1].ValidAt(at.reading)
    ensures EvidenceOf(Run(calls + [Look(at)]).state, at.reading).synchronised == Some(true)
  {
    FlagsMeanWhatHappened(calls + [Look(at)]);
    var s := Run(calls + [Look(at)]).state;
    assert s.samples[|s.samples| - 1] in s.samples;
  }

  // --- the window postdates the last discontinuity ----------------------------------

  // What the window and the live flights hold was sent at this step of the run or later.
  ghost predicate SentSince(w: World, jump: int) {
    && (forall i :: 0 <= i < |w.origins| ==> w.origins[i].sentStep >= jump)
    && (forall id <- w.flights :: w.flights[id].epoch == w.state.epoch ==> w.flights[id].sentStep >= jump)
  }

  function JumpAfter(w: World, c: Call, jump: int): int { if SeesJump(w, c) then w.steps else jump }

  lemma ObserveSentSince(w: World, at: Stamp, jump: int)
    requires SentSince(w, jump) && EpochsBound(w)
    ensures SentSince(Observe(w, at), if IsJump(w.state, at.reading) then w.steps else jump)
  {
    hide IsJump;
  }

  lemma PushSentSince(origins: seq<Origin>, o: Origin, jump: int)
    requires (forall i :: 0 <= i < |origins| ==> origins[i].sentStep >= jump) && o.sentStep >= jump
    ensures forall i :: 0 <= i < |Push(origins, o)| ==> Push(origins, o)[i].sentStep >= jump
  {
  }

  // A measurement is applied only in the epoch its probe was sent in.
  lemma AppliedInItsEpoch(s: State, p: Probe, server: Option<real>, r: Reading)
    requires AfterFinish(s, p, server, r).status == Applied
    ensures p.epoch == AfterFinish(s, p, server, r).epoch && server.Some?
  {
  }

  lemma FinishSentSince(w: World, c: Call, jump: int, before: World)
    requires Finishes(w, c) && before == (if w.flights[c.id].received.Some? then w else Observe(w, c.at))
    requires SentSince(before, jump) && w.flights == before.flights
    ensures SentSince(FinishIn(w, c), jump)
  {
    hide IsJump, Verdict;
    var v, f := FinishIn(w, c), w.flights[c.id];
    assert v.state.epoch == before.state.epoch && v.flights == before.flights;
    if v.state.status == Applied {
      AppliedInItsEpoch(w.state, f.View(), c.server, c.at.reading);
      PushSentSince(before.origins, OriginOf(Landed(w, c), c.server.value), jump);
    }
  }

  lemma StepSentSince(w: World, c: Call, jump: int)
    requires SentSince(w, jump) && EpochsBound(w) && jump <= w.steps
    ensures SentSince(Step(w, c), JumpAfter(w, c, jump)) && Step(w, c).steps == w.steps + 1
  {
    hide Abs, AfterFinish;
    if Reads(w, c) {
      ObserveSentSince(w, c.at, jump);
    }
    if Finishes(w, c) {
      var before := if w.flights[c.id].received.Some? then w else Observe(w, c.at);
      FinishSentSince(w, c, JumpAfter(w, c, jump), before);
    }
  }

  // The step of the run that sent a probe.
  predicate SentBy(calls: seq<Call>, step: int, sent: Stamp) {
    0 <= step < |calls| && calls[step].StartProbe? && calls[step].at == sent
  }

  // The step of the run that took a reading.
  predicate ReadBy(calls: seq<Call>, step: int, at: Stamp) {
    0 <= step < |calls| && Reads(Run(calls[..step]), calls[step]) && calls[step].at == at
  }

  // A sample and the round trip of the run it was computed from.
  predicate Measured(calls: seq<Call>, s: Sample, o: Origin) {
    && s == SampleOf(o.sent.reading, o.received.reading, o.server)
    && SentBy(calls, o.sentStep, o.sent) && ReadBy(calls, o.receivedStep, o.received)
  }

  predicate FlightSent(calls: seq<Call>, f: Flight) {
    SentBy(calls, f.sentStep, f.sent) && (f.received.Some? ==> ReadBy(calls, f.receivedStep, f.received.value))
  }

  ghost predicate WindowMeasured(calls: seq<Call>, samples: seq<Sample>, origins: seq<Origin>) {
    |origins| == |samples| && forall k :: 0 <= k < |samples| ==> Measured(calls, samples[k], origins[k])
  }

  ghost predicate FlightsSent(calls: seq<Call>, flights: map<nat, Flight>) {
    forall id <- flights :: FlightSent(calls, flights[id])
  }

  lemma MeasuredLater(calls: seq<Call>, c: Call, samples: seq<Sample>, origins: seq<Origin>, flights: map<nat, Flight>)
    requires WindowMeasured(calls, samples, origins) && FlightsSent(calls, flights)
    ensures WindowMeasured(calls + [c], samples, origins) && FlightsSent(calls + [c], flights)
  {
    hide SampleOf, Run, Reads;
    forall k | 0 <= k < |samples| ensures Measured(calls + [c], samples[k], origins[k]) {
      assert Measured(calls, samples[k], origins[k]);
      assert (calls + [c])[..origins[k].receivedStep] == calls[..origins[k].receivedStep];
    }
    forall id <- flights ensures FlightSent(calls + [c], flights[id]) {
      assert FlightSent(calls, flights[id]);
      if flights[id].received.Some? {
        assert (calls + [c])[..flights[id].receivedStep] == calls[..flights[id].receivedStep];
      }
    }
  }

  lemma PushMeasured(calls: seq<Call>, samples: seq<Sample>, origins: seq<Origin>, s: Sample, o: Origin)
    requires WindowMeasured(calls, samples, origins) && Measured(calls, s, o)
    ensures WindowMeasured(calls, Push(samples, s), Push(origins, o))
  {
    hide Measured;
  }

  // A measurement pushes the sample of its own round trip; everything else keeps or empties the window.
  lemma FinishMeasured(calls: seq<Call>, w: World, c: Call, before: World)
    requires Finishes(w, c) && before == (if w.flights[c.id].received.Some? then w else Observe(w, c.at))
    requires WindowMeasured(calls, before.state.samples, before.origins) && FlightsSent(calls, w.flights)
    requires w.flights[c.id].received.None? ==> ReadBy(calls, w.steps, c.at)
    ensures var v := FinishIn(w, c); WindowMeasured(calls, v.state.samples, v.origins)
  {
    hide WindowMeasured, Consistent, SampleOf, IsJump, ReadBy;
    var v, f := FinishIn(w, c), w.flights[c.id];
    assert FlightSent(calls, f);
    if v.state.status == Applied {
      var o := OriginOf(Landed(w, c), c.server.value);
      PushMeasured(calls, before.state.samples, before.origins, SampleOf(o.sent.reading, o.received.reading, o.server), o);
    }
  }

  lemma ObserveMeasured(calls: seq<Call>, w: World, at: Stamp)
    requires WindowMeasured(calls, w.state.samples, w.origins)
    ensures WindowMeasured(calls, Observe(w, at).state.samples, Observe(w, at).origins)
  {
    hide Measured, IsJump;
  }

  lemma StepMeasured(calls: seq<Call>, c: Call)
    requires var w := Run(calls); w.steps == |calls| && WindowMeasured(calls, w.state.samples, w.origins) && FlightsSent(calls, w.flights)
    ensures var v := Step(Run(calls), c); WindowMeasured(calls + [c], v.state.samples, v.origins) && FlightsSent(calls + [c], v.flights)
  {
    hide WindowMeasured, AfterFinish, Run, Abs;
    var w := Run(calls);
    MeasuredLater(calls, c, w.state.samples, w.origins, w.flights);
    if Reads(w, c) {
      assert (calls + [c])[..|calls|] == calls;
      assert ReadBy(calls + [c], |calls|, c.at);
      ObserveMeasured(calls + [c], w, c.at);
    }
    if Finishes(w, c) {
      FinishMeasured(calls + [c], w, c, if w.flights[c.id].received.Some? then w else Observe(w, c.at));
    }
  }

  lemma {:induction false} RunMeasured(calls: seq<Call>)
    ensures var w := Run(calls);
            w.steps == |calls| && WindowMeasured(calls, w.state.samples, w.origins) && FlightsSent(calls, w.flights)
  {
    if calls != [] {
      hide WindowMeasured, FlightsSent;
      var before, c := calls[..|calls| - 1], calls[|calls| - 1];
      assert before + [c] == calls;
      RunMeasured(before);
      StepMeasured(before, c);
    }
  }

  lemma {:induction false} RunSentSince(calls: seq<Call>)
    ensures Run(calls).steps == |calls| && SentSince(Run(calls), LastJump(calls))
  {
    if calls != [] {
      hide Step, SeesJump, SentSince;
      var before, c := calls[..|calls| - 1], calls[|calls| - 1];
      RunSentSince(before);
      EpochsBounded(before);
      StepSentSince(Run(before), c, LastJump(before));
    }
  }

  /**
   Every window sample was computed from a probe sent at or after the last discontinuity:
   the sample is the one its round trip gives, and the step that sent the probe is in the
   run, no earlier than the last step that saw a jump.
   */
  lemma WindowPostdatesJump(calls: seq<Call>, k: nat) returns (o: Origin)
    requires k < |Run(calls).state.samples|
    ensures Run(calls).state.samples[k] == SampleOf(o.sent.reading, o.received.reading, o.server)
    ensures LastJump(calls) <= o.sentStep < |calls| && calls[o.sentStep].StartProbe? && calls[o.sentStep].at == o.sent
  {
    RunMeasured(calls);
    RunSentSince(calls);
    o := Run(calls).origins[k];
    assert Measured(calls, Run(calls).state.samples[k], o);
  }

  // --- the correction is bounded -----------------------------------------------------

  ghost predicate Plausible(s: State) {
    && |s.samples| <= WINDOW_SAMPLES
    && forall x <- s.samples :: Abs(x.offset) <= MAX_PLAUSIBLE_OFFSET && x.rtt >= 0.0
  }

  lemma FinishPlausible(s: State, p: Probe, server: Option<real>, r: Reading)
    requires Plausible(s)
    ensures Plausible(AfterFinish(s, p, server, r))
  {
    hide Consistent;
  }

  lemma StepPlausible(w: World, c: Call)
    requires Plausible(w.state)
    ensures Plausible(Step(w, c).state)
  {
    hide AfterFinish, IsJump;
    if c.FinishProbe? && c.id in w.flights {
      FinishPlausible(w.state, w.flights[c.id].View(), c.server, c.at.reading);
    }
  }

  lemma {:induction false} RunPlausible(calls: seq<Call>)
    ensures Plausible(Run(calls).state)
  {
    if calls != [] {
      hide Plausible, Step;
      RunPlausible(calls[..|calls| - 1]);
      StepPlausible(Run(calls[..|calls| - 1]), calls[|calls| - 1]);
    }
  }

  /** The corrected time never strays from the raw wall time by more than MAX_PLAUSIBLE_OFFSET. */
  lemma CorrectionIsBounded(calls: seq<Call>, r: Reading)
    ensures Abs(CorrectedTime(Run(calls).state, r) - r.wall) <= MAX_PLAUSIBLE_OFFSET
  {
    RunPlausible(calls);
    var s := Run(calls).state;
    if InEffect(s, r).Some? {
      assert InEffect(s, r).value in s.samples;
    }
  }
}
