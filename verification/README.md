# Crypto Radar: verified core

A Dafny model of the parts of Crypto Radar where correctness is hardest to see by
reading: the corrected clock, the inference slot and its shadow submitter, history
pairing, forward-return labelling, the event queue with the bridge cycle and its
invocation ledger, the order-book and bar kernels, stored time text and the PNG
reader. `dafny verify dfyconfig.toml` checks everything.

Code that updates state is modelled twice. A function on values says what an
operation does, and a class or a method with the source's own loops is proved to do
exactly that. The properties are lemmas about the functions, most of them over every
run: every sequence of calls, every interleaving, a crash between any two
transactions. What an operation answers is stated beside them without its own
definitions: when it says yes and when no, and what its numbers are.

| files | what they model |
|---|---|
| `ClockModel`, `ClockRuns`, `ClockEvidence`, `ClockAgreement`, `ClockHops`, `ClockVerdicts` | the estimator of the corrected time, and what holds over all runs of it |
| `InferenceSlot`, `SlotService`, `QwenShadow`, `ShadowAdmission`, `QwenReviews` | one process-wide slot under interleaving, the shadow submitter over it, the review validator |
| `HistoryPairing`, `AnomalyCache`, `RobustStatistics` | bisected history search, the per-cycle cache, median and MAD |
| `SnapshotTable`, `ForwardReturns`, `IsoText` | why marking a row is final, the labelling pass, the order of stored time text |
| `EventQueue`, `EventStore`, `ClaudeBridge`, `BridgeInvariant`, `BridgeRuns`, `BridgeOutcomes`, `BridgeLimits` | the queue with its outbox, and the bridge cycle as a state machine |
| `InvocationLedger`, `LedgerAnswers`, `BridgeAndLedger` | budgets and fenced leases, and the bridge over them |
| `OverlappingCycles`, `OverlapLimits` | several bridge cycles over one queue and ledger |
| `OrderBook`, `Bars`, `Resampling`, `Png`, `PngFile` | numeric and byte kernels |
| `Numbers`, `Options` | shared helpers |

Time is an integer number of microseconds, or a real number of seconds in the clock.
Prices are reals.

## Where the code does less than its comments suggest

Each of these has a lemma with a concrete input or run, and, where a condition decides
whether the property holds, a lemma that it does if and only if the condition does.

- The claimed uncertainty alone does not bound the error of a sample: the wall clock
  may move during the flight (`ClockRuns.ClaimAloneIsUnsound`; exactly when it does:
  `ClockRuns.ClaimHoldsExactlyWhen`).
- Accepted samples may disagree when probes are accepted against the order of their
  receipts (`ClockAgreement.OverlappingProbesDisagree`; exactly when a probe and a window
  sample must agree: `ClockAgreement.AgreeExactlyWhenCompatible`).
- The slot test of the shadow submitter reserves nothing: the slot may be taken between
  the test and the start (`ShadowAdmission.SlotCanBeTakenBeforeTheStart`; what every
  admitted batch did see: `ShadowAdmission.AdmittedSawTheSlotFree`).
- A thread start interrupted after the native thread began admits a second shadow
  thread (`QwenShadow.InterruptedStartAdmitsTwo`; exactly when two can be alive:
  `ShadowAdmission.TwoThreadsExactlyWhenStray`).
- A mark made because of the retention cutoff is not final by the near order of stamps
  alone: a stamp that is older than an applied cutoff and not after the window's end fills
  the window (`SnapshotTable.CutoffMarkNeedsFreshStamps`). Where stamps also keep to the
  cutoffs applied, an empty window stays empty in every run if and only if it is sealed
  (`SnapshotTable.EmptyForeverExactlyWhenSealed`), and a pass marks exactly the rows whose
  window can never fill (`SnapshotTable.MarksAreExact`).
- The attempt limit bounds the failures applied to an event, not its model calls: a
  crash between storing and applying a failed call hands the event back whatever its
  attempts (`BridgeLimits.CrashesEscapeTheLimit`). Over all runs with at most k such
  crashes the failed calls stay within a bound if and only if it is at least the limit
  plus k (`BridgeLimits.ExactLimit`), so the limit itself holds over them if and only if
  k is zero (`BridgeLimits.LimitHoldsExactlyWithoutCrashes`).
- The lease fence makes overlapping cycles pay for every call, but not succeed once: a
  cycle that stalls between its committed result and the storing of it is overtaken by
  another that repeats the call (`OverlapLimits.StalledDeskSucceedsTwice`). One success
  and one notice are certain if and only if cycles never overlap or no model has a budget
  (`OverlapLimits.OnceExactlyWithoutOverlap`), and hold for an event in any run that never
  hands it back while a cycle has it in hand (`OverlappingCycles.OneSuccessWhenPatient`).
- Greedy resampling is exact only for group lengths that divide the hour
  (`Resampling.GreedyCanSkip`; `Resampling.ExactIffDividesTheHour`). The lengths in use do.
- An unknown row filter is not noticed in an image of width zero
  (`Png.UnknownFilterNeedsAByte`; exactly when it is: `Png.ReconstructRow`).

## Model

| member | source | states |
|---|---|---|
| ClockModel.ClockReference.ReadClocks | radar_v08/clock_reference.py:143-162 | One paired reading; a step beyond the tolerance empties the window, opens a new epoch and records the jump |
| ClockModel.ClockReference.Now | radar_v08/clock_reference.py:171-181 | Hands out the wall time moved by the offset in effect, only in a cycle with its own measurement |
| ClockModel.ClockReference.BeginCycle | radar_v08/clock_reference.py:183-189 | A new cycle starts with no measurement and no jump of its own |
| ClockModel.ClockReference.StartProbe | radar_v08/clock_reference.py:191-194 | A probe carries its send reading and the epoch it was sent in |
| ClockModel.ClockReference.Receive | radar_v08/clock_reference.py:111-113 | The receipt is read once, by the same estimator |
| ClockModel.ClockReference.CheckConsistent | radar_v08/clock_reference.py:233-243 | The interval test against every valid window sample; as a shared offset: `ClockVerdicts.AcceptedExactlyWhen` |
| ClockModel.ClockReference.FinishProbe | radar_v08/clock_reference.py:196-231 | The verdict and the window change of the value function, whose exact conditions are `ClockVerdicts.AcceptedExactlyWhen` and `ClockVerdicts.FinishLeaves` |
| ClockModel.ClockReference.Sampled | radar_v08/clock_reference.py:245-255 | Evidence unknown, denied, or granted with the best sample's uncertainty |
| ClockModel.Best | radar_v08/clock_reference.py:164-166 | A valid sample of least uncertainty, none if none is valid |
| ClockModel.BestIsFirst | radar_v08/clock_reference.py:164-166 | Of equally uncertain samples the first in the window is taken |
| ClockModel.PushSlides | radar_v08/clock_reference.py:125-141 | The bounded window keeps the newest samples that fit, in their order, the new one last |
| ClockModel.CountValidCounts | radar_v08/clock_reference.py:257-281 | The record's count is the number of valid samples in the window |
| ClockModel.ReportsAgree | radar_v08/clock_reference.py:171-281 | Time, evidence and record taken at one reading name one and the same sample |
| ClockRuns.SampleBoundsTrueTime | radar_v08/clock_reference.py:84-97 | At every later reading true time lies within uncertainty plus drift over the flight plus wall movement in flight |
| ClockRuns.RunSound | radar_v08/clock_reference.py:143-231 | Over every run each window sample comes from an honest flight whose wall movement the jump test bounded |
| ClockRuns.CorrectedTimeIsSound | radar_v08/clock_reference.py:171-181 | Over every physical run the corrected time is within its claim plus drift and jump tolerance of the true time |
| ClockHops.RunCounted | radar_v08/clock_reference.py:143-194 | Over every run the readings kept with each probe and window sample are those the run took between the probe's send and its receipt |
| ClockHops.CorrectedTimeByReadings | radar_v08/clock_reference.py:143-181 | The corrected time is within its claim, the drift and one jump tolerance per reading the run took in that probe's flight; a single one if the receipt was the only reading |
| ClockVerdicts.AcceptedExactlyWhen | radar_v08/clock_reference.py:196-243 | A probe is accepted if and only if it is answered, of its epoch, forward, within a minute, and shares an allowed offset with each window sample in use; each other verdict exactly when its own test is the first to fail |
| ClockVerdicts.FinishLeaves | radar_v08/clock_reference.py:196-231 | Only an accepted probe moves the window, by its own offset and round trip, and ends the report of a backward jump |
| ClockVerdicts.SharedOffsetIsAccepted | radar_v08/clock_reference.py:233-243 | Over every run an offset that the probe and all window samples in use allow keeps the probe from being rejected |
| ClockVerdicts.InStepFlightsAreAccepted | radar_v08/clock_reference.py:196-243 | Over every physical run, with the flights behind the window and its own in step, a probe is accepted exactly when it is acceptable by itself: truthful samples never reject one another |
| ClockVerdicts.ReadingGivesUpExactly | radar_v08/clock_reference.py:143-162 | A reading gives the window up, in a new epoch, exactly if the wall clock stepped by more than 100 ms against the monotonic one |
| ClockVerdicts.TightestIsHandedOut | radar_v08/clock_reference.py:164-255 | Time and evidence come from the tightest sample in use after an accepted measurement of the cycle, and are the raw time and no evidence without one |
| ClockRuns.ClaimHoldsExactlyWhen | radar_v08/clock_reference.py:94-97 | The bare claim covers every honest stamp of a flight at every later reading exactly under the condition given |
| ClockRuns.ClaimAloneIsUnsound | radar_v08/clock_reference.py:94-97 | A physical flight and reading at which the bare claim is wrong |
| ClockEvidence.FlagsMeanWhatHappened | radar_v08/clock_reference.py:143-255 | The estimator's flags say exactly what happened last in the run |
| ClockEvidence.SynchronisedMeansMeasured | radar_v08/clock_reference.py:245-255 | Synchronised implies a measurement accepted since the last cycle start and the last discontinuity |
| ClockEvidence.MeasuredMeansSynchronised | radar_v08/clock_reference.py:245-255 | The converse, while a sample is valid |
| ClockEvidence.BackwardJumpReportedIff | radar_v08/clock_reference.py:143-162 | A backward jump is reported exactly when no measurement was accepted after the last backward step |
| ClockEvidence.RunMeasured | radar_v08/clock_reference.py:191-231 | Over every run each window sample is the one a probe of that run gives, with the steps that sent and received it |
| ClockEvidence.WindowPostdatesJump | radar_v08/clock_reference.py:143-162 | Every window sample comes from a probe sent at or after the last discontinuity |
| ClockEvidence.RunPlausible | radar_v08/clock_reference.py:212-231 | No implausible offset ever enters the window |
| ClockEvidence.CorrectionIsBounded | radar_v08/clock_reference.py:171-181 | Over every run the correction never exceeds the plausible offset |
| ClockAgreement.CheckedOverlapLater | radar_v08/clock_reference.py:94-97 | A sample checked against an earlier one overlaps it at every later reading, even when divergence shrinks |
| ClockAgreement.AgreeExactlyWhenCompatible | radar_v08/clock_reference.py:196-243 | A probe and a window sample agree for every answer that passes the checks, at every reading, if and only if the sample was received first, or more than the maximal age later, or the intervals are too wide to be apart |
| ClockAgreement.RunAgrees | radar_v08/clock_reference.py:196-243 | Over every run whose accepted probes are compatible with the window, all window samples overlap pairwise for good |
| ClockAgreement.OrderedReceiptsAreCompatible | radar_v08/clock_reference.py:196-243 | Probes accepted in the order of their receipts are compatible, whether or not they overlap in flight |
| ClockAgreement.ValidIntervalsShareAPoint | radar_v08/clock_reference.py:233-243 | Hence at every reading their intervals share one common point |
| ClockAgreement.OverlappingProbesDisagree | radar_v08/clock_reference.py:233-243 | A run of probes accepted against the order of their receipts after which two valid intervals are disjoint |
| InferenceSlot.HeldIffOneUnreleased | radar_v08/qwen.py:35-37 | Under every interleaving the slot is held exactly while one acquiring batch has not released it; that a free one is granted: `SlotService.GrantedExactlyWhenFree` |
| InferenceSlot.OnlyOwnSlotIsReleased | radar_v08/qwen.py:296-312 | No release ever frees another batch's slot |
| InferenceSlot.ReleasedExactlyOnce | radar_v08/qwen.py:296-350 | Each acquisition is released exactly once when its batch has finished |
| InferenceSlot.PostsHoldTheSlot | radar_v08/qwen.py:314-350 | A request goes out only while its own batch holds the slot, within the attempt limit |
| InferenceSlot.TimedOutBatchKeepsSlot | radar_v08/qwen.py:333-350 | After a time-out the slot stays held until the worker ends |
| InferenceSlot.TimedOutReleasedByWorker | radar_v08/qwen.py:314-331 | Only the worker's own release frees a timed-out batch's slot |
| InferenceSlot.LateWorkerPostsNothing | radar_v08/qwen.py:314-331 | A worker that starts after its slot was given up posts nothing, in any continuation |
| InferenceSlot.DeliveryHasOutcome | radar_v08/qwen.py:333-350 | A caller back before its deadline has a result or an error |
| InferenceSlot.RankFalls | radar_v08/qwen.py:296-420 | Every own step of a batch brings it nearer to its end and no other step moves it |
| InferenceSlot.HolderCanMove | radar_v08/qwen.py:296-350 | A batch holding the slot always has a step that leads to its release |
| InferenceSlot.OwnStepsBounded | radar_v08/qwen.py:357-420 | The number of steps of one batch is bounded in every run |
| SlotService.GrantedExactlyWhenFree | radar_v08/qwen.py:293-305 | After any run a caller gets the slot, as an untried batch behind the others, if and only if every earlier batch has released it; otherwise it is refused and nothing else changes |
| SlotService.FreeSlotServes | radar_v08/qwen.py:296-420 | From any run that left the slot free, for any number of requests up to the limit and any outcome, the next batch can send exactly those, deliver the outcome and leave the slot free |
| SlotService.LateCallerTimesOut | radar_v08/qwen.py:345-347 | A late caller gives its batch up as timed out and cancelled, whether or not the worker is done |
| SlotService.GivingUpCancels | radar_v08/qwen.py:333-350 | A batch given up by time-out or interruption is cancelled |
| SlotService.CancelledPostsNothing | radar_v08/qwen.py:357-420 | A cancelled batch sends no further request in any continuation |
| QwenShadow.AtMostOneThread | radar_v08/qwen_shadow.py:138-165 | At most one shadow thread is alive, leaving out interrupted starts |
| QwenShadow.InterruptedStartAdmitsTwo | radar_v08/qwen_shadow.py:151-165 | A run with an interrupted start after which two threads are alive |
| QwenShadow.BatchesAreConserved | radar_v08/qwen_shadow.py:151-182 | Each admitted batch is running, queued or drained, never two of these |
| QwenShadow.DrainedInCompletionOrder | radar_v08/qwen_shadow.py:166-182 | Batches are drained once each, in the order they completed, also when the review raised |
| QwenShadow.AdmissionIsExclusive | radar_v08/qwen_shadow.py:151-165 | When a thread comes to life its submitter holds the lock and no recorded thread is alive |
| ShadowAdmission.AdmittedSawTheSlotFree | radar_v08/qwen_shadow.py:151-165 | Over every run each admitted batch passed the slot test with the slot free and no recorded thread alive; the slot is held now exactly if it was taken since |
| ShadowAdmission.SubmitAnsweredExactly | radar_v08/qwen_shadow.py:151-165 | From every reachable state with the lock free an undisturbed submission starts a review and returns true if and only if no recorded thread is alive and the slot is free |
| ShadowAdmission.SlotCanBeTakenBeforeTheStart | radar_v08/qwen_shadow.py:151-165 | A run in which a batch comes to life while the slot is held |
| ShadowAdmission.TwoThreadsExactlyWhenStray | radar_v08/qwen_shadow.py:138-165 | From any reachable state two threads can be alive without another interrupted start if and only if a thread of an interrupted start still is |
| QwenReviews.ValidateReviews | radar_v08/qwen.py:183-239 | Accepts exactly the answers that review every asset once with well-formed items, and returns them all, each saying field by field what its item says |
| HistoryPairing.NearestIsNearest | radar_v08/anomaly.py:269-297 | The scan finds the nearest eligible row, the earliest on ties, and none only if none is eligible |
| HistoryPairing.NearestInWindow | radar_v08/anomaly.py:260-267 | Leaving out positions that cannot be eligible changes nothing |
| HistoryPairing.RoundingIsCovered | radar_v08/anomaly.py:208-214 | The one-second slack covers every float rounding of a difference within half a second |
| HistoryPairing.TimeIndex | radar_v08/anomaly.py:245-254 | An index exists exactly when the times never go back |
| HistoryPairing.BisectLeft | radar_v08/anomaly.py:260-267 | The leftmost insertion point within the bounds |
| HistoryPairing.BisectRight | radar_v08/anomaly.py:260-267 | The rightmost insertion point within the bounds |
| HistoryPairing.Nearby | radar_v08/anomaly.py:260-267 | Every position left out is further away than tolerance plus slack |
| HistoryPairing.BuildSeries | radar_v08/anomaly.py:269-408 | Each bisected series equals the full scan, and lists, row by row and in order, the percentage or the growth from the nearest eligible earlier row, with no entry exactly where there is none or the pair gives none |
| HistoryPairing.RelativeResiduals | radar_v08/anomaly.py:336-362 | The residuals found through the index equal those of full scans, and each adds up with the nearest other return to the own one |
| AnomalyCache.Lookup | radar_v08/anomaly.py:460-467 | The entry is what the store's history gives, it is in the cache afterwards, and no other entry changed |
| AnomalyCache.ComputeAnomaly | radar_v08/anomaly.py:411-503 | With any faithful cache the report is the uncached one, says what `AnomalyCache.UncachedMeans` states, and the cache stays faithful |
| AnomalyCache.UncachedMeans | radar_v08/anomaly.py:411-503 | Warm-up and sample count from the pair's rows of two days; each score lies so many scaled deviations above the median of its own listed series, the relative one against the reference pair's |
| AnomalyCache.Cycle | radar_v08/anomaly.py:460-467 | Any sequence of calls sharing one cache reports what uncached calls report, and what the stored rows mean |
| RobustStatistics.SortedSorts | radar_v08/anomaly.py:196-205 | Sorting keeps the items and orders them, so the median is one |
| RobustStatistics.ScoreMeans | radar_v08/anomaly.py:196-205 | A score exists exactly for a value with two past ones; the value is the median plus the score times the scaled median deviation or its floor |
| RobustStatistics.MedianIsRobust | radar_v08/anomaly.py:8-11 | With more than half of the values inside an interval the median is inside it |
| RobustStatistics.MadIsRobust | radar_v08/anomaly.py:196-205 | And the median absolute deviation is at most the interval's length |
| RobustStatistics.OutlierStaysVisible | radar_v08/anomaly.py:196-205 | Hence the score of a value outside is at least its distance over the scaled bound, whatever the rest holds |
| SnapshotTable.NearestSnap | radar_v08/store.py:837-862 | A snapshot of the pair nearest to the target within its window, none exactly for an empty window |
| SnapshotTable.NearestSnapIsEarlier | radar_v08/store.py:837-862 | Of equally near snapshots the earlier one |
| SnapshotTable.SealedForever | radar_v08/l2.py:522-553 | An empty sealed window stays empty through every allowed run of inserts and prunes |
| SnapshotTable.MarkIsFinal | radar_v08/l2.py:554-596 | A row marked unlabelable never gains a snapshot in its window in any allowed future |
| SnapshotTable.EmptyForeverExactlyWhenSealed | radar_v08/l2.py:522-553 | An empty window stays empty in every allowed run if and only if it is sealed |
| SnapshotTable.MarksAreExact | radar_v08/l2.py:554-596 | A pass whose cutoff is not behind an earlier one marks a row with an empty window if and only if the window can never fill in any allowed future |
| SnapshotTable.SnapshotTestsAreExact | radar_v08/l2.py:522-553 | The two bound tests hold exactly when no allowed insert can fill the window |
| SnapshotTable.CutoffMarkNeedsFreshStamps | radar_v08/store.py:1525-1536 | A stamp older than an applied cutoff can fill a window marked because of that cutoff |
| ForwardReturns.PendingIsTheOldest | radar_v08/store.py:983-1014 | A batch holds due rows only, oldest first, none twice, and leaves out only later ones |
| ForwardReturns.PendingLeavesOutLater | radar_v08/store.py:983-1014 | Every row in a batch is open with its horizon over, and such a row is left out only of a full batch of earlier ones |
| ForwardReturns.SettlingIsExclusive | radar_v08/l2.py:554-596 | A row is labelled, marked for one reason, or unchanged, never two of these |
| ForwardReturns.Store.MarkRows | radar_v08/store.py:1033-1054 | Marks only rows neither labelled nor marked, and counts exactly those |
| ForwardReturns.ForwardReturnPass.IsOutsideRetention | radar_v08/l2.py:522-537 | The lazily cached bounds answer exactly the retention test |
| ForwardReturns.ForwardReturnPass.IsWindowClosed | radar_v08/l2.py:538-553 | And exactly the closed-window test |
| ForwardReturns.ForwardReturnPass.Judge | radar_v08/l2.py:554-596 | The fate of one row is what the snapshots decide |
| ForwardReturns.ForwardReturnPass.LabelBatch | radar_v08/l2.py:554-596 | Settles exactly the rows of the batch, counts each way out, and labels with the numbers of `ForwardReturns.LabelsMean` |
| ForwardReturns.LabelsMean | radar_v08/l2.py:565-589 | The return takes the entry to the nearest price after the horizon, MFE and MAE to the highest and lowest price seen up to it, absent exactly when none was seen |
| ForwardReturns.ShortBatchLeavesWaiting | radar_v08/l2.py:598-656 | After a short batch every row still due has an empty window that may still fill |
| ForwardReturns.LabelForwardReturns | radar_v08/l2.py:598-656 | The loop ends; counts are exactly the rows that left pending; each row is settled at most once, with the numbers its label means |
| IsoText.TextSortsByTime | radar_v08/store.py:983-1014 | For all UTC datetimes text order is time order, though zero microseconds are left out |
| IsoText.TextIsInjective | radar_v08/store.py:983-1014 | Two datetimes share a text only if they are the same |
| IsoText.DueIffHorizonPassed | radar_v08/store.py:998-1014 | The cutoff test selects exactly the rows whose horizon has passed, to the microsecond |
| EventQueue.DedupKeyIsInjective | radar_v08/events.py:35-36 | Two situations share a key only if they are the same |
| EventQueue.CreateKeepsOneOpen | radar_v08/events.py:72-101 | Creation keeps at most one open event per key |
| EventQueue.AppendMirrors | radar_v08/store.py:595-621 | A change with its outbox row keeps each event's latest outbox row equal to the event |
| EventQueue.DeliveryIdsUnique | radar_v08/adapters/outbox_store.py:514-553 | Delivery numbers of one event strictly increase |
| EventQueue.RecoverEffect | radar_v08/store.py:1303-1329 | Recovery changes exactly the listed rows, each once |
| EventStore.Store.InsertEvent | radar_v08/store.py:1230-1252 | Row and outbox row together, or nothing when the id is taken |
| EventStore.Store.ClaimEventForProcessing | radar_v08/store.py:1285-1301 | Succeeds exactly on a row still PENDING or DEFERRED, and otherwise changes nothing |
| EventStore.Store.SelectStale | radar_v08/store.py:1303-1316 | Exactly the rows PROCESSING since before the cutoff, none twice |
| EventStore.Store.RecoverStaleProcessing | radar_v08/store.py:1303-1329 | Hands back exactly the stale rows, with one attempt more and an outbox row each |
| EventStore.Store.MarkEventProcessed | radar_v08/store.py:1331-1342 | The processed columns with their outbox row |
| EventStore.Store.MarkEventDeferred | radar_v08/store.py:1344-1355 | The deferred columns, one attempt more, with their outbox row |
| EventStore.Store.MarkEventFailed | radar_v08/store.py:1357-1368 | The failed columns, one attempt more, with their outbox row |
| EventStore.Store.MarkEventNotified | radar_v08/store.py:1370-1377 | Only the notified flag and the update time, with their outbox row |
| EventStore.Store.SetNtfyStatus | radar_v08/store.py:1379-1400 | Push columns only: no outbox row and no other column changes |
| EventStore.Store.FindOpenEventByDedup | radar_v08/store.py:1215-1228 | Finds an open event of the key exactly when there is one, and then a newest one |
| EventStore.Store.CreateEventIfNew | radar_v08/events.py:39-101 | Creates exactly when no event of the key is open, else returns an open one |
| ClaudeBridge.Backoff | radar_v08/claude_bridge.py:264-267 | The schedule's entry for the attempt, its first below and its last beyond the schedule |
| BridgeRuns.OutboxMirrors | radar_v08/store.py:595-621 | After any run with crashes anywhere, each event's latest outbox row carries its current columns |
| BridgeRuns.OneOpenEvent | radar_v08/events.py:72-101 | After any run at most one event of a key is open |
| BridgeRuns.NoOpenEventIsLost | radar_v08/store.py:1267-1329 | Past the longest backoff every open event is due or stale enough to be handed back; what may close one: `BridgeOutcomes.ClosedExactlyWhen` |
| BridgeRuns.AccountsBalance | radar_v08/claude_bridge.py:464-597 | Between cycles claims, cooldowns, calls and results of an event balance, crashes included |
| BridgeRuns.EveryCallIsClaimed | radar_v08/claude_bridge.py:486-532 | Notices, successes, stored results, calls and accepted claims never outrun one another; one success at most |
| BridgeRuns.FailuresAreLimited | radar_v08/claude_bridge.py:274-299 | Failures applied to an event stop at the attempt limit, where it is no longer open |
| BridgeRuns.FailedCallsAreLimited | radar_v08/claude_bridge.py:561-579 | Failed calls stored for an event are at most the limit plus the crashes that kept one from being applied, at every moment |
| BridgeRuns.FinishedForever | radar_v08/claude_bridge.py:474-484 | A settled or already successful event is never claimed, called or stored for again, and settled stays settled |
| BridgeRuns.DisabledBridgeIsReadOnly | radar_v08/claude_bridge.py:417-425 | The first test of the cycle is enough: with dispatch off nothing later in it is ever reached |
| BridgeOutcomes.ClosedExactlyWhen | radar_v08/claude_bridge.py:270-299 | Over every run an open event is closed exactly by a stored success applied or found, an authentication error, the attempt at the limit, or an identity that names nothing to call |
| BridgeOutcomes.PutBackExactlyWhen | radar_v08/claude_bridge.py:383-391 | A taken event is put back exactly on a refused or duplicate claim, a ledger error or a failed call before the limit, and is due again exactly from its pause on |
| BridgeOutcomes.TakenExactlyWhen | radar_v08/claude_bridge.py:472-483 | An event is taken exactly when found without a success and still waiting |
| BridgeOutcomes.HandedBackExactlyWhen | radar_v08/store.py:1303-1329 | A taken event is handed back exactly by a recovery that finds it taken more than ten minutes ago |
| BridgeOutcomes.CycleKeepsItsTime | radar_v08/claude_bridge.py:427-464 | One time from a cycle's beginning to its end |
| BridgeOutcomes.DueEventIsServed | radar_v08/claude_bridge.py:464-597 | Over every run, whenever the cycle comes to a due event without a success and ledger and model cooperate, it claims, cools down, calls and stores once, settles it, notifies once if asked to and not done before, and goes on |
| BridgeLimits.CrashesEscapeTheLimit | radar_v08/claude_bridge.py:561-579 | For every number a run with that many failed calls stored for one event that is still open |
| BridgeLimits.LimitIsReached | radar_v08/claude_bridge.py:274-299 | For every number of such crashes a run that stores the limit's failed calls and one more per crash |
| BridgeLimits.ExactLimit | radar_v08/claude_bridge.py:561-579 | Over all runs with at most k such crashes a bound on the failed calls stored holds if and only if it is at least the limit plus k |
| BridgeLimits.LimitHoldsExactlyWithoutCrashes | radar_v08/claude_bridge.py:561-579 | Failed calls stay within the attempt limit in all runs with at most k such crashes if and only if k is zero |
| InvocationLedger.BudgetIsConserved | radar_v08/adapters/invocation_store.py:309-445 | Reserved units equal the units invocations cost, in hours and in days; no window exceeds its limit |
| InvocationLedger.OnlyWinningClaimsCharge | radar_v08/adapters/invocation_store.py:309-381 | A claim charges one unit exactly when it wins |
| InvocationLedger.ActiveIsUnique | radar_v08/adapters/invocation_store.py:309-381 | At most one invocation per identity is active at any moment |
| InvocationLedger.OneLeaseActs | radar_v08/adapters/invocation_store.py:384-411 | Of all leases ever issued at most one per invocation can act |
| InvocationLedger.FencedForever | radar_v08/domain/invocation.py:350-366 | A lease that lost its invocation never changes anything again |
| InvocationLedger.EndsAtMostOnce | radar_v08/adapters/invocation_store.py:448-483 | One completion or release at most takes effect for an invocation |
| LedgerAnswers.WindowsCountCharges | radar_v08/adapters/invocation_store.py:159-193 | A window's counter is the number of units the run reserved at times in that hour or day |
| LedgerAnswers.ClaimAnsweredExactly | radar_v08/adapters/invocation_store.py:309-381 | In every run a claim wins if and only if no identical invocation is active and its hour and day have a unit left; a duplicate exactly if one is active; refused for the hour first; with the row and lease of each answer |
| LedgerAnswers.AttemptAnsweredExactly | radar_v08/adapters/invocation_store.py:384-445 | In every run an attempt is recorded if and only if the lease may act and it is the first or the windows have a unit left |
| LedgerAnswers.EndAnsweredExactly | radar_v08/adapters/invocation_store.py:448-483 | A completion or release takes effect if and only if the lease may act |
| LedgerAnswers.TakenOverExactly | radar_v08/adapters/invocation_store.py:486-528 | In every run an invocation is taken over if and only if it runs past its expiry, and of all its leases only the new one may then act |
| BridgeAndLedger.CallsArePaid | radar_v08/claude_bridge.py:16-27 | In any run of the bridge over the ledger, with other owners in between, calls of a model are at most its recorded attempts, and those its reserved units |
| BridgeAndLedger.ResultsAreEndings | radar_v08/claude_bridge.py:530-560 | Stored results of a model are at most its invocations that were completed or released |
| BridgeAndLedger.MoveIsCovered | radar_v08/claude_bridge.py:503-536 | Each step keeps calls covered by applied attempts and results by applied commits, under the lease the claim won |
| OverlappingCycles.OverlappingCallsArePaid | radar_v08/claude_bridge.py:16-27 | Any number of cycles in any interleaving: calls are at most recorded attempts, those at most reserved units, and stored results at most ended invocations |
| OverlappingCycles.OneSuccessWhenPatient | radar_v08/claude_bridge.py:464-597 | With any number of cycles an event has one success at most and no more notices, if it is never handed back while a cycle has it in hand |
| OverlapLimits.StalledDeskSucceedsTwice | radar_v08/claude_bridge.py:530-560 | With two cycles and a budget a run in which one event succeeds twice and is notified twice |
| OverlapLimits.OnceExactlyWithoutOverlap | radar_v08/claude_bridge.py:464-597 | One success, and one notice, per event over all runs if and only if there is at most one cycle or no served model has a budget |
| OrderBook.WalkBookForFill | radar_v08/microstructure.py:64-83 | The loop computes the walk's average price and whether the size was filled |
| OrderBook.FilledIffEnough | radar_v08/microstructure.py:64-83 | Filled exactly when the book holds the size; it takes the size or the whole book |
| OrderBook.AverageIsBetweenTouched | radar_v08/microstructure.py:64-83 | The average lies between the best and the worst touched price, on both sides |
| OrderBook.AverageIsThePrice | radar_v08/microstructure.py:64-83 | The average price times all that is taken, best level first and no level beyond what it holds, is the size or the worth of the whole book |
| OrderBook.AverageNeverImproves | radar_v08/microstructure.py:64-83 | The average never improves as the size grows |
| OrderBook.SlippageGrows | radar_v08/microstructure.py:113-119 | Both slippages are non-negative and non-decreasing in size |
| OrderBook.DepthUsdWithinBand | radar_v08/microstructure.py:45-61 | The loop sums exactly the levels within the band |
| OrderBook.DepthGrowsWithTheBand | radar_v08/microstructure.py:45-61 | A wider band never holds less |
| OrderBook.ComputeDepthMetrics | radar_v08/microstructure.py:86-137 | The metrics, absent exactly for empty, non-positive or crossed books |
| OrderBook.MetricsMean | radar_v08/microstructure.py:86-137 | Availability means both sides hold the size; depths and imbalance stay in range |
| OrderBook.MetricsInNumbers | radar_v08/microstructure.py:86-137 | Mid, spread, the depths of the first levels near mid, the signed imbalance, and both slippages from the price of taking the reference size on their own side |
| Bars.WilderAtr | radar_v08/structure.py:74-86 | The loop computes Wilder's average, none with too few bars; it is the last value of the series |
| Bars.AtrSeries | radar_v08/structure.py:89-103 | One value per bar from the first computable one on: the mean of the first ranges, then each next value one part range and the rest the value before |
| Bars.TrueRangeSpans | radar_v08/structure.py:65-66 | A bar's true range is how far the bar and the previous close reach together |
| Bars.SeriesHasNoLookAhead | radar_v08/structure.py:89-103 | Value k is the average of the first period + 1 + k bars alone |
| Bars.SeriesIsStable | radar_v08/structure.py:89-103 | Appending bars never changes earlier values |
| Bars.WilderIsWithin | radar_v08/structure.py:74-86 | The average lies between the smallest and the largest true range |
| Bars.ContiguousSuffix | radar_v08/l2_features.py:139-156 | The suffix whose length bounds exactly the gap-free suffixes, non-empty for a non-empty list |
| Bars.ShorterIsGapFree | radar_v08/structure.py:54-62 | A suffix of a gap-free run is gap-free, so counting down finds the longest first |
| Resampling.ResampleBars | radar_v08/structure.py:106-138 | The loop emits the merged groups of the greedy scan, in order, each with its group's first time and open, last close, extremes, volume and volume-weighted price |
| Resampling.CompleteExactly | radar_v08/structure.py:112-124 | A whole group is bars five minutes apart, the first a whole number of groups into some hour |
| Resampling.GreedyIsExact | radar_v08/structure.py:112-124 | For group lengths that divide the hour the scan emits every complete, gap-free, aligned group, for any bars |
| Resampling.GreedyCanSkip | radar_v08/structure.py:112-124 | Otherwise increasing gap-free bars with a whole group the scan skips |
| Resampling.ExactIffDividesTheHour | radar_v08/structure.py:106-138 | The scan is exact for all increasing bars if and only if the group's minutes divide the hour |
| Resampling.GroupsNeverOverlap | radar_v08/structure.py:112-138 | Emitted groups come in order and never overlap, for any group size |
| Resampling.MergingConserves | radar_v08/structure.py:125-137 | Volume and trades of the covered bars are conserved |
| Resampling.Highest | radar_v08/structure.py:125-137 | The merged high is the greatest high of the group and one of them |
| Resampling.Lowest | radar_v08/structure.py:125-137 | The merged low is the least low of the group and one of them |
| Png.PaethIsNearest | scripts/paper_game_screens.py:125-130 | The predictor is the nearest neighbour, left before up before corner on ties |
| Png.ReconstructRow | scripts/paper_game_screens.py:157-176 | The in-place loop leaves exactly the unfiltered row, byte by byte the stored one plus its prediction from one pixel before and the row above, and fails exactly on an unknown filter in a row with bytes |
| Png.UnknownFilterNeedsAByte | scripts/paper_game_screens.py:157-173 | An unknown filter goes unnoticed in a row without bytes and is an error in one with bytes |
| Png.UnfilterInvertsFilter | scripts/paper_game_screens.py:157-176 | It inverts every filter of section 6 of RFC 2083, for any row, width and filter |
| Png.FilterInvertsUnfilter | scripts/paper_game_screens.py:157-176 | A stored line stands for exactly one row |
| Png.RowsInvertFilters | scripts/paper_game_screens.py:151-176 | A whole image is recovered, whatever filter each row uses |
| Png.ReadPixels | scripts/paper_game_screens.py:149-176 | The row loop yields the image's rows, unfiltered byte by byte, a size mismatch or an unknown filter |
| PngFile.NumberRoundTrip | scripts/paper_game_screens.py:116-122 | Big-endian lengths are read back |
| PngFile.Chunks | scripts/paper_game_screens.py:116-122 | The loop yields the chunks from the signature on |
| PngFile.ChunksRoundTrip | scripts/paper_game_screens.py:116-122 | Every chunk of a well-formed file is read back in order with its whole body |
| PngFile.PngSummary | scripts/paper_game_screens.py:133-176 | Signature, header and format errors in the source's order, then the rows |
| PngFile.FileRoundTrip | scripts/paper_game_screens.py:133-176 | From any image, filters and chunk split to a file and back gives the image |

## Left out

- HTTP, model, exchange, notification and user-interface calls: their answers are arguments of the steps.
- Float rounding: only the search slack of the history pairing depends on it, and there it is a parameter of the search.
- Microsecond rounding of halved round trips and of reported milliseconds in the clock: times there are reals.
- The estimator's process-wide default instance and its JSON record.
- Interrupts between the slot's acquisition and the guarded part of the caller (radar_v08/qwen.py:297-333); interrupts inside the guarded start are modelled.
- Thread scheduling fairness: safety, exactly-once release and bounded steps are proved, not that a step is taken.
- Score combination and rounding of the anomaly report; router, opportunity and setup scores.
- Order and limit of the actionable candidates and the batch limit of lease recovery: the bridge takes any selection of due events.
- Busy retries and migrations of the database, and the SQL text: tables are maps and sequences, a transaction is one step.
- Demand counters of the ledger, and attempts beyond what reservations need.
- Events set to PROCESSING from outside the cycle (`transition_event`, used by no caller in the application): such a row has no start time and recovery does not see it.
- Futures snapshots: the spot table carries the argument.
- Parsing of stored times: `IsoText` starts from the civil time and proves what its text says about order.
- ClockRuns.ClaimHoldsExactlyWhen: is about one flight and the readings after it, not about the choice between window samples.
- QwenShadow.AdmissionIsExclusive: is about the lock and the recorded threads, not the slot, which ShadowAdmission.AdmittedSawTheSlotFree covers.
- QwenShadow.AtMostOneThread: does not count threads whose start was interrupted after they began, because the code itself does not track them; ShadowAdmission.TwoThreadsExactlyWhenStray says when that matters.
- HistoryPairing.TimeIndex: the refusal of mixed time zones is a flag of the methods that use the index.
- AnomalyCache.ComputeAnomaly: its report holds the scores the cache can affect, not the combined score, the flags or the history's length in minutes.
- BridgeRuns.OneOpenEvent: assumes that heartbeat and bridge steps do not overlap, as in the loop of radar_v08/cli.py:277-296.
- OverlappingCycles.OneSuccessWhenPatient: in one given run its condition is sufficient only; the exact condition over all runs is OverlapLimits.OnceExactlyWithoutOverlap.
- Png.ReadPixels: keeps every row, where the source keeps the distinct colours of every fourth one; the colour count is not modelled.
- PngFile.PngSummary: inflation is a total function, so an error of the decompressor is not modelled.
