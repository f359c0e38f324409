# Verified models of the multisensor capture and alignment stack

This project models the parts of the repository that carry real reasoning and proves what they are
for. Each component is one or more modules: a specification on values, the stateful class or the
algorithm proved against it, and theorems over all inputs or all runs.

- **Frame matcher** (`Fenwick`, `Matching`, `FrameMatcher`). The dynamic programme over a Fenwick tree
  looks only at order-preserving chains. Its result is nevertheless optimal among all injective
  in-tolerance matchings, and ties are decided by the inputs alone. The proof is layered: the tree is a prefix
  maximum, the table holds the best chain per edge, the backtrace spells out the winner, and an uncrossing argument
  turns any matching into a chain that is no worse.
- **Camera frame aggregator** (`Aggregation`, `CameraFrameAggregator`, `AggregationRuns`, `AggregationClosing`,
  `AggregationVerdicts`). The class keeps a bounded memory of closed stamps and a watermark. It is proved to behave
  as if it remembered every closed stamp. Over all runs, with arbitrary host times, stamps close at most once and in
  increasing order, no observation is lost or counted twice, verdicts do not depend on arrival order, and what is
  open after an operation is told by first arrivals and open stamps alone.
- **Recorder shutdown** (`StopProtocol`, `Recorder`, `StopRuns`, `StopMeaning`). The recorder process is an adversary:
  each poll, signal and wait may answer anything or fail. A script holds its answers to one call. All a stop reports
  is read off the calls it made.
- **Capture lifecycle** (`OrderedDict`, `Session`, `CaptureRules`, `CaptureController`, `CaptureRuns`,
  `CaptureLeaks`, `CaptureExits`, `CaptureDeadlines`, `CaptureAnswers`). Every accept, tick and shutdown
  is a step. Over all runs, whatever ids the clients reuse: how many recorders are alive, counted exactly; which
  commands end ownership of the recorder; when shutdown tells the truth; which operation saw the exit that COMPLETE
  reports; and when a recording ends by time.
- **Trail budget** (`Nonlinear`, `TrailSampling`, `Apportionment`, `TrailBudget`, `TrailRuns`). A trail is cut into
  its unbroken runs, then brought down to 96 points by even sampling and largest-remainder apportionment, with the
  pigeonhole argument that no run is asked for more points than it has.
- **Rotations** (`Rotations`, `RotationRoundTrip`, `RotationFacts`, `QuaternionRoundTrip`, `RotationMeaning`). Both
  round trips between quaternions and rotation matrices over exact reals, in all four branches.
- **Topic validator** (`TrackerRoles`, `TopicValidation`, `TopicValidator`, `TopicValidationRuns`, `TopicReports`).
  The counters kept online decide a property of the whole message trace, and every figure reported is told by it.
- **Visualisation windows** (`TrailWindow`, `VisualizationModel`, `VisualizationRuns`). Capped and lazily pruned
  sequences against a filter over the whole history, for one role and for what a viewer of all three sees.
- **Health book and sample queue** (`TrackerHealth`, `TrackerSilence`, `TrackerStates`, `SampleQueue`,
  `SampleQueueRuns`). Conservation of samples, exact drop counters and publication requests, what each link state
  means, and exactly when a snapshot shows a silent tracker, with reports and snapshots timed by unrelated clocks.
- **Topic allowlist** (`TopicNames`, `TopicAllowlist`, `AllowlistTopics`). The recorder's validator is the exact
  inverse of its generator.

`Prelude` holds shared result types. `dafny verify dfyconfig.toml` checks everything.

## Where the code does not do what one might expect

Each of these is kept as the code has it; the condition under which the expected property holds is proved.

- The reason a stop reports is not always the first fault on record: an exit seen by the wait after SIGTERM or
  SIGKILL reports the escalation (`StopRuns.EscalationHidesFault` and `StopRuns.ForcedKillHidesFault` give runs,
  `StopRuns.RunReportsFirstFaultIff` the condition over every run).
- The controller and the state machine keep separate request caches, and only the controller caches failed
  starts. A client that reuses an id the controller has forgotten but the machine has not can leave a
  recorder running that nobody owns (`CaptureRuns.ReuseLeavesTwoRecorders`).
  `CaptureLeaks.RecordersAliveExactly` counts the recorders alive after any run and says when there is at most one,
  `CaptureLeaks.NeverTwoAliveIff` when there never are two; `CaptureRuns.OwnedThroughoutIff`,
  `CaptureRuns.AcceptKeepsOwnedIff` and `CaptureRuns.SafeWhateverHappensIff` say which commands break ownership.
  Clients that reuse no forgotten id (`NoReuse`) are safe.
- After such a leak shutdown answers true although a recorder still runs (`CaptureLeaks.ShutdownMissesLeak`);
  `CaptureLeaks.ShutdownTellsTheTruthIff` says after which runs it can be believed.
- The operation that enters COMPLETE need not be the one that saw the exit: a stale STOP can confirm it while the
  machine stays in RECORDING (`CaptureExits.CompletionCanBeSilent`). `CaptureExits.CompleteRunSawExit` proves that
  some operation did see it, and `CaptureExits.CompletionSeesExitIff` when it is the entering one.
- The shutdown drain of the aggregator can leave a key pending when its time saturates
  (`AggregationRuns.SaturatedDrainCanLeaveKeys`); `AggregationRuns.ShutdownDrainsIff` says, for every sampled time,
  when it leaves none.
- A snapshot taken at a later time prunes poses that a following snapshot at an earlier time should show
  (`TrailWindow.LateSnapshotLosesPoses`, `TrailWindow.TrailIsIdealIff`).
- A role of the health book can be shown as disconnected beside a fresh invalid report, when the report was stamped
  before a snapshot but filed after it (`TrackerSilence.EarlySnapshotMisleads`);
  `TrackerSilence.SnapshotShowsSilenceIff` says exactly when.

## Model

| member | source | states |
|---|---|---|
| `FrameMatcher.MatchNearestUnique` | tools/multisensor_alignment/src/vt_multisensor_alignment/matcher.py:18-91 | accepts exactly the valid inputs, reports the first invalid one, and otherwise returns one matching the inputs determine: optimal (injective, in tolerance, of maximum size among all matchings, crossing ones too, and of least total residual among those), without crossings, and of all such matchings the first, compared from the last pair back by reference and then candidate |
| `Matching.FirstOptimalIsUnique` | tools/multisensor_alignment/src/vt_multisensor_alignment/matcher.py:28-46 | there is only one such matching |
| `FrameMatcher.WinnerIsFirst` | tools/multisensor_alignment/src/vt_multisensor_alignment/matcher.py:37-46 | whatever spells out the winning chain comes first among all optimal matchings without crossings |
| `FrameMatcher.QueryComesFirst` | tools/multisensor_alignment/src/vt_multisensor_alignment/matcher.py:37-71 | of all chains as good as the queried one, the queried one comes first: ties go to the earlier edge, at every link |
| `FrameMatcher.LinkReference` | tools/multisensor_alignment/src/vt_multisensor_alignment/matcher.py:62-84 | one reference: the table stays sound and best (every edge carries the best chain ending there), now covers every in-tolerance edge of this reference too, and lists the edges by reference and then candidate; no chain uses the reference twice because its posts come after all its queries |
| `FrameMatcher.ExtendedIsBest` | tools/multisensor_alignment/src/vt_multisensor_alignment/matcher.py:66-82 | dynamic-programme step: extending the queried predecessor is lexicographically best (most pairs, least residual) among all strictly increasing chains ending at the edge |
| `FrameMatcher.ExtendedIsChain` | tools/multisensor_alignment/src/vt_multisensor_alignment/matcher.py:66-82 | the extended chain is strictly increasing and in tolerance, and has exactly the count and cost that get stored |
| `FrameMatcher.PredecessorDominates` | tools/multisensor_alignment/src/vt_multisensor_alignment/matcher.py:66-71 | the predecessor found by the query is no worse than any chain the edge could extend |
| `FrameMatcher.WindowIsTolerance` | tools/multisensor_alignment/src/vt_multisensor_alignment/matcher.py:63-66 | the window between the two bisections is exactly the candidates within the inclusive tolerance |
| `FrameMatcher.WinnerIsBestChain` | tools/multisensor_alignment/src/vt_multisensor_alignment/matcher.py:87 | the chain the final query yields is no worse than any chain over the whole lists |
| `FrameMatcher.WinnerIsOptimal` | tools/multisensor_alignment/src/vt_multisensor_alignment/matcher.py:28-31 | whatever spells out the winning chain is optimal among all matchings, with the stored count and cost |
| `FrameMatcher.Backtrace` | tools/multisensor_alignment/src/vt_multisensor_alignment/matcher.py:86-91 | following predecessor links writes out exactly the winning chain |
| `FrameMatcher.BacktraceStep` | tools/multisensor_alignment/src/vt_multisensor_alignment/matcher.py:88-90 | each link leads strictly down, so the walk ends, and what is written so far stays a suffix of the winning chain |
| `FrameMatcher.Timestamps` | tools/multisensor_alignment/src/vt_multisensor_alignment/matcher.py:9-15 | accepts exactly the nonnegative strictly increasing lists, though only neighbours are compared; a negative entry is reported first |
| `FrameMatcher.BisectLeft` | tools/multisensor_alignment/src/vt_multisensor_alignment/matcher.py:63 | position splitting the list into entries below and not below the bound |
| `FrameMatcher.BisectRight` | tools/multisensor_alignment/src/vt_multisensor_alignment/matcher.py:64 | position splitting the list into entries not above and above the bound |
| `FrameMatcher.SelectGenericSample` | tools/multisensor_alignment/src/vt_multisensor_alignment/matcher.py:146-183 | refuses, in order, a negative time, a negative tolerance, an unknown strategy and bad samples; nearest: no sample is closer and an equally close one comes later; previous: the latest sample not in the future; nothing only when no sample qualifies |
| `Matching.Uncross` | tools/multisensor_alignment/src/vt_multisensor_alignment/matcher.py:28-31 | swapping the candidates of a crossing pair stays within tolerance and does not raise the total residual |
| `Matching.InsertLast` | tools/multisensor_alignment/src/vt_multisensor_alignment/matcher.py:28-31 | one more edge, crossing or not, can be added to a chain by uncrossing from the right, keeping its candidates and not raising the cost |
| `Matching.Straighten` | tools/multisensor_alignment/src/vt_multisensor_alignment/matcher.py:28-31 | every injective in-tolerance pairing has a strictly increasing chain of the same size, the same candidates and no larger cost |
| `Matching.MatchingHasChain` | tools/multisensor_alignment/src/vt_multisensor_alignment/matcher.py:28-31 | every matching is dominated by a chain of the same size |
| `Matching.PairsMeasure` | tools/multisensor_alignment/src/vt_multisensor_alignment/matcher.py:86-91 | size and total residual of an assignment are those of its list of pairs |
| `Matching.PairsOfChain` | tools/multisensor_alignment/src/vt_multisensor_alignment/matcher.py:86-91 | the assignment a chain spells out has exactly the chain as its pairs |
| `Fenwick.FenwickTree.constructor` | tools/multisensor_alignment/src/vt_multisensor_alignment/matcher.py:32-34 | an empty tree over no posts |
| `Fenwick.FenwickTree.Query` | tools/multisensor_alignment/src/vt_multisensor_alignment/matcher.py:48-54 | returns the maximum of everything posted strictly below the given position |
| `Fenwick.FenwickTree.Update` | tools/multisensor_alignment/src/vt_multisensor_alignment/matcher.py:56-60 | records one more post and keeps every node the maximum of its range |
| `Fenwick.BestIsMaximum` | tools/multisensor_alignment/src/vt_multisensor_alignment/matcher.py:48-54 | the reference prefix maximum dominates every post in range and is attained, or is the empty chain |
| `Fenwick.BestSplit` | tools/multisensor_alignment/src/vt_multisensor_alignment/matcher.py:48-54 | a range maximum is the better of the maxima of its parts |
| `Fenwick.BetterLaws` | tools/multisensor_alignment/src/vt_multisensor_alignment/matcher.py:37-46 | better is commutative, idempotent and associative |
| `Fenwick.AtLeastIsTotalOrder` | tools/multisensor_alignment/src/vt_multisensor_alignment/matcher.py:37-46 | better picks the larger in a total order on (count, negative cost, edge index) |
| `Fenwick.BitTrickIsLowBit` | tools/multisensor_alignment/src/vt_multisensor_alignment/matcher.py:53 | index and its two's complement isolate the lowest set bit, for every positive index |
| `Fenwick.NextNodeCovers` | tools/multisensor_alignment/src/vt_multisensor_alignment/matcher.py:60 | the next node of an update covers at least twice the range |
| `Fenwick.SkippedNodesStartLater` | tools/multisensor_alignment/src/vt_multisensor_alignment/matcher.py:60 | nodes an update skips do not reach back to the posted position |
| `Fenwick.UpdateRound` | tools/multisensor_alignment/src/vt_multisensor_alignment/matcher.py:58-60 | one round of the update loop extends the part of the tree already refreshed to the next node |
| `CameraFrameAggregator.CameraFrameAggregator.constructor` | ros2_ws/src/vt_realsense_capture/src/camera_frame_aggregator.cpp:100-110 | starts empty, nothing closed |
| `CameraFrameAggregator.CameraFrameAggregator.Push` | ros2_ws/src/vt_realsense_capture/src/camera_frame_aggregator.cpp:126-165 | files or refuses one observation and closes what is ready, as the step over the unbounded history says; emits the late report, then the verdicts in stamp order |
| `CameraFrameAggregator.CameraFrameAggregator.Flush` | ros2_ws/src/vt_realsense_capture/src/camera_frame_aggregator.cpp:167-171 | closes what is ready at the given time, as the step over the unbounded history says |
| `CameraFrameAggregator.CameraFrameAggregator.WasFinalized` | ros2_ws/src/vt_realsense_capture/src/camera_frame_aggregator.cpp:269-273 | despite the bounded memory, true exactly at or below the closed watermark |
| `CameraFrameAggregator.CameraFrameAggregator.RememberFinalized` | ros2_ws/src/vt_realsense_capture/src/camera_frame_aggregator.cpp:254-267 | the bounded memory stays the last closed stamps of the unbounded history, the watermark its last entry |
| `CameraFrameAggregator.CameraFrameAggregator.ClosureBoundary` | ros2_ws/src/vt_realsense_capture/src/camera_frame_aggregator.cpp:176-187 | the boundary found is the stamp of the newest ready key |
| `CameraFrameAggregator.CameraFrameAggregator.CloseThrough` | ros2_ws/src/vt_realsense_capture/src/camera_frame_aggregator.cpp:189-199 | pops and judges exactly the keys up to the boundary, in stamp order |
| `CameraFrameAggregator.CameraFrameAggregator.FinalizeReady` | ros2_ws/src/vt_realsense_capture/src/camera_frame_aggregator.cpp:173-200 | closes every key up to the newest ready one |
| `CameraFrameAggregator.CameraFrameAggregator.FileObservation` | ros2_ws/src/vt_realsense_capture/src/camera_frame_aggregator.cpp:147-162 | files an observation under its key, opening the key if needed |
| `CameraFrameAggregator.CameraFrameAggregator.ReportLate` | ros2_ws/src/vt_realsense_capture/src/camera_frame_aggregator.cpp:133-145 | a late observation closes what is ready and is reported once, first in the list |
| `CameraFrameAggregator.SortMovesLateToFront` | ros2_ws/src/vt_realsense_capture/src/camera_frame_aggregator.cpp:89-96 | the stable sort of the emitted events only ever moves the late report to the front |
| `CameraFrameAggregator.LateComesFirst` | ros2_ws/src/vt_realsense_capture/src/camera_frame_aggregator.cpp:133-145 | a late report is below everything its own push closes, so it is emitted first |
| `CameraFrameAggregator.StableSortSorts` | ros2_ws/src/vt_realsense_capture/src/camera_frame_aggregator.cpp:89-96 | the sort orders events by stamp |
| `CameraFrameAggregator.StableSortIsStable` | ros2_ws/src/vt_realsense_capture/src/camera_frame_aggregator.cpp:89-96 | events of one stamp keep their order |
| `CameraFrameAggregator.RememberFacts` | ros2_ws/src/vt_realsense_capture/src/camera_frame_aggregator.cpp:254-267 | remembering one stamp, told on the bounded set and queue and on the unbounded history |
| `CameraFrameAggregator.FileKeepsGood` | ros2_ws/src/vt_realsense_capture/src/camera_frame_aggregator.cpp:147-162 | filing keeps keys sorted and strictly above the closed watermark |
| `CameraFrameAggregator.FlushForShutdown` | ros2_ws/src/vt_realsense_capture/src/timing_normalizer_node.cpp:356-378 | a failed clock sample flushes nothing and is reported; otherwise every camera is flushed once at the saturated drain time, independently, and the number published is the sum of complete groups |
| `CameraFrameAggregator.PublishEvents` | ros2_ws/src/vt_realsense_capture/src/timing_normalizer_node.cpp:284-326 | counts exactly the complete events that carry a timing message |
| `CameraFrameAggregator.CompleteIsPublished` | ros2_ws/src/vt_realsense_capture/src/camera_frame_aggregator.cpp:202-252 | every complete verdict carries a timing message, so publishing a list of verdicts counts all its complete ones |
| `AggregationRuns.RunAccounts` | ros2_ws/src/vt_realsense_capture/src/camera_frame_aggregator.cpp:126-200 | over every run of pushes and flushes at any times: each open key and each verdict accounts for exactly the observations absorbed at its stamp |
| `AggregationRuns.ClosingsStrictlyIncrease` | ros2_ws/src/vt_realsense_capture/src/camera_frame_aggregator.cpp:173-200 | over every run verdicts have strictly increasing stamps, so no stamp is closed twice |
| `AggregationRuns.CompleteAtMostOnce` | ros2_ws/src/vt_realsense_capture/src/camera_frame_aggregator.cpp:246-251 | over every run a complete group is emitted at most once per stamp, in increasing order |
| `AggregationRuns.PendingStaysBounded` | ros2_ws/src/vt_realsense_capture/src/camera_frame_aggregator.cpp:183-186 | after every call at most max_newer_stamps keys stay open |
| `AggregationClosing.StaysOpenIff` | ros2_ws/src/vt_realsense_capture/src/camera_frame_aggregator.cpp:173-200 | over every run, at any host times: an operation leaves a stamp open if and only if it was open or has just been absorbed, and neither it nor a newer open stamp has waited max_wait since it was first absorbed or has max_newer_stamps open above it |
| `AggregationClosing.OpenKeysKeepTheirFirstTime` | ros2_ws/src/vt_realsense_capture/src/camera_frame_aggregator.cpp:147-162 | over every run an open key has waited since the host time of the first observation absorbed at its stamp; later ones do not restart the wait |
| `AggregationClosing.RefusedIff` | ros2_ws/src/vt_realsense_capture/src/camera_frame_aggregator.cpp:126-145 | an observation is refused exactly if its stamp is not open and some stamp from it on has closed |
| `AggregationRuns.Conservation` | ros2_ws/src/vt_realsense_capture/src/camera_frame_aggregator.cpp:131-164 | every pushed observation is absorbed or refused and never both; an absorbed one belongs to a key that is open or closed and never both |
| `AggregationRuns.VerdictsJudgeAllAbsorbed` | ros2_ws/src/vt_realsense_capture/src/camera_frame_aggregator.cpp:189-199 | the i-th verdict is the judgement of everything the i-th closed stamp absorbed |
| `AggregationRuns.LateObservationsAreReported` | ros2_ws/src/vt_realsense_capture/src/camera_frame_aggregator.cpp:133-145 | every refused observation is answered by exactly one duplicate report of its stamp |
| `AggregationRuns.EmissionsAreVerdicts` | ros2_ws/src/vt_realsense_capture/src/camera_frame_aggregator.cpp:126-200 | apart from late reports, a run emits exactly its verdicts, in order |
| `AggregationRuns.GroupsAreVerdicts` | ros2_ws/src/vt_realsense_capture/src/camera_frame_aggregator.cpp:246-251 | complete groups appear only among verdicts |
| `AggregationRuns.VerdictIsOrderIndependent` | ros2_ws/src/vt_realsense_capture/src/camera_frame_aggregator.cpp:202-252 | the verdict of a key depends only on the multiset of observations absorbed, not on their order |
| `AggregationRuns.VerdictMeaning` | ros2_ws/src/vt_realsense_capture/src/camera_frame_aggregator.cpp:202-252 | when a verdict is duplicate, invalid, incomplete or complete, in terms of the absorbed observations alone |
| `AggregationVerdicts.VerdictsTell` | ros2_ws/src/vt_realsense_capture/src/camera_frame_aggregator.cpp:189-252 | over every run a verdict judges all its stamp absorbed, carries a timing exactly if complete, and that timing names the one colour and the one depth frame absorbed, at the earlier host clock pair |
| `AggregationVerdicts.GroupIsThePair` | ros2_ws/src/vt_realsense_capture/src/camera_frame_aggregator.cpp:33-87 | a complete group is timed by the one colour and the one depth frame absorbed, in whichever order they came |
| `AggregationVerdicts.VerdictTells` | ros2_ws/src/vt_realsense_capture/src/camera_frame_aggregator.cpp:202-252 | stamp, timing and detail of a verdict, the missing stream of an incomplete one included |
| `AggregationVerdicts.RequiredFlags` | ros2_ws/src/vt_realsense_capture/src/camera_frame_aggregator.cpp:19-24 | exactly which validity bits an observation must carry |
| `AggregationVerdicts.LateReportTells` | ros2_ws/src/vt_realsense_capture/src/camera_frame_aggregator.cpp:126-145 | a late report is a duplicate of its stamp, and says whether that stamp is one of the last verdicts remembered or merely behind the watermark |
| `AggregationRuns.FlushEmptiesIff` | ros2_ws/src/vt_realsense_capture/src/camera_frame_aggregator.cpp:176-199 | a flush leaves nothing pending exactly when the newest key is ready |
| `AggregationRuns.ShutdownDrainsIff` | ros2_ws/src/vt_realsense_capture/src/timing_normalizer_node.cpp:368-374 | for every sampled time, saturating or not: the shutdown drain leaves nothing pending exactly when there is nothing, max_newer_stamps is zero, or the wait of the newest stamp ends within the clock and it first arrived no later than the sample or the drain time saturates |
| `AggregationClosing.ShutdownDrainsRunIff` | ros2_ws/src/vt_realsense_capture/src/timing_normalizer_node.cpp:356-378 | after any run: the shutdown drain leaves no stamp open if and only if none is, max_newer_stamps is zero, or the wait of the newest open stamp, counted from the observation first absorbed at it, ends within the clock and the drain comes no earlier |
| `AggregationRuns.SaturatedDrainCanLeaveKeys` | ros2_ws/src/vt_realsense_capture/src/timing_normalizer_node.cpp:368-374 | a concrete state in which the saturated drain time leaves a key pending |
| `Aggregation.BuildTiming` | ros2_ws/src/vt_realsense_capture/src/camera_frame_aggregator.cpp:70-76 | group time is the earlier host clock pair and the spread reaches the later one |
| `Recorder.RecorderProcess.constructor` | ros2_ws/src/vt_realsense_capture/vt_realsense_capture/recorder.py:289-305 | not started, no result, no fault |
| `Recorder.RecorderProcess.Start` | ros2_ws/src/vt_realsense_capture/vt_realsense_capture/recorder.py:325-343 | starts at most once; a failed spawn can be retried |
| `Recorder.RecorderProcess.Stop` | ros2_ws/src/vt_realsense_capture/vt_realsense_capture/recorder.py:345-382 | new state, result and process calls are those of the step of the stop protocol; before a start it is an error and nothing changes |
| `Recorder.RecorderProcess.TerminateAfterSigintTimeout` | ros2_ws/src/vt_realsense_capture/vt_realsense_capture/recorder.py:384-400 | SIGTERM escalation after SIGINT timed out, call by call |
| `Recorder.RecorderProcess.RecoverWithTermination` | ros2_ws/src/vt_realsense_capture/vt_realsense_capture/recorder.py:402-421 | recovery from a failed poll, call by call |
| `Recorder.RecorderProcess.KillAndReap` | ros2_ws/src/vt_realsense_capture/vt_realsense_capture/recorder.py:423-439 | SIGKILL and the last wait, call by call |
| `Recorder.RecorderProcess.ControlFailure` | ros2_ws/src/vt_realsense_capture/vt_realsense_capture/recorder.py:446-459 | a failed call records the first fault, polls once more and confirms only an observed exit |
| `Recorder.RecorderProcess.RememberStopFault` | ros2_ws/src/vt_realsense_capture/vt_realsense_capture/recorder.py:441-444 | the first fault stays on record |
| `Recorder.ManagedRecorder.Start` | ros2_ws/src/vt_realsense_capture/vt_realsense_capture/controller_node.py:138-149 | keeps the process only when it was spawned; refuses a second start |
| `Recorder.ManagedRecorder.GetHealth` | ros2_ws/src/vt_realsense_capture/vt_realsense_capture/controller_node.py:151-161 | uncertain without a process or when the poll fails, else alive or exited |
| `Recorder.ManagedRecorder.Stop` | ros2_ws/src/vt_realsense_capture/vt_realsense_capture/controller_node.py:163-177 | passes on the stop of the process, or says it never started |
| `StopRuns.StopIsDisciplined` | ros2_ws/src/vt_realsense_capture/vt_realsense_capture/recorder.py:345-482 | one call against any answers of the process: tries a prefix of INT, TERM, KILL or of TERM, KILL; waits at most 80 seconds; confirms exactly when its last call observed an exit and then reports that code; valid only after one SIGINT and code 0 with no fault on record |
| `StopMeaning.StopIsMeant` | ros2_ws/src/vt_realsense_capture/vt_realsense_capture/recorder.py:345-482 | read off the call log: which call follows which and when the calls end, SIGINT waited for 60 seconds and every later signal 10; the fault on record is the first the calls show; the reason is what the calls and that fault say; the result is valid exactly for a poll that finds the process running, a SIGINT delivered, and exit code 0 within 60 seconds, with no fault on record |
| `StopMeaning.ValidIffAnswers` | ros2_ws/src/vt_realsense_capture/vt_realsense_capture/recorder.py:355-382 | one stop is valid if and only if no fault was on record and the process answered just so |
| `StopMeaning.ValidIffFirstIsClean` | ros2_ws/src/vt_realsense_capture/vt_realsense_capture/recorder.py:345-382 | over any number of calls: some result is valid if and only if the first call was answered just so, and then all are |
| `StopRuns.RunsAreSound` | ros2_ws/src/vt_realsense_capture/vt_realsense_capture/recorder.py:345-482 | the run invariant of any number of stop calls |
| `StopRuns.ConfirmedIsFinal` | ros2_ws/src/vt_realsense_capture/vt_realsense_capture/recorder.py:346-347 | a confirmed result is returned unchanged, without further calls, for ever |
| `StopRuns.FirstFaultStays` | ros2_ws/src/vt_realsense_capture/vt_realsense_capture/recorder.py:441-444 | the first fault recorded is never replaced |
| `StopRuns.ValidMeansOneSigint` | ros2_ws/src/vt_realsense_capture/vt_realsense_capture/recorder.py:372-382 | over any run, a valid result means one SIGINT was the only signal ever tried and the exit code was 0 |
| `StopRuns.ReportedReasonIsFirstFaultIff` | ros2_ws/src/vt_realsense_capture/vt_realsense_capture/recorder.py:355-421 | one stop, whether the fault on record afterwards is an earlier one or its own: it is the reason reported exactly if the exit was not seen by the wait after SIGTERM or SIGKILL, save one coincidence after a failed poll |
| `StopRuns.RunReportsFirstFaultIff` | ros2_ws/src/vt_realsense_capture/vt_realsense_capture/recorder.py:345-421 | over any number of calls, each call until a result is final reports the first fault of the run under just that condition |
| `StopRuns.ForcedKillHidesFault` | ros2_ws/src/vt_realsense_capture/vt_realsense_capture/recorder.py:402-439 | a concrete single call that records poll_failed and reports poll_failed_forced_kill |
| `StopRuns.EscalationHidesFault` | ros2_ws/src/vt_realsense_capture/vt_realsense_capture/recorder.py:355-421 | a concrete run of two calls in which the first fault is sigint_signal_failed and the confirmed result reports sigint_timeout |
| `StopRuns.RecordedFaultsAreKnown` | ros2_ws/src/vt_realsense_capture/vt_realsense_capture/recorder.py:402-459 | only the listed fault reasons are ever recorded |
| `Session.CaptureStateMachine.constructor` | ros2_ws/src/vt_realsense_capture/vt_realsense_capture/session.py:83-93 | idle, sequence zero, no requests |
| `Session.CaptureStateMachine.StartSession` | ros2_ws/src/vt_realsense_capture/vt_realsense_capture/session.py:170-187 | answers a cached start, refuses a conflict or a wrong state, or enters RECORDING and caches the transition |
| `Session.CaptureStateMachine.StopSession` | ros2_ws/src/vt_realsense_capture/vt_realsense_capture/session.py:189-207 | likewise for STOP, entering FINALIZING |
| `Session.CaptureStateMachine.StopWhileIdle` | ros2_ws/src/vt_realsense_capture/vt_realsense_capture/session.py:239-255 | likewise for STOP while idle, which leaves the state idle |
| `Session.CaptureStateMachine.BeginFinalizing` | ros2_ws/src/vt_realsense_capture/vt_realsense_capture/session.py:209-237 | the three internal causes of finalization need RECORDING and are not cached |
| `Session.CaptureStateMachine.FinalizePassed` | ros2_ws/src/vt_realsense_capture/vt_realsense_capture/session.py:257-259 | FINALIZING becomes COMPLETE |
| `Session.CaptureStateMachine.RememberRequest` | ros2_ws/src/vt_realsense_capture/vt_realsense_capture/session.py:159-168 | stores in insertion order and evicts oldest first down to the cache size |
| `Session.SequenceCountsChanges` | ros2_ws/src/vt_realsense_capture/vt_realsense_capture/session.py:120-143 | a command or internal event leaves the machine unchanged if and only if it is answered from the cache or refused; every other one advances the sequence by one and names the states before and after |
| `Session.CommandsAreIdempotent` | ros2_ws/src/vt_realsense_capture/vt_realsense_capture/session.py:145-157 | a repeated START returns the first transition and changes nothing; a STOP under the same id is a conflict |
| `OrderedDict.RememberKeys` | ros2_ws/src/vt_realsense_capture/vt_realsense_capture/session.py:165-167 | a bounded insertion-ordered cache only gains the stored key and stays within its size |
| `OrderedDict.RememberFinds` | ros2_ws/src/vt_realsense_capture/vt_realsense_capture/session.py:165-167 | a newly stored key is found, whatever eviction does |
| `CaptureController.CaptureController.constructor` | ros2_ws/src/vt_realsense_capture/vt_realsense_capture/controller.py:171-206 | idle machine, no recorder, nothing cached |
| `CaptureController.CaptureController.Accept` | ros2_ws/src/vt_realsense_capture/vt_realsense_capture/controller.py:216-242 | answers cached commands, refuses conflicts, else starts or stops, as the step says |
| `CaptureController.CaptureController.AcceptStart` | ros2_ws/src/vt_realsense_capture/vt_realsense_capture/controller.py:278-358 | new state and receipt of a start, failures at each of its stages included |
| `CaptureController.CaptureController.Begin` | ros2_ws/src/vt_realsense_capture/vt_realsense_capture/controller.py:331-358 | the part of a start after the spawn: transition, deadline, cached receipt |
| `CaptureController.CaptureController.AcceptStop` | ros2_ws/src/vt_realsense_capture/vt_realsense_capture/controller.py:382-418 | new state and receipt of a stop |
| `CaptureController.CaptureController.StartupFailed` | ros2_ws/src/vt_realsense_capture/vt_realsense_capture/controller.py:360-380 | a failed start is cached by the controller only |
| `CaptureController.CaptureController.DriveFinalization` | ros2_ws/src/vt_realsense_capture/vt_realsense_capture/controller.py:420-443 | stops the recorder and completes only on a confirmed exit |
| `CaptureController.CaptureController.Tick` | ros2_ws/src/vt_realsense_capture/vt_realsense_capture/controller.py:244-258 | notices exits and the deadline, and retries finalization |
| `CaptureController.CaptureController.Shutdown` | ros2_ws/src/vt_realsense_capture/vt_realsense_capture/controller.py:263-276 | finalizes an active session and reports the outcome |
| `CaptureLeaks.RecordersAliveExactly` | ros2_ws/src/vt_realsense_capture/vt_realsense_capture/controller.py:216-443 | over every run, ids reused or not, against any process: the started recorders without a confirmed exit number exactly the starts that leaked one (stale id, idle, spawned) plus one if the session under way has an unconfirmed recorder; so there is at most one if and only if that sum is at most one |
| `CaptureLeaks.NeverTwoAliveIff` | ros2_ws/src/vt_realsense_capture/vt_realsense_capture/controller.py:216-443 | a run never has two unconfirmed recorders at any point if and only if it leaks at most one and no session is under way once it has leaked one |
| `CaptureLeaks.NoReuseNeverLeaks` | ros2_ws/src/vt_realsense_capture/vt_realsense_capture/controller.py:278-332 | a client that never reuses a forgotten id leaks no recorder |
| `CaptureLeaks.AtMostOneRecorderAlive` | ros2_ws/src/vt_realsense_capture/vt_realsense_capture/controller.py:278-332 | for such a client, over every run, at most one started recorder lacks a confirmed exit |
| `CaptureLeaks.ShutdownTellsTheTruthIff` | ros2_ws/src/vt_realsense_capture/vt_realsense_capture/controller.py:263-276 | after any run: shutdown answers true exactly when no started recorder is left unconfirmed, whatever the process does, if and only if the run leaked no recorder |
| `CaptureLeaks.ShutdownAnswer` | ros2_ws/src/vt_realsense_capture/vt_realsense_capture/controller.py:263-276 | after any run and for each behaviour of the process: shutdown never fails, answers for the recorder of the session only, leaves exactly the leaked ones and that one unconfirmed, and tells the truth if and only if it answers false or nothing was leaked |
| `CaptureLeaks.ShutdownTellsTheTruth` | ros2_ws/src/vt_realsense_capture/vt_realsense_capture/controller.py:263-276 | under ownership shutdown keeps ownership and returns true if and only if no started recorder is left unconfirmed |
| `CaptureLeaks.ShutdownMissesLeak` | ros2_ws/src/vt_realsense_capture/vt_realsense_capture/controller.py:266-271 | a concrete run of three commands after which every shutdown answers true beside a live recorder |
| `CaptureLeaks.TicksArePunctual` | ros2_ws/src/vt_realsense_capture/vt_realsense_capture/controller.py:244-258 | over every run, ids reused or not: a tick never fails, and no session is still RECORDING past its deadline after it |
| `CaptureDeadlines.RecordingEndsAsPlanned` | ros2_ws/src/vt_realsense_capture/vt_realsense_capture/controller.py:244-258 | over every run, ids reused or not: the recording under way was opened by a START, and while the process runs a tick ends it exactly from that START's clock plus its planned seconds on, or plus the configured maximum if it plans none |
| `CaptureDeadlines.StartPlansTheEnd` | ros2_ws/src/vt_realsense_capture/vt_realsense_capture/controller.py:331-341 | a START that enters RECORDING fixes that time: a tick that finds the process running ends the recording if and only if it comes no earlier |
| `CaptureAnswers.StartIsAnswered` | ros2_ws/src/vt_realsense_capture/vt_realsense_capture/controller.py:278-358 | a fresh START is refused for its length or for a session under way; otherwise its receipt names the first stage that fails, and the session records exactly if none does |
| `CaptureAnswers.StopIsAnswered` | ros2_ws/src/vt_realsense_capture/vt_realsense_capture/controller.py:382-418 | a fresh STOP is answered in IDLE and RECORDING, refused elsewhere, and completes exactly if the stop confirmed an exit |
| `CaptureAnswers.TickIsAnswered` | ros2_ws/src/vt_realsense_capture/vt_realsense_capture/controller.py:244-258 | a tick ends a recording exactly if the process has exited or the time is up, and reports whether an exit was confirmed |
| `CaptureRuns.OwnedThroughoutIff` | ros2_ws/src/vt_realsense_capture/vt_realsense_capture/controller.py:216-443 | over every run, ids reused or not, ownership (RECORDING and FINALIZING own the one unconfirmed recorder, IDLE and COMPLETE none) holds throughout if and only if no accepted command breaks it |
| `CaptureRuns.RunKeepsOwned` | ros2_ws/src/vt_realsense_capture/vt_realsense_capture/controller.py:216-443 | over every run without reuse of forgotten ids ownership holds, and the machine remembers no id the controller never did |
| `CaptureRuns.AcceptKeepsOwnedIff` | ros2_ws/src/vt_realsense_capture/vt_realsense_capture/controller.py:216-242 | accepting a command breaks ownership if and only if its id is one only the machine remembers and it is a START that spawns while idle, or a STOP while recording that the machine remembers as a STOP and whose stop confirms the exit |
| `CaptureRuns.SafeWhateverHappensIff` | ros2_ws/src/vt_realsense_capture/vt_realsense_capture/controller.py:216-242 | as the caller can tell beforehand: a command keeps ownership whatever the spawn, clock and process answer if and only if its id is not stale, or it is neither a START of allowed length while idle nor a STOP remembered as a STOP while recording |
| `CaptureRuns.AcceptIsIdempotent` | ros2_ws/src/vt_realsense_capture/vt_realsense_capture/controller.py:220-238 | an accepted command repeated gets the same receipt and changes nothing; the other kind under its id is a conflict |
| `CaptureRuns.TickKeepsOwned` | ros2_ws/src/vt_realsense_capture/vt_realsense_capture/controller.py:244-258 | under ownership a tick keeps it, never fails, and leaves no session RECORDING past its deadline |
| `CaptureRuns.DriveKeepsOwned` | ros2_ws/src/vt_realsense_capture/vt_realsense_capture/controller.py:420-443 | driving finalization completes if and only if the stop confirmed an exit |
| `CaptureExits.CompleteRunSawExit` | ros2_ws/src/vt_realsense_capture/vt_realsense_capture/controller.py:244-276 | over every run, ids reused or not: in COMPLETE the recorder held has a confirmed result, and some operation of the run stopped that very recorder, the last process call of that stop observing the exit reported |
| `CaptureExits.CompletionSeesExitIff` | ros2_ws/src/vt_realsense_capture/vt_realsense_capture/controller.py:424-435 | in every state a run reaches, the operation that enters COMPLETE stops the recorder held, and that stop itself observes the exit if and only if it was not confirmed before |
| `CaptureExits.CompleteMeansExitObserved` | ros2_ws/src/vt_realsense_capture/vt_realsense_capture/controller.py:424-435 | under ownership it always does: the entering step makes process calls and the last of them observed the exit it reports |
| `CaptureExits.CompletionCanBeSilent` | ros2_ws/src/vt_realsense_capture/vt_realsense_capture/controller.py:382-435 | a concrete run in which a stale STOP confirms the exit while RECORDING and a later tick enters COMPLETE with no process call of its own |
| `CaptureRuns.OwnedMeansAtMostOne` | ros2_ws/src/vt_realsense_capture/vt_realsense_capture/controller.py:331 | ownership bounds the unconfirmed recorders by one, and by zero outside RECORDING and FINALIZING |
| `CaptureRuns.OnlyFourStates` | ros2_ws/src/vt_realsense_capture/vt_realsense_capture/controller.py:216-443 | PREFLIGHT, WARMING_UP and INVALID are unreachable over every run, with or without id reuse |
| `CaptureRuns.StaleStartLeaks` | ros2_ws/src/vt_realsense_capture/vt_realsense_capture/controller.py:331-332 | a start under an id only the machine remembers spawns a recorder and leaves the machine idle |
| `CaptureRuns.ReuseLeavesTwoRecorders` | ros2_ws/src/vt_realsense_capture/vt_realsense_capture/controller.py:278-380 | a concrete run of four commands that reuses a forgotten id and leaves two recorders alive |
| `TrailRuns.DrawnRuns` | ros2_ws/src/vt_vive_tracker_gui/vt_vive_tracker_gui/canvas3d.py:253-272 | the runs drawn of any projected trail: all points that project if they are at most 96, else exactly 96, in order and evenly sampled, per run by proportional shares that keep its endpoints, or over all endpoints if there are too many runs; no run is empty and none bridges a point that does not project |
| `TrailRuns.VisibleRuns` | ros2_ws/src/vt_vive_tracker_gui/vt_vive_tracker_gui/canvas3d.py:253-271 | cuts a trail into its maximal unbroken stretches, none of them empty, in order and missing no point that projects |
| `TrailRuns.StretchesAreUnique` | ros2_ws/src/vt_vive_tracker_gui/vt_vive_tracker_gui/canvas3d.py:253-271 | there is only one such cut: a point lies in the same stretch whichever way it is found |
| `TrailBudget.BoundedTrailRuns` | ros2_ws/src/vt_vive_tracker_gui/vt_vive_tracker_gui/canvas3d.py:66-105 | within 96 points nothing changes; above, exactly 96 remain, each output run a subsequence of one input run, in order; in the apportioned case every quota lies between minimum and length, shares are proportional, and each run keeps its endpoints and is sampled evenly; otherwise what remains is an even sample of all endpoints, grouped by run, the very first and the very last among them |
| `TrailBudget.ApportionedRuns` | ros2_ws/src/vt_vive_tracker_gui/vt_vive_tracker_gui/canvas3d.py:72-105 | every run keeps between its minimum and its length, evenly sampled with both endpoints included, and the total is exactly 96 |
| `TrailBudget.SampledEndpointRuns` | ros2_ws/src/vt_vive_tracker_gui/vt_vive_tracker_gui/canvas3d.py:73-83 | with too many runs, 96 endpoints survive, an even sample of all of them, unmixed and in order: each output run is the first point, the last point or both of its input run, and the first point of the first run and the last of the last stay |
| `TrailBudget.AddPointKeeps` | ros2_ws/src/vt_vive_tracker_gui/vt_vive_tracker_gui/canvas3d.py:80-83 | grouping the sampled endpoints by run never mixes two runs and keeps their order |
| `Apportionment.Apportion` | ros2_ws/src/vt_vive_tracker_gui/vt_vive_tracker_gui/canvas3d.py:85-100 | largest-remainder apportionment: hands out the whole budget, exceeds no capacity, and bumps those with the larger remainder, ties to the earlier index |
| `Apportionment.LeftoverGoesToNonzero` | ros2_ws/src/vt_vive_tracker_gui/vt_vive_tracker_gui/canvas3d.py:93-100 | pigeonhole: as many indices as there are leftover points have nonzero remainders |
| `Apportionment.RemaindersAddUp` | ros2_ws/src/vt_vive_tracker_gui/vt_vive_tracker_gui/canvas3d.py:90-96 | rounding down loses exactly the remainders, which sum to a multiple of the total |
| `Apportionment.NonzeroRemainderLeavesRoom` | ros2_ws/src/vt_vive_tracker_gui/vt_vive_tracker_gui/canvas3d.py:97-100 | a share never exceeds its capacity, and stays below it if its remainder is not zero |
| `Apportionment.RankIsRanked` | ros2_ws/src/vt_vive_tracker_gui/vt_vive_tracker_gui/canvas3d.py:97-99 | the ranking sorts by falling remainder, then index |
| `Apportionment.Bump` | ros2_ws/src/vt_vive_tracker_gui/vt_vive_tracker_gui/canvas3d.py:97-100 | one more point to exactly the first leftover indices of the ranking |
| `TrailSampling.SampleIndexIncreases` | ros2_ws/src/vt_vive_tracker_gui/vt_vive_tracker_gui/canvas3d.py:58-63 | rounded-division sample indices strictly increase |
| `TrailSampling.SamplingIsEven` | ros2_ws/src/vt_vive_tracker_gui/vt_vive_tracker_gui/canvas3d.py:51-63 | each point sampled stands at the position nearest to even spacing, the later of two equally near |
| `TrailSampling.EvenSampleIsUnique` | ros2_ws/src/vt_vive_tracker_gui/vt_vive_tracker_gui/canvas3d.py:51-63 | that alone determines the sample |
| `TrailSampling.SamplingPicks` | ros2_ws/src/vt_vive_tracker_gui/vt_vive_tracker_gui/canvas3d.py:51-63 | a sample keeps order and endpoints and has the asked-for number of points when there are enough |
| `TrailSampling.SamplingIsSubsequence` | ros2_ws/src/vt_vive_tracker_gui/vt_vive_tracker_gui/canvas3d.py:51-63 | a sample is a subsequence |
| `QuaternionRoundTrip.QuaternionToMatrixAndBack` | tools/tracker_camera_calibration/src/vt_tracker_camera_calib/transforms.py:39-110 | every quaternion of non-negligible norm: its matrix is accepted and an exact rotation, and what comes back is the unit quaternion of the same direction or its negation, with w >= 0; it is the normalised one exactly if w > 0 or the component the branch reads is positive |
| `RotationMeaning.SignThatComesBack` | tools/tracker_camera_calibration/src/vt_tracker_camera_calib/transforms.py:39-110 | what comes back has w positive, or w zero and the first of its largest components positive |
| `RotationMeaning.RefusedIff` | tools/tracker_camera_calibration/src/vt_tracker_camera_calib/transforms.py:39-64 | a quaternion is refused exactly if its norm is below 1e-12 |
| `RotationMeaning.MatrixTurns` | tools/tracker_camera_calibration/src/vt_tracker_camera_calib/transforms.py:51-64 | the matrix turns every vector as the quaternion does, after Euler and Rodrigues |
| `QuaternionRoundTrip.MatrixToQuaternionAndBack` | tools/tracker_camera_calibration/src/vt_tracker_camera_calib/transforms.py:39-110 | every exact rotation comes back from its quaternion unchanged, in all four branches; the quaternion is a unit one with w >= 0 |
| `QuaternionRoundTrip.AcceptedGivesUnit` | tools/tracker_camera_calibration/src/vt_tracker_camera_calib/transforms.py:24-36 | a matrix gives a quaternion if and only if it passes the tolerance check, exact rotation or not, and then a unit one with w >= 0 |
| `RotationMeaning.AcceptedIff` | tools/tracker_camera_calibration/src/vt_tracker_camera_calib/transforms.py:24-36 | the tolerance check passes exactly if the columns have squared lengths within 0.0000101 of one, inner products within 0.0000001 of zero, and the determinant, as a sum over permutations, is within 0.0000001 of one |
| `QuaternionRoundTrip.RawOfRow` | tools/tracker_camera_calibration/src/vt_tracker_camera_calib/transforms.py:67-109 | before normalisation the quaternion is the original with the component the branch reads made positive |
| `QuaternionRoundTrip.RawHasProducts` | tools/tracker_camera_calibration/src/vt_tracker_camera_calib/transforms.py:67-109 | products of the raw components are the ones the matrix shows, whichever branch computed them |
| `QuaternionRoundTrip.RotationMinors` | tools/tracker_camera_calibration/src/vt_tracker_camera_calib/transforms.py:67-109 | for a rotation, one row of component products determines all of them |
| `Rotations.ScaleIsPositive` | tools/tracker_camera_calibration/src/vt_tracker_camera_calib/transforms.py:68-101 | the divisor never vanishes, for any matrix and branch |
| `RotationRoundTrip.NormalizedIsUnit` | tools/tracker_camera_calibration/src/vt_tracker_camera_calib/transforms.py:39-48 | normalisation gives a unit quaternion with w >= 0 along the same line |
| `RotationRoundTrip.MatrixOfUnitIsRotation` | tools/tracker_camera_calibration/src/vt_tracker_camera_calib/transforms.py:51-61 | the matrix of a unit quaternion is orthonormal with determinant one and passes the tolerance check |
| `RotationFacts.RotationCofactors` | tools/tracker_camera_calibration/src/vt_tracker_camera_calib/transforms.py:24-36 | entries of a rotation equal their cofactors |
| `TopicValidationRuns.VerdictDecidesTrace` | ros2_ws/src/vt_vive_tracker/vt_vive_tracker/validate_topics.py:97-223 | the online verdict is PASS if and only if the whole trace has, for every role, one valid id of its own, increasing and matching stamps, gaps within the limit, no drops, and the required rates and ratio |
| `TopicValidationRuns.RoleVerdict` | ros2_ws/src/vt_vive_tracker/vt_vive_tracker/validate_topics.py:173-199 | one role's counters pass without swaps if and only if its messages do |
| `TopicValidationRuns.SwapsAreSeen` | ros2_ws/src/vt_vive_tracker/vt_vive_tracker/validate_topics.py:97-110 | no identity swap is counted if and only if every message names its role and one valid id |
| `TopicValidationRuns.DisorderIsSeen` | ros2_ws/src/vt_vive_tracker/vt_vive_tracker/validate_topics.py:118-125 | no disorder is counted if and only if monotonic stamps strictly increase |
| `TopicValidationRuns.GapsAreSeen` | ros2_ws/src/vt_vive_tracker/vt_vive_tracker/validate_topics.py:128-143 | while stamps increase, the largest gap is within the limit if and only if every gap between consecutive valid poses is |
| `TopicValidationRuns.StampSetsAreExact` | ros2_ws/src/vt_vive_tracker/vt_vive_tracker/validate_topics.py:128-130 | the stamp sets are those of the valid samples and of the pose messages |
| `TopicValidationRuns.SessionSplits` | ros2_ws/src/vt_vive_tracker/vt_vive_tracker/validate_topics.py:91-159 | the session's counters per role are those of that role's messages alone, and swaps add up |
| `TopicValidationRuns.NoCollisionsMeansApart` | ros2_ws/src/vt_vive_tracker/vt_vive_tracker/validate_topics.py:162-171 | no identity collision if and only if no id is named under two roles |
| `TopicValidator.TopicValidationSession.constructor` | ros2_ws/src/vt_vive_tracker/vt_vive_tracker/validate_topics.py:64-89 | fresh counters and no swaps |
| `TopicValidator.TopicValidationSession.ObserveIdentity` | ros2_ws/src/vt_vive_tracker/vt_vive_tracker/validate_topics.py:97-110 | first id remembered; a wrong role, an invalid or a changed id counts as a swap |
| `TopicValidator.TopicValidationSession.ObserveSample` | ros2_ws/src/vt_vive_tracker/vt_vive_tracker/validate_topics.py:112-143 | one sample message; an unknown topic role is refused and changes nothing |
| `TopicValidator.TopicValidationSession.ObservePose` | ros2_ws/src/vt_vive_tracker/vt_vive_tracker/validate_topics.py:145-148 | one pose message; an unknown topic role is refused |
| `TopicValidator.TopicValidationSession.ObserveStatus` | ros2_ws/src/vt_vive_tracker/vt_vive_tracker/validate_topics.py:150-159 | one status message; an unknown topic role is refused |
| `TopicValidator.TopicValidationSession.MakeReport` | ros2_ws/src/vt_vive_tracker/vt_vive_tracker/validate_topics.py:161-223 | verdict from the unrounded figures, and the figures of the present counters rounded to six digits; nothing changes |
| `TopicReports.ReportTells` | ros2_ws/src/vt_vive_tracker/vt_vive_tracker/validate_topics.py:161-223 | over every trace each figure of a role's report is the one its name says, of that role's messages alone: counts, first valid id, rates per second, ratio, largest gap, drops, disorder and mismatches |
| `TopicReports.SwapsTell` | ros2_ws/src/vt_vive_tracker/vt_vive_tracker/validate_topics.py:97-110 | over every trace the swaps reported are the messages that name another role or no valid id, plus how often a role's id differs from the one just before it |
| `TopicReports.CollisionsTell` | ros2_ws/src/vt_vive_tracker/vt_vive_tracker/validate_topics.py:161-171 | over every trace the collisions reported are the roles whose first id is also an earlier role's |
| `TopicValidator.RoundedIsNearest` | ros2_ws/src/vt_vive_tracker/vt_vive_tracker/validate_topics.py:207-210 | a reported figure is a whole number of millionths, none is nearer to the exact one, and it is even if another is as near |
| `TrailWindow.SnapshotsShowTheWindow` | ros2_ws/src/vt_vive_tracker/vt_vive_tracker/visualization_model.py:109-132 | if no earlier snapshot was taken at a later time, a snapshot shows exactly the accepted poses of the last three seconds among the newest max_trail_points, and counts those of the last second |
| `TrailWindow.TrailIsIdealIff` | ros2_ws/src/vt_vive_tracker/vt_vive_tracker/visualization_model.py:185-192 | a snapshot shows that trail if and only if nothing was pruned, the newest pose ever pruned is too old now as well, or the cap had pushed it out |
| `TrailWindow.RateIsIdealIff` | ros2_ws/src/vt_vive_tracker/vt_vive_tracker/visualization_model.py:190-192 | the same for the receive rate |
| `TrailWindow.TrailKept` | ros2_ws/src/vt_vive_tracker/vt_vive_tracker/visualization_model.py:128-132 | what is kept is always the accepted poses past those pruned and those the cap pushed out |
| `TrailWindow.RateKept` | ros2_ws/src/vt_vive_tracker/vt_vive_tracker/visualization_model.py:128-132 | the same for arrival times |
| `TrailWindow.AcceptedInOrder` | ros2_ws/src/vt_vive_tracker/vt_vive_tracker/visualization_model.py:123-127 | accepted poses arrive in order |
| `TrailWindow.LateSnapshotLosesPoses` | ros2_ws/src/vt_vive_tracker/vt_vive_tracker/visualization_model.py:185-192 | a concrete run in which a snapshot from the future hides a recent pose |
| `VisualizationModel.RoleState.Prune` | ros2_ws/src/vt_vive_tracker/vt_vive_tracker/visualization_model.py:186-192 | drops exactly the leading entries before each cutoff |
| `VisualizationModel.TrackerVisualizationModel.constructor` | ros2_ws/src/vt_vive_tracker/vt_vive_tracker/visualization_model.py:87-107 | empty windows |
| `VisualizationModel.TrackerVisualizationModel.ObservePose` | ros2_ws/src/vt_vive_tracker/vt_vive_tracker/visualization_model.py:109-132 | accepts exactly a known role, a well-formed pose and an arrival in order, and records it |
| `VisualizationModel.TrackerVisualizationModel.ObserveStatus` | ros2_ws/src/vt_vive_tracker/vt_vive_tracker/visualization_model.py:134-167 | accepts exactly a known role and values in range |
| `VisualizationModel.TrackerVisualizationModel.Snapshots` | ros2_ws/src/vt_vive_tracker/vt_vive_tracker/visualization_model.py:194-226 | prunes and shows every role; a negative time is refused and changes nothing |
| `VisualizationModel.AllPruned` | ros2_ws/src/vt_vive_tracker/vt_vive_tracker/visualization_model.py:201-226 | the loop over roles prunes each from its own state and shows it |
| `VisualizationModel.ShownInOrder` | ros2_ws/src/vt_vive_tracker/vt_vive_tracker/visualization_model.py:201-226 | one snapshot per role: left wrist, right wrist, torso |
| `VisualizationRuns.ModelSplits` | ros2_ws/src/vt_vive_tracker/vt_vive_tracker/visualization_model.py:109-226 | over every run of calls, accepted or refused, each role's window is the one of its own accepted events alone |
| `VisualizationRuns.HealthTells` | ros2_ws/src/vt_vive_tracker/vt_vive_tracker/visualization_model.py:169-184 | over every run: a role is offline if it has no accepted pose, none in the last second, or a last status saying disconnected; else delayed if none in the last quarter second, without a status, or with one saying that no pose or a wrong one comes; else fresh; and it shows its last accepted pose, that pose's age and its last status |
| `VisualizationRuns.ViewerSeesTheWindow` | ros2_ws/src/vt_vive_tracker/vt_vive_tracker/visualization_model.py:194-226 | over every run of the three-role model, if no earlier snapshot was taken at a later time, each role shows exactly its accepted poses of the last three seconds among the newest max_trail_points, and as rate the number of those of the last second |
| `VisualizationRuns.TrailShownIff` | ros2_ws/src/vt_vive_tracker/vt_vive_tracker/visualization_model.py:185-226 | for any snapshot times, a role shows exactly that trail if and only if earlier pruning was harmless to its own window |
| `VisualizationRuns.RateShownIff` | ros2_ws/src/vt_vive_tracker/vt_vive_tracker/visualization_model.py:190-226 | for any snapshot times, a role shows that rate if and only if earlier pruning was harmless to its own window |
| `TrackerSilence.SnapshotShowsSilenceIff` | ros2_ws/src/vt_vive_tracker/vt_vive_tracker/health.py:169-183 | for every trace and time, with no assumption on clocks: a snapshot shows a role disconnected exactly when it is silent, unless an earlier snapshot found it silent, every report accepted since was invalid and soon after the last valid pose, and the last one is recent |
| `TrackerSilence.DisconnectedIffSilenced` | ros2_ws/src/vt_vive_tracker/vt_vive_tracker/health.py:106-183 | over every run, a role that has reported is disconnected if and only if some snapshot found it silent and every report accepted since was an invalid one stamped within the timeout after the last valid pose |
| `TrackerSilence.SnapshotShowsSilence` | ros2_ws/src/vt_vive_tracker/vt_vive_tracker/health.py:169-183 | per role: if none of its invalid reports is stamped before an earlier snapshot and no earlier snapshot was taken later than now, it is shown disconnected if and only if it never reported or its last report is at least the timeout old |
| `TrackerSilence.EarlySnapshotMisleads` | ros2_ws/src/vt_vive_tracker/vt_vive_tracker/health.py:145-159 | a concrete run, its snapshots in order of time, in which an invalid report stamped before a snapshot and filed after it stays beside a role shown disconnected |
| `TrackerStates.StateIsTheLastSettled` | ros2_ws/src/vt_vive_tracker/vt_vive_tracker/health.py:112-183 | over every trace a role's link state is the one its last settling event means: a valid sample, a sample without a pose, an invalid report too long after the last valid pose, or a snapshot that finds it silent |
| `TrackerStates.StatusIsTheLast` | ros2_ws/src/vt_vive_tracker/vt_vive_tracker/health.py:112-133 | over every trace a role keeps its tracker id and shows the tracking status of its last accepted sample |
| `TrackerStates.AcceptsIff` | ros2_ws/src/vt_vive_tracker/vt_vive_tracker/health.py:106-159 | a report is accepted exactly if it names the role's tracker and is stamped no earlier than the last one |
| `TrackerHealth.RequestsAreExact` | ros2_ws/src/vt_vive_tracker/vt_vive_tracker/health.py:185-189 | over every run a publication is requested if and only if some role's state changed since the last request was consumed |
| `TrackerSilence.RunKeepsCoherent` | ros2_ws/src/vt_vive_tracker/vt_vive_tracker/health.py:112-183 | over every run, with no assumption on clocks, each role's flags and stamps are exactly those of its accepted reports and valid poses |
| `TrackerHealth.CountersAreExact` | ros2_ws/src/vt_vive_tracker/vt_vive_tracker/health.py:112-167 | over every run each role's valid, invalid and drop counters equal the number of its accepted events of that kind: nothing resets them |
| `SampleQueue.TrackerHealthBook.constructor` | ros2_ws/src/vt_vive_tracker/vt_vive_tracker/health.py:59-81 | every role disconnected, all counters zero |
| `SampleQueue.TrackerHealthBook.ObserveSample` | ros2_ws/src/vt_vive_tracker/vt_vive_tracker/health.py:112-133 | one valid report: new book, refusals, and whether the state changed |
| `SampleQueue.TrackerHealthBook.ObserveInvalid` | ros2_ws/src/vt_vive_tracker/vt_vive_tracker/health.py:135-159 | one invalid report: new book, refusals, and whether the state changed |
| `SampleQueue.TrackerHealthBook.RecordDrop` | ros2_ws/src/vt_vive_tracker/vt_vive_tracker/health.py:161-167 | one more drop for the role, or an unknown role |
| `SampleQueue.TrackerHealthBook.Snapshot` | ros2_ws/src/vt_vive_tracker/vt_vive_tracker/health.py:169-183 | checks every role for silence and returns all; a negative time is refused |
| `SampleQueue.TrackerHealthBook.ConsumeStatusPublishRequest` | ros2_ws/src/vt_vive_tracker/vt_vive_tracker/health.py:185-189 | returns and clears the request |
| `SampleQueue.BoundedSampleQueue.constructor` | ros2_ws/src/vt_vive_tracker/vt_vive_tracker/health.py:193-206 | an empty queue |
| `SampleQueue.BoundedSampleQueue.Put` | ros2_ws/src/vt_vive_tracker/vt_vive_tracker/health.py:208-215 | keeps the newest samples up to capacity and charges the one pushed out to its role |
| `SampleQueue.BoundedSampleQueue.Drain` | ros2_ws/src/vt_vive_tracker/vt_vive_tracker/health.py:217-221 | returns everything in order and empties the queue |
| `SampleQueueRuns.DrainsReturnTheNewest` | ros2_ws/src/vt_vive_tracker/vt_vive_tracker/health.py:208-221 | over any interleaving, each drain returns exactly the newest capacity samples put since the one before, and the queue holds the newest since the last |
| `SampleQueueRuns.OnlyTheOldestAreLost` | ros2_ws/src/vt_vive_tracker/vt_vive_tracker/health.py:208-221 | exactly the rest of each batch was pushed out, oldest first |
| `SampleQueueRuns.NothingDisappears` | ros2_ws/src/vt_vive_tracker/vt_vive_tracker/health.py:208-221 | drained samples followed by the contents are the samples put without the lost ones, in order |
| `SampleQueueRuns.DropsAreCharged` | ros2_ws/src/vt_vive_tracker/vt_vive_tracker/health.py:161-167 | over any interleaving of queue and book calls, each role's drop counter grows by exactly the number of its samples lost and of its drops recorded on the book itself |
| `SampleQueueRuns.BookSeesTheRun` | ros2_ws/src/vt_vive_tracker/vt_vive_tracker/health.py:112-215 | over any interleaving, the book beside the queue is the book of its own calls and one drop per sample pushed out, so what is proved of the book alone holds of it |
| `SampleQueueRuns.RequestsBesideTheQueue` | ros2_ws/src/vt_vive_tracker/vt_vive_tracker/health.py:185-215 | over any interleaving a publication is requested if and only if some role's link state changed since the last request was consumed: drops ask for none |
| `TopicAllowlist.ValidatorInvertsGenerator` | ros2_ws/src/vt_realsense_capture/vt_realsense_capture/recorder.py:126-156 | the validator accepts exactly the lists the generator makes for three cameras and some extra topics, and the list determines both up to order |
| `TopicAllowlist.GeneratedIsAccepted` | ros2_ws/src/vt_realsense_capture/vt_realsense_capture/recorder.py:58-84 | a generated list is accepted, and its cameras and extra topics are read back, sorted |
| `AllowlistTopics.GeneratorAcceptsIff` | ros2_ws/src/vt_realsense_capture/vt_realsense_capture/recorder.py:58-84 | the generator accepts distinct safe camera names and distinct safe extra topics beside the core, and nothing else |
| `AllowlistTopics.GeneratedTopics` | ros2_ws/src/vt_realsense_capture/vt_realsense_capture/recorder.py:58-84 | the topics generated, name by name: four for each camera in the order of the names, the three trackers, the extra topics in order |
| `TopicAllowlist.AcceptedIsGenerated` | ros2_ws/src/vt_realsense_capture/vt_realsense_capture/recorder.py:126-156 | an accepted list is what the generator makes from the names read back and the remaining topics |
| `TopicAllowlist.CoreFacts` | ros2_ws/src/vt_realsense_capture/vt_realsense_capture/bag_contract.py:26-46 | the fifteen core topics of three distinct cameras are safe names without duplicates, whatever the cameras are called |
| `TopicAllowlist.NamesRecovered` | ros2_ws/src/vt_realsense_capture/vt_realsense_capture/recorder.py:134-143 | reading names off the first twelve topics gives the cameras in sorted order |
| `TopicAllowlist.CameraTopicsAreNotTracker` | ros2_ws/src/vt_realsense_capture/vt_realsense_capture/bag_contract.py:26-35 | no camera topic is a tracker topic, even for a camera named like the tracker namespace |
| `TopicNames.SortSorts` | ros2_ws/src/vt_realsense_capture/vt_realsense_capture/bag_contract.py:29 | sorting orders names by code points and keeps them all |
| `TopicNames.PrefixToken` | ros2_ws/src/vt_realsense_capture/vt_realsense_capture/recorder.py:23-25 | a token after a slash, before an absolute name, is an absolute name |
| `TopicNames.TokenFirst` | ros2_ws/src/vt_realsense_capture/vt_realsense_capture/recorder.py:136 | splitting at slashes gives the camera name second |

## Left out

- ROS nodes, publishers, quality of service, launch files, command lines, YAML and JSON loading, bag reading
  and device access: input, output and unseen libraries.
- File-system safety, hashing, export directories, the storage benchmark and the recorder's log file: foreign
  calls.
- Hand-eye solvers, board detection, transform means and spherical interpolation: numerical libraries.
- Drawing, projection, colours and labels of the user interface.
- Event, status and session sinks: taken to return normally and change nothing.
- Threads and locks: calls are steps taken one at a time, as the single worker that owns the controller takes
  them.
- Floating point: rotations, rates and ratios are exact reals, and the report's figures are rounded from those.
- Python checks of types (integers that are not booleans, instances of message classes) where the model's types
  already exclude the other values.
- Constructors take settings already in range (positive durations, capacities, timeouts and cache sizes); the
  errors they raise for others are not modelled.
- Clocks, process answers, spawn results and session ids are parameters of each call; square roots are parameters
  constrained to be nonnegative and square to the radicand.
- Session ids the factory returns are assumed not blank (`SessionNamed`): the repository's own factory never
  returns a blank one.
- Message fields copied unchanged into a timing message, apart from the group times and their spread.
- BuildTiming: models the group time and callback spread only; the copied fields would be easy members.
- BoundedTrailRuns: over budget, asks for nonempty runs. Those are what its only caller builds, which
  `TrailRuns.VisibleRuns` proves; on an empty run the source itself fails to find an endpoint.
- Methods of one source function are split (`push`, `finalize_ready`, `stop`, `_accept_start`,
  `observe_sample`, `report`, `_gather_role`, `_bounded_trail_runs`), each with its own contract.
- The mutable records of the health book are values in one field of the book, reassigned by its methods; so are
  the entries of the two request caches and the pending keys of the aggregator.
- The public alias `finalize_failed`, status reports and the periodic status: no caller reaches the first, and
  the others change nothing.
