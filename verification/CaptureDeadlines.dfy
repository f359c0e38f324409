/**
 When a recording ends by time
 (ros2_ws/src/vt_realsense_capture/vt_realsense_capture/controller.py, lines 244-258 and 331-341):
 exactly at the duration planned by the START that opened it, counted from the clock read at that START.
 */
module CaptureDeadlines {
  import opened Prelude
  import opened OrderedDict
  import opened StopProtocol
  import opened StopRuns
  import opened Recorder
  import opened Session
  import opened CaptureRules
  import opened CaptureRuns
  import opened CaptureLeaks

  /** The seconds a START asks for, with the configured maximum in place of none. */
  function PlannedSeconds(c: Command, maxSeconds: nat): nat {
    if c.plannedSeconds == 0 then maxSeconds else c.plannedSeconds
  }

  /** When a START with this clock reading should end by time. */
  function PlannedEnd(c: Command, now: int, maxSeconds: nat): int {
    now + PlannedSeconds(c, maxSeconds) * 1_000_000_000
  }

  /** A tick at `t` that finds the process running. */
  function QuietTick(t: int, stop: StopScript): TickScript {
    TickScript(StillRunning, t, stop)
  }

  /** Whatever the stop script, such a tick ends the recording exactly from `end` on. */
  ghost predicate EndsByTimeAt(s: ControllerState, end: int) {
    forall t, stop :: TickStep(s, QuietTick(t, stop)).state.machine.state != Recording <==> t >= end
  }

  /** The tick does what the deadline says, if the process is running. */
  lemma TickObeysDeadline(s: ControllerState)
    requires s.machine.state == Recording && s.recorder.Some? && s.recorder.value.Some? && s.deadline.Some?
    ensures EndsByTimeAt(s, s.deadline.value)
  {
  }

  /** A START that enters RECORDING plans its end. */
  lemma StartPlansTheEnd(s: ControllerState, c: Command, script: AcceptScript)
    requires c.kind == Start && s.machine.state != Recording
    requires AcceptStep(s, c, script).state.machine.state == Recording
    ensures EndsByTimeAt(AcceptStep(s, c, script).state, PlannedEnd(c, script.now, s.maxSeconds))
  {
    var s' := AcceptStep(s, c, script).state;
    var p := Prepared(s);
    assert s' == SpawnStep(p, c, script.sessionId.value, script).state;
    assert s'.recorder == Some(Some(STARTED));
    TickObeysDeadline(s');
  }

  // ----- Over runs -----

  /** Operation `k` is the START that opened the recording still under way after the run. */
  ghost predicate OpenedBy(cacheSize: nat, maxSeconds: nat, ops: seq<Op>, k: nat) {
    && k < |ops| && ops[k].Accept? && ops[k].command.kind == Start
    && After(cacheSize, maxSeconds, ops[..k]).machine.state != Recording
    && forall j :: k < j <= |ops| ==> After(cacheSize, maxSeconds, ops[..j]).machine.state == Recording
  }

  /** Only a START enters RECORDING, and nothing that stays there moves the deadline. */
  lemma RecordingKeepsItsPlan(s: ControllerState, op: Op)
    requires StepOp(s, op).machine.state == Recording
    ensures s.machine.state != Recording ==> op.Accept? && op.command.kind == Start
    ensures s.machine.state == Recording ==> StepOp(s, op).deadline == s.deadline
  {
  }

  lemma MaximumKept(s: ControllerState, op: Op)
    ensures StepOp(s, op).maxSeconds == s.maxSeconds
  {
  }

  lemma {:induction false} MaximumStays(cacheSize: nat, maxSeconds: nat, ops: seq<Op>)
    ensures After(cacheSize, maxSeconds, ops).maxSeconds == maxSeconds
  {
    if ops != [] {
      MaximumStays(cacheSize, maxSeconds, ops[..|ops| - 1]);
      MaximumKept(After(cacheSize, maxSeconds, ops[..|ops| - 1]), ops[|ops| - 1]);
    }
  }

  lemma PlanIsTheDeadline(s: ControllerState, c: Command, script: AcceptScript)
    requires c.kind == Start && s.machine.state != Recording
    requires AcceptStep(s, c, script).state.machine.state == Recording
    ensures AcceptStep(s, c, script).state.deadline == Some(PlannedEnd(c, script.now, s.maxSeconds))
  {
  }

  /** The deadline after the run is the planned end of that START. */
  ghost predicate Planned(cacheSize: nat, maxSeconds: nat, ops: seq<Op>, start: Op) {
    && start.Accept?
    && After(cacheSize, maxSeconds, ops).deadline == Some(PlannedEnd(start.command, start.script.now, maxSeconds))
  }

  lemma PlannedNow(cacheSize: nat, maxSeconds: nat, ops: seq<Op>)
    requires ops != [] && OpenedBy(cacheSize, maxSeconds, ops, |ops| - 1)
    ensures Planned(cacheSize, maxSeconds, ops, ops[|ops| - 1])
  {
    var init, op := ops[..|ops| - 1], ops[|ops| - 1];
    MaximumStays(cacheSize, maxSeconds, init);
    assert ops[..|ops|] == ops;
    PlanIsTheDeadline(After(cacheSize, maxSeconds, init), op.command, op.script);
  }

  lemma PlannedStill(cacheSize: nat, maxSeconds: nat, ops: seq<Op>, start: Op)
    requires ops != [] && Planned(cacheSize, maxSeconds, ops[..|ops| - 1], start)
    requires After(cacheSize, maxSeconds, ops[..|ops| - 1]).machine.state == Recording
    requires After(cacheSize, maxSeconds, ops).machine.state == Recording
    ensures Planned(cacheSize, maxSeconds, ops, start)
  {
    RecordingKeepsItsPlan(After(cacheSize, maxSeconds, ops[..|ops| - 1]), ops[|ops| - 1]);
  }

  /** After the START, until the recording ends, the deadline is its plan. */
  lemma {:induction false} DeadlineIsThePlan(cacheSize: nat, maxSeconds: nat, ops: seq<Op>, k: nat)
    requires OpenedBy(cacheSize, maxSeconds, ops, k)
    ensures Planned(cacheSize, maxSeconds, ops, ops[k])
    decreases |ops|
  {
    if k == |ops| - 1 {
      PlannedNow(cacheSize, maxSeconds, ops);
    } else {
      OpenedEarlier(cacheSize, maxSeconds, ops, k);
      DeadlineIsThePlan(cacheSize, maxSeconds, ops[..|ops| - 1], k);
      PlannedStill(cacheSize, maxSeconds, ops, ops[k]);
    }
  }

  lemma OpenedEarlier(cacheSize: nat, maxSeconds: nat, ops: seq<Op>, k: nat)
    requires OpenedBy(cacheSize, maxSeconds, ops, k) && k < |ops| - 1
    ensures OpenedBy(cacheSize, maxSeconds, ops[..|ops| - 1], k)
    ensures After(cacheSize, maxSeconds, ops[..|ops| - 1]).machine.state == Recording
    ensures After(cacheSize, maxSeconds, ops).machine.state == Recording
  {
    var init := ops[..|ops| - 1];
    assert init[..k] == ops[..k] && ops[..|ops|] == ops;
    forall j | k < j <= |init| ensures After(cacheSize, maxSeconds, init[..j]).machine.state == Recording {
      assert init[..j] == ops[..j];
    }
    assert After(cacheSize, maxSeconds, init[..|init|]).machine.state == Recording;
    assert init[..|init|] == init;
  }

  /** Every recording was opened by some START. */
  lemma {:induction false} SomeStartOpened(cacheSize: nat, maxSeconds: nat, ops: seq<Op>)
    requires After(cacheSize, maxSeconds, ops).machine.state == Recording
    ensures exists k: nat :: OpenedBy(cacheSize, maxSeconds, ops, k)
  {
    var n := |ops| - 1;
    var init := ops[..n];
    assert ops[..|ops|] == ops;
    RecordingKeepsItsPlan(After(cacheSize, maxSeconds, init), ops[n]);
    if After(cacheSize, maxSeconds, init).machine.state == Recording {
      SomeStartOpened(cacheSize, maxSeconds, init);
      var k: nat :| OpenedBy(cacheSize, maxSeconds, init, k);
      OpenedStill(cacheSize, maxSeconds, ops, k);
    } else {
      assert OpenedBy(cacheSize, maxSeconds, ops, n);
    }
  }

  lemma OpenedStill(cacheSize: nat, maxSeconds: nat, ops: seq<Op>, k: nat)
    requires ops != [] && OpenedBy(cacheSize, maxSeconds, ops[..|ops| - 1], k)
    requires After(cacheSize, maxSeconds, ops).machine.state == Recording
    ensures OpenedBy(cacheSize, maxSeconds, ops, k)
  {
    var init := ops[..|ops| - 1];
    assert init[..k] == ops[..k] && init[k] == ops[k] && ops[..|ops|] == ops;
    forall j | k < j <= |ops| ensures After(cacheSize, maxSeconds, ops[..j]).machine.state == Recording {
      if j < |ops| {
        assert init[..j] == ops[..j];
        assert After(cacheSize, maxSeconds, init[..j]).machine.state == Recording;
      }
    }
  }

  lemma EndsAsPlanned(cacheSize: nat, maxSeconds: nat, ops: seq<Op>, k: nat)
    requires cacheSize > 0 && WellFormedRun(ops) && OpenedBy(cacheSize, maxSeconds, ops, k)
    ensures EndsByTimeAt(After(cacheSize, maxSeconds, ops),
                         PlannedEnd(ops[k].command, ops[k].script.now, maxSeconds))
  {
    assert ops[..|ops|] == ops;
    RunHolds(cacheSize, maxSeconds, ops);
    DeadlineIsThePlan(cacheSize, maxSeconds, ops, k);
    TickObeysDeadline(After(cacheSize, maxSeconds, ops));
  }

  /**
   Over every run, ids reused or not: a recording under way was opened by a START, and while the process
   runs a tick ends it exactly from that START's clock plus its planned duration on.
   */
  lemma RecordingEndsAsPlanned(cacheSize: nat, maxSeconds: nat, ops: seq<Op>)
    requires cacheSize > 0 && WellFormedRun(ops)
    requires After(cacheSize, maxSeconds, ops).machine.state == Recording
    ensures exists k: nat ::
              OpenedBy(cacheSize, maxSeconds, ops, k)
              && EndsByTimeAt(After(cacheSize, maxSeconds, ops),
                              PlannedEnd(ops[k].command, ops[k].script.now, maxSeconds))
  {
    SomeStartOpened(cacheSize, maxSeconds, ops);
    var k: nat :| OpenedBy(cacheSize, maxSeconds, ops, k);
    EndsAsPlanned(cacheSize, maxSeconds, ops, k);
  }
}
