/**
 What COMPLETE says about the recorder, over every run of the capture lifecycle
 (ros2_ws/src/vt_realsense_capture/vt_realsense_capture/controller.py, lines 244-276 and 382-443):
 its exit was observed, although not always by the operation that completes the session.
 */
module CaptureExits {
  import opened Prelude
  import opened OrderedDict
  import opened StopProtocol
  import opened StopRuns
  import opened Recorder
  import opened Session
  import opened CaptureRules
  import opened CaptureRuns
  import opened CaptureLeaks

  /** Stopping the recorder held in `s` makes calls, the last of which sees the exit that `r` reports. */
  ghost predicate SeesExit(s: ControllerState, script: StopScript, r: StopResult) {
    && s.recorder.Some? && s.recorder.value.Some?
    && var out := StopStep(s.recorder.value.value, script);
       && out.result == r && r.terminationConfirmed && r.returncode.Some?
       && out.calls != [] && SawExit(out.calls[|out.calls| - 1], r.returncode.value)
  }

  // ----- The operation that completes -----

  /** Driving finalization into COMPLETE stops the recorder held. */
  lemma DriveCompletes(s: ControllerState, script: StopScript)
    requires s.machine.state != Complete && DriveFinalization(s, script).state.machine.state == Complete
    requires s.recorder.Some? ==> s.recorder.value.Some?
    ensures s.recorder.Some?
    ensures DriveFinalization(s, script).state.recorder == Some(Some(StopStep(s.recorder.value.value, script).state))
  {
  }

  lemma AcceptCompletes(s: ControllerState, c: Command, script: AcceptScript)
    requires Held(s) && s.machine.state != Complete && AcceptStep(s, c, script).state.machine.state == Complete
    ensures s.recorder.Some? && s.recorder.value.Some?
    ensures AcceptStep(s, c, script).state.recorder
            == Some(Some(StopStep(s.recorder.value.value, script.stop).state))
  {
    if c.kind == Stop {
      var step := StopCommandStep(s.machine, c.requestId);
      var receipt := Receipt(c.requestId, c.kind, step.outcome.value.code, step.outcome.value.state);
      DriveCompletes(RememberReceipt(s.(machine := step.machine), receipt), script.stop);
    }
  }

  lemma BeginCompletes(s: ControllerState, code: string, script: StopScript)
    requires Held(s) && s.machine.state == Recording && BeginAndDrive(s, code, script).state.machine.state == Complete
    ensures BeginAndDrive(s, code, script).state.recorder
            == Some(Some(StopStep(s.recorder.value.value, script).state))
  {
    DriveCompletes(s.(machine := BeginFinalizingStep(s.machine, code).machine), script);
  }

  /** Every operation that enters COMPLETE stops the recorder it finds. */
  lemma CompletionStops(s: ControllerState, op: Op)
    requires Held(s) && s.machine.state != Complete && StepOp(s, op).machine.state == Complete
    ensures s.recorder.Some? && s.recorder.value.Some?
    ensures StepOp(s, op).recorder == Some(Some(StopStep(s.recorder.value.value, StopScriptOf(op)).state))
  {
    match op
    case Accept(c, script) => AcceptCompletes(s, c, script);
    case Tick(script) =>
      if s.machine.state == Recording {
        var code := if HealthOf(s.recorder.value, script.poll) == HasExited then "recorder_exited"
                    else "planned_duration_complete";
        BeginCompletes(s, code, script.stop);
      } else {
        DriveCompletes(s, script.stop);
      }
    case Shutdown(script) =>
      if s.machine.state == Recording {
        BeginCompletes(s, "shutdown_requested", script);
      } else {
        DriveCompletes(s, script);
      }
  }

  /** That stop observes the exit itself exactly if it was not confirmed before. */
  lemma CompletionSeesExitIff(s: ControllerState, op: Op)
    requires Held(s) && (op.Accept? ==> op.command.WellFormed() && SessionNamed(op.script))
    requires s.machine.state != Complete && StepOp(s, op).machine.state == Complete
    ensures s.recorder.Some? && s.recorder.value.Some?
    ensures var out := StopStep(s.recorder.value.value, StopScriptOf(op));
            && StepOp(s, op).recorder == Some(Some(out.state)) && out.state.stopResult == Some(out.result)
            && (SeesExit(s, StopScriptOf(op), out.result) <==> Unconfirmed(s.recorder.value))
  {
    CompletionStops(s, op);
    StepLeaksIff(s, op);
    StopSeesExitIff(s, StopScriptOf(op));
  }

  lemma StopSeesExitIff(s: ControllerState, script: StopScript)
    requires s.recorder.Some? && s.recorder.value.Some?
    requires StopStep(s.recorder.value.value, script).state.stopResult.Some?
    ensures var out := StopStep(s.recorder.value.value, script);
            && out.state.stopResult == Some(out.result)
            && (SeesExit(s, script, out.result) <==> Unconfirmed(s.recorder.value))
  {
    if s.recorder.value.value.stopResult.None? {
      StopIsDisciplined(s.recorder.value.value, script);
    }
  }

  /** Under ownership it always does. */
  lemma CompleteMeansExitObserved(s: ControllerState, op: Op)
    requires Owned(s) && Owned(StepOp(s, op))
    requires s.machine.state != Complete && StepOp(s, op).machine.state == Complete
    ensures s.recorder.Some? && s.recorder.value.Some?
    ensures var out := StopStep(s.recorder.value.value, StopScriptOf(op));
            && SeesExit(s, StopScriptOf(op), out.result)
            && StepOp(s, op).recorder == Some(Some(out.state))
  {
    CompletionStops(s, op);
    StopSeesExitIff(s, StopScriptOf(op));
  }

  // ----- The operation that observed -----

  /** Between operations a recorder is kept, dropped, freshly spawned, or stopped once. */
  lemma RecorderMoves(s: ControllerState, op: Op)
    ensures var r, r' := s.recorder, StepOp(s, op).recorder;
            || r' == r || r' == None || r' == Some(Some(STARTED))
            || (r.Some? && r.value.Some? && r' == Some(Some(StopStep(r.value.value, StopScriptOf(op)).state)))
  {
  }

  /** The recorder held has a result on record. */
  predicate OnRecord(s: ControllerState) {
    s.recorder.Some? && s.recorder.value.Some? && s.recorder.value.value.stopResult.Some?
  }

  /** After operation `k` the recorder held is `r`, to the end of the run. */
  ghost predicate HoldsFrom(cacheSize: nat, maxSeconds: nat, ops: seq<Op>, k: nat, r: Option<RecorderState>) {
    forall j :: k < j <= |ops| ==> After(cacheSize, maxSeconds, ops[..j]).recorder == r
  }

  /** Operation `k` stopped the recorder then held and saw the exit that `r` reports; that recorder is still held. */
  ghost predicate ObservedBy(cacheSize: nat, maxSeconds: nat, ops: seq<Op>, k: nat, r: StopResult)
    requires k < |ops|
  {
    var s, script := After(cacheSize, maxSeconds, ops[..k]), StopScriptOf(ops[k]);
    && SeesExit(s, script, r)
    && HoldsFrom(cacheSize, maxSeconds, ops, k, Some(Some(StopStep(s.recorder.value.value, script).state)))
  }

  lemma ObservedNow(cacheSize: nat, maxSeconds: nat, ops: seq<Op>)
    requires ops != [] && OnRecord(After(cacheSize, maxSeconds, ops))
    requires var s := After(cacheSize, maxSeconds, ops[..|ops| - 1]);
             && s.recorder.Some? && Unconfirmed(s.recorder.value)
             && After(cacheSize, maxSeconds, ops).recorder
                == Some(Some(StopStep(s.recorder.value.value, StopScriptOf(ops[|ops| - 1])).state))
    ensures ObservedBy(cacheSize, maxSeconds, ops, |ops| - 1,
                       After(cacheSize, maxSeconds, ops).recorder.value.value.stopResult.value)
  {
    var s := After(cacheSize, maxSeconds, ops[..|ops| - 1]);
    StopIsDisciplined(s.recorder.value.value, StopScriptOf(ops[|ops| - 1]));
    assert ops[..|ops|] == ops;
  }

  lemma HoldsOneMore(cacheSize: nat, maxSeconds: nat, init: seq<Op>, ops: seq<Op>, k: nat, r: Option<RecorderState>)
    requires k < |init| == |ops| - 1 && init == ops[..|init|]
    requires HoldsFrom(cacheSize, maxSeconds, init, k, r)
    requires After(cacheSize, maxSeconds, ops).recorder == After(cacheSize, maxSeconds, init).recorder
    ensures HoldsFrom(cacheSize, maxSeconds, ops, k, r)
  {
    assert ops[..|ops|] == ops && init[..|init|] == init;
    forall j | k < j <= |ops| ensures After(cacheSize, maxSeconds, ops[..j]).recorder == r {
      if j < |ops| {
        assert init[..j] == ops[..j];
      } else {
        assert After(cacheSize, maxSeconds, init[..|init|]).recorder == r;
      }
    }
  }

  lemma ObservedEarlier(cacheSize: nat, maxSeconds: nat, init: seq<Op>, ops: seq<Op>, k: nat, r: StopResult)
    requires k < |init| == |ops| - 1 && init == ops[..|init|]
    requires ObservedBy(cacheSize, maxSeconds, init, k, r)
    requires After(cacheSize, maxSeconds, ops).recorder == After(cacheSize, maxSeconds, init).recorder
    ensures ObservedBy(cacheSize, maxSeconds, ops, k, r)
  {
    assert init[..k] == ops[..k] && init[k] == ops[k];
    var s, script := After(cacheSize, maxSeconds, init[..k]), StopScriptOf(init[k]);
    HoldsOneMore(cacheSize, maxSeconds, init, ops, k, Some(Some(StopStep(s.recorder.value.value, script).state)));
  }

  /** Whatever result is on record, some operation of the run saw the exit it reports. */
  lemma {:induction false} RecordedExitWasObserved(cacheSize: nat, maxSeconds: nat, ops: seq<Op>)
    requires OnRecord(After(cacheSize, maxSeconds, ops))
    ensures exists k: nat ::
              k < |ops| && ObservedBy(cacheSize, maxSeconds, ops, k,
                                      After(cacheSize, maxSeconds, ops).recorder.value.value.stopResult.value)
  {
    if ops != [] {
      var init := ops[..|ops| - 1];
      var s, s' := After(cacheSize, maxSeconds, init), After(cacheSize, maxSeconds, ops);
      var r := s'.recorder.value.value.stopResult.value;
      RecorderMoves(s, ops[|ops| - 1]);
      if s.recorder.Some? && Unconfirmed(s.recorder.value) {
        ObservedNow(cacheSize, maxSeconds, ops);
      } else {
        RecordedExitWasObserved(cacheSize, maxSeconds, init);
        var k: nat :| k < |init| && ObservedBy(cacheSize, maxSeconds, init, k, r);
        ObservedEarlier(cacheSize, maxSeconds, init, ops, k, r);
      }
    }
  }

  /**
   Over every run, ids reused or not: in COMPLETE the recorder held has a confirmed result, and some
   operation of the run stopped that recorder, its last call seeing the exit reported.
   */
  lemma CompleteRunSawExit(cacheSize: nat, maxSeconds: nat, ops: seq<Op>)
    requires cacheSize > 0 && WellFormedRun(ops)
    requires After(cacheSize, maxSeconds, ops).machine.state == Complete
    ensures OnRecord(After(cacheSize, maxSeconds, ops))
    ensures var r := After(cacheSize, maxSeconds, ops).recorder.value.value.stopResult.value;
            && r.terminationConfirmed
            && exists k: nat :: k < |ops| && ObservedBy(cacheSize, maxSeconds, ops, k, r)
  {
    RunHolds(cacheSize, maxSeconds, ops);
    RecordedExitWasObserved(cacheSize, maxSeconds, ops);
  }

  // ----- A completion that observes nothing -----

  /** A stale STOP in RECORDING confirms the exit, but the machine refuses to complete. */
  lemma StaleStopConfirms(s: ControllerState, c: Command, script: AcceptScript)
    requires Held(s) && s.machine.state == Recording && s.recorder == Some(Some(STARTED))
    requires c.WellFormed() && c.kind == Stop && Stale(s, c) && script.stop == ANSWERS
    requires Find(s.machine.requests, c.requestId).value.command == Stop
    ensures var s' := AcceptStep(s, c, script).state;
            && Held(s') && s'.machine.state == Recording && OnRecord(s')
  {
    StopKeepsLost(s, c, script);
  }

  /** The next tick that notices the exit completes the session without a call of its own. */
  lemma TickCompletesSilently(s: ControllerState, script: TickScript)
    requires Held(s) && s.machine.state == Recording && OnRecord(s) && script.poll.Exited?
    ensures TickStep(s, script).state.machine.state == Complete
    ensures StopStep(s.recorder.value.value, script.stop).calls == []
  {
  }

  lemma KeyLettersDiffer()
    ensures "d" != "a" && "d" != "b" && "d" != "c" && !Blank("d")
  {
    assert "d"[0] != "a"[0] && "d"[0] != "b"[0] && "d"[0] != "c"[0] && !IsSpace("d"[0]);
  }

  /** A key not yet there is appended, and the oldest entries beyond the capacity go. */
  lemma RememberNew<V>(d: seq<Item<V>>, key: string, value: V, capacity: nat)
    requires forall i :: 0 <= i < |d| ==> d[i].key != key
    ensures Find(d, key).None?
    ensures Remember(d, key, value, capacity) == LastN(d + [Item(key, value)], capacity)
  {
    FindNone(d, key);
    FindPut(d, key, value);
  }

  /** Idle, with STOP "a" in the machine's cache and these ids in the controller's. */
  ghost predicate Waits(s: ControllerState, ids: seq<string>) {
    && s.machine.state == Idle && s.recorder.None? && s.maxSeconds == 300
    && s.cacheSize == s.machine.cacheSize == 2
    && |s.machine.requests| == 1 && s.machine.requests[0].key == "a" && s.machine.requests[0].value.command == Stop
    && |s.commands| == |ids| && forall i :: 0 <= i < |ids| ==> s.commands[i].key == ids[i]
  }

  const STOP_A := Accept(Command("a", Stop, 0), SMOOTH)
  const FAILED_B := Accept(Command("b", Start, 0), FAILING)
  const FAILED_C := Accept(Command("c", Start, 0), FAILING)
  const START_D := Accept(Command("d", Start, 0), SMOOTH)

  /** The process cannot be spawned. */
  const FAILING := SMOOTH.(spawnSucceeds := false)

  lemma StopFirst()
    ensures Waits(StepOp(NewController(2, 300), STOP_A), ["a"])
  {
    LettersDiffer();
  }

  /** A START that fails to spawn only adds its receipt to the controller's cache. */
  lemma FailedStart(s: ControllerState, ids: seq<string>, id: string)
    requires Waits(s, ids) && id !in ids
    ensures Waits(AcceptStep(s, Command(id, Start, 0), FAILING).state, LastN(ids + [id], 2))
  {
    RememberNew(s.commands, id, Receipt(id, Start, "recorder_spawn_failed", Idle), 2);
  }

  /** A START that spawns pushes out one id more, and the machine still has the STOP. */
  lemma GoodStart(s: ControllerState, ids: seq<string>, id: string)
    requires Waits(s, ids) && id !in ids && id != "a" && "a" !in ids && !Blank(id)
    ensures var s' := AcceptStep(s, Command(id, Start, 0), SMOOTH).state;
            && Held(s') && s'.machine.state == Recording && s'.recorder == Some(Some(STARTED))
            && Stale(s', Command("a", Stop, 0)) && Find(s'.machine.requests, "a").value.command == Stop
  {
    SmoothSessionIsNamed();
    var p := Prepared(s);
    var start := StartStep(p.machine, id, "s");
    FindNone(s.machine.requests, id);
    RememberNew(s.machine.requests, id, CachedRequest(Start, start.outcome.value), 2);
    var receipt := Receipt(id, Start, start.outcome.value.code, start.outcome.value.state);
    RememberNew(s.commands, id, receipt, 2);
    FindNone(LastN(s.commands + [Item(id, receipt)], 2), "a");
  }

  lemma TwoFailedStarts(s: ControllerState)
    requires Waits(s, ["a"])
    ensures Waits(StepOp(StepOp(s, FAILED_B), FAILED_C), ["b", "c"])
  {
    LettersDiffer();
    FailedStart(s, ["a"], "b");
    assert LastN(["a"] + ["b"], 2) == ["a", "b"];
    FailedStart(StepOp(s, FAILED_B), ["a", "b"], "c");
    assert LastN(["a", "b"] + ["c"], 2) == ["b", "c"];
  }

  /** Recording, with STOP "a" forgotten by the controller but not by the machine. */
  ghost predicate StopIsStale(s: ControllerState) {
    && Held(s) && s.machine.state == Recording && s.recorder == Some(Some(STARTED))
    && Stale(s, Command("a", Stop, 0)) && Find(s.machine.requests, "a").value.command == Stop
  }

  lemma StartLast(s: ControllerState)
    requires Waits(s, ["b", "c"])
    ensures StopIsStale(StepOp(s, START_D))
  {
    LettersDiffer();
    KeyLettersDiffer();
    GoodStart(s, ["b", "c"], "d");
  }

  /** The state after STOP "a" while idle, two failed STARTs "b" and "c", and START "d", with a two-entry cache. */
  lemma RecordingWithStaleStop()
    ensures StopIsStale(After(2, 300, [STOP_A, FAILED_B, FAILED_C, START_D]))
  {
    AfterFour(2, 300, STOP_A, FAILED_B, FAILED_C, START_D);
    StopFirst();
    var s1 := StepOp(NewController(2, 300), STOP_A);
    TwoFailedStarts(s1);
    StartLast(StepOp(StepOp(s1, FAILED_B), FAILED_C));
  }

  lemma AfterFour(cacheSize: nat, maxSeconds: nat, o1: Op, o2: Op, o3: Op, o4: Op)
    ensures After(cacheSize, maxSeconds, [o1, o2, o3, o4])
            == StepOp(StepOp(StepOp(StepOp(NewController(cacheSize, maxSeconds), o1), o2), o3), o4)
  {
    assert [o1, o2, o3, o4][..3] == [o1, o2, o3] && [o1, o2, o3][..2] == [o1, o2] && [o1, o2][..1] == [o1];
    assert [o1][..0] == [];
    assert After(cacheSize, maxSeconds, [o1]) == StepOp(NewController(cacheSize, maxSeconds), o1);
    assert After(cacheSize, maxSeconds, [o1, o2]) == StepOp(After(cacheSize, maxSeconds, [o1]), o2);
  }

  /** So a session can enter COMPLETE by a tick whose own stop makes no call: the stale STOP "a" saw the exit. */
  lemma CompletionCanBeSilent()
    ensures var s := After(2, 300, [STOP_A, FAILED_B, FAILED_C, START_D, STOP_A]);
            var tick := TickScript(Exited(0), 0, ANSWERS);
            && s.machine.state == Recording && OnRecord(s)
            && StepOp(s, Tick(tick)).machine.state == Complete
            && StopStep(s.recorder.value.value, tick.stop).calls == []
  {
    LettersDiffer();
    RecordingWithStaleStop();
    var ops := [STOP_A, FAILED_B, FAILED_C, START_D];
    var more := ops + [STOP_A];
    assert more[..4] == ops && more == [STOP_A, FAILED_B, FAILED_C, START_D, STOP_A];
    var s := After(2, 300, ops);
    StaleStopConfirms(s, STOP_A.command, SMOOTH);
    assert After(2, 300, more) == AcceptStep(s, STOP_A.command, SMOOTH).state;
    TickCompletesSilently(After(2, 300, more), TickScript(Exited(0), 0, ANSWERS));
  }
}
