/**
 How many recorders can be alive at once, exactly
 (ros2_ws/src/vt_realsense_capture/vt_realsense_capture/controller.py, lines 216-443):
 over every run of the capture lifecycle, with ids reused or not and any behaviour of the process.
 */
module CaptureLeaks {
  import opened Prelude
  import opened OrderedDict
  import opened StopProtocol
  import opened StopRuns
  import opened Recorder
  import opened Session
  import opened CaptureRules
  import opened CaptureRuns

  /** A result on record confirmed the exit. */
  ghost predicate Truthful(r: RecorderState) {
    r.Some? && r.value.stopResult.Some? ==> r.value.stopResult.value.terminationConfirmed
  }

  /** What every reachable state holds, with or without ownership. */
  ghost predicate Held(s: ControllerState) {
    && s.cacheSize > 0 && s.machine.cacheSize == s.cacheSize
    && (s.recorder.Some? ==> Truthful(s.recorder.value))
    && match s.machine.state
       case Idle => s.recorder.None? || s.recorder == Some(Some(STARTED))
       case Recording => s.recorder.Some? && s.recorder.value.Some? && s.deadline.Some?
       case Finalizing => s.recorder.Some? && Unconfirmed(s.recorder.value)
       case Complete => s.recorder.Some? && s.recorder.value.Some? && !Unconfirmed(s.recorder.value)
       case _ => false
  }

  /** The session under way has a recorder whose exit is not confirmed. */
  function Active(s: ControllerState): nat {
    if s.machine.state in {Recording, Finalizing} && s.recorder.Some? && Unconfirmed(s.recorder.value) then 1 else 0
  }

  /** Unconfirmed recorders that no session answers for. */
  function Lost(s: ControllerState): int {
    UnconfirmedCount(s) - Active(s)
  }

  /** A start under an id only the machine remembers, while idle, that spawns. */
  predicate Leaks(s: ControllerState, op: Op) {
    && op.Accept? && op.command.kind == Start && s.machine.state == Idle
    && Stale(s, op.command) && Spawns(s, op.command, op.script)
  }

  /** How many operations of the run leak a recorder. */
  function LeakCount(cacheSize: nat, maxSeconds: nat, ops: seq<Op>): nat {
    if ops == [] then 0
    else
      var before := ops[..|ops| - 1];
      LeakCount(cacheSize, maxSeconds, before)
      + if Leaks(After(cacheSize, maxSeconds, before), ops[|ops| - 1]) then 1 else 0
  }

  // ----- One step -----

  lemma PreparedKeepsLost(s: ControllerState)
    requires Held(s) && s.machine.state in {Idle, Complete}
    ensures CountUnconfirmed(Prepared(s).retired) == Lost(s)
  {
    if s.recorder.Some? {
      assert (s.retired + [s.recorder.value])[..|s.retired|] == s.retired;
    } else {
      assert s.retired + [] == s.retired;
    }
  }

  /** A stop either leaves the exit open, or has its confirmation on record. */
  lemma StopKeepsTruth(r: ProcState, script: StopScript)
    requires Truthful(Some(r))
    ensures var out := StopStep(r, script);
            && Truthful(Some(out.state))
            && (out.result.terminationConfirmed <==> out.state.stopResult.Some?)
            && (r.stopResult.Some? ==> out.state == r)
  {
    if r.stopResult.None? {
      StopIsDisciplined(r, script);
    }
  }

  lemma DriveKeepsLost(s: ControllerState, script: StopScript)
    requires Held(s) && s.machine.state in {Recording, Finalizing, Complete}
    ensures Held(DriveFinalization(s, script).state)
    ensures Lost(DriveFinalization(s, script).state) == Lost(s)
  {
    StopKeepsTruth(s.recorder.value.value, script);
  }

  /** A held session may begin to finalize: its recorder may already be confirmed. */
  lemma FinalizeKeepsLost(s: ControllerState, script: StopScript)
    requires s.machine.state == Finalizing && s.recorder.Some? && s.recorder.value.Some?
    requires s.cacheSize > 0 && s.machine.cacheSize == s.cacheSize && Truthful(s.recorder.value)
    ensures Held(DriveFinalization(s, script).state)
    ensures Lost(DriveFinalization(s, script).state) == Lost(s)
  {
    StopKeepsTruth(s.recorder.value.value, script);
  }

  lemma BeginKeepsLost(s: ControllerState, code: string, script: StopScript)
    requires Held(s) && s.machine.state == Recording
    ensures Held(BeginAndDrive(s, code, script).state)
    ensures Lost(BeginAndDrive(s, code, script).state) == Lost(s)
  {
    FinalizeKeepsLost(s.(machine := BeginFinalizingStep(s.machine, code).machine), script);
  }

  lemma SpawnLeaksIff(p: ControllerState, c: Command, session: string, script: AcceptScript)
    requires Held(p) && p.machine.state == Idle && p.recorder.None? && !Blank(c.requestId) && !Blank(session)
    requires c.kind == Start
    ensures var s' := SpawnStep(p, c, session, script).state;
            && Held(s')
            && Lost(s') == Lost(p)
                           + if script.spawnSucceeds && Find(p.machine.requests, c.requestId).Some? then 1 else 0
  {
  }

  lemma StartLeaksIff(s: ControllerState, c: Command, script: AcceptScript)
    requires Held(s) && c.WellFormed() && SessionNamed(script) && c.kind == Start
    requires Find(s.commands, c.requestId).None?
    ensures Held(AcceptStart(s, c, script).state)
    ensures Lost(AcceptStart(s, c, script).state) == Lost(s) + if Leaks(s, Accept(c, script)) then 1 else 0
  {
    if s.machine.state in {Idle, Complete} {
      PreparedKeepsLost(s);
      if script.sessionId.Some? {
        SpawnLeaksIff(Prepared(s), c, script.sessionId.value, script);
      }
    }
  }

  lemma StopKeepsLost(s: ControllerState, c: Command, script: AcceptScript)
    requires Held(s) && c.WellFormed()
    ensures Held(AcceptStop(s, c, script).state)
    ensures Lost(AcceptStop(s, c, script).state) == Lost(s)
  {
    if s.machine.state != Idle {
      var step := StopCommandStep(s.machine, c.requestId);
      if step.outcome.Ok? {
        var receipt := Receipt(c.requestId, c.kind, step.outcome.value.code, step.outcome.value.state);
        var s2 := RememberReceipt(s.(machine := step.machine), receipt);
        if step.machine.state == Finalizing {
          FinalizeKeepsLost(s2, script.stop);
        } else {
          DriveKeepsLost(s2, script.stop);
        }
      }
    }
  }

  lemma StepLeaksIff(s: ControllerState, op: Op)
    requires Held(s) && (op.Accept? ==> op.command.WellFormed() && SessionNamed(op.script))
    ensures Held(StepOp(s, op))
    ensures Lost(StepOp(s, op)) == Lost(s) + if Leaks(s, op) then 1 else 0
  {
    match op
    case Accept(c, script) =>
      if Find(s.commands, c.requestId).None? {
        if c.kind == Start {
          StartLeaksIff(s, c, script);
        } else {
          StopKeepsLost(s, c, script);
        }
      }
    case Tick(script) =>
      if s.machine.state == Recording {
        BeginKeepsLost(s, "recorder_exited", script.stop);
        BeginKeepsLost(s, "planned_duration_complete", script.stop);
      } else if s.machine.state == Finalizing {
        DriveKeepsLost(s, script.stop);
      }
    case Shutdown(script) =>
      if s.machine.state == Recording {
        BeginKeepsLost(s, "shutdown_requested", script);
      } else if s.machine.state == Finalizing {
        DriveKeepsLost(s, script);
      }
  }

  // ----- Runs -----

  lemma {:induction false} RunHolds(cacheSize: nat, maxSeconds: nat, ops: seq<Op>)
    requires cacheSize > 0 && WellFormedRun(ops)
    ensures Held(After(cacheSize, maxSeconds, ops))
    ensures Lost(After(cacheSize, maxSeconds, ops)) == LeakCount(cacheSize, maxSeconds, ops)
  {
    if ops != [] {
      var before := ops[..|ops| - 1];
      assert ops[|ops| - 1] in ops;
      RunHolds(cacheSize, maxSeconds, before);
      StepLeaksIff(After(cacheSize, maxSeconds, before), ops[|ops| - 1]);
    }
  }

  /** Over every run, the recorders without a confirmed exit are those leaked and the one of the session under way. */
  lemma RecordersAliveExactly(cacheSize: nat, maxSeconds: nat, ops: seq<Op>)
    requires cacheSize > 0 && WellFormedRun(ops)
    ensures var s := After(cacheSize, maxSeconds, ops);
            && UnconfirmedCount(s) == LeakCount(cacheSize, maxSeconds, ops) + Active(s)
            && (UnconfirmedCount(s) <= 1 <==> LeakCount(cacheSize, maxSeconds, ops) + Active(s) <= 1)
  {
    RunHolds(cacheSize, maxSeconds, ops);
  }

  /** A client that never reuses a forgotten id leaks nothing. */
  lemma NoReuseNeverLeaks(cacheSize: nat, maxSeconds: nat, ops: seq<Op>)
    requires cacheSize > 0 && WellFormedRun(ops) && NoReuse(cacheSize, maxSeconds, ops)
    ensures LeakCount(cacheSize, maxSeconds, ops) == 0
  {
    var s := After(cacheSize, maxSeconds, ops);
    RunKeepsOwned(cacheSize, maxSeconds, ops);
    OwnedMeansAtMostOne(s);
    RecordersAliveExactly(cacheSize, maxSeconds, ops);
  }

  /** For such a client at most one started recorder ever lacks a confirmed exit. */
  lemma AtMostOneRecorderAlive(cacheSize: nat, maxSeconds: nat, ops: seq<Op>)
    requires cacheSize > 0 && WellFormedRun(ops) && NoReuse(cacheSize, maxSeconds, ops)
    ensures UnconfirmedCount(After(cacheSize, maxSeconds, ops)) <= 1
  {
    NoReuseNeverLeaks(cacheSize, maxSeconds, ops);
    RecordersAliveExactly(cacheSize, maxSeconds, ops);
  }

  /** A recorder once leaked is never accounted for again: from then on a further session makes two. */
  lemma {:induction false} LeaksStay(cacheSize: nat, maxSeconds: nat, ops: seq<Op>, k: nat)
    requires k <= |ops|
    ensures LeakCount(cacheSize, maxSeconds, ops[..k]) <= LeakCount(cacheSize, maxSeconds, ops)
    decreases |ops|
  {
    if k == |ops| {
      assert ops[..k] == ops;
    } else {
      LeaksStay(cacheSize, maxSeconds, ops[..|ops| - 1], k);
      assert ops[..|ops| - 1][..k] == ops[..k];
    }
  }

  /** Exactly when a run never has two recorders alive: it leaks none, or one and no session is under way after that. */
  lemma NeverTwoAliveIff(cacheSize: nat, maxSeconds: nat, ops: seq<Op>)
    requires cacheSize > 0 && WellFormedRun(ops)
    ensures (forall k :: 0 <= k <= |ops| ==> UnconfirmedCount(After(cacheSize, maxSeconds, ops[..k])) <= 1)
            <==> LeakCount(cacheSize, maxSeconds, ops) <= 1
                 && forall k :: 0 <= k <= |ops| && LeakCount(cacheSize, maxSeconds, ops[..k]) == 1 ==>
                                  Active(After(cacheSize, maxSeconds, ops[..k])) == 0
  {
    assert ops[..|ops|] == ops;
    forall k | 0 <= k <= |ops|
      ensures UnconfirmedCount(After(cacheSize, maxSeconds, ops[..k]))
              == LeakCount(cacheSize, maxSeconds, ops[..k]) + Active(After(cacheSize, maxSeconds, ops[..k]))
      ensures LeakCount(cacheSize, maxSeconds, ops[..k]) <= LeakCount(cacheSize, maxSeconds, ops)
    {
      assert WellFormedRun(ops[..k]);
      RecordersAliveExactly(cacheSize, maxSeconds, ops[..k]);
      LeaksStay(cacheSize, maxSeconds, ops, k);
    }
  }

  // ----- Ticks and shutdowns, with or without ownership -----

  /** A tick never fails, and no session is still RECORDING past its deadline. */
  lemma TickIsPunctual(s: ControllerState, script: TickScript)
    requires Held(s)
    ensures TickStep(s, script).result.Ok?
    ensures s.machine.state == Recording && script.now >= s.deadline.value ==>
              TickStep(s, script).state.machine.state != Recording
  {
  }

  /** So over every run. */
  lemma TicksArePunctual(cacheSize: nat, maxSeconds: nat, ops: seq<Op>, script: TickScript)
    requires cacheSize > 0 && WellFormedRun(ops)
    ensures var s := After(cacheSize, maxSeconds, ops);
            && TickStep(s, script).result.Ok?
            && (s.machine.state == Recording ==>
                  && s.deadline.Some?
                  && (script.now >= s.deadline.value ==> TickStep(s, script).state.machine.state != Recording))
  {
    RunHolds(cacheSize, maxSeconds, ops);
    TickIsPunctual(After(cacheSize, maxSeconds, ops), script);
  }

  /** The answer is true exactly when no started recorder is left unconfirmed. */
  predicate TellsTheTruth(d: Outcome<bool>) {
    d.result.Ok? && (d.result.value <==> UnconfirmedCount(d.state) == 0)
  }

  /** A shutdown answers for the session's recorder only, and neither finds nor loses a leaked one. */
  lemma ShutdownAnswersForTheSession(s: ControllerState, script: StopScript)
    requires Held(s)
    ensures var d := ShutdownStep(s, script);
            && Held(d.state) && Lost(d.state) == Lost(s)
            && d.result.Ok? && (d.result.value <==> Active(d.state) == 0)
  {
    StepLeaksIff(s, Shutdown(script));
  }

  /** What a shutdown after any run answers, against what is then alive. */
  lemma ShutdownAnswer(cacheSize: nat, maxSeconds: nat, ops: seq<Op>, script: StopScript)
    requires cacheSize > 0 && WellFormedRun(ops)
    ensures var d := ShutdownStep(After(cacheSize, maxSeconds, ops), script);
            var leaks := LeakCount(cacheSize, maxSeconds, ops);
            && d.result.Ok? && (d.result.value <==> Active(d.state) == 0)
            && UnconfirmedCount(d.state) == leaks + Active(d.state)
            && (TellsTheTruth(d) <==> !d.result.value || leaks == 0)
  {
    RunHolds(cacheSize, maxSeconds, ops);
    ShutdownAnswersForTheSession(After(cacheSize, maxSeconds, ops), script);
  }

  /** A process that answers everything well exits. */
  lemma SmoothStopConfirms(s: ControllerState)
    requires Held(s)
    ensures ShutdownStep(s, ANSWERS).result == Ok(true)
  {
  }

  /** Whatever the process does, shutdown tells the truth after a run exactly if the run leaked no recorder. */
  lemma ShutdownTellsTheTruthIff(cacheSize: nat, maxSeconds: nat, ops: seq<Op>)
    requires cacheSize > 0 && WellFormedRun(ops)
    ensures (forall script :: TellsTheTruth(ShutdownStep(After(cacheSize, maxSeconds, ops), script)))
            <==> LeakCount(cacheSize, maxSeconds, ops) == 0
  {
    var s := After(cacheSize, maxSeconds, ops);
    forall script
      ensures ShutdownStep(s, script).result.Ok?
      ensures TellsTheTruth(ShutdownStep(s, script))
              <==> !ShutdownStep(s, script).result.value || LeakCount(cacheSize, maxSeconds, ops) == 0
    {
      ShutdownAnswer(cacheSize, maxSeconds, ops, script);
    }
    RunHolds(cacheSize, maxSeconds, ops);
    SmoothStopConfirms(s);
  }

  /** Under ownership nothing is leaked, so it always does. */
  lemma ShutdownTellsTheTruth(s: ControllerState, script: StopScript)
    requires Owned(s)
    ensures Owned(ShutdownStep(s, script).state) && TellsTheTruth(ShutdownStep(s, script))
  {
    ShutdownKeepsOwned(s, script);
    OwnedMeansAtMostOne(s);
    if s.machine.state != Complete {
      ShutdownAnswersForTheSession(s, script);
    }
  }

  /** STOP "a" while idle, a failed START "b" and START "a": every shutdown then answers true beside a live recorder. */
  lemma ShutdownMissesLeak(script: StopScript)
    ensures var good := AcceptScript(Some("s"), true, true, 0, ANSWERS);
            var failing := AcceptScript(Some("s"), true, false, 0, ANSWERS);
            var ops := [Accept(Command("a", Stop, 0), good), Accept(Command("b", Start, 0), failing),
                        Accept(Command("a", Start, 0), good)];
            var d := ShutdownStep(After(1, 300, ops), script);
            d.result == Ok(true) && UnconfirmedCount(d.state) == 1
  {
    LettersDiffer();
    ForgottenButCached();
    var good := AcceptScript(Some("s"), true, true, 0, ANSWERS);
    var failing := AcceptScript(Some("s"), true, false, 0, ANSWERS);
    var o1, o2 := Accept(Command("a", Stop, 0), good), Accept(Command("b", Start, 0), failing);
    var o3 := Accept(Command("a", Start, 0), good);
    assert [o1, o2, o3][..2] == [o1, o2];
    StaleStartLeaks(After(1, 300, [o1, o2]), o3.command, good);
    assert After(1, 300, [o1, o2, o3]) == AcceptStep(After(1, 300, [o1, o2]), o3.command, good).state;
  }
}
