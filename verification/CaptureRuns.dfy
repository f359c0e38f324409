/**
 What the capture lifecycle guarantees over every run of commands, ticks and shutdowns, against
 every behaviour of the recorder process
 (ros2_ws/src/vt_realsense_capture/vt_realsense_capture/controller.py, lines 216-443;
 session.py, lines 145-268).
 */
module CaptureRuns {
  import opened Prelude
  import opened OrderedDict
  import opened StopProtocol
  import opened StopRuns
  import opened Recorder
  import opened Session
  import opened CaptureRules

  datatype Op =
    | Accept(command: Command, script: AcceptScript)
    | Tick(tickScript: TickScript)
    | Shutdown(stopScript: StopScript)

  function StepOp(s: ControllerState, op: Op): ControllerState {
    match op
    case Accept(c, script) => AcceptStep(s, c, script).state
    case Tick(script) => TickStep(s, script).state
    case Shutdown(script) => ShutdownStep(s, script).state
  }

  /** The answers of the process to the stop call an operation may make. */
  function StopScriptOf(op: Op): StopScript {
    match op
    case Accept(_, script) => script.stop
    case Tick(script) => script.stop
    case Shutdown(script) => script
  }

  /**
   Ownership of recorders. A session that is recording or finalizing holds the one recorder that
   may still be alive; everywhere else no started recorder lacks a confirmed exit.
   */
  ghost predicate Owned(s: ControllerState) {
    && s.cacheSize > 0 && s.machine.cacheSize == s.cacheSize
    && (forall i :: 0 <= i < |s.retired| ==> !Unconfirmed(s.retired[i]))
    && match s.machine.state
       case Idle => s.recorder.None?
       case Recording => s.recorder.Some? && Unconfirmed(s.recorder.value) && s.deadline.Some?
       case Finalizing => s.recorder.Some? && Unconfirmed(s.recorder.value)
       case Complete =>
         s.recorder.Some? && s.recorder.value.Some? && !Unconfirmed(s.recorder.value) && s.terminationConfirmed
       case _ => false
  }

  /** Started recorders whose exit was never confirmed. */
  function UnconfirmedCount(s: ControllerState): nat {
    CountUnconfirmed(s.retired) + if s.recorder.Some? && Unconfirmed(s.recorder.value) then 1 else 0
  }

  function CountUnconfirmed(recorders: seq<RecorderState>): nat {
    if recorders == [] then 0
    else CountUnconfirmed(recorders[..|recorders| - 1]) + if Unconfirmed(recorders[|recorders| - 1]) then 1 else 0
  }

  lemma {:induction false} NoneUnconfirmed(recorders: seq<RecorderState>)
    requires forall i :: 0 <= i < |recorders| ==> !Unconfirmed(recorders[i])
    ensures CountUnconfirmed(recorders) == 0
  {
    if recorders != [] {
      NoneUnconfirmed(recorders[..|recorders| - 1]);
    }
  }

  /** Under ownership at most one recorder is unconfirmed, and exactly while a session is active. */
  lemma OwnedMeansAtMostOne(s: ControllerState)
    requires Owned(s)
    ensures UnconfirmedCount(s) == if s.machine.state in {Recording, Finalizing} then 1 else 0
  {
    NoneUnconfirmed(s.retired);
  }

  // ----- One step -----

  /** Driving finalization completes exactly when the process's exit was observed. */
  lemma DriveKeepsOwned(s: ControllerState, script: StopScript)
    requires Owned(s) && s.machine.state == Finalizing
    ensures var d := DriveFinalization(s, script);
            var out := StopStep(s.recorder.value.value, script);
            && Owned(d.state) && d.result.Ok?
            && (d.result.value <==> d.state.machine.state == Complete)
            && (d.result.value <==> out.result.terminationConfirmed)
            && (!d.result.value ==> d.state.machine.state == Finalizing)
            && d.state.machine.requests == s.machine.requests && d.state.commands == s.commands
            && d.state.cacheSize == s.cacheSize
  {
    StopIsDisciplined(s.recorder.value.value, script);
  }

  /** A command is stale when the controller has forgotten its id but the machine has not. */
  predicate Stale(s: ControllerState, c: Command) {
    Find(s.commands, c.requestId).None? && Find(s.machine.requests, c.requestId).Some?
  }

  /** The answers let a start get as far as a spawned process. */
  predicate Spawns(s: ControllerState, c: Command, script: AcceptScript) {
    c.plannedSeconds <= s.maxSeconds && script.sessionId.Some? && script.qosWritten && script.spawnSucceeds
  }

  /** The two ways a stale command breaks ownership. */
  ghost predicate Breaks(s: ControllerState, c: Command, script: AcceptScript) {
    && Stale(s, c)
    && match s.machine.state
       case Idle => c.kind == Start && Spawns(s, c, script)
       case Recording =>
         && c.kind == Stop && Find(s.machine.requests, c.requestId).value.command == Stop
         && s.recorder.Some? && s.recorder.value.Some?
         && StopStep(s.recorder.value.value, script.stop).result.terminationConfirmed
       case _ => false
  }

  ghost predicate SessionNamed(script: AcceptScript) {
    script.sessionId.Some? ==> !Blank(script.sessionId.value)
  }

  lemma AcceptStartOwnedIff(s: ControllerState, c: Command, script: AcceptScript)
    requires Owned(s) && c.WellFormed() && SessionNamed(script) && c.kind == Start
    requires Find(s.commands, c.requestId).None?
    ensures Owned(AcceptStart(s, c, script).state) <==> !Breaks(s, c, script)
    ensures Spawns(s, c, script) && !Breaks(s, c, script) && s.machine.state in {Idle, Complete} ==>
              AcceptStart(s, c, script).state.machine.state == Recording
  {
    if s.machine.state in {Idle, Complete} {
      var p := Prepared(s);
      assert forall i :: 0 <= i < |p.retired| ==> !Unconfirmed(p.retired[i]);
    }
  }

  lemma AcceptStopOwnedIff(s: ControllerState, c: Command, script: AcceptScript)
    requires Owned(s) && c.WellFormed() && c.kind == Stop
    requires Find(s.commands, c.requestId).None?
    ensures Owned(AcceptStop(s, c, script).state) <==> !Breaks(s, c, script)
  {
    if s.machine.state == Recording {
      if Find(s.machine.requests, c.requestId).None? {
        FreshStopKeepsOwned(s, c, script);
      } else {
        StaleStopOwnedIff(s, c, script);
      }
    } else if s.machine.state == Idle {
      IdleStopKeepsOwned(s, c, script);
    } else {
      LateStopKeepsOwned(s, c, script);
    }
  }

  lemma LateStopKeepsOwned(s: ControllerState, c: Command, script: AcceptScript)
    requires Owned(s) && c.WellFormed() && s.machine.state in {Finalizing, Complete}
    ensures Owned(AcceptStop(s, c, script).state)
  {
    StopIsDisciplined'(s.recorder.value.value, script.stop);
  }

  /** What a stop leaves on record, also when the result was already final. */
  lemma StopIsDisciplined'(s: ProcState, script: StopScript)
    ensures var out := StopStep(s, script);
            && (s.stopResult.None? ==> (out.state.stopResult.Some? <==> out.result.terminationConfirmed))
            && (s.stopResult.Some? ==> out.state == s && out.result == s.stopResult.value)
  {
    if s.stopResult.None? {
      StopIsDisciplined(s, script);
    }
  }

  lemma IdleStopKeepsOwned(s: ControllerState, c: Command, script: AcceptScript)
    requires Owned(s) && c.WellFormed() && s.machine.state == Idle
    ensures Owned(AcceptStop(s, c, script).state)
  {
  }

  lemma FreshStopKeepsOwned(s: ControllerState, c: Command, script: AcceptScript)
    requires Owned(s) && c.WellFormed() && s.machine.state == Recording
    requires Find(s.machine.requests, c.requestId).None?
    ensures Owned(AcceptStop(s, c, script).state)
    ensures AcceptStop(s, c, script).state.machine.state in {Finalizing, Complete}
  {
    var step := StopCommandStep(s.machine, c.requestId);
    var t := step.outcome.value;
    var s2 := RememberReceipt(s.(machine := step.machine), Receipt(c.requestId, c.kind, t.code, t.state));
    DriveKeepsOwned(s2, script.stop);
  }

  lemma StaleStopOwnedIff(s: ControllerState, c: Command, script: AcceptScript)
    requires Owned(s) && c.WellFormed() && c.kind == Stop && s.machine.state == Recording
    requires Find(s.machine.requests, c.requestId).Some?
    ensures Owned(AcceptStop(s, c, script).state)
            <==> Find(s.machine.requests, c.requestId).value.command != Stop
                 || !StopStep(s.recorder.value.value, script.stop).result.terminationConfirmed
  {
    StopIsDisciplined(s.recorder.value.value, script.stop);
  }

  /** Accepting a command keeps ownership exactly when it is not one of the stale ones that break it. */
  lemma AcceptKeepsOwnedIff(s: ControllerState, c: Command, script: AcceptScript)
    requires Owned(s) && c.WellFormed() && SessionNamed(script)
    ensures Owned(AcceptStep(s, c, script).state) <==> !Breaks(s, c, script)
  {
    if Find(s.commands, c.requestId).None? {
      if c.kind == Start {
        AcceptStartOwnedIff(s, c, script);
      } else {
        AcceptStopOwnedIff(s, c, script);
      }
    }
  }

  /** The stale commands that can break ownership, as a caller sees them beforehand. */
  predicate Risky(s: ControllerState, c: Command) {
    && Stale(s, c)
    && match s.machine.state
       case Idle => c.kind == Start && c.plannedSeconds <= s.maxSeconds
       case Recording => c.kind == Stop && Find(s.machine.requests, c.requestId).value.command == Stop
       case _ => false
  }

  const ANSWERS :=
    StopScript(StillRunning, Delivered, Reaped(0), Delivered, Reaped(0), Delivered, Reaped(0), StillRunning)

  /** Surroundings and a process that answer everything well: a start spawns, a stop is confirmed. */
  const SMOOTH := AcceptScript(Some("s"), true, true, 0, ANSWERS)

  lemma SmoothSessionIsNamed()
    ensures SessionNamed(SMOOTH)
  {
    assert !IsSpace("s"[0]);
  }

  /** A command keeps ownership whatever the surroundings answer exactly when it is not a risky one. */
  lemma SafeWhateverHappensIff(s: ControllerState, c: Command)
    requires Owned(s) && c.WellFormed()
    ensures (forall script :: SessionNamed(script) ==> Owned(AcceptStep(s, c, script).state)) <==> !Risky(s, c)
  {
    forall script | SessionNamed(script) ensures Owned(AcceptStep(s, c, script).state) <==> !Breaks(s, c, script) {
      AcceptKeepsOwnedIff(s, c, script);
    }
    if Risky(s, c) {
      SmoothSessionIsNamed();
      RiskyBreaksSmoothly(s, c);
    }
  }

  lemma RiskyBreaksSmoothly(s: ControllerState, c: Command)
    requires Owned(s) && Risky(s, c)
    ensures Breaks(s, c, SMOOTH)
  {
  }

  /** An accepted command, repeated, gets its receipt again and changes nothing; another kind is a conflict. */
  lemma AcceptIsIdempotent(s: ControllerState, c: Command, script: AcceptScript, again: Command, script': AcceptScript)
    requires s.cacheSize > 0 && Find(s.commands, c.requestId).None?
    requires AcceptStep(s, c, script).result.Ok? && again.requestId == c.requestId
    ensures var first := AcceptStep(s, c, script);
            AcceptStep(first.state, again, script')
            == Outcome(first.state, if again.kind == c.kind then first.result else Err(ConflictingRequest(c.requestId)))
  {
    var first := AcceptStep(s, c, script);
    if c.kind == Start {
      AcceptStartRemembers(s, c, script);
    } else {
      AcceptStopRemembers(s, c, script);
    }
    RememberFinds(s.commands, c.requestId, first.result.value, s.cacheSize);
  }

  lemma AcceptStartRemembers(s: ControllerState, c: Command, script: AcceptScript)
    requires AcceptStart(s, c, script).result.Ok?
    ensures var out := AcceptStart(s, c, script);
            && out.result.value.kind == c.kind
            && out.state.commands == Remember(s.commands, c.requestId, out.result.value, s.cacheSize)
  {
  }

  lemma AcceptStopRemembers(s: ControllerState, c: Command, script: AcceptScript)
    requires AcceptStop(s, c, script).result.Ok?
    ensures var out := AcceptStop(s, c, script);
            && out.result.value.kind == c.kind
            && out.state.commands == Remember(s.commands, c.requestId, out.result.value, s.cacheSize)
  {
  }

  lemma TickKeepsOwned(s: ControllerState, script: TickScript)
    requires Owned(s)
    ensures Owned(TickStep(s, script).state) && TickStep(s, script).result.Ok?
    // A session never outlives its deadline in RECORDING.
    ensures s.machine.state == Recording && script.now >= s.deadline.value ==>
              TickStep(s, script).state.machine.state != Recording
  {
    if s.machine.state == Recording {
      BeginAndDriveKeepsOwned(s, "recorder_exited", script.stop);
      BeginAndDriveKeepsOwned(s, "planned_duration_complete", script.stop);
    } else if s.machine.state == Finalizing {
      DriveKeepsOwned(s, script.stop);
    }
  }

  lemma BeginAndDriveKeepsOwned(s: ControllerState, code: string, script: StopScript)
    requires Owned(s) && s.machine.state == Recording
    ensures var d := BeginAndDrive(s, code, script);
            && Owned(d.state) && d.result.Ok?
            && (d.result.value <==> d.state.machine.state == Complete)
            && d.state.machine.state in {Finalizing, Complete}
            && d.state.machine.requests == s.machine.requests && d.state.commands == s.commands
  {
    DriveKeepsOwned(s.(machine := BeginFinalizingStep(s.machine, code).machine), script);
  }

  lemma ShutdownKeepsOwned(s: ControllerState, script: StopScript)
    requires Owned(s)
    ensures Owned(ShutdownStep(s, script).state) && ShutdownStep(s, script).result.Ok?
  {
    if s.machine.state == Recording {
      BeginAndDriveKeepsOwned(s, "shutdown_requested", script);
    } else if s.machine.state == Finalizing {
      DriveKeepsOwned(s, script);
    }
  }

  // ----- Runs -----

  function After(cacheSize: nat, maxSeconds: nat, ops: seq<Op>): ControllerState {
    if ops == [] then NewController(cacheSize, maxSeconds)
    else StepOp(After(cacheSize, maxSeconds, ops[..|ops| - 1]), ops[|ops| - 1])
  }

  /** Every id the controller's cache has held so far. */
  ghost function EverRemembered(cacheSize: nat, maxSeconds: nat, ops: seq<Op>): set<string> {
    (if ops == [] then {} else EverRemembered(cacheSize, maxSeconds, ops[..|ops| - 1]))
    + Keys(After(cacheSize, maxSeconds, ops).commands)
  }

  /** The client's side of the bargain: an id the controller has evicted is never used again. */
  ghost predicate NoReuse(cacheSize: nat, maxSeconds: nat, ops: seq<Op>) {
    ops != [] ==>
      var before, op := ops[..|ops| - 1], ops[|ops| - 1];
      && NoReuse(cacheSize, maxSeconds, before)
      && (op.Accept? ==>
            || op.command.requestId in Keys(After(cacheSize, maxSeconds, before).commands)
            || op.command.requestId !in EverRemembered(cacheSize, maxSeconds, before))
  }

  /** Well-formed commands, and session ids that are not blank. */
  ghost predicate WellFormedRun(ops: seq<Op>) {
    forall i :: 0 <= i < |ops| ==> (ops[i].Accept? ==> ops[i].command.WellFormed() && SessionNamed(ops[i].script))
  }

  /** Whatever the machine remembers in one step, the controller remembers in the same step. */
  lemma StepRemembersTogether(s: ControllerState, op: Op)
    requires Owned(s) && Owned(StepOp(s, op))
    ensures Keys(StepOp(s, op).machine.requests) <= Keys(s.machine.requests) + Keys(StepOp(s, op).commands)
  {
    match op
    case Accept(c, script) =>
      if Find(s.commands, c.requestId).None? {
        if c.kind == Start {
          StartRemembersTogether(s, c, script);
        } else {
          StopRemembersTogether(s, c, script);
        }
      }
    case Tick(script) =>
      if s.machine.state == Recording {
        BeginAndDriveKeepsOwned(s, "recorder_exited", script.stop);
        BeginAndDriveKeepsOwned(s, "planned_duration_complete", script.stop);
      } else if s.machine.state == Finalizing {
        DriveKeepsOwned(s, script.stop);
      }
    case Shutdown(script) =>
      if s.machine.state == Recording {
        BeginAndDriveKeepsOwned(s, "shutdown_requested", script);
      } else if s.machine.state == Finalizing {
        DriveKeepsOwned(s, script);
      }
  }

  lemma RememberedKey<V>(d: seq<Item<V>>, key: string, value: V, capacity: nat)
    requires Find(d, key).None? && capacity > 0
    ensures key in Keys(Remember(d, key, value, capacity))
    ensures Keys(Remember(d, key, value, capacity)) <= Keys(d) + {key}
  {
    RememberFinds(d, key, value, capacity);
    FindIsKey(Remember(d, key, value, capacity), key);
    RememberKeys(d, key, value, capacity);
  }

  lemma StartRemembersTogether(s: ControllerState, c: Command, script: AcceptScript)
    requires Owned(s) && Find(s.commands, c.requestId).None?
    ensures Keys(AcceptStart(s, c, script).state.machine.requests)
            <= Keys(s.machine.requests) + Keys(AcceptStart(s, c, script).state.commands)
  {
    var out := AcceptStart(s, c, script);
    var p := Prepared(s);
    if out.result.Ok? {
      RememberedKey(s.commands, c.requestId, out.result.value, s.cacheSize);
      if Find(p.machine.requests, c.requestId).None? && Spawns(s, c, script) {
        var step := StartStep(p.machine, c.requestId, script.sessionId.value);
        RememberedKey(p.machine.requests, c.requestId, CachedRequest(Start, step.outcome.value), s.cacheSize);
      }
    }
  }

  lemma StopRemembersTogether(s: ControllerState, c: Command, script: AcceptScript)
    requires Owned(s) && Find(s.commands, c.requestId).None?
    requires Owned(AcceptStop(s, c, script).state)
    ensures Keys(AcceptStop(s, c, script).state.machine.requests)
            <= Keys(s.machine.requests) + Keys(AcceptStop(s, c, script).state.commands)
  {
    var idle := s.machine.state == Idle;
    var step := if idle then StopWhileIdleStep(s.machine, c.requestId) else StopCommandStep(s.machine, c.requestId);
    if step.outcome.Ok? {
      var receipt := Receipt(c.requestId, c.kind, step.outcome.value.code, step.outcome.value.state);
      RememberedKey(s.commands, c.requestId, receipt, s.cacheSize);
      if Find(s.machine.requests, c.requestId).None? {
        RememberedKey(s.machine.requests, c.requestId, CachedRequest(Stop, step.outcome.value), s.cacheSize);
      }
    }
  }

  /**
   Over every run in which the client keeps its side, whatever the process does: ownership holds,
   and the machine remembers no id that the controller never did.
   */
  lemma {:induction false} RunKeepsOwned(cacheSize: nat, maxSeconds: nat, ops: seq<Op>)
    requires cacheSize > 0 && WellFormedRun(ops) && NoReuse(cacheSize, maxSeconds, ops)
    ensures Owned(After(cacheSize, maxSeconds, ops))
    ensures Keys(After(cacheSize, maxSeconds, ops).machine.requests) <= EverRemembered(cacheSize, maxSeconds, ops)
  {
    if ops != [] {
      var before, op := ops[..|ops| - 1], ops[|ops| - 1];
      RunKeepsOwned(cacheSize, maxSeconds, before);
      var s := After(cacheSize, maxSeconds, before);
      match op {
        case Accept(c, script) =>
          FindIsKey(s.commands, c.requestId);
          FindIsKey(s.machine.requests, c.requestId);
          assert ops[|ops| - 1].Accept?;
          AcceptKeepsOwnedIff(s, c, script);
        case Tick(script) => TickKeepsOwned(s, script);
        case Shutdown(script) => ShutdownKeepsOwned(s, script);
      }
      StepRemembersTogether(s, op);
    }
  }

  /** No command of the run breaks ownership where it is accepted. */
  ghost predicate NeverBreaks(cacheSize: nat, maxSeconds: nat, ops: seq<Op>) {
    forall k :: 0 <= k < |ops| && ops[k].Accept? ==>
                  !Breaks(After(cacheSize, maxSeconds, ops[..k]), ops[k].command, ops[k].script)
  }

  /** Ownership holds after each operation of the run. */
  ghost predicate OwnedThroughout(cacheSize: nat, maxSeconds: nat, ops: seq<Op>) {
    forall k :: 0 <= k <= |ops| ==> Owned(After(cacheSize, maxSeconds, ops[..k]))
  }

  lemma StepKeepsOwnedIff(s: ControllerState, op: Op)
    requires Owned(s) && (op.Accept? ==> op.command.WellFormed() && SessionNamed(op.script))
    ensures Owned(StepOp(s, op)) <==> !(op.Accept? && Breaks(s, op.command, op.script))
  {
    match op
    case Accept(c, script) => AcceptKeepsOwnedIff(s, c, script);
    case Tick(script) => TickKeepsOwned(s, script);
    case Shutdown(script) => ShutdownKeepsOwned(s, script);
  }

  lemma AfterPrefix(cacheSize: nat, maxSeconds: nat, ops: seq<Op>, k: nat)
    requires k < |ops|
    ensures After(cacheSize, maxSeconds, ops[..k + 1]) == StepOp(After(cacheSize, maxSeconds, ops[..k]), ops[k])
  {
    assert ops[..k + 1][..k] == ops[..k];
  }

  lemma UnbrokenStep(cacheSize: nat, maxSeconds: nat, ops: seq<Op>, k: nat)
    requires WellFormedRun(ops) && NeverBreaks(cacheSize, maxSeconds, ops) && k < |ops|
    requires Owned(After(cacheSize, maxSeconds, ops[..k]))
    ensures Owned(After(cacheSize, maxSeconds, ops[..k + 1]))
  {
    var s, op := After(cacheSize, maxSeconds, ops[..k]), ops[k];
    assert op.Accept? ==> !Breaks(s, op.command, op.script);
    StepKeepsOwnedIff(s, op);
    AfterPrefix(cacheSize, maxSeconds, ops, k);
  }

  lemma StartsOwned(cacheSize: nat, maxSeconds: nat, ops: seq<Op>)
    requires cacheSize > 0 && |ops| == 0
    ensures Owned(After(cacheSize, maxSeconds, ops))
  {
    assert ops == [];
  }

  lemma {:induction false} UnbrokenIsOwned(cacheSize: nat, maxSeconds: nat, ops: seq<Op>, k: nat)
    requires cacheSize > 0 && WellFormedRun(ops) && NeverBreaks(cacheSize, maxSeconds, ops) && k <= |ops|
    ensures Owned(After(cacheSize, maxSeconds, ops[..k]))
  {
    if k > 0 {
      UnbrokenIsOwned(cacheSize, maxSeconds, ops, k - 1);
      UnbrokenStep(cacheSize, maxSeconds, ops, k - 1);
    } else {
      StartsOwned(cacheSize, maxSeconds, ops[..k]);
    }
  }

  /** Over any run, ids reused or not, ownership holds throughout exactly when no command breaks it. */
  lemma OwnedThroughoutIff(cacheSize: nat, maxSeconds: nat, ops: seq<Op>)
    requires cacheSize > 0 && WellFormedRun(ops)
    ensures OwnedThroughout(cacheSize, maxSeconds, ops) <==> NeverBreaks(cacheSize, maxSeconds, ops)
  {
    if OwnedThroughout(cacheSize, maxSeconds, ops) {
      forall k | 0 <= k < |ops| && ops[k].Accept?
        ensures !Breaks(After(cacheSize, maxSeconds, ops[..k]), ops[k].command, ops[k].script)
      {
        AfterPrefix(cacheSize, maxSeconds, ops, k);
        assert Owned(After(cacheSize, maxSeconds, ops[..k + 1]));
        StepKeepsOwnedIff(After(cacheSize, maxSeconds, ops[..k]), ops[k]);
      }
    }
    if NeverBreaks(cacheSize, maxSeconds, ops) {
      forall k | 0 <= k <= |ops| ensures Owned(After(cacheSize, maxSeconds, ops[..k])) {
        UnbrokenIsOwned(cacheSize, maxSeconds, ops, k);
      }
    }
  }

  predicate Usual(s: ControllerState) {
    s.machine.state in {Idle, Recording, Finalizing, Complete}
  }

  lemma DriveStaysUsual(s: ControllerState, script: StopScript)
    requires Usual(s)
    ensures Usual(DriveFinalization(s, script).state)
  {
  }

  lemma BeginStaysUsual(s: ControllerState, code: string, script: StopScript)
    requires Usual(s)
    ensures Usual(BeginAndDrive(s, code, script).state)
  {
    DriveStaysUsual(s.(machine := BeginFinalizingStep(s.machine, code).machine), script);
  }

  lemma AcceptStartStaysUsual(s: ControllerState, c: Command, script: AcceptScript)
    requires Usual(s)
    ensures Usual(AcceptStart(s, c, script).state)
  {
  }

  lemma AcceptStopStaysUsual(s: ControllerState, c: Command, script: AcceptScript)
    requires Usual(s)
    ensures Usual(AcceptStop(s, c, script).state)
  {
  }

  /** PREFLIGHT, WARMING_UP and INVALID are never reached, with or without id reuse. */
  lemma {:induction false} OnlyFourStates(cacheSize: nat, maxSeconds: nat, ops: seq<Op>)
    ensures After(cacheSize, maxSeconds, ops).machine.state in {Idle, Recording, Finalizing, Complete}
  {
    if ops != [] {
      var before := ops[..|ops| - 1];
      OnlyFourStates(cacheSize, maxSeconds, before);
      var s := After(cacheSize, maxSeconds, before);
      match ops[|ops| - 1]
      case Accept(c, script) =>
        AcceptStartStaysUsual(s, c, script);
        AcceptStopStaysUsual(s, c, script);
      case Tick(script) =>
        DriveStaysUsual(s, script.stop);
        BeginStaysUsual(s, "recorder_exited", script.stop);
        BeginStaysUsual(s, "planned_duration_complete", script.stop);
      case Shutdown(script) =>
        DriveStaysUsual(s, script);
        BeginStaysUsual(s, "shutdown_requested", script);
    }
  }

  // ----- Why the hypothesis is needed -----

  /** The leak, one start at a time: a stale start spawns a recorder and leaves the machine idle. */
  lemma StaleStartLeaks(s: ControllerState, c: Command, script: AcceptScript)
    requires Owned(s) && c.WellFormed() && SessionNamed(script)
    requires s.machine.state == Idle && c.kind == Start && Stale(s, c) && Spawns(s, c, script)
    ensures var s' := AcceptStep(s, c, script).state;
            && s'.machine.state == Idle && UnconfirmedCount(s') == 1
            && (Find(s.machine.requests, c.requestId).value.command == Stop ==>
                  && AcceptStep(s, c, script).result == Err(SessionFailed(RequestConflict(c.requestId)))
                  && s'.commands == s.commands)
            && s'.machine == s.machine && s'.retired == s.retired && s'.recorder == Some(Some(STARTED))
  {
    NoneUnconfirmed(s.retired);
    assert s.retired + [] == s.retired;
  }

  /** A further start that spawns then leaves two recorders alive. */
  lemma NextStartLosesTrack(s: ControllerState, c: Command, script: AcceptScript)
    requires s.machine.state == Idle && s.recorder == Some(Some(STARTED)) && CountUnconfirmed(s.retired) == 0
    requires c.WellFormed() && c.kind == Start && SessionNamed(script) && Spawns(s, c, script)
    requires Find(s.commands, c.requestId).None?
    ensures UnconfirmedCount(AcceptStep(s, c, script).state) == 2
  {
    var retired := s.retired + [Some(STARTED)];
    assert retired[..|retired| - 1] == s.retired;
  }

  lemma LettersDiffer()
    ensures "a" != "b" && "b" != "c" && "a" != "c"
    ensures !Blank("a") && !Blank("b") && !Blank("c") && !Blank("s")
  {
    assert "a"[0] != "b"[0] && "b"[0] != "c"[0] && "a"[0] != "c"[0];
    assert !IsSpace("a"[0]) && !IsSpace("b"[0]) && !IsSpace("c"[0]) && !IsSpace("s"[0]);
  }

  /** The state after STOP "a" while idle and a failed START "b", with a one-entry cache. */
  lemma ForgottenButCached()
    ensures var good := AcceptScript(Some("s"), true, true, 0, ANSWERS);
            var failing := AcceptScript(Some("s"), true, false, 0, ANSWERS);
            var ops := [Accept(Command("a", Stop, 0), good), Accept(Command("b", Start, 0), failing)];
            var s := After(1, 300, ops);
            && Owned(s) && s.machine.state == Idle && s.maxSeconds == 300 && s.retired == []
            && Stale(s, Command("a", Start, 0)) && Find(s.commands, "c").None?
            && Find(s.machine.requests, "a").value.command == Stop
  {
    LettersDiffer();
    var good := AcceptScript(Some("s"), true, true, 0, ANSWERS);
    var failing := AcceptScript(Some("s"), true, false, 0, ANSWERS);
    var o1, o2 := Accept(Command("a", Stop, 0), good), Accept(Command("b", Start, 0), failing);
    assert [o1, o2][..1] == [o1] && [o1][..0] == [];
    var s0 := NewController(1, 300);
    var s1 := StepOp(s0, o1);
    var step := StopWhileIdleStep(s0.machine, "a");
    var r1 := Receipt("a", Stop, "stop_while_idle", Idle);
    assert s1 == RememberReceipt(s0.(machine := step.machine), r1);
    assert s1.commands == [Item("a", r1)];
    assert step.machine.requests == [Item("a", CachedRequest(Stop, step.outcome.value))];
    var s2 := StepOp(s1, o2);
    var r2 := Receipt("b", Start, "recorder_spawn_failed", Idle);
    assert s2 == RememberReceipt(Prepared(s1), r2);
    assert Put(s1.commands, "b", r2) == [Item("a", r1), Item("b", r2)] by {
      FindPut(s1.commands, "b", r2);
    }
    assert s2.commands == [Item("b", r2)];
    assert After(1, 300, [o1]) == s1 && After(1, 300, [o1, o2]) == s2;
    FindNone(s2.commands, "a");
    FindNone(s2.commands, "c");
  }

  /** So STOP "a" while idle, a failed START "b", START "a" and START "c" leave two recorders alive. */
  lemma ReuseLeavesTwoRecorders()
    ensures var good := AcceptScript(Some("s"), true, true, 0, ANSWERS);
            var failing := AcceptScript(Some("s"), true, false, 0, ANSWERS);
            var ops := [Accept(Command("a", Stop, 0), good), Accept(Command("b", Start, 0), failing),
                        Accept(Command("a", Start, 0), good), Accept(Command("c", Start, 0), good)];
            UnconfirmedCount(After(1, 300, ops)) == 2
  {
    LettersDiffer();
    ForgottenButCached();
    var good := AcceptScript(Some("s"), true, true, 0, ANSWERS);
    var failing := AcceptScript(Some("s"), true, false, 0, ANSWERS);
    var o1, o2 := Accept(Command("a", Stop, 0), good), Accept(Command("b", Start, 0), failing);
    var o3, o4 := Accept(Command("a", Start, 0), good), Accept(Command("c", Start, 0), good);
    assert [o1, o2, o3, o4][..3] == [o1, o2, o3] && [o1, o2, o3][..2] == [o1, o2];
    var s2 := After(1, 300, [o1, o2]);
    StaleStartLeaks(s2, o3.command, good);
    var s3 := AcceptStep(s2, o3.command, good).state;
    assert After(1, 300, [o1, o2, o3]) == s3;
    NextStartLosesTrack(s3, o4.command, good);
    assert After(1, 300, [o1, o2, o3, o4]) == AcceptStep(s3, o4.command, good).state;
  }
}
