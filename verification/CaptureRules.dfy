/**
 The capture controller's rules
 (ros2_ws/src/vt_realsense_capture/vt_realsense_capture/controller.py, lines 166-443):
 what each accepted command, tick and shutdown does to the lifecycle state, given how the
 file system, the clock and the recorder process answer.
 */
module CaptureRules {
  import opened Prelude
  import opened OrderedDict
  import opened StopProtocol
  import opened Recorder
  import opened Session

  const NANOSECONDS_PER_SECOND: int := 1_000_000_000
  const UINT32_LIMIT: int := 0x1_0000_0000

  datatype Command = Command(requestId: string, kind: CommandKind, plannedSeconds: nat) {
    /** What constructing a command fact checks. */
    predicate WellFormed() {
      !Blank(requestId) && plannedSeconds < UINT32_LIMIT
    }
  }

  datatype Receipt = Receipt(requestId: string, kind: CommandKind, code: string, state: CaptureState)

  datatype ControllerError =
    | ConflictingRequest(requestId: string)
    | DurationTooLong
    | WrongState(state: CaptureState)
    | SessionFailed(error: SessionError)
    | NoRecorder

  /** How the surroundings answer one `accept`: no session id means its creation raised. */
  datatype AcceptScript = AcceptScript(
    sessionId: Option<string>, qosWritten: bool, spawnSucceeds: bool, now: int, stop: StopScript)

  datatype TickScript = TickScript(poll: PollAnswer, now: int, stop: StopScript)

  /** A managed recorder is its process, if it ever started one. */
  type RecorderState = Option<ProcState>

  /** Started, and never confirmed to have terminated. */
  predicate Unconfirmed(r: RecorderState) {
    r.Some? && r.value.stopResult.None?
  }

  /** `retired` lists the recorders the controller has let go of, as they were then. */
  datatype ControllerState = ControllerState(
    machine: MachineState, cacheSize: nat, maxSeconds: nat,
    commands: seq<Item<Receipt>>, recorder: Option<RecorderState>,
    deadline: Option<int>, terminationConfirmed: bool, retired: seq<RecorderState>)

  function NewController(cacheSize: nat, maxSeconds: nat): ControllerState {
    ControllerState(NewMachine(cacheSize), cacheSize, maxSeconds, [], None, None, false, [])
  }

  datatype Outcome<T> = Outcome(state: ControllerState, result: Result<T, ControllerError>)

  function RememberReceipt(s: ControllerState, receipt: Receipt): ControllerState {
    s.(commands := Remember(s.commands, receipt.requestId, receipt, s.cacheSize))
  }

  /** Stops the recorder; completes the session once its exit is confirmed. */
  function DriveFinalization(s: ControllerState, script: StopScript): Outcome<bool> {
    if s.recorder.None? then Outcome(s, Err(NoRecorder))
    else
      var proc := s.recorder.value;
      var s1 := if proc.None? then s else s.(recorder := Some(Some(StopStep(proc.value, script).state)));
      var confirmed := proc.None? || StopStep(proc.value, script).result.terminationConfirmed;
      if !confirmed then Outcome(s1, Ok(false))
      else
        var step := FinalizePassedStep(s1.machine);
        var s2 := s1.(terminationConfirmed := true, machine := step.machine);
        Outcome(s2, if step.outcome.Ok? then Ok(true) else Err(SessionFailed(step.outcome.error)))
  }

  function StartupFailed(s: ControllerState, c: Command, code: string): Outcome<Receipt> {
    var receipt := Receipt(c.requestId, c.kind, code, s.machine.state);
    Outcome(RememberReceipt(s, receipt), Ok(receipt))
  }

  /** The state in which a start attempt runs: a fresh machine unless idle, and no recorder. */
  function Prepared(s: ControllerState): ControllerState {
    s.(machine := if s.machine.state == Idle then s.machine else NewMachine(s.cacheSize),
       recorder := None, terminationConfirmed := false,
       retired := s.retired + if s.recorder.Some? then [s.recorder.value] else [])
  }

  function Deadline(s: ControllerState, c: Command, now: int): int {
    var effective := if c.plannedSeconds != 0 then c.plannedSeconds else s.maxSeconds;
    now + effective * NANOSECONDS_PER_SECOND
  }

  /** Enters RECORDING with the recorder just started; it is held even if the machine refuses. */
  function BeginStep(s: ControllerState, c: Command, session: string, now: int): Outcome<Receipt> {
    var step := StartStep(s.machine, c.requestId, session);
    var s1 := s.(machine := step.machine);
    if step.outcome.Err? then Outcome(s1, Err(SessionFailed(step.outcome.error)))
    else
      var receipt := Receipt(c.requestId, c.kind, step.outcome.value.code, step.outcome.value.state);
      Outcome(RememberReceipt(s1.(deadline := Some(Deadline(s, c, now))), receipt), Ok(receipt))
  }

  /** Spawns a recorder and begins the session. */
  function SpawnStep(p: ControllerState, c: Command, session: string, script: AcceptScript): Outcome<Receipt> {
    if !script.spawnSucceeds then StartupFailed(p, c, "recorder_spawn_failed")
    else BeginStep(p.(recorder := Some(Some(STARTED))), c, session, script.now)
  }

  function AcceptStart(s: ControllerState, c: Command, script: AcceptScript): Outcome<Receipt> {
    if c.plannedSeconds > s.maxSeconds then Outcome(s, Err(DurationTooLong))
    else if s.machine.state !in {Idle, Complete, Invalid} then Outcome(s, Err(WrongState(s.machine.state)))
    else
      var p := Prepared(s);
      if script.sessionId.None? then StartupFailed(p, c, "session_create_failed")
      else if !script.qosWritten then StartupFailed(p, c, "recorder_parameters_failed")
      else SpawnStep(p, c, script.sessionId.value, script)
  }

  function AcceptStop(s: ControllerState, c: Command, script: AcceptScript): Outcome<Receipt> {
    var idle := s.machine.state == Idle;
    var step := if idle then StopWhileIdleStep(s.machine, c.requestId) else StopCommandStep(s.machine, c.requestId);
    var s1 := s.(machine := step.machine);
    if step.outcome.Err? then Outcome(s1, Err(SessionFailed(step.outcome.error)))
    else
      var receipt := Receipt(c.requestId, c.kind, step.outcome.value.code, step.outcome.value.state);
      var s2 := RememberReceipt(s1, receipt);
      if idle then Outcome(s2, Ok(receipt))
      else
        var driven := DriveFinalization(s2, script.stop);
        Outcome(driven.state, if driven.result.Err? then Err(driven.result.error) else Ok(receipt))
  }

  /** `accept`: remembered commands are answered from the controller's own cache. */
  function AcceptStep(s: ControllerState, c: Command, script: AcceptScript): Outcome<Receipt> {
    var cached := Find(s.commands, c.requestId);
    if cached.Some? then
      Outcome(s, if cached.value.kind != c.kind then Err(ConflictingRequest(c.requestId)) else Ok(cached.value))
    else if c.kind == Start then AcceptStart(s, c, script)
    else AcceptStop(s, c, script)
  }

  function BeginAndDrive(s: ControllerState, code: string, script: StopScript): Outcome<bool> {
    var step := BeginFinalizingStep(s.machine, code);
    if step.outcome.Err? then Outcome(s.(machine := step.machine), Err(SessionFailed(step.outcome.error)))
    else DriveFinalization(s.(machine := step.machine), script)
  }

  function TickStep(s: ControllerState, script: TickScript): Outcome<bool> {
    if s.machine.state == Recording then
      if s.recorder.None? then Outcome(s, Err(NoRecorder))
      else if HealthOf(s.recorder.value, script.poll) == HasExited then BeginAndDrive(s, "recorder_exited", script.stop)
      else if s.deadline.Some? && script.now >= s.deadline.value then
        BeginAndDrive(s, "planned_duration_complete", script.stop)
      else Outcome(s, Ok(false))
    else if s.machine.state == Finalizing then DriveFinalization(s, script.stop)
    else Outcome(s, Ok(false))
  }

  /** Whether the exit of the recorder, if any was active, is confirmed. */
  function ShutdownStep(s: ControllerState, script: StopScript): Outcome<bool> {
    if s.machine.state in {Idle, Complete, Invalid} then Outcome(s, Ok(true))
    else if s.machine.state == Recording then BeginAndDrive(s, "shutdown_requested", script)
    else DriveFinalization(s, script)
  }
}
