/**
 The capture controller as the program runs it
 (ros2_ws/src/vt_realsense_capture/vt_realsense_capture/controller.py, lines 166-443),
 proved to follow module CaptureRules. Event, status and session sinks are left out.
 */
module CaptureController {
  import opened Prelude
  import opened OrderedDict
  import opened StopProtocol
  import opened Recorder
  import opened Session
  import opened CaptureRules

  class CaptureController {
    const cacheSize: nat
    const maxSeconds: nat
    var machine: CaptureStateMachine
    var commands: seq<Item<Receipt>>
    var recorder: ManagedRecorder?
    var deadline: Option<int>
    var terminationConfirmed: bool
    ghost var retired: seq<RecorderState>

    ghost function RecorderObjects(): set<object>
      reads this, recorder
    {
      if recorder == null then {}
      else if recorder.process == null then {recorder}
      else {recorder, recorder.process}
    }

    ghost function Footprint(): set<object>
      reads this, recorder
    {
      {this, machine} + RecorderObjects()
    }

    ghost predicate Valid()
      reads this, Footprint()
    {
      machine.cacheSize == cacheSize && (recorder != null ==> recorder.Valid())
    }

    ghost function State(): ControllerState
      reads this, Footprint()
    {
      ControllerState(
        machine.State(), cacheSize, maxSeconds, commands,
        if recorder == null then None else Some(recorder.State()), deadline, terminationConfirmed, retired)
    }

    constructor (cacheSize: nat, maxSeconds: nat)
      ensures Valid() && fresh(Footprint()) && State() == NewController(cacheSize, maxSeconds)
    {
      this.cacheSize, this.maxSeconds := cacheSize, maxSeconds;
      machine := new CaptureStateMachine(cacheSize);
      commands, recorder, deadline, terminationConfirmed, retired := [], null, None, false, [];
    }

    method RememberCommand(receipt: Receipt)
      requires Valid()
      modifies this`commands
      ensures Valid() && State() == RememberReceipt(old(State()), receipt)
    {
      commands := Put(commands, receipt.requestId, receipt);
      ghost var put := commands;
      while |commands| > cacheSize
        invariant commands == put || |commands| >= cacheSize
        invariant |commands| <= |put| && commands == put[|put| - |commands|..]
        invariant machine == old(machine) && recorder == old(recorder) && deadline == old(deadline)
        invariant terminationConfirmed == old(terminationConfirmed) && retired == old(retired)
        decreases |commands|
      {
        commands := commands[1..];
      }
    }

    method DriveFinalization(script: StopScript) returns (r: Result<bool, ControllerError>)
      requires Valid()
      modifies Footprint()
      ensures Valid() && Footprint() == old(Footprint())
      ensures Outcome(State(), r) == CaptureRules.DriveFinalization(old(State()), script)
    {
      if recorder == null {
        return Err(NoRecorder);
      }
      var fact := recorder.Stop(script);
      if !fact.terminationConfirmed {
        return Ok(false);
      }
      terminationConfirmed := true;
      var step := machine.FinalizePassed();
      r := if step.Ok? then Ok(true) else Err(SessionFailed(step.error));
    }

    method StartupFailed(c: Command, code: string) returns (r: Result<Receipt, ControllerError>)
      requires Valid()
      modifies this`commands
      ensures Valid() && Outcome(State(), r) == CaptureRules.StartupFailed(old(State()), c, code)
    {
      var receipt := Receipt(c.requestId, c.kind, code, machine.state);
      RememberCommand(receipt);
      r := Ok(receipt);
    }

    /** Drops the previous recorder and, unless idle, the previous machine. */
    method Prepare()
      requires Valid()
      modifies this
      ensures Valid() && State() == Prepared(old(State()))
      ensures fresh(Footprint() - old(Footprint()))
      ensures recorder == null && commands == old(commands)
    {
      if machine.state != Idle {
        machine := new CaptureStateMachine(cacheSize);
      }
      retired := retired + if recorder != null then [recorder.State()] else [];
      recorder := null;
      terminationConfirmed := false;
    }

    /** The part of a start after the session directory and its settings exist. */
    method Spawn(c: Command, session: string, script: AcceptScript) returns (r: Result<Receipt, ControllerError>)
      requires Valid() && recorder == null
      requires script.sessionId == Some(session) && script.qosWritten
      modifies this, machine
      ensures Valid() && fresh(Footprint() - old(Footprint()))
      ensures Outcome(State(), r) == SpawnStep(old(State()), c, session, script)
    {
      var candidate := new ManagedRecorder();
      var started := candidate.Start(script.spawnSucceeds);
      if started.Err? {
        r := StartupFailed(c, "recorder_spawn_failed");
        return;
      }
      recorder := candidate;
      r := Begin(c, session, script.now);
    }

    /** The part of a start after the recorder is running. */
    method Begin(c: Command, session: string, now: int) returns (r: Result<Receipt, ControllerError>)
      requires Valid() && recorder != null && recorder.State() == Some(STARTED)
      modifies this`commands, this`deadline, machine
      ensures Valid()
      ensures Outcome(State(), r) == CaptureRules.BeginStep(old(State()), c, session, now)
    {
      var step := machine.StartSession(c.requestId, session);
      if step.Err? {
        return Err(SessionFailed(step.error));
      }
      var effective := if c.plannedSeconds != 0 then c.plannedSeconds else maxSeconds;
      deadline := Some(now + effective * NANOSECONDS_PER_SECOND);
      var receipt := Receipt(c.requestId, c.kind, step.value.code, step.value.state);
      RememberCommand(receipt);
      r := Ok(receipt);
    }

    method AcceptStart(c: Command, script: AcceptScript) returns (r: Result<Receipt, ControllerError>)
      requires Valid()
      modifies Footprint()
      ensures Valid() && fresh(Footprint() - old(Footprint()))
      ensures Outcome(State(), r) == CaptureRules.AcceptStart(old(State()), c, script)
    {
      if c.plannedSeconds > maxSeconds {
        return Err(DurationTooLong);
      }
      if machine.state !in {Idle, Complete, Invalid} {
        return Err(WrongState(machine.state));
      }
      Prepare();
      if script.sessionId.None? {
        r := StartupFailed(c, "session_create_failed");
      } else if !script.qosWritten {
        r := StartupFailed(c, "recorder_parameters_failed");
      } else {
        r := Spawn(c, script.sessionId.value, script);
      }
    }

    method AcceptStop(c: Command, script: AcceptScript) returns (r: Result<Receipt, ControllerError>)
      requires Valid()
      modifies Footprint()
      ensures Valid() && Footprint() == old(Footprint())
      ensures Outcome(State(), r) == CaptureRules.AcceptStop(old(State()), c, script)
    {
      if machine.state == Idle {
        var step := machine.StopWhileIdle(c.requestId);
        if step.Err? {
          return Err(SessionFailed(step.error));
        }
        var receipt := Receipt(c.requestId, c.kind, step.value.code, step.value.state);
        RememberCommand(receipt);
        return Ok(receipt);
      }
      var step := machine.StopSession(c.requestId);
      if step.Err? {
        return Err(SessionFailed(step.error));
      }
      var receipt := Receipt(c.requestId, c.kind, step.value.code, step.value.state);
      RememberCommand(receipt);
      var driven := DriveFinalization(script.stop);
      r := if driven.Err? then Err(driven.error) else Ok(receipt);
    }

    /** Accepts one command. */
    method Accept(c: Command, script: AcceptScript) returns (r: Result<Receipt, ControllerError>)
      requires Valid()
      modifies Footprint()
      ensures Valid() && fresh(Footprint() - old(Footprint()))
      ensures Outcome(State(), r) == AcceptStep(old(State()), c, script)
    {
      var cached := Find(commands, c.requestId);
      if cached.Some? {
        return if cached.value.kind != c.kind then Err(ConflictingRequest(c.requestId)) else Ok(cached.value);
      }
      if c.kind == Start {
        r := AcceptStart(c, script);
      } else {
        r := AcceptStop(c, script);
      }
    }

    method BeginAndDrive(code: string, script: StopScript) returns (r: Result<bool, ControllerError>)
      requires Valid()
      modifies Footprint()
      ensures Valid() && Footprint() == old(Footprint())
      ensures Outcome(State(), r) == CaptureRules.BeginAndDrive(old(State()), code, script)
    {
      var step := machine.BeginFinalizing(code);
      if step.Err? {
        return Err(SessionFailed(step.error));
      }
      r := DriveFinalization(script);
    }

    /** The periodic step: notices exits and deadlines, and retries finalization. */
    method Tick(script: TickScript) returns (r: Result<bool, ControllerError>)
      requires Valid()
      modifies Footprint()
      ensures Valid() && Footprint() == old(Footprint())
      ensures Outcome(State(), r) == TickStep(old(State()), script)
    {
      if machine.state == Recording {
        if recorder == null {
          return Err(NoRecorder);
        }
        var health := recorder.GetHealth(script.poll);
        if health == HasExited {
          r := BeginAndDrive("recorder_exited", script.stop);
        } else if deadline.Some? && script.now >= deadline.value {
          r := BeginAndDrive("planned_duration_complete", script.stop);
        } else {
          r := Ok(false);
        }
      } else if machine.state == Finalizing {
        r := DriveFinalization(script.stop);
      } else {
        r := Ok(false);
      }
    }

    /** Stops an active recorder and reports whether its exit is confirmed. */
    method Shutdown(script: StopScript) returns (r: Result<bool, ControllerError>)
      requires Valid()
      modifies Footprint()
      ensures Valid() && Footprint() == old(Footprint())
      ensures Outcome(State(), r) == ShutdownStep(old(State()), script)
    {
      if machine.state in {Idle, Complete, Invalid} {
        return Ok(true);
      }
      if machine.state == Recording {
        r := BeginAndDrive("shutdown_requested", script);
      } else {
        r := DriveFinalization(script);
      }
    }
  }
}
