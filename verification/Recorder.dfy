/**
 The recorder process and its adapter as the program runs them
 (ros2_ws/src/vt_realsense_capture/vt_realsense_capture/recorder.py, lines 286-482, and
 controller_node.py, lines 125-177), proved to follow module StopProtocol.
 */
module Recorder {
  import opened Prelude
  import opened StopProtocol

  datatype ProcessError = NotStarted | AlreadyStarted | SpawnRaised

  class RecorderProcess {
    var started: bool
    var stopResult: Option<StopResult>
    var stopFault: Option<string>
    ghost var calls: seq<Call>

    ghost function State(): ProcState
      reads this
    {
      ProcState(stopResult, stopFault)
    }

    ghost predicate Valid()
      reads this
    {
      !started ==> stopResult.None?
    }

    constructor ()
      ensures Valid() && !started && State() == STARTED && calls == []
    {
      started, stopResult, stopFault, calls := false, None, None, [];
    }

    /** Spawns the process, at most once. */
    method Start(spawnSucceeds: bool) returns (r: Result<(), ProcessError>)
      requires Valid()
      modifies this
      ensures Valid() && State() == old(State()) && calls == old(calls)
      ensures started == (old(started) || spawnSucceeds)
      ensures r == if old(started) then Err(AlreadyStarted) else if spawnSucceeds then Ok(()) else Err(SpawnRaised)
    {
      if started {
        return Err(AlreadyStarted);
      }
      if !spawnSucceeds {
        return Err(SpawnRaised);
      }
      started := true;
      return Ok(());
    }

    method Finish(valid: bool, code: int, reason: string) returns (result: StopResult)
      requires started
      modifies this`stopResult
      ensures result == StopResult(valid, Some(code), reason, true, false)
      ensures stopResult == Some(result)
    {
      result := StopResult(valid, Some(code), reason, true, false);
      stopResult := Some(result);
    }

    method RememberStopFault(reason: string) returns (fault: string)
      modifies this`stopFault
      ensures State() == RememberFault(old(State()), reason) && stopFault == Some(fault)
    {
      if stopFault.None? {
        stopFault := Some(reason);
      }
      fault := stopFault.value;
    }

    method ControlFailure(reason: string, recheck: PollAnswer) returns (result: StopResult)
      requires started
      modifies this`stopResult, this`stopFault, this`calls
      ensures StopOutcome(State(), result, calls)
              == StopProtocol.ControlFailure(old(State()), reason, recheck, old(calls))
    {
      var fault := RememberStopFault(reason);
      calls := calls + [Poll(recheck)];
      match recheck
      case Exited(code) => result := Finish(false, code, fault);
      case _ => result := Uncertain(fault);
    }

    method KillAndReap(reason: string, script: StopScript) returns (result: StopResult)
      requires started
      modifies this`stopResult, this`stopFault, this`calls
      ensures StopOutcome(State(), result, calls) == StopProtocol.KillAndReap(old(State()), reason, script, old(calls))
    {
      calls := calls + [Kill(SIGKILL, script.sigkill)];
      if script.sigkill.SignalRaised? {
        result := ControlFailure("sigkill_signal_failed", script.recheck);
        return;
      }
      calls := calls + [Wait(SIGKILL_SECONDS, script.sigkillWait)];
      match script.sigkillWait
      case Reaped(code) => result := Finish(false, code, reason);
      case TimedOut => result := ControlFailure("sigkill_wait_timeout", script.recheck);
      case WaitRaised => result := ControlFailure("sigkill_wait_failed", script.recheck);
    }

    method TerminateAfterSigintTimeout(script: StopScript) returns (result: StopResult)
      requires started
      modifies this`stopResult, this`stopFault, this`calls
      ensures StopOutcome(State(), result, calls)
              == StopProtocol.TerminateAfterSigintTimeout(old(State()), script, old(calls))
    {
      calls := calls + [Kill(SIGTERM, script.sigterm)];
      if script.sigterm.SignalRaised? {
        result := ControlFailure("sigterm_signal_failed", script.recheck);
        return;
      }
      calls := calls + [Wait(SIGTERM_SECONDS, script.sigtermWait)];
      match script.sigtermWait
      case Reaped(code) => result := Finish(false, code, "sigint_timeout");
      case TimedOut => result := KillAndReap("forced_kill", script);
      case WaitRaised => result := ControlFailure("sigterm_wait_failed", script.recheck);
    }

    method RecoverWithTermination(reason: string, script: StopScript) returns (result: StopResult)
      requires started && reason == POLL_FAILED
      modifies this`stopResult, this`stopFault, this`calls
      ensures StopOutcome(State(), result, calls)
              == StopProtocol.RecoverWithTermination(old(State()), script, old(calls))
    {
      var _ := RememberStopFault(reason);
      calls := calls + [Kill(SIGTERM, script.sigterm)];
      if script.sigterm.SignalRaised? {
        result := ControlFailure(reason + "_sigterm_signal_failed", script.recheck);
        return;
      }
      calls := calls + [Wait(SIGTERM_SECONDS, script.sigtermWait)];
      match script.sigtermWait
      case Reaped(code) => result := Finish(false, code, reason);
      case TimedOut => result := KillAndReap(reason + "_forced_kill", script);
      case WaitRaised => result := ControlFailure(reason + "_sigterm_wait_failed", script.recheck);
    }

    /** Asks the process to stop, escalating until an exit is seen or a call fails. */
    method Stop(script: StopScript) returns (r: Result<StopResult, ProcessError>)
      requires Valid()
      modifies this`stopResult, this`stopFault, this`calls
      ensures Valid()
      ensures !started ==> r == Err(NotStarted) && State() == old(State()) && calls == old(calls)
      ensures started ==>
                var out := StopStep(old(State()), script);
                State() == out.state && r == Ok(out.result) && calls == old(calls) + out.calls
    {
      if stopResult.Some? {
        assert calls == calls + [];
        return Ok(stopResult.value);
      }
      if !started {
        return Err(NotStarted);
      }
      ghost var before := calls;
      calls := [Poll(script.poll)];
      var result: StopResult;
      match script.poll {
        case PollRaised =>
          result := RecoverWithTermination(POLL_FAILED, script);
        case Exited(code) =>
          result := Finish(false, code, if stopFault.Some? then stopFault.value else "unexpected_exit");
        case StillRunning =>
          result := Interrupt(script);
      }
      calls := before + calls;
      return Ok(result);
    }

    /** The SIGINT part of `stop`, once a poll has found the process running. */
    method Interrupt(script: StopScript) returns (result: StopResult)
      requires started && stopResult.None? && script.poll.StillRunning? && calls == [Poll(script.poll)]
      modifies this`stopResult, this`stopFault, this`calls
      ensures StopOutcome(State(), result, calls) == StopStep(old(State()), script)
    {
      calls := calls + [Kill(SIGINT, script.sigint)];
      if script.sigint.SignalRaised? {
        result := ControlFailure("sigint_signal_failed", script.recheck);
        return;
      }
      calls := calls + [Wait(SIGINT_SECONDS, script.sigintWait)];
      match script.sigintWait
      case TimedOut => result := TerminateAfterSigintTimeout(script);
      case WaitRaised => result := ControlFailure("sigint_wait_failed", script.recheck);
      case Reaped(code) =>
        if stopFault.Some? {
          result := Finish(false, code, stopFault.value);
        } else {
          result := Finish(code == 0, code, if code == 0 then "clean_exit" else "nonzero_exit");
        }
    }
  }

  datatype Health = Alive | HasExited | HealthUncertain

  datatype StopFact = StopFact(
    returncode: Option<int>, detail: string, terminationConfirmed: bool, possiblyAlive: bool)

  function FactOf(r: StopResult): StopFact {
    StopFact(r.returncode, r.reason, r.terminationConfirmed, r.possiblyAlive)
  }

  const NEVER_STARTED := StopFact(None, "Recorder never started", true, false)

  function HealthOf(proc: Option<ProcState>, poll: PollAnswer): Health {
    if proc.None? then HealthUncertain
    else match poll
      case StillRunning => Alive
      case Exited(_) => HasExited
      case PollRaised => HealthUncertain
  }

  datatype ManagedError = StartedTwice | ProcessFailed(error: ProcessError)

  /** The adapter the controller holds: it keeps a process only once its start succeeded. */
  class ManagedRecorder {
    var process: RecorderProcess?

    ghost predicate Valid()
      reads this, process
    {
      process != null ==> process.started && process.Valid()
    }

    ghost function State(): Option<ProcState>
      reads this, process
    {
      if process == null then None else Some(process.State())
    }

    constructor ()
      ensures Valid() && process == null
    {
      process := null;
    }

    method Start(spawnSucceeds: bool) returns (r: Result<(), ManagedError>)
      requires Valid()
      modifies this`process
      ensures Valid()
      ensures old(process) != null ==> r == Err(StartedTwice) && process == old(process)
      ensures old(process) == null && spawnSucceeds ==>
                r.Ok? && process != null && fresh(process) && State() == Some(STARTED)
      ensures old(process) == null && !spawnSucceeds ==> r.Err? && process == null
    {
      if process != null {
        return Err(StartedTwice);
      }
      var candidate := new RecorderProcess();
      var outcome := candidate.Start(spawnSucceeds);
      if outcome.Err? {
        return Err(ProcessFailed(outcome.error));
      }
      process := candidate;
      return Ok(());
    }

    method GetHealth(poll: PollAnswer) returns (health: Health)
      requires Valid()
      ensures health == HealthOf(State(), poll)
    {
      if process == null {
        return HealthUncertain;
      }
      match poll
      case StillRunning => health := Alive;
      case Exited(_) => health := HasExited;
      case PollRaised => health := HealthUncertain;
    }

    method Stop(script: StopScript) returns (fact: StopFact)
      requires Valid()
      modifies process
      ensures Valid() && process == old(process)
      ensures process == null ==> fact == NEVER_STARTED
      ensures process != null ==>
                var out := StopStep(old(State()).value, script);
                State() == Some(out.state) && fact == FactOf(out.result)
    {
      if process == null {
        return NEVER_STARTED;
      }
      var result := process.Stop(script);
      fact := FactOf(result.value);
    }
  }
}
