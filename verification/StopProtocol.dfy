/**
 The rules by which the recorder process is stopped
 (ros2_ws/src/vt_realsense_capture/vt_realsense_capture/recorder.py, lines 345-482).
 Poll, signal and wait calls may each fail: what they answer during one `stop` is an
 arbitrary script.
 */
module StopProtocol {
  import opened Prelude

  datatype PollAnswer = StillRunning | Exited(code: int) | PollRaised
  datatype SignalAnswer = Delivered | SignalRaised
  datatype WaitAnswer = Reaped(code: int) | TimedOut | WaitRaised
  datatype Signal = SIGINT | SIGTERM | SIGKILL

  /** The answers one `stop` call may get; it makes each of these calls at most once. */
  datatype StopScript = StopScript(
    poll: PollAnswer,
    sigint: SignalAnswer, sigintWait: WaitAnswer,
    sigterm: SignalAnswer, sigtermWait: WaitAnswer,
    sigkill: SignalAnswer, sigkillWait: WaitAnswer,
    recheck: PollAnswer)

  /** One operating-system call and its answer. */
  datatype Call =
    | Poll(pollAnswer: PollAnswer)
    | Kill(signal: Signal, signalAnswer: SignalAnswer)
    | Wait(seconds: nat, waitAnswer: WaitAnswer)

  datatype StopResult = StopResult(
    valid: bool, returncode: Option<int>, reason: string, terminationConfirmed: bool, possiblyAlive: bool)

  /** A started process: its final result, once known, and the first fault met. */
  datatype ProcState = ProcState(stopResult: Option<StopResult>, stopFault: Option<string>)

  const POLL_FAILED := "poll_failed"

  const STARTED := ProcState(None, None)

  const SIGINT_SECONDS: nat := 60
  const SIGTERM_SECONDS: nat := 10
  const SIGKILL_SECONDS: nat := 10

  datatype StopOutcome = StopOutcome(state: ProcState, result: StopResult, calls: seq<Call>)

  function Uncertain(reason: string): StopResult {
    StopResult(false, None, reason, false, true)
  }

  function Finish(s: ProcState, valid: bool, code: int, reason: string, calls: seq<Call>): StopOutcome {
    var result := StopResult(valid, Some(code), reason, true, false);
    StopOutcome(s.(stopResult := Some(result)), result, calls)
  }

  function RememberFault(s: ProcState, reason: string): ProcState {
    if s.stopFault.None? then s.(stopFault := Some(reason)) else s
  }

  function ControlFailure(s: ProcState, reason: string, recheck: PollAnswer, calls: seq<Call>): StopOutcome {
    var s' := RememberFault(s, reason);
    var fault := s'.stopFault.value;
    if recheck.Exited? then Finish(s', false, recheck.code, fault, calls + [Poll(recheck)])
    else StopOutcome(s', Uncertain(fault), calls + [Poll(recheck)])
  }

  function KillAndReap(s: ProcState, reason: string, script: StopScript, calls: seq<Call>): StopOutcome {
    var killed := calls + [Kill(SIGKILL, script.sigkill)];
    if script.sigkill.SignalRaised? then ControlFailure(s, "sigkill_signal_failed", script.recheck, killed)
    else
      var waited := killed + [Wait(SIGKILL_SECONDS, script.sigkillWait)];
      match script.sigkillWait
      case Reaped(code) => Finish(s, false, code, reason, waited)
      case TimedOut => ControlFailure(s, "sigkill_wait_timeout", script.recheck, waited)
      case WaitRaised => ControlFailure(s, "sigkill_wait_failed", script.recheck, waited)
  }

  /** SIGTERM, then SIGKILL on timeout; both escalation paths share this shape. */
  function Terminate(s: ProcState, exitReason: string, signalFault: string, waitFault: string, killReason: string,
                     script: StopScript, calls: seq<Call>): StopOutcome {
    var killed := calls + [Kill(SIGTERM, script.sigterm)];
    if script.sigterm.SignalRaised? then ControlFailure(s, signalFault, script.recheck, killed)
    else
      var waited := killed + [Wait(SIGTERM_SECONDS, script.sigtermWait)];
      match script.sigtermWait
      case Reaped(code) => Finish(s, false, code, exitReason, waited)
      case TimedOut => KillAndReap(s, killReason, script, waited)
      case WaitRaised => ControlFailure(s, waitFault, script.recheck, waited)
  }

  function TerminateAfterSigintTimeout(s: ProcState, script: StopScript, calls: seq<Call>): StopOutcome {
    Terminate(s, "sigint_timeout", "sigterm_signal_failed", "sigterm_wait_failed", "forced_kill", script, calls)
  }

  function RecoverWithTermination(s: ProcState, script: StopScript, calls: seq<Call>): StopOutcome {
    Terminate(RememberFault(s, POLL_FAILED), POLL_FAILED, POLL_FAILED + "_sigterm_signal_failed",
              POLL_FAILED + "_sigterm_wait_failed", POLL_FAILED + "_forced_kill", script, calls)
  }

  /** `RecorderProcess.stop` on a started process. */
  function StopStep(s: ProcState, script: StopScript): StopOutcome {
    if s.stopResult.Some? then StopOutcome(s, s.stopResult.value, [])
    else
      var polled := [Poll(script.poll)];
      match script.poll
      case PollRaised => RecoverWithTermination(s, script, polled)
      case Exited(code) =>
        Finish(s, false, code, if s.stopFault.Some? then s.stopFault.value else "unexpected_exit", polled)
      case StillRunning =>
        var killed := polled + [Kill(SIGINT, script.sigint)];
        if script.sigint.SignalRaised? then ControlFailure(s, "sigint_signal_failed", script.recheck, killed)
        else
          var waited := killed + [Wait(SIGINT_SECONDS, script.sigintWait)];
          match script.sigintWait
          case TimedOut => TerminateAfterSigintTimeout(s, script, waited)
          case WaitRaised => ControlFailure(s, "sigint_wait_failed", script.recheck, waited)
          case Reaped(code) =>
            if s.stopFault.Some? then Finish(s, false, code, s.stopFault.value, waited)
            else Finish(s, code == 0, code, if code == 0 then "clean_exit" else "nonzero_exit", waited)
  }
}
