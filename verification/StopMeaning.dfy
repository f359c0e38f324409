/**
 The stop protocol read off the calls it makes
 (ros2_ws/src/vt_realsense_capture/vt_realsense_capture/recorder.py, lines 345-482): which call follows
 which, for how long each wait lasts, and what the log alone says of the fault, the reason and validity.
 */
module StopMeaning {
  import opened Prelude
  import opened StopProtocol
  import opened StopRuns

  // ----- The protocol as a table of calls -----

  /** The signal the wait at the end of the log was for. */
  function Awaited(log: seq<Call>): Option<Signal> {
    if |log| >= 2 && log[|log| - 2].Kill? then Some(log[|log| - 2].signal) else None
  }

  /** `call` is the one that comes next after the log. */
  predicate Follows(log: seq<Call>, call: Call) {
    if log == [] then call.Poll?
    else
      match log[|log| - 1]
      case Poll(StillRunning) => |log| == 1 && call.Kill? && call.signal == SIGINT
      case Poll(PollRaised) => |log| == 1 && call.Kill? && call.signal == SIGTERM
      case Poll(Exited(_)) => false
      case Kill(SIGINT, Delivered) => call.Wait? && call.seconds == 60
      case Kill(_, Delivered) => call.Wait? && call.seconds == 10
      case Kill(_, SignalRaised) => call.Poll?
      case Wait(_, Reaped(_)) => false
      case Wait(_, WaitRaised) => call.Poll?
      case Wait(_, TimedOut) =>
        match Awaited(log)
        case Some(SIGINT) => call.Kill? && call.signal == SIGTERM
        case Some(SIGTERM) => call.Kill? && call.signal == SIGKILL
        case Some(SIGKILL) => call.Poll?
        case None => false
  }

  /** Nothing comes next: an exit was seen, or the last look at the process is over. */
  predicate Ends(log: seq<Call>) {
    log != [] && var last := log[|log| - 1]; SawAnyExit(last) || (last.Poll? && |log| > 1)
  }

  ghost predicate Proper(log: seq<Call>) {
    forall i :: 0 <= i < |log| ==> Follows(log[..i], log[i])
  }

  // ----- What the log says -----

  /** The fault its last call amounts to, if it is one. */
  function FaultAtEnd(log: seq<Call>): Option<string> {
    if log == [] then None
    else
      match log[|log| - 1]
      case Poll(PollRaised) => if |log| == 1 then Some("poll_failed") else None
      case Poll(_) => None
      case Kill(_, Delivered) => None
      case Kill(SIGINT, SignalRaised) => Some("sigint_signal_failed")
      case Kill(SIGTERM, SignalRaised) => Some("sigterm_signal_failed")
      case Kill(SIGKILL, SignalRaised) => Some("sigkill_signal_failed")
      case Wait(_, Reaped(_)) => None
      case Wait(_, TimedOut) => if Awaited(log) == Some(SIGKILL) then Some("sigkill_wait_timeout") else None
      case Wait(_, WaitRaised) =>
        match Awaited(log)
        case Some(SIGINT) => Some("sigint_wait_failed")
        case Some(SIGTERM) => Some("sigterm_wait_failed")
        case Some(SIGKILL) => Some("sigkill_wait_failed")
        case None => None
  }

  /** The first fault of the log. */
  function FirstFault(log: seq<Call>): Option<string> {
    if log == [] then None
    else
      var earlier := FirstFault(log[..|log| - 1]);
      if earlier.Some? then earlier else FaultAtEnd(log)
  }

  /** The fault on record after the log: an earlier one, or its first. */
  function OnRecord(s: ProcState, log: seq<Call>): Option<string> {
    if s.stopFault.Some? then s.stopFault else FirstFault(log)
  }

  /** The reason a finished log gives. */
  function ReasonOf(fault: Option<string>, log: seq<Call>): string
    requires log != []
  {
    var last, polled := log[|log| - 1], log[0] != Poll(PollRaised);
    if last.Wait? && last.waitAnswer.Reaped? && Awaited(log) == Some(SIGTERM) then
      if polled then "sigint_timeout" else "poll_failed"
    else if last.Wait? && last.waitAnswer.Reaped? && Awaited(log) == Some(SIGKILL) then
      if polled then "forced_kill" else "poll_failed_forced_kill"
    else if fault.Some? then fault.value
    else if last.Poll? then "unexpected_exit"
    else if last.Wait? && last.waitAnswer == Reaped(0) then "clean_exit"
    else "nonzero_exit"
  }

  /** The one log of a valid recording. */
  const CLEAN := [Poll(StillRunning), Kill(SIGINT, Delivered), Wait(60, Reaped(0))]

  /** All of an outcome but its log follows from the log, and the log from the answers. */
  ghost predicate Meant(s: ProcState, out: StopOutcome) {
    && Proper(out.calls) && Ends(out.calls)
    && out.state.stopFault == OnRecord(s, out.calls)
    && out.result.reason == ReasonOf(OnRecord(s, out.calls), out.calls)
    && (out.result.valid <==> s.stopFault.None? && out.calls == CLEAN)
  }

  // ----- One call of stop -----

  lemma OneMore(log: seq<Call>, call: Call)
    requires Proper(log) && Follows(log, call)
    ensures Proper(log + [call])
    ensures FirstFault(log + [call]) == if FirstFault(log).Some? then FirstFault(log) else FaultAtEnd(log + [call])
  {
    var longer := log + [call];
    assert longer[..|log|] == log;
    forall i | 0 <= i < |longer| ensures Follows(longer[..i], longer[i]) {
      assert longer[..i] == log[..i];
    }
  }

  /** A last look at the process is no fault, gives the fault on record as reason, and is not a clean end. */
  lemma RecheckMeant(s: ProcState, log: seq<Call>, recheck: PollAnswer)
    requires Proper(log) && |log| >= 2 && Follows(log, Poll(recheck))
    ensures var longer := log + [Poll(recheck)];
            && Proper(longer) && Ends(longer) && longer != CLEAN
            && OnRecord(s, longer) == OnRecord(s, log)
            && (OnRecord(s, log).Some? ==> ReasonOf(OnRecord(s, log), longer) == OnRecord(s, log).value)
  {
    var poll := Poll(recheck);
    OneMore(log, poll);
    var longer := log + [poll];
    assert longer[|longer| - 1] == poll;
    assert CLEAN[|CLEAN| - 1].Wait?;
  }

  lemma ControlFailureMeant(s0: ProcState, s: ProcState, reason: string, recheck: PollAnswer, log: seq<Call>)
    requires Proper(log) && |log| >= 2 && Follows(log, Poll(recheck))
    requires RememberFault(s, reason).stopFault == OnRecord(s0, log)
    ensures Meant(s0, ControlFailure(s, reason, recheck, log))
  {
    RecheckMeant(s0, log, recheck);
  }

  /** A signal, and the wait for it if it was delivered. */
  lemma Signalled(log: seq<Call>, kill: Call, wait: Call)
    requires Proper(log) && log != [] && kill.Kill? && Follows(log, kill)
    requires wait.Wait? && wait.seconds == if kill.signal == SIGINT then 60 else 10
    ensures var killed := log + [kill];
            && Proper(killed) && killed[0] == log[0]
            && (kill.signalAnswer.Delivered? ==> FirstFault(killed) == FirstFault(log))
            && (kill.signalAnswer.SignalRaised? ==>
                  && Follows(killed, Poll(StillRunning)) && Follows(killed, Poll(PollRaised))
                  && FirstFault(killed) == if FirstFault(log).Some? then FirstFault(log) else FaultAtEnd(killed))
    ensures var waited := log + [kill] + [wait];
            kill.signalAnswer.Delivered? ==>
              && Proper(waited) && waited[0] == log[0] && Awaited(waited) == Some(kill.signal)
              && FirstFault(waited) == if FirstFault(log).Some? then FirstFault(log) else FaultAtEnd(waited)
  {
    var killed := log + [kill];
    OneMore(log, kill);
    if kill.signalAnswer.Delivered? {
      OneMore(killed, wait);
      assert (killed + [wait])[|killed| - 1] == kill;
    }
  }

  /** An exit seen by the wait after a signal, but not one that makes the recording valid. */
  lemma FinishMeant(s0: ProcState, s: ProcState, code: int, reason: string, log: seq<Call>)
    requires Proper(log) && Ends(log) && s.stopFault == OnRecord(s0, log)
    requires reason == ReasonOf(OnRecord(s0, log), log)
    requires s0.stopFault.Some? || log != CLEAN
    ensures Meant(s0, Finish(s, false, code, reason, log))
  {
  }

  lemma KillAndReapMeant(s0: ProcState, s: ProcState, reason: string, script: StopScript, log: seq<Call>)
    requires Proper(log) && |log| >= 3 && Follows(log, Kill(SIGKILL, script.sigkill))
    requires s.stopFault == OnRecord(s0, log)
    requires reason == if log[0] == Poll(PollRaised) then "poll_failed_forced_kill" else "forced_kill"
    ensures Meant(s0, KillAndReap(s, reason, script, log))
  {
    var kill, wait := Kill(SIGKILL, script.sigkill), Wait(10, script.sigkillWait);
    Signalled(log, kill, wait);
    if script.sigkill.SignalRaised? {
      ControlFailureMeant(s0, s, "sigkill_signal_failed", script.recheck, log + [kill]);
    } else {
      KilledMeant(s0, s, reason, script, log + [kill] + [wait]);
    }
  }

  /** What becomes of the wait after SIGKILL. */
  lemma KilledMeant(s0: ProcState, s: ProcState, reason: string, script: StopScript, log: seq<Call>)
    requires Proper(log) && |log| >= 4 && log[|log| - 1] == Wait(10, script.sigkillWait)
    requires Awaited(log) == Some(SIGKILL) && script.sigkill.Delivered?
    requires OnRecord(s0, log) == if s.stopFault.Some? then s.stopFault else FaultAtEnd(log)
    requires reason == if log[0] == Poll(PollRaised) then "poll_failed_forced_kill" else "forced_kill"
    ensures match script.sigkillWait
            case Reaped(code) => Meant(s0, Finish(s, false, code, reason, log))
            case TimedOut => Meant(s0, ControlFailure(s, "sigkill_wait_timeout", script.recheck, log))
            case WaitRaised => Meant(s0, ControlFailure(s, "sigkill_wait_failed", script.recheck, log))
  {
    match script.sigkillWait
    case Reaped(code) => FinishMeant(s0, s, code, reason, log);
    case TimedOut => ControlFailureMeant(s0, s, "sigkill_wait_timeout", script.recheck, log);
    case WaitRaised => ControlFailureMeant(s0, s, "sigkill_wait_failed", script.recheck, log);
  }

  lemma TerminateMeant(s0: ProcState, s: ProcState, exitReason: string, signalFault: string, waitFault: string,
                       killReason: string, script: StopScript, log: seq<Call>)
    requires Proper(log) && log != [] && Follows(log, Kill(SIGTERM, script.sigterm))
    requires s.stopFault == OnRecord(s0, log)
    requires s.stopFault.Some? || (signalFault == "sigterm_signal_failed" && waitFault == "sigterm_wait_failed")
    requires exitReason == if log[0] == Poll(PollRaised) then "poll_failed" else "sigint_timeout"
    requires killReason == if log[0] == Poll(PollRaised) then "poll_failed_forced_kill" else "forced_kill"
    ensures Meant(s0, Terminate(s, exitReason, signalFault, waitFault, killReason, script, log))
  {
    var kill, wait := Kill(SIGTERM, script.sigterm), Wait(10, script.sigtermWait);
    Signalled(log, kill, wait);
    if script.sigterm.SignalRaised? {
      ControlFailureMeant(s0, s, signalFault, script.recheck, log + [kill]);
    } else {
      TerminatedMeant(s0, s, exitReason, waitFault, killReason, script, log + [kill] + [wait]);
    }
  }

  /** What becomes of the wait after SIGTERM. */
  lemma TerminatedMeant(s0: ProcState, s: ProcState, exitReason: string, waitFault: string, killReason: string,
                        script: StopScript, log: seq<Call>)
    requires Proper(log) && |log| >= 3 && log[|log| - 1] == Wait(10, script.sigtermWait)
    requires Awaited(log) == Some(SIGTERM)
    requires OnRecord(s0, log) == if s.stopFault.Some? then s.stopFault else FaultAtEnd(log)
    requires s.stopFault.Some? || waitFault == "sigterm_wait_failed"
    requires exitReason == if log[0] == Poll(PollRaised) then "poll_failed" else "sigint_timeout"
    requires killReason == if log[0] == Poll(PollRaised) then "poll_failed_forced_kill" else "forced_kill"
    ensures match script.sigtermWait
            case Reaped(code) => Meant(s0, Finish(s, false, code, exitReason, log))
            case TimedOut => Meant(s0, KillAndReap(s, killReason, script, log))
            case WaitRaised => Meant(s0, ControlFailure(s, waitFault, script.recheck, log))
  {
    match script.sigtermWait
    case Reaped(code) =>
      assert CLEAN[1] == Kill(SIGINT, Delivered);
      FinishMeant(s0, s, code, exitReason, log);
    case TimedOut => KillAndReapMeant(s0, s, killReason, script, log);
    case WaitRaised => ControlFailureMeant(s0, s, waitFault, script.recheck, log);
  }

  lemma NamesJoin()
    ensures POLL_FAILED == "poll_failed" && POLL_FAILED + "_forced_kill" == "poll_failed_forced_kill"
  {
  }

  lemma Polled(poll: PollAnswer)
    ensures Proper([Poll(poll)])
    ensures FirstFault([Poll(poll)]) == if poll.PollRaised? then Some("poll_failed") else None
  {
    assert [Poll(poll)][..0] == [];
  }

  /**
   One call of stop on a process not yet confirmed dead: the calls follow the table to its end, and the
   fault on record, the reason and validity are what the calls say. It is valid in one case only.
   */
  lemma StopIsMeant(s: ProcState, script: StopScript)
    requires s.stopResult.None?
    ensures Meant(s, StopStep(s, script))
  {
    var polled := [Poll(script.poll)];
    Polled(script.poll);
    match script.poll
    case PollRaised =>
      NamesJoin();
      TerminateMeant(s, RememberFault(s, POLL_FAILED), POLL_FAILED, POLL_FAILED + "_sigterm_signal_failed",
                     POLL_FAILED + "_sigterm_wait_failed", POLL_FAILED + "_forced_kill", script, polled);
    case Exited(code) =>
      FinishMeant(s, s, code, if s.stopFault.Some? then s.stopFault.value else "unexpected_exit", polled);
    case StillRunning =>
      InterruptMeant(s, script);
  }

  lemma InterruptMeant(s: ProcState, script: StopScript)
    requires s.stopResult.None? && script.poll.StillRunning?
    ensures Meant(s, StopStep(s, script))
  {
    var polled := [Poll(script.poll)];
    var kill, wait := Kill(SIGINT, script.sigint), Wait(60, script.sigintWait);
    var killed := polled + [kill];
    Polled(script.poll);
    OneMore(polled, kill);
    if script.sigint.SignalRaised? {
      ControlFailureMeant(s, s, "sigint_signal_failed", script.recheck, killed);
    } else {
      var waited := killed + [wait];
      OneMore(killed, wait);
      match script.sigintWait
      case TimedOut =>
        TerminateMeant(s, s, "sigint_timeout", "sigterm_signal_failed", "sigterm_wait_failed", "forced_kill",
                       script, waited);
      case WaitRaised => ControlFailureMeant(s, s, "sigint_wait_failed", script.recheck, waited);
      case Reaped(code) =>
        assert waited == [Poll(StillRunning), kill, wait];
    }
  }

  // ----- Any number of calls -----

  /** The answers a clean exit needs. */
  predicate AnswersCleanly(script: StopScript) {
    script.poll == StillRunning && script.sigint == Delivered && script.sigintWait == Reaped(0)
  }

  lemma ValidIffAnswers(s: ProcState, script: StopScript)
    requires s.stopResult.None?
    ensures StopStep(s, script).result.valid <==> s.stopFault.None? && AnswersCleanly(script)
  {
    StopIsMeant(s, script);
    var log := StopStep(s, script).calls;
    if AnswersCleanly(script) {
      assert log == CLEAN;
    }
    if log == CLEAN {
      assert log[0] == CLEAN[0] && log[1] == CLEAN[1] && log[2] == CLEAN[2];
    }
  }

  lemma {:induction false} FirstDecides(scripts: seq<StopScript>)
    requires scripts != []
    ensures var run := StopAll(scripts);
            && |run.results| == |scripts|
            && (run.state.stopResult.Some? || run.state.stopFault.Some?)
            && (AnswersCleanly(scripts[0]) ==> run.state.stopResult.Some? && run.state.stopResult.value.valid)
            && (forall i :: 0 <= i < |scripts| ==> (run.results[i].valid <==> AnswersCleanly(scripts[0])))
            && (run.state.stopResult.Some? ==> (run.state.stopResult.value.valid <==> AnswersCleanly(scripts[0])))
  {
    var n := |scripts| - 1;
    var before := StopAll(scripts[..n]);
    if before.state.stopResult.None? {
      ValidIffAnswers(before.state, scripts[n]);
      StopIsDisciplined(before.state, scripts[n]);
    }
    if n > 0 {
      FirstDecides(scripts[..n]);
    } else {
      assert scripts[..0] == [];
    }
  }

  /** Over any number of calls, every result is valid if the first call was answered cleanly, and none otherwise. */
  lemma ValidIffFirstIsClean(scripts: seq<StopScript>)
    ensures (exists i :: 0 <= i < |StopAll(scripts).results| && StopAll(scripts).results[i].valid)
            <==> scripts != [] && AnswersCleanly(scripts[0])
    ensures scripts != [] && AnswersCleanly(scripts[0]) ==>
              forall i :: 0 <= i < |StopAll(scripts).results| ==> StopAll(scripts).results[i].valid
  {
    if scripts != [] {
      FirstDecides(scripts);
      assert StopAll(scripts).results[0].valid <==> AnswersCleanly(scripts[0]);
    }
  }
}
