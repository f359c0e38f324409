/**
 What the stop protocol guarantees against every behaviour of the process, for one call and
 over any number of calls
 (ros2_ws/src/vt_realsense_capture/vt_realsense_capture/recorder.py, lines 345-482).
 */
module StopRuns {
  import opened Prelude
  import opened StopProtocol

  /** The signals a log of calls tried to send, in order. */
  function Signals(calls: seq<Call>): seq<Signal> {
    if calls == [] then []
    else Signals(calls[..|calls| - 1]) + if calls[|calls| - 1].Kill? then [calls[|calls| - 1].signal] else []
  }

  function WaitTotal(calls: seq<Call>): nat {
    if calls == [] then 0
    else WaitTotal(calls[..|calls| - 1]) + if calls[|calls| - 1].Wait? then calls[|calls| - 1].seconds else 0
  }

  /** The call observed that the process has exited with `code`. */
  predicate SawExit(call: Call, code: int) {
    call == Poll(Exited(code)) || (call.Wait? && call.waitAnswer == Reaped(code))
  }

  predicate SawAnyExit(call: Call) {
    (call.Poll? && call.pollAnswer.Exited?) || (call.Wait? && call.waitAnswer.Reaped?)
  }

  lemma MeasureAppend(calls: seq<Call>, call: Call)
    ensures Signals(calls + [call]) == Signals(calls) + if call.Kill? then [call.signal] else []
    ensures WaitTotal(calls + [call]) == WaitTotal(calls) + if call.Wait? then call.seconds else 0
  {
    assert (calls + [call])[..|calls|] == calls;
  }

  lemma {:induction false} SignalsConcat(a: seq<Call>, b: seq<Call>)
    ensures Signals(a + b) == Signals(a) + Signals(b)
  {
    if b == [] {
      assert a + b == a;
    } else {
      var n := |b| - 1;
      SignalsConcat(a, b[..n]);
      assert (a + b)[..|a + b| - 1] == a + b[..n];
    }
  }

  /** No call in the log observed an exit. */
  ghost predicate NoExitSeen(calls: seq<Call>) {
    forall i :: 0 <= i < |calls| ==> !SawAnyExit(calls[i])
  }

  /** The verdict on a log: it ends with the only observed exit, or saw none. */
  ghost predicate Faithful(out: StopOutcome) {
    if out.result.terminationConfirmed then
      && out.calls != []
      && out.result.returncode.Some? && SawExit(out.calls[|out.calls| - 1], out.result.returncode.value)
      && NoExitSeen(out.calls[..|out.calls| - 1])
    else
      NoExitSeen(out.calls) && out.result.returncode.None? && out.result.possiblyAlive
  }

  /** What every helper does with the log it is handed. */
  ghost predicate Continues(out: StopOutcome, s: ProcState, calls: seq<Call>, signals: seq<Signal>, seconds: nat) {
    && Faithful(out)
    && out.state.stopResult == (if out.result.terminationConfirmed then Some(out.result) else s.stopResult)
    && (s.stopFault.Some? ==> out.state.stopFault == s.stopFault)
    && (!out.result.terminationConfirmed ==> out.state.stopFault == Some(out.result.reason))
    && Signals(out.calls) <= Signals(calls) + signals
    && WaitTotal(out.calls) <= WaitTotal(calls) + seconds
    && !out.result.valid
  }

  lemma LogNoExit(calls: seq<Call>, call: Call)
    requires NoExitSeen(calls) && !SawAnyExit(call)
    ensures NoExitSeen(calls + [call])
  {
  }

  lemma FinishContinues(s: ProcState, code: int, reason: string, calls: seq<Call>, last: Call)
    requires NoExitSeen(calls) && SawExit(last, code)
    ensures Continues(Finish(s, false, code, reason, calls + [last]), s, calls, [],
                      if last.Wait? then last.seconds else 0)
  {
    MeasureAppend(calls, last);
    assert (calls + [last])[..|calls|] == calls;
  }

  lemma ControlFailureContinues(s: ProcState, reason: string, recheck: PollAnswer, calls: seq<Call>)
    requires s.stopResult.None? && NoExitSeen(calls)
    ensures Continues(ControlFailure(s, reason, recheck, calls), s, calls, [], 0)
  {
    var s' := RememberFault(s, reason);
    MeasureAppend(calls, Poll(recheck));
    if recheck.Exited? {
      FinishContinues(s', recheck.code, s'.stopFault.value, calls, Poll(recheck));
    } else {
      LogNoExit(calls, Poll(recheck));
    }
  }

  /** A log that was itself a continuation leaves room for fewer signals and seconds. */
  lemma ContinuesEarlier(out: StopOutcome, s: ProcState, later: seq<Call>, signals': seq<Signal>, seconds': nat,
                         calls: seq<Call>, signals: seq<Signal>, seconds: nat)
    requires Continues(out, s, later, signals', seconds')
    requires Signals(later) + signals' <= Signals(calls) + signals
    requires WaitTotal(later) + seconds' <= WaitTotal(calls) + seconds
    ensures Continues(out, s, calls, signals, seconds)
  {
  }

  /** The log after a signal, and after the wait that follows it. */
  lemma SignalLogged(calls: seq<Call>, kill: Call, wait: Call)
    requires NoExitSeen(calls) && kill.Kill? && wait.Wait?
    ensures NoExitSeen(calls + [kill])
    ensures Signals(calls + [kill]) == Signals(calls) + [kill.signal] == Signals(calls + [kill] + [wait])
    ensures WaitTotal(calls + [kill]) == WaitTotal(calls)
    ensures WaitTotal(calls + [kill] + [wait]) == WaitTotal(calls) + wait.seconds
    ensures !SawAnyExit(wait) ==> NoExitSeen(calls + [kill] + [wait])
  {
    MeasureAppend(calls, kill);
    MeasureAppend(calls + [kill], wait);
  }

  lemma KillAndReapContinues(s: ProcState, reason: string, script: StopScript, calls: seq<Call>)
    requires s.stopResult.None? && NoExitSeen(calls)
    ensures Continues(KillAndReap(s, reason, script, calls), s, calls, [SIGKILL], SIGKILL_SECONDS)
  {
    var kill, wait := Kill(SIGKILL, script.sigkill), Wait(SIGKILL_SECONDS, script.sigkillWait);
    var killed := calls + [kill];
    var out := KillAndReap(s, reason, script, calls);
    SignalLogged(calls, kill, wait);
    if script.sigkill.SignalRaised? {
      ControlFailureContinues(s, "sigkill_signal_failed", script.recheck, killed);
      ContinuesEarlier(out, s, killed, [], 0, calls, [SIGKILL], SIGKILL_SECONDS);
    } else if script.sigkillWait.Reaped? {
      FinishContinues(s, script.sigkillWait.code, reason, killed, wait);
      ContinuesEarlier(out, s, killed, [], SIGKILL_SECONDS, calls, [SIGKILL], SIGKILL_SECONDS);
    } else {
      var fault := if script.sigkillWait.TimedOut? then "sigkill_wait_timeout" else "sigkill_wait_failed";
      ControlFailureContinues(s, fault, script.recheck, killed + [wait]);
      ContinuesEarlier(out, s, killed + [wait], [], 0, calls, [SIGKILL], SIGKILL_SECONDS);
    }
  }

  lemma TerminateContinues(s: ProcState, exitReason: string, signalFault: string, waitFault: string, killReason: string,
                           script: StopScript, calls: seq<Call>)
    requires s.stopResult.None? && NoExitSeen(calls)
    ensures Continues(Terminate(s, exitReason, signalFault, waitFault, killReason, script, calls), s, calls,
                      [SIGTERM, SIGKILL], SIGTERM_SECONDS + SIGKILL_SECONDS)
  {
    var kill, wait := Kill(SIGTERM, script.sigterm), Wait(SIGTERM_SECONDS, script.sigtermWait);
    var killed := calls + [kill];
    var both, total := [SIGTERM, SIGKILL], SIGTERM_SECONDS + SIGKILL_SECONDS;
    var out := Terminate(s, exitReason, signalFault, waitFault, killReason, script, calls);
    SignalLogged(calls, kill, wait);
    assert Signals(calls) + both == (Signals(calls) + [SIGTERM]) + [SIGKILL];
    if script.sigterm.SignalRaised? {
      ControlFailureContinues(s, signalFault, script.recheck, killed);
      ContinuesEarlier(out, s, killed, [], 0, calls, both, total);
    } else if script.sigtermWait.Reaped? {
      FinishContinues(s, script.sigtermWait.code, exitReason, killed, wait);
      ContinuesEarlier(out, s, killed, [], SIGTERM_SECONDS, calls, both, total);
    } else if script.sigtermWait.TimedOut? {
      KillAndReapContinues(s, killReason, script, killed + [wait]);
      ContinuesEarlier(out, s, killed + [wait], [SIGKILL], SIGKILL_SECONDS, calls, both, total);
    } else {
      ControlFailureContinues(s, waitFault, script.recheck, killed + [wait]);
      ContinuesEarlier(out, s, killed + [wait], [], 0, calls, both, total);
    }
  }

  /**
   One call, whatever the process answers: it tries a prefix of SIGINT, SIGTERM, SIGKILL or of
   SIGTERM, SIGKILL; it waits at most 80 seconds; it confirms termination exactly when its last
   call observed an exit, and then reports that exit's code; and it is valid only after one
   SIGINT and exit code 0, with no fault on record.
   */
  lemma StopIsDisciplined(s: ProcState, script: StopScript)
    requires s.stopResult.None?
    ensures var out := StopStep(s, script);
            && Faithful(out)
            && (Signals(out.calls) <= [SIGINT, SIGTERM, SIGKILL] || Signals(out.calls) <= [SIGTERM, SIGKILL])
            && WaitTotal(out.calls) <= 80
            && (s.stopFault.Some? ==> out.state.stopFault == s.stopFault)
            && (out.result.terminationConfirmed ==> out.state.stopResult == Some(out.result))
            && (!out.result.terminationConfirmed ==>
                  out.state.stopResult.None? && out.state.stopFault == Some(out.result.reason))
            && (out.result.valid ==>
                  s.stopFault.None? && Signals(out.calls) == [SIGINT] && out.result.returncode == Some(0))
  {
    var poll := Poll(script.poll);
    MeasureAppend([], poll);
    assert [] + [poll] == [poll];
    var polled := [poll];
    assert Signals(polled) == [];
    match script.poll
    case PollRaised =>
      var s' := RememberFault(s, POLL_FAILED);
      TerminateContinues(s', POLL_FAILED, POLL_FAILED + "_sigterm_signal_failed", POLL_FAILED + "_sigterm_wait_failed",
                         POLL_FAILED + "_forced_kill", script, polled);
    case Exited(code) =>
      FinishContinues(s, code, if s.stopFault.Some? then s.stopFault.value else "unexpected_exit", [], poll);
    case StillRunning =>
      InterruptIsDisciplined(s, script);
  }

  /** What a stop that begins with SIGINT promises. */
  ghost predicate Disciplined(s: ProcState, out: StopOutcome) {
    && Faithful(out)
    && Signals(out.calls) <= [SIGINT, SIGTERM, SIGKILL]
    && WaitTotal(out.calls) <= 80
    && (s.stopFault.Some? ==> out.state.stopFault == s.stopFault)
    && (out.result.terminationConfirmed ==> out.state.stopResult == Some(out.result))
    && (!out.result.terminationConfirmed ==>
          out.state.stopResult.None? && out.state.stopFault == Some(out.result.reason))
    && (out.result.valid ==>
          s.stopFault.None? && Signals(out.calls) == [SIGINT] && out.result.returncode == Some(0))
  }

  /** Whatever continues after SIGINT and its wait stays within the bounds. */
  lemma ContinuedIsDisciplined(out: StopOutcome, s: ProcState, calls: seq<Call>, signals: seq<Signal>, seconds: nat)
    requires s.stopResult.None? && Continues(out, s, calls, signals, seconds)
    requires Signals(calls) == [SIGINT] && signals <= [SIGTERM, SIGKILL] && WaitTotal(calls) + seconds <= 80
    ensures Disciplined(s, out)
  {
    assert Signals(calls) + signals <= [SIGINT] + [SIGTERM, SIGKILL];
    assert [SIGINT] + [SIGTERM, SIGKILL] == [SIGINT, SIGTERM, SIGKILL];
  }

  /** The log up to SIGINT, and up to the wait after it. */
  lemma InterruptLogged(script: StopScript)
    requires script.poll.StillRunning?
    ensures var killed := [Poll(script.poll)] + [Kill(SIGINT, script.sigint)];
            var waited := killed + [Wait(SIGINT_SECONDS, script.sigintWait)];
            && NoExitSeen(killed) && Signals(killed) == [SIGINT] && WaitTotal(killed) == 0
            && Signals(waited) == [SIGINT] && WaitTotal(waited) == SIGINT_SECONDS
            && waited[..|waited| - 1] == killed
            && (!script.sigintWait.Reaped? ==> NoExitSeen(waited))
  {
    var poll, kill := Poll(script.poll), Kill(SIGINT, script.sigint);
    MeasureAppend([], poll);
    assert [] + [poll] == [poll];
    SignalLogged([poll], kill, Wait(SIGINT_SECONDS, script.sigintWait));
  }

  lemma InterruptIsDisciplined(s: ProcState, script: StopScript)
    requires s.stopResult.None? && script.poll.StillRunning?
    ensures Disciplined(s, StopStep(s, script))
  {
    var killed := [Poll(script.poll)] + [Kill(SIGINT, script.sigint)];
    var waited := killed + [Wait(SIGINT_SECONDS, script.sigintWait)];
    var out := StopStep(s, script);
    InterruptLogged(script);
    if script.sigint.SignalRaised? {
      ControlFailureContinues(s, "sigint_signal_failed", script.recheck, killed);
      ContinuedIsDisciplined(out, s, killed, [], 0);
    } else {
      match script.sigintWait
      case TimedOut =>
        TerminateContinues(s, "sigint_timeout", "sigterm_signal_failed", "sigterm_wait_failed", "forced_kill",
                           script, waited);
        ContinuedIsDisciplined(out, s, waited, [SIGTERM, SIGKILL], SIGTERM_SECONDS + SIGKILL_SECONDS);
      case WaitRaised =>
        ControlFailureContinues(s, "sigint_wait_failed", script.recheck, waited);
        ContinuedIsDisciplined(out, s, waited, [], 0);
      case Reaped(_) =>
        ReapedIsDisciplined(s, script);
    }
  }

  /** SIGINT was enough. */
  lemma ReapedIsDisciplined(s: ProcState, script: StopScript)
    requires s.stopResult.None? && script.poll.StillRunning? && script.sigint.Delivered? && script.sigintWait.Reaped?
    ensures Disciplined(s, StopStep(s, script))
  {
    InterruptLogged(script);
  }

  // ----- Any number of calls -----

  datatype Run = Run(state: ProcState, results: seq<StopResult>, calls: seq<Call>)

  /** Calls `stop` once per script on a freshly started process. */
  function StopAll(scripts: seq<StopScript>): Run {
    if scripts == [] then Run(STARTED, [], [])
    else
      var before := StopAll(scripts[..|scripts| - 1]);
      var out := StopStep(before.state, scripts[|scripts| - 1]);
      Run(out.state, before.results + [out.result], before.calls + out.calls)
  }

  /** Until a result is confirmed, every finished call leaves a fault behind. */
  ghost predicate RunSound(run: Run) {
    && (run.state.stopResult.Some? ==> run.state.stopResult.value.terminationConfirmed)
    && (run.state.stopResult.None? && run.state.stopFault.None? ==> run.calls == [])
    && (run.state.stopResult.Some? && run.state.stopResult.value.valid ==>
          Signals(run.calls) == [SIGINT] && run.state.stopResult.value.returncode == Some(0))
  }

  lemma {:induction false} RunsAreSound(scripts: seq<StopScript>)
    ensures RunSound(StopAll(scripts))
  {
    if scripts != [] {
      var before := StopAll(scripts[..|scripts| - 1]);
      var script := scripts[|scripts| - 1];
      RunsAreSound(scripts[..|scripts| - 1]);
      SignalsConcat(before.calls, StopStep(before.state, script).calls);
      if before.state.stopResult.None? {
        StopIsDisciplined(before.state, script);
      } else {
        assert before.calls + [] == before.calls;
      }
    }
  }

  /** A confirmed result is final: it is returned unchanged, with no further call, for ever. */
  lemma {:induction false} ConfirmedIsFinal(scripts: seq<StopScript>, more: seq<StopScript>)
    requires StopAll(scripts).state.stopResult.Some?
    ensures var run := StopAll(scripts + more);
            && run.state == StopAll(scripts).state
            && run.calls == StopAll(scripts).calls
            && forall i :: |scripts| <= i < |run.results| ==> run.results[i] == run.state.stopResult.value
    ensures |StopAll(scripts + more).results| == |scripts| + |more|
  {
    if more == [] {
      assert scripts + more == scripts;
      ResultPerCall(scripts);
    } else {
      var n := |more| - 1;
      ConfirmedIsFinal(scripts, more[..n]);
      assert (scripts + more)[..|scripts + more| - 1] == scripts + more[..n];
    }
  }

  lemma {:induction false} ResultPerCall(scripts: seq<StopScript>)
    ensures |StopAll(scripts).results| == |scripts|
  {
    if scripts != [] {
      ResultPerCall(scripts[..|scripts| - 1]);
    }
  }

  /** The first fault stays on record whatever later calls meet. */
  lemma {:induction false} FirstFaultStays(scripts: seq<StopScript>, more: seq<StopScript>)
    requires StopAll(scripts).state.stopFault.Some?
    ensures StopAll(scripts + more).state.stopFault == StopAll(scripts).state.stopFault
  {
    if more == [] {
      assert scripts + more == scripts;
    } else {
      var n := |more| - 1;
      FirstFaultStays(scripts, more[..n]);
      assert (scripts + more)[..|scripts + more| - 1] == scripts + more[..n];
      var before := StopAll(scripts + more[..n]);
      if before.state.stopResult.None? {
        StopIsDisciplined(before.state, more[n]);
      }
    }
  }

  /** A valid result means one SIGINT was the only signal of the whole run, and the exit code was 0. */
  lemma {:induction false} ValidMeansOneSigint(scripts: seq<StopScript>, i: nat)
    requires i < |StopAll(scripts).results| && StopAll(scripts).results[i].valid
    ensures Signals(StopAll(scripts).calls) == [SIGINT]
    ensures StopAll(scripts).results[i].returncode == Some(0)
  {
    var n := |scripts| - 1;
    var before := StopAll(scripts[..n]);
    ResultPerCall(scripts);
    ResultPerCall(scripts[..n]);
    RunsAreSound(scripts[..n]);
    RunsAreSound(scripts);
    if i < n {
      assert before.results[i] == StopAll(scripts).results[i];
      ValidMeansOneSigint(scripts[..n], i);
      ValidIsConfirmed(scripts[..n], i);
      assert before.calls + [] == before.calls;
    } else if before.state.stopResult.None? {
      StopIsDisciplined(before.state, scripts[n]);
    }
  }

  lemma {:induction false} ValidIsConfirmed(scripts: seq<StopScript>, i: nat)
    requires i < |StopAll(scripts).results| && StopAll(scripts).results[i].valid
    ensures StopAll(scripts).state.stopResult.Some?
  {
    var n := |scripts| - 1;
    var before := StopAll(scripts[..n]);
    ResultPerCall(scripts);
    ResultPerCall(scripts[..n]);
    if i < n {
      assert before.results[i] == StopAll(scripts).results[i];
      ValidIsConfirmed(scripts[..n], i);
    } else if before.state.stopResult.None? {
      StopIsDisciplined(before.state, scripts[n]);
    }
  }

  // ----- Which reason is reported -----

  /** The faults the protocol ever records. */
  predicate IsFault(reason: string) {
    reason in {
      POLL_FAILED, "sigint_signal_failed", "sigint_wait_failed", "sigterm_signal_failed", "sigterm_wait_failed",
      "sigkill_signal_failed", "sigkill_wait_timeout", "sigkill_wait_failed"}
  }

  /** The reasons that report an escalated exit rather than the fault on record. */
  predicate ReportsEscalation(script: StopScript) {
    var reachedTerm := script.poll.PollRaised?
                       || (script.poll.StillRunning? && script.sigint.Delivered? && script.sigintWait.TimedOut?);
    && reachedTerm && script.sigterm.Delivered?
    && (script.sigtermWait.Reaped?
        || (script.sigtermWait.TimedOut? && script.sigkill.Delivered? && script.sigkillWait.Reaped?))
  }

  lemma StringsDiffer()
    ensures !IsFault("sigint_timeout") && !IsFault("forced_kill") && !IsFault(POLL_FAILED + "_forced_kill")
  {
    assert |POLL_FAILED| == 11;
    assert |POLL_FAILED + "_forced_kill"| == 23;
    assert (POLL_FAILED + "_forced_kill")[11] == '_';
    assert "sigint_timeout"[7] == 't' && "sigint_timeout"[0] == 's';
    assert "forced_kill"[0] == 'f';
  }

  /** Once a fault is on record it is the reason reported, unless the call escalates; a poll failure can coincide. */
  predicate ReportsFault(fault: Option<string>, reason: string, script: StopScript) {
    fault.Some? ==>
      (reason == fault.value
       <==> !ReportsEscalation(script)
            || (script.poll.PollRaised? && script.sigtermWait.Reaped? && fault.value == POLL_FAILED))
  }

  /**
   A stop after which a fault is on record, its own or an earlier one, reports that fault except when the
   exit was seen by the wait after SIGTERM or SIGKILL: then it reports the escalation. The one coincidence
   is a poll failure on record while another, or the same, is resolved by SIGTERM.
   */
  lemma ReportedReasonIsFirstFaultIff(s: ProcState, script: StopScript)
    requires s.stopResult.None? && (s.stopFault.Some? ==> IsFault(s.stopFault.value))
    ensures var out := StopStep(s, script); ReportsFault(out.state.stopFault, out.result.reason, script)
  {
    StringsDiffer();
    match script.poll
    case PollRaised => RecoveryReason(s, script);
    case Exited(_) =>
    case StillRunning =>
      if script.sigint.Delivered? && script.sigintWait.TimedOut? {
        TimeoutReason(s, script);
      }
  }

  /** The reason after a failed poll. */
  lemma RecoveryReason(s: ProcState, script: StopScript)
    requires s.stopResult.None? && script.poll.PollRaised?
    ensures var out := StopStep(s, script);
            && out.state.stopFault == Some(if s.stopFault.Some? then s.stopFault.value else POLL_FAILED)
            && out.result.reason
               == if !ReportsEscalation(script) then out.state.stopFault.value
                  else if script.sigtermWait.Reaped? then POLL_FAILED
                  else POLL_FAILED + "_forced_kill"
  {
  }

  /** The reason after SIGINT timed out; an escalation that works records no fault of its own. */
  lemma TimeoutReason(s: ProcState, script: StopScript)
    requires s.stopResult.None?
    requires script.poll.StillRunning? && script.sigint.Delivered? && script.sigintWait.TimedOut?
    ensures var out := StopStep(s, script);
            && (ReportsEscalation(script) ==> out.state.stopFault == s.stopFault)
            && (!ReportsEscalation(script) ==> out.state.stopFault == Some(out.result.reason))
            && (ReportsEscalation(script) ==>
                  out.result.reason == if script.sigtermWait.Reaped? then "sigint_timeout" else "forced_kill")
  {
  }

  /** Only those faults are ever recorded. */
  lemma {:induction false} RecordedFaultsAreKnown(scripts: seq<StopScript>)
    ensures var fault := StopAll(scripts).state.stopFault; fault.Some? ==> IsFault(fault.value)
  {
    if scripts != [] {
      RecordedFaultsAreKnown(scripts[..|scripts| - 1]);
    }
  }

  /** Over any number of calls, each call until a result is final reports the first fault of the run just so. */
  lemma RunReportsFirstFaultIff(scripts: seq<StopScript>, script: StopScript)
    requires StopAll(scripts).state.stopResult.None?
    ensures var run := StopAll(scripts + [script]);
            && |run.results| == |scripts| + 1
            && ReportsFault(run.state.stopFault, run.results[|scripts|].reason, script)
  {
    assert (scripts + [script])[..|scripts|] == scripts;
    ResultPerCall(scripts);
    RecordedFaultsAreKnown(scripts);
    ReportedReasonIsFirstFaultIff(StopAll(scripts).state, script);
  }

  /** One call that reports another reason than the fault it records: the poll raises, and SIGKILL ends the process. */
  lemma ForcedKillHidesFault()
    ensures var script := StopScript(PollRaised, Delivered, TimedOut, Delivered, TimedOut, Delivered, Reaped(-9),
                                     StillRunning);
            var run := StopAll([script]);
            && run.state.stopFault == Some(POLL_FAILED)
            && run.results[0].terminationConfirmed && run.results[0].reason == POLL_FAILED + "_forced_kill"
            && run.results[0].reason != run.state.stopFault.value
  {
    var script := StopScript(PollRaised, Delivered, TimedOut, Delivered, TimedOut, Delivered, Reaped(-9),
                             StillRunning);
    StringsDiffer();
    assert [script][..0] == [];
    assert StopAll([]) == Run(STARTED, [], []);
    assert StopAll([script]).results == [] + [StopStep(STARTED, script).result];
    RecoveryReason(STARTED, script);
  }

  /**
   A run whose second result does not report the fault on record: the first SIGINT cannot be sent to a
   process that still runs; the second times out, and SIGTERM ends the process.
   */
  lemma EscalationHidesFault()
    ensures var first := StopScript(StillRunning, SignalRaised, TimedOut, Delivered, TimedOut, Delivered, TimedOut,
                                    StillRunning);
            var second := StopScript(StillRunning, Delivered, TimedOut, Delivered, Reaped(0), Delivered, TimedOut,
                                     StillRunning);
            var run := StopAll([first, second]);
            && run.state.stopFault == Some("sigint_signal_failed")
            && run.results[1].terminationConfirmed && run.results[1].reason == "sigint_timeout"
            && run.results[1].reason != run.state.stopFault.value
  {
    var first := StopScript(StillRunning, SignalRaised, TimedOut, Delivered, TimedOut, Delivered, TimedOut,
                            StillRunning);
    var second := StopScript(StillRunning, Delivered, TimedOut, Delivered, Reaped(0), Delivered, TimedOut,
                             StillRunning);
    assert [first, second][..1] == [first] && [first][..|[first]| - 1] == [];
    assert StopAll([]) == Run(STARTED, [], []);
    var one := StopAll([first]);
    assert one.state == StopStep(STARTED, first).state && |one.results| == 1;
    assert one.state == ProcState(None, Some("sigint_signal_failed"));
    assert StopStep(one.state, second).result == StopResult(false, Some(0), "sigint_timeout", true, false);
    assert "sigint_timeout"[7] != "sigint_signal_failed"[7];
  }
}
