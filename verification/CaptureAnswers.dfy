/**
 What a client is told
 (ros2_ws/src/vt_realsense_capture/vt_realsense_capture/controller.py, lines 216-242, 278-418):
 the receipt or error of every command whose id neither cache remembers, in every state a run reaches.
 */
module CaptureAnswers {
  import opened Prelude
  import opened OrderedDict
  import opened StopProtocol
  import opened Recorder
  import opened Session
  import opened CaptureRules
  import opened CaptureRuns
  import opened CaptureLeaks

  /** Neither the controller nor the machine remembers the id. */
  predicate Fresh(s: ControllerState, c: Command) {
    Find(s.commands, c.requestId).None? && Find(s.machine.requests, c.requestId).None?
  }

  /** How far the answers let a START get: the first thing that fails names the receipt. */
  function StartCode(script: AcceptScript): string {
    if script.sessionId.None? then "session_create_failed"
    else if !script.qosWritten then "recorder_parameters_failed"
    else if !script.spawnSucceeds then "recorder_spawn_failed"
    else "recorder_started"
  }

  /**
   A fresh START is refused if it asks for too long or a session is under way; otherwise it gets a receipt
   that says how far it got, and enters RECORDING with a new recorder exactly if it got all the way.
   */
  lemma StartIsAnswered(s: ControllerState, c: Command, script: AcceptScript)
    requires Held(s) && c.WellFormed() && SessionNamed(script) && c.kind == Start && Fresh(s, c)
    ensures var out := AcceptStep(s, c, script);
            if c.plannedSeconds > s.maxSeconds then out == Outcome(s, Err(DurationTooLong))
            else if s.machine.state in {Recording, Finalizing} then out == Outcome(s, Err(WrongState(s.machine.state)))
            else
              var state := if StartCode(script) == "recorder_started" then Recording else Idle;
              && out.result == Ok(Receipt(c.requestId, Start, StartCode(script), state))
              && out.state.machine.state == state
              && (state == Recording ==> out.state.recorder == Some(Some(STARTED)))
              && (state == Idle ==> out.state.recorder == None)
              && out.state.retired == s.retired + (if s.recorder.Some? then [s.recorder.value] else [])
              && !out.state.terminationConfirmed
  {
    CodesDiffer();
  }

  lemma CodesDiffer()
    ensures "session_create_failed" != "recorder_started" && "recorder_parameters_failed" != "recorder_started"
    ensures "recorder_spawn_failed" != "recorder_started"
  {
    assert "session_create_failed"[0] == 's' && "recorder_started"[0] == 'r';
    assert "recorder_parameters_failed"[9] == 'p' && "recorder_started"[9] == 's' && "recorder_started"[10] == 't';
    assert "recorder_spawn_failed"[10] == 'p';
  }

  /** A fresh STOP is answered in IDLE and RECORDING and refused elsewhere. */
  lemma StopIsAnswered(s: ControllerState, c: Command, script: AcceptScript)
    requires Held(s) && c.WellFormed() && c.kind == Stop && Fresh(s, c)
    ensures var out := AcceptStep(s, c, script);
            match s.machine.state
            case Idle =>
              && out.result == Ok(Receipt(c.requestId, Stop, "stop_while_idle", Idle))
              && out.state.machine.state == Idle && out.state.recorder == s.recorder
            case Recording =>
              && out.result == Ok(Receipt(c.requestId, Stop, "stop_accepted", Finalizing))
              && out.state.machine.state in {Finalizing, Complete}
              && (out.state.machine.state == Complete
                  <==> StopStep(s.recorder.value.value, script.stop).result.terminationConfirmed)
            case _ => out == Outcome(s, Err(SessionFailed(InvalidTransition(s.machine.state))))
  {
  }

  /** Ticks: what makes one end a recording, and what it answers. */
  lemma TickIsAnswered(s: ControllerState, script: TickScript)
    requires Held(s)
    ensures var out := TickStep(s, script);
            match s.machine.state
            case Recording =>
              var due := script.poll.Exited? || script.now >= s.deadline.value;
              && (!due ==> out == Outcome(s, Ok(false)))
              && (due ==>
                    var stopped := StopStep(s.recorder.value.value, script.stop).result.terminationConfirmed;
                    && out.result == Ok(stopped)
                    && out.state.machine.state == if stopped then Complete else Finalizing)
            case Finalizing =>
              var stopped := StopStep(s.recorder.value.value, script.stop).result.terminationConfirmed;
              && out.result == Ok(stopped)
              && out.state.machine.state == if stopped then Complete else Finalizing
            case _ => out == Outcome(s, Ok(false))
  {
  }
}
