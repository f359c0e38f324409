/**
 Capture lifecycle state and command identity rules
 (ros2_ws/src/vt_realsense_capture/vt_realsense_capture/session.py).
 */
module Session {
  import opened Prelude
  import opened OrderedDict

  datatype CaptureState = Idle | Preflight | WarmingUp | Recording | Finalizing | Complete | Invalid

  datatype CommandKind = Start | Stop

  datatype Transition = Transition(
    state: CaptureState, previous: CaptureState, code: string, requestId: string, sessionId: string,
    stopRecorder: bool, sequence: nat)

  datatype CachedRequest = CachedRequest(command: CommandKind, transition: Transition)

  datatype SessionError =
    | EmptyIdentifier
    | RequestConflict(requestId: string)
    | InvalidTransition(state: CaptureState)

  /** The white space `str.strip` removes, by code point. */
  predicate IsSpace(c: char) {
    var n := c as int;
    || 9 <= n <= 13 || 28 <= n <= 32 || n == 0x85 || n == 0xA0
    || n == 0x1680 || 0x2000 <= n <= 0x200A || n == 0x2028 || n == 0x2029 || n == 0x202F || n == 0x205F || n == 0x3000
  }

  predicate Blank(s: string) {
    forall i :: 0 <= i < |s| ==> IsSpace(s[i])
  }

  datatype MachineState = MachineState(
    state: CaptureState, cacheSize: nat, requests: seq<Item<CachedRequest>>,
    currentRequest: string, sessionId: string, sequence: nat)

  datatype MachineStep = MachineStep(machine: MachineState, outcome: Result<Transition, SessionError>)

  function NewMachine(cacheSize: nat): MachineState {
    MachineState(Idle, cacheSize, [], "", "", 0)
  }

  // ----- The specification -----

  /** `_result`: moves to `state` and reports the move. */
  function Move(m: MachineState, state: CaptureState, code: string, requestId: string,
                stopRecorder: bool): (MachineState, Transition) {
    var m' := m.(state := state, sequence := m.sequence + 1);
    (m', Transition(state, m.state, code, requestId, m.sessionId, stopRecorder, m.sequence + 1))
  }

  /** Moves, and remembers the transition under the command's id. */
  function MoveAndRemember(m: MachineState, state: CaptureState, code: string, requestId: string, stopRecorder: bool,
                           kind: CommandKind): MachineStep {
    var (m', t) := Move(m, state, code, requestId, stopRecorder);
    MachineStep(m'.(requests := Remember(m.requests, requestId, CachedRequest(kind, t), m.cacheSize)), Ok(t))
  }

  /** A command already seen is answered from the cache, or refused if its kind differs. */
  function FromCache(m: MachineState, requestId: string, kind: CommandKind): Option<Result<Transition, SessionError>> {
    var cached := Find(m.requests, requestId);
    if cached.None? then None
    else if cached.value.command != kind then Some(Err(RequestConflict(requestId)))
    else Some(Ok(cached.value.transition))
  }

  function StartStep(m: MachineState, requestId: string, sessionId: string): MachineStep {
    if Blank(requestId) || Blank(sessionId) then MachineStep(m, Err(EmptyIdentifier))
    else
      var cached := FromCache(m, requestId, Start);
      if cached.Some? then MachineStep(m, cached.value)
      else if m.state !in {Idle, Complete, Invalid} then MachineStep(m, Err(InvalidTransition(m.state)))
      else
        MoveAndRemember(m.(currentRequest := requestId, sessionId := sessionId), Recording, "recorder_started",
                        requestId, false, Start)
  }

  function StopCommandStep(m: MachineState, requestId: string): MachineStep {
    if Blank(requestId) then MachineStep(m, Err(EmptyIdentifier))
    else
      var cached := FromCache(m, requestId, Stop);
      if cached.Some? then MachineStep(m, cached.value)
      else if m.state != Recording then MachineStep(m, Err(InvalidTransition(m.state)))
      else MoveAndRemember(m.(currentRequest := requestId), Finalizing, "stop_accepted", requestId, true, Stop)
  }

  function StopWhileIdleStep(m: MachineState, requestId: string): MachineStep {
    if Blank(requestId) then MachineStep(m, Err(EmptyIdentifier))
    else
      var cached := FromCache(m, requestId, Stop);
      if cached.Some? then MachineStep(m, cached.value)
      else if m.state != Idle then MachineStep(m, Err(InvalidTransition(m.state)))
      else MoveAndRemember(m, Idle, "stop_while_idle", requestId, false, Stop)
  }

  /** `planned_duration_reached`, `recorder_exited` and `shutdown_requested` differ in the code only. */
  function BeginFinalizingStep(m: MachineState, code: string): MachineStep {
    if m.state != Recording then MachineStep(m, Err(InvalidTransition(m.state)))
    else
      var (m', t) := Move(m, Finalizing, code, m.currentRequest, true);
      MachineStep(m', Ok(t))
  }

  function FinalizePassedStep(m: MachineState): MachineStep {
    if m.state != Finalizing then MachineStep(m, Err(InvalidTransition(m.state)))
    else
      var (m', t) := Move(m, Complete, "finalize_passed", m.currentRequest, false);
      MachineStep(m', Ok(t))
  }

  // ----- Properties of single events -----

  /** An event answered from the cache or refused leaves the machine as it was; any other moves it on by one. */
  ghost predicate CountsOrKeeps(m: MachineState, step: MachineStep, cached: bool) {
    && (step.machine == m <==> cached || step.outcome.Err?)
    && (step.machine != m ==>
          && step.machine.sequence == m.sequence + 1
          && step.outcome.value.sequence == m.sequence + 1
          && step.outcome.value.previous == m.state
          && step.outcome.value.state == step.machine.state)
  }

  /** Exactly the events that are neither cached nor refused change the machine, each by one in sequence. */
  lemma SequenceCountsChanges(m: MachineState, requestId: string, sessionId: string, code: string)
    ensures var cached := Find(m.requests, requestId).Some?;
            && CountsOrKeeps(m, StartStep(m, requestId, sessionId), cached)
            && CountsOrKeeps(m, StopCommandStep(m, requestId), cached)
            && CountsOrKeeps(m, StopWhileIdleStep(m, requestId), cached)
            && CountsOrKeeps(m, BeginFinalizingStep(m, code), false)
            && CountsOrKeeps(m, FinalizePassedStep(m), false)
  {
  }

  /** Repeating a remembered command returns its transition and changes nothing; another kind is a conflict. */
  lemma CommandsAreIdempotent(m: MachineState, requestId: string, sessionId: string)
    requires m.cacheSize > 0 && !Blank(sessionId) && Find(m.requests, requestId).None?
    requires StartStep(m, requestId, sessionId).outcome.Ok?
    ensures var first := StartStep(m, requestId, sessionId);
            && first.machine.state == Recording
            && StartStep(first.machine, requestId, sessionId) == first
            && StopCommandStep(first.machine, requestId) == MachineStep(first.machine, Err(RequestConflict(requestId)))
  {
    var first := StartStep(m, requestId, sessionId);
    RememberFinds(m.requests, requestId, CachedRequest(Start, first.outcome.value), m.cacheSize);
  }

  // ----- The program -----

  class CaptureStateMachine {
    const cacheSize: nat
    var state: CaptureState
    var requests: seq<Item<CachedRequest>>
    var currentRequest: string
    var sessionId: string
    var sequence: nat

    ghost function State(): MachineState
      reads this
    {
      MachineState(state, cacheSize, requests, currentRequest, sessionId, sequence)
    }

    constructor (cacheSize: nat)
      ensures State() == NewMachine(cacheSize)
    {
      this.cacheSize := cacheSize;
      state, requests, currentRequest, sessionId, sequence := Idle, [], "", "", 0;
    }

    method SetState(next: CaptureState, code: string, requestId: string, stopRecorder: bool) returns (t: Transition)
      modifies this`state, this`sequence
      ensures (State(), t) == Move(old(State()), next, code, requestId, stopRecorder)
    {
      var previous := state;
      state := next;
      sequence := sequence + 1;
      t := Transition(next, previous, code, requestId, sessionId, stopRecorder, sequence);
    }

    /** Stores the transition, then drops the oldest entries while the cache is over its size. */
    method RememberRequest(requestId: string, kind: CommandKind, t: Transition)
      modifies this`requests
      ensures requests == Remember(old(requests), requestId, CachedRequest(kind, t), cacheSize)
    {
      requests := Put(requests, requestId, CachedRequest(kind, t));
      ghost var put := requests;
      while |requests| > cacheSize
        invariant requests == put || |requests| >= cacheSize
        invariant |requests| <= |put| && requests == put[|put| - |requests|..]
        decreases |requests|
      {
        requests := requests[1..];
      }
    }

    method StartSession(requestId: string, newSession: string) returns (r: Result<Transition, SessionError>)
      modifies this
      ensures MachineStep(State(), r) == StartStep(old(State()), requestId, newSession)
    {
      if Blank(requestId) || Blank(newSession) {
        return Err(EmptyIdentifier);
      }
      var cached := Find(requests, requestId);
      if cached.Some? {
        return if cached.value.command != Start then Err(RequestConflict(requestId)) else Ok(cached.value.transition);
      }
      if state !in {Idle, Complete, Invalid} {
        return Err(InvalidTransition(state));
      }
      currentRequest := requestId;
      sessionId := newSession;
      var t := SetState(Recording, "recorder_started", requestId, false);
      RememberRequest(requestId, Start, t);
      r := Ok(t);
    }

    method StopSession(requestId: string) returns (r: Result<Transition, SessionError>)
      modifies this
      ensures MachineStep(State(), r) == StopCommandStep(old(State()), requestId)
    {
      if Blank(requestId) {
        return Err(EmptyIdentifier);
      }
      var cached := Find(requests, requestId);
      if cached.Some? {
        return if cached.value.command != Stop then Err(RequestConflict(requestId)) else Ok(cached.value.transition);
      }
      if state != Recording {
        return Err(InvalidTransition(state));
      }
      currentRequest := requestId;
      var t := SetState(Finalizing, "stop_accepted", requestId, true);
      RememberRequest(requestId, Stop, t);
      r := Ok(t);
    }

    method StopWhileIdle(requestId: string) returns (r: Result<Transition, SessionError>)
      modifies this
      ensures MachineStep(State(), r) == StopWhileIdleStep(old(State()), requestId)
    {
      if Blank(requestId) {
        return Err(EmptyIdentifier);
      }
      var cached := Find(requests, requestId);
      if cached.Some? {
        return if cached.value.command != Stop then Err(RequestConflict(requestId)) else Ok(cached.value.transition);
      }
      if state != Idle {
        return Err(InvalidTransition(state));
      }
      var t := SetState(Idle, "stop_while_idle", requestId, false);
      RememberRequest(requestId, Stop, t);
      r := Ok(t);
    }

    method BeginFinalizing(code: string) returns (r: Result<Transition, SessionError>)
      modifies this
      ensures MachineStep(State(), r) == BeginFinalizingStep(old(State()), code)
    {
      if state != Recording {
        return Err(InvalidTransition(state));
      }
      var t := SetState(Finalizing, code, currentRequest, true);
      r := Ok(t);
    }

    method FinalizePassed() returns (r: Result<Transition, SessionError>)
      modifies this
      ensures MachineStep(State(), r) == FinalizePassedStep(old(State()))
    {
      if state != Finalizing {
        return Err(InvalidTransition(state));
      }
      var t := SetState(Complete, "finalize_passed", currentRequest, false);
      r := Ok(t);
    }
  }
}
