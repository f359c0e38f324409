/**
 The camera frame aggregator's rules
 (ros2_ws/src/vt_realsense_capture/src/camera_frame_aggregator.cpp and its header):
 what one push or flush does, stated over the unbounded history of closed stamps.
 */
module Aggregation {
  import opened Prelude

  const U64_LIMIT: int := 0x1_0000_0000_0000_0000
  const MINIMUM_FINALIZED_HISTORY: nat := 64
  const NANOSECONDS_PER_SECOND: int := 1_000_000_000

  type uint64 = x: int | 0 <= x < U64_LIMIT

  datatype StreamKind = Color | Depth

  datatype Domain = Unknown | HardwareClock | SystemTime | GlobalTime

  /** FRAME_NUMBER, DEVICE_TIMESTAMP, CLOCK_DOMAIN, HOST_MONOTONIC and HOST_REALTIME. */
  const REQUIRED_VALIDITY: bv32 := 1 | 2 | 16 | 32 | 64

  datatype Observation = Observation(
    stream: StreamKind, sec: int, nanosec: nat, frameNumber: nat, clockDomain: Domain,
    deviceTimestamp: int, hostMonotonic: uint64, hostRealtime: int, validityFlags: bv32)
  {
    function StampNs(): int {
      sec * NANOSECONDS_PER_SECOND + nanosec
    }

    predicate HasRequiredValidity() {
      validityFlags & REQUIRED_VALIDITY == REQUIRED_VALIDITY
    }
  }

  /** The observations collected for one stamp that is still open. */
  datatype PendingKey = PendingKey(
    color: Option<Observation>, depth: Option<Observation>, firstArrival: uint64, invalid: bool, duplicate: bool)

  datatype Entry = Entry(stamp: int, key: PendingKey)

  datatype Kind = Complete | Incomplete | Duplicate | Invalid | DomainMismatch

  datatype Detail =
    | ExactPair | MissingDepth | MissingColor | SameStreamTwice | MissingValidity | DomainsDiffer
    | AfterFinalization | BehindWatermark

  /** A complete group; the group time is that of the earlier callback. */
  datatype Timing = Timing(
    stamp: int, color: Observation, depth: Observation,
    groupMonotonic: uint64, groupRealtime: int, callbackSpread: nat)

  datatype Event = Event(kind: Kind, stamp: int, timing: Option<Timing>, detail: Detail)

  function BuildTiming(stamp: int, color: Observation, depth: Observation): (t: Timing)
    ensures t.groupMonotonic <= color.hostMonotonic && t.groupMonotonic <= depth.hostMonotonic
    ensures t.groupMonotonic + t.callbackSpread == color.hostMonotonic
            || t.groupMonotonic + t.callbackSpread == depth.hostMonotonic
    ensures t.groupMonotonic + t.callbackSpread >= color.hostMonotonic
    ensures t.groupMonotonic + t.callbackSpread >= depth.hostMonotonic
    ensures (t.groupMonotonic, t.groupRealtime)
            in {(color.hostMonotonic, color.hostRealtime), (depth.hostMonotonic, depth.hostRealtime)}
  {
    var earlier := if color.hostMonotonic <= depth.hostMonotonic then color else depth;
    Timing(stamp, color, depth, earlier.hostMonotonic, earlier.hostRealtime,
           Abs(color.hostMonotonic - depth.hostMonotonic))
  }

  function NewKey(arrival: uint64): PendingKey {
    PendingKey(None, None, arrival, false, false)
  }

  /** Files one observation under its key. */
  function Absorb(key: PendingKey, o: Observation): PendingKey {
    if (if o.stream == Color then key.color.Some? else key.depth.Some?) then key.(duplicate := true)
    else
      var flagged := if o.HasRequiredValidity() then key else key.(invalid := true);
      if o.stream == Color then flagged.(color := Some(o)) else flagged.(depth := Some(o))
  }

  /** `finalize`: the verdict on a key. */
  function Verdict(stamp: int, key: PendingKey): Event {
    if key.duplicate then Event(Duplicate, stamp, None, SameStreamTwice)
    else if key.invalid then Event(Invalid, stamp, None, MissingValidity)
    else if key.color.None? || key.depth.None? then
      Event(Incomplete, stamp, None, if key.color.Some? then MissingDepth else MissingColor)
    else
      var color, depth := key.color.value, key.depth.value;
      if color.clockDomain == Unknown || depth.clockDomain == Unknown || color.clockDomain != depth.clockDomain then
        Event(DomainMismatch, stamp, None, DomainsDiffer)
      else Event(Complete, stamp, Some(BuildTiming(stamp, color, depth)), ExactPair)
  }

  datatype Config = Config(maxWait: uint64, maxNewer: uint64) {
    /** `max(64, max_newer_stamps + 1)` in unsigned 64-bit arithmetic. */
    function HistoryCapacity(): (c: nat)
      ensures c >= MINIMUM_FINALIZED_HISTORY
    {
      var wrapped := (maxNewer + 1) % U64_LIMIT;
      if wrapped < MINIMUM_FINALIZED_HISTORY then MINIMUM_FINALIZED_HISTORY else wrapped
    }
  }

  /** The aggregator with an unbounded memory of the stamps it has closed. */
  datatype AggState = AggState(pending: seq<Entry>, closed: seq<int>) {
    ghost predicate Good() {
      && (forall i, j :: 0 <= i < j < |pending| ==> pending[i].stamp < pending[j].stamp)
      && StrictlyIncreasing(closed)
      && (forall i :: 0 <= i < |pending| ==> !BehindClosed(pending[i].stamp))
    }

    /** At or below the newest closed stamp. */
    predicate BehindClosed(stamp: int) {
      closed != [] && stamp <= closed[|closed| - 1]
    }

    predicate IsPending(stamp: int) {
      exists i :: 0 <= i < |pending| && pending[i].stamp == stamp
    }

    /** Whether a push at this stamp is refused as late. */
    predicate IsLate(stamp: int) {
      !IsPending(stamp) && BehindClosed(stamp)
    }
  }

  const INITIAL := AggState([], [])

  /** Whether entry `i` alone would justify closing everything up to it. */
  predicate Ready(c: Config, pending: seq<Entry>, i: nat, now: uint64)
    requires i < |pending|
  {
    || (now >= pending[i].key.firstArrival && now - pending[i].key.firstArrival >= c.maxWait)
    || |pending| - 1 - i >= c.maxNewer
  }

  /** How many of the first `n` entries close: through the last ready one. */
  function ClosureCount(c: Config, pending: seq<Entry>, now: uint64, n: nat): (k: nat)
    requires n <= |pending|
    ensures k <= n
    ensures k > 0 ==> Ready(c, pending, k - 1, now)
    ensures forall i :: k <= i < n ==> !Ready(c, pending, i, now)
  {
    if n == 0 then 0
    else if Ready(c, pending, n - 1, now) then n
    else ClosureCount(c, pending, now, n - 1)
  }

  function Stamps(entries: seq<Entry>): (s: seq<int>) {
    seq(|entries|, i requires 0 <= i < |entries| => entries[i].stamp)
  }

  function Verdicts(entries: seq<Entry>): (s: seq<Event>) {
    seq(|entries|, i requires 0 <= i < |entries| => Verdict(entries[i].stamp, entries[i].key))
  }

  datatype StepResult = StepResult(state: AggState, closings: seq<Event>, late: Option<Event>) {
    /** What the caller receives: a late report comes before the closings. */
    function Emitted(): seq<Event> {
      (if late.Some? then [late.value] else []) + closings
    }
  }

  function FlushStep(c: Config, s: AggState, now: uint64): StepResult {
    var k := ClosureCount(c, s.pending, now, |s.pending|);
    StepResult(AggState(s.pending[k..], s.closed + Stamps(s.pending[..k])), Verdicts(s.pending[..k]), None)
  }

  /** Where `stamp` stands, or would be inserted, among the sorted entries. */
  function Position(pending: seq<Entry>, stamp: int): (p: nat)
    ensures p <= |pending|
    ensures forall i :: 0 <= i < p ==> pending[i].stamp < stamp
    ensures p < |pending| ==> stamp <= pending[p].stamp
  {
    if pending == [] || stamp <= pending[0].stamp then 0 else 1 + Position(pending[1..], stamp)
  }

  /** Files `o` under its stamp, opening a key for it if there is none. */
  function File(pending: seq<Entry>, o: Observation): seq<Entry> {
    var stamp := o.StampNs();
    var p := Position(pending, stamp);
    if p < |pending| && pending[p].stamp == stamp then
      pending[p := Entry(stamp, Absorb(pending[p].key, o))]
    else
      pending[..p] + [Entry(stamp, Absorb(NewKey(o.hostMonotonic), o))] + pending[p..]
  }

  function LateEvent(c: Config, s: AggState, o: Observation): Event {
    Event(Duplicate, o.StampNs(), None,
          if o.StampNs() in LastN(s.closed, c.HistoryCapacity()) then AfterFinalization else BehindWatermark)
  }

  function PushStep(c: Config, s: AggState, o: Observation): StepResult {
    if s.IsLate(o.StampNs()) then
      FlushStep(c, s, o.hostMonotonic).(late := Some(LateEvent(c, FlushStep(c, s, o.hostMonotonic).state, o)))
    else
      FlushStep(c, AggState(File(s.pending, o), s.closed), o.hostMonotonic)
  }

  datatype Op = Push(o: Observation) | Flush(now: uint64)

  function Step(c: Config, s: AggState, op: Op): StepResult {
    match op
    case Push(o) => PushStep(c, s, o)
    case Flush(now) => FlushStep(c, s, now)
  }
}
