/**
 What the tracker topic validator keeps and when it passes
 (ros2_ws/src/vt_vive_tracker/vt_vive_tracker/validate_topics.py, lines 26-223):
 one step per message, the verdict over the counters, and the verdict over the whole trace.
 */
module TopicValidation {
  import opened Prelude
  import opened TrackerRoles

  datatype Header = Header(sec: int, nanosec: int) {
    function StampNs(): int {
      sec * 1_000_000_000 + nanosec
    }
  }

  datatype SampleMessage = SampleMessage(
    header: Header, role: string, trackerId: string, hostMonotonic: int, hostRealtime: int, poseValid: bool)

  datatype StatusMessage = StatusMessage(role: string, trackerId: string, dropped: int)

  /** A message, with the role of the topic it arrived on. */
  datatype Event =
    | Sample(topic: Role, sample: SampleMessage)
    | Pose(topic: Role, header: Header)
    | Status(topic: Role, status: StatusMessage)
  {
    /** Samples and statuses carry a role and a tracker id. */
    predicate Identified() {
      !Pose?
    }

    function MessageRole(): string
      requires Identified()
    {
      if Sample? then sample.role else status.role
    }

    function TrackerId(): string
      requires Identified()
    {
      if Sample? then sample.trackerId else status.trackerId
    }
  }

  const LOWERCASE_HEX := "0123456789abcdef"

  predicate ValidTrackerId(id: string) {
    |id| == 64 && forall i :: 0 <= i < |id| ==> id[i] in LOWERCASE_HEX
  }

  datatype Limits = Limits(duration: real, minimumRate: real, maximumGapMs: real, minimumRatio: real) {
    /** What the constructor accepts. */
    predicate Valid() {
      duration > 0.0 && minimumRate > 0.0 && maximumGapMs > 0.0 && 0.0 < minimumRatio <= 1.0
    }
  }

  // ----- Counters -----

  datatype Metrics = Metrics(
    trackerId: string, currentId: string,
    samples: nat, validPoses: nat, poseMessages: nat, statuses: nat,
    dropped: nat, nonmonotonic: nat, mismatches: nat,
    lastMonotonic: Option<int>, lastValid: Option<int>, maxGap: nat,
    expectedStamps: set<int>, observedStamps: set<int>)

  const FRESH := Metrics("", "", 0, 0, 0, 0, 0, 0, 0, None, None, 0, {}, {})

  /** Counters of one role, and the identity swaps its messages caused. */
  datatype Tally = Tally(metrics: Metrics, swaps: nat)

  function IdentityStep(t: Tally, topic: Role, messageRole: string, id: string): Tally {
    if messageRole != RoleName(topic) || !ValidTrackerId(id) then t.(swaps := t.swaps + 1)
    else if t.metrics.trackerId == "" then t.(metrics := t.metrics.(trackerId := id, currentId := id))
    else if id != t.metrics.currentId then Tally(t.metrics.(currentId := id), t.swaps + 1)
    else t
  }

  function MonotonicStep(m: Metrics, monotonic: int): Metrics {
    if m.lastMonotonic.Some? && monotonic <= m.lastMonotonic.value then m.(nonmonotonic := m.nonmonotonic + 1)
    else m.(lastMonotonic := Some(monotonic))
  }

  function ValidPoseStep(m: Metrics, stamp: int, monotonic: int): Metrics {
    var later := m.lastValid.None? || monotonic > m.lastValid.value;
    var gap := if m.lastValid.Some? && later then monotonic - m.lastValid.value else 0;
    m.(validPoses := m.validPoses + 1,
       expectedStamps := m.expectedStamps + {stamp},
       maxGap := if gap > m.maxGap then gap else m.maxGap,
       lastValid := if later then Some(monotonic) else m.lastValid)
  }

  function ContentStep(m: Metrics, s: SampleMessage): Metrics {
    var ordered := MonotonicStep(m, s.hostMonotonic);
    var matched :=
      if s.header.StampNs() != s.hostRealtime then ordered.(mismatches := ordered.mismatches + 1) else ordered;
    if s.poseValid then ValidPoseStep(matched, s.header.StampNs(), s.hostMonotonic) else matched
  }

  function CountedStep(t: Tally, topic: Role, s: SampleMessage): Tally {
    IdentityStep(t.(metrics := t.metrics.(samples := t.metrics.samples + 1)), topic, s.role, s.trackerId)
  }

  function SampleStep(t: Tally, topic: Role, s: SampleMessage): Tally {
    var counted := CountedStep(t, topic, s);
    counted.(metrics := ContentStep(counted.metrics, s))
  }

  function PoseStep(t: Tally, header: Header): Tally {
    t.(metrics := t.metrics.(
                  poseMessages := t.metrics.poseMessages + 1,
                  observedStamps := t.metrics.observedStamps + {header.StampNs()}))
  }

  function StatusStep(t: Tally, topic: Role, s: StatusMessage): Tally {
    var counted := t.(metrics := t.metrics.(statuses := t.metrics.statuses + 1));
    var named := IdentityStep(counted, topic, s.role, s.trackerId);
    named.(metrics := named.metrics.(
                      dropped := if s.dropped > named.metrics.dropped then s.dropped else named.metrics.dropped))
  }

  function Step(t: Tally, e: Event): Tally {
    match e
    case Sample(topic, sample) => SampleStep(t, topic, sample)
    case Pose(_, header) => PoseStep(t, header)
    case Status(topic, status) => StatusStep(t, topic, status)
  }

  /** The whole session: the counters of the three roles and the swaps of all. */
  datatype SessionState = SessionState(left: Metrics, right: Metrics, torso: Metrics, swaps: nat) {
    function Of(role: Role): Metrics {
      match role
      case LeftWrist => left
      case RightWrist => right
      case Torso => torso
    }

    function With(role: Role, t: Tally): SessionState {
      match role
      case LeftWrist => SessionState(t.metrics, right, torso, t.swaps)
      case RightWrist => SessionState(left, t.metrics, torso, t.swaps)
      case Torso => SessionState(left, right, t.metrics, t.swaps)
    }

    function Next(e: Event): SessionState {
      With(e.topic, Step(Tally(Of(e.topic), swaps), e))
    }
  }

  const INITIAL := SessionState(FRESH, FRESH, FRESH, 0)

  function After(trace: seq<Event>): SessionState {
    if trace == [] then INITIAL else After(trace[..|trace| - 1]).Next(trace[|trace| - 1])
  }

  // ----- The verdict over the counters -----

  function Ratio(m: Metrics): real {
    if m.samples == 0 then 0.0 else m.validPoses as real / m.samples as real
  }

  function Matched(m: Metrics): nat {
    |m.expectedStamps * m.observedStamps|
  }

  /** A gap in nanoseconds against a limit in milliseconds. */
  predicate GapWithin(gapNs: int, limitMs: real) {
    gapNs as real / 1_000_000.0 <= limitMs
  }

  predicate RolePassed(limits: Limits, m: Metrics)
    requires limits.Valid()
  {
    && m.trackerId != "" && m.samples > 0 && m.statuses > 0
    && m.validPoses as real / limits.duration >= limits.minimumRate
    && Matched(m) as real / limits.duration >= limits.minimumRate
    && Ratio(m) >= limits.minimumRatio
    && GapWithin(m.maxGap, limits.maximumGapMs)
    && m.dropped == 0 && m.nonmonotonic == 0 && m.mismatches == 0
  }

  /** The nonempty ids of the three roles, in their order. */
  function Identities(s: SessionState): seq<string> {
    (if s.left.trackerId == "" then [] else [s.left.trackerId])
    + (if s.right.trackerId == "" then [] else [s.right.trackerId])
    + (if s.torso.trackerId == "" then [] else [s.torso.trackerId])
  }

  function Collisions(s: SessionState): int {
    |Identities(s)| - |set id | id in Identities(s)|
  }

  predicate RolesPassed(limits: Limits, s: SessionState)
    requires limits.Valid()
  {
    RolePassed(limits, s.left) && RolePassed(limits, s.right) && RolePassed(limits, s.torso)
  }

  predicate Passed(limits: Limits, s: SessionState)
    requires limits.Valid()
  {
    s.swaps == 0 && Collisions(s) == 0 && RolesPassed(limits, s)
  }

  // ----- The verdict over the trace -----

  /** The events of one role's topics. */
  function OfRole(trace: seq<Event>, role: Role): seq<Event> {
    if trace == [] then []
    else
      var last := trace[|trace| - 1];
      OfRole(trace[..|trace| - 1], role) + if last.topic == role then [last] else []
  }

  function Samples(es: seq<Event>): seq<SampleMessage> {
    if es == [] then []
    else
      var last := es[|es| - 1];
      Samples(es[..|es| - 1]) + if last.Sample? then [last.sample] else []
  }

  function ValidPoses(samples: seq<SampleMessage>): seq<SampleMessage> {
    if samples == [] then []
    else
      var last := samples[|samples| - 1];
      ValidPoses(samples[..|samples| - 1]) + if last.poseValid then [last] else []
  }

  function Statuses(es: seq<Event>): seq<StatusMessage> {
    if es == [] then []
    else
      var last := es[|es| - 1];
      Statuses(es[..|es| - 1]) + if last.Status? then [last.status] else []
  }

  /** Every message names its topic's role and carries a valid id, the same throughout. */
  ghost predicate OneIdentity(role: Role, es: seq<Event>) {
    && (forall e :: e in es && e.Identified() ==> e.MessageRole() == RoleName(role) && ValidTrackerId(e.TrackerId()))
    && (forall e, f :: e in es && f in es && e.Identified() && f.Identified() ==> e.TrackerId() == f.TrackerId())
  }

  ghost predicate Ordered(samples: seq<SampleMessage>) {
    forall i, j :: 0 <= i < j < |samples| ==> samples[i].hostMonotonic < samples[j].hostMonotonic
  }

  ghost predicate StampsMatch(samples: seq<SampleMessage>) {
    forall s :: s in samples ==> s.header.StampNs() == s.hostRealtime
  }

  /** No two consecutive valid poses are further apart than the limit. */
  ghost predicate GapsWithin(valid: seq<SampleMessage>, limitMs: real) {
    forall i :: 0 < i < |valid| ==> GapWithin(valid[i].hostMonotonic - valid[i - 1].hostMonotonic, limitMs)
  }

  /** Stamps of valid samples. */
  ghost function ExpectedStamps(es: seq<Event>): set<int> {
    set e | e in es && e.Sample? && e.sample.poseValid :: e.sample.header.StampNs()
  }

  /** Stamps of pose messages. */
  ghost function ObservedStamps(es: seq<Event>): set<int> {
    set e | e in es && e.Pose? :: e.header.StampNs()
  }

  ghost predicate RoleTracePasses(limits: Limits, role: Role, es: seq<Event>)
    requires limits.Valid()
  {
    var samples := Samples(es);
    var valid := ValidPoses(samples);
    && OneIdentity(role, es) && samples != [] && Statuses(es) != []
    && Ordered(samples) && StampsMatch(samples) && GapsWithin(valid, limits.maximumGapMs)
    && (forall s :: s in Statuses(es) ==> s.dropped <= 0)
    && |valid| as real / limits.duration >= limits.minimumRate
    && |ExpectedStamps(es) * ObservedStamps(es)| as real / limits.duration >= limits.minimumRate
    && |valid| as real / |samples| as real >= limits.minimumRatio
  }

  /** No id is named on the topics of both roles. */
  ghost predicate Apart(trace: seq<Event>, r1: Role, r2: Role) {
    forall e, f ::
      e in trace && f in trace && e.Identified() && f.Identified() && e.topic == r1 && f.topic == r2 ==>
        e.TrackerId() != f.TrackerId()
  }

  ghost predicate RolesPass(limits: Limits, trace: seq<Event>)
    requires limits.Valid()
  {
    forall role :: RoleTracePasses(limits, role, OfRole(trace, role))
  }

  /** No tracker reports under two roles. */
  ghost predicate RolesApart(trace: seq<Event>) {
    forall r1, r2 :: r1 != r2 ==> Apart(trace, r1, r2)
  }

  ghost predicate TracePasses(limits: Limits, trace: seq<Event>)
    requires limits.Valid()
  {
    RolesPass(limits, trace) && RolesApart(trace)
  }
}
