/**
 The topic validation session
 (ros2_ws/src/vt_vive_tracker/vt_vive_tracker/validate_topics.py, lines 44-223).
 */
module TopicValidator {
  import opened Prelude
  import opened TopicValidation
  import opened TrackerRoles

  /** `_RoleMetrics`. */
  class RoleMetrics {
    var trackerId: string
    var currentId: string
    var samples: nat
    var validPoses: nat
    var poseMessages: nat
    var statuses: nat
    var dropped: nat
    var nonmonotonic: nat
    var mismatches: nat
    var lastMonotonic: Option<int>
    var lastValid: Option<int>
    var maxGap: nat
    var expectedStamps: set<int>
    var observedStamps: set<int>

    constructor ()
      ensures State() == FRESH
    {
      trackerId, currentId := "", "";
      samples, validPoses, poseMessages, statuses := 0, 0, 0, 0;
      dropped, nonmonotonic, mismatches := 0, 0, 0;
      lastMonotonic, lastValid, maxGap := None, None, 0;
      expectedStamps, observedStamps := {}, {};
    }

    function State(): Metrics
      reads this
    {
      Metrics(trackerId, currentId, samples, validPoses, poseMessages, statuses, dropped, nonmonotonic, mismatches,
              lastMonotonic, lastValid, maxGap, expectedStamps, observedStamps)
    }
  }

  datatype RoleReport = RoleReport(
    trackerId: string, samples: nat, validPoses: nat, poseMessages: nat, matched: nat, statuses: nat,
    validRate: real, poseRate: real, ratio: real, maxGapMs: real,
    dropped: nat, nonmonotonic: nat, mismatches: nat)

  datatype Report = Report(pass: bool, roles: seq<RoleReport>, swaps: nat, collisions: int)

  /** The nearest integer, the even one of two equally near. */
  function Nearest(y: real): int {
    var below := y.Floor;
    var rest := y - below as real;
    if rest < 0.5 || (rest == 0.5 && below % 2 == 0) then below else below + 1
  }

  function Distance(y: real, n: int): real {
    if y >= n as real then y - n as real else n as real - y
  }

  lemma NearestIsNearest(y: real, n: int)
    ensures Distance(y, Nearest(y)) <= Distance(y, n)
    ensures Distance(y, Nearest(y)) == Distance(y, n) && n != Nearest(y) ==> Nearest(y) % 2 == 0
  {
    var below := y.Floor;
    assert below as real <= y < (below + 1) as real;
    if n <= below {
      assert n as real <= below as real;
    } else {
      assert n as real >= (below + 1) as real;
    }
  }

  const MILLION: real := 1_000_000.0

  /** `round(x, 6)` on exact reals. */
  function Rounded(x: real): real {
    Nearest(x * MILLION) as real / MILLION
  }

  /** A whole number of millionths, none nearer, and an even one if another is as near. */
  lemma RoundedIsNearest(x: real, n: int)
    ensures var k := (Rounded(x) * MILLION).Floor;
            && Rounded(x) * MILLION == k as real
            && Distance(x * MILLION, k) <= Distance(x * MILLION, n)
            && (Distance(x * MILLION, k) == Distance(x * MILLION, n) && n != k ==> k % 2 == 0)
  {
    var k := Nearest(x * MILLION);
    NearestIsNearest(x * MILLION, n);
    assert Rounded(x) * MILLION == k as real;
    assert (k as real).Floor == k;
  }

  function RoleReportOf(limits: Limits, m: Metrics): RoleReport
    requires limits.Valid()
  {
    RoleReport(m.trackerId, m.samples, m.validPoses, m.poseMessages, Matched(m), m.statuses,
               Rounded(m.validPoses as real / limits.duration), Rounded(Matched(m) as real / limits.duration),
               Rounded(Ratio(m)), Rounded(m.maxGap as real / 1_000_000.0), m.dropped, m.nonmonotonic, m.mismatches)
  }

  /** `TopicValidationSession`. */
  class TopicValidationSession {
    const limits: Limits
    const left: RoleMetrics
    const right: RoleMetrics
    const torso: RoleMetrics
    var swaps: nat

    ghost predicate Valid() {
      limits.Valid() && left != right && left != torso && right != torso
    }

    function State(): SessionState
      reads this, left, right, torso
    {
      SessionState(left.State(), right.State(), torso.State(), swaps)
    }

    constructor (limits: Limits)
      requires limits.Valid()
      ensures Valid() && this.limits == limits && State() == INITIAL
      ensures fresh(left) && fresh(right) && fresh(torso)
    {
      this.limits := limits;
      left := new RoleMetrics();
      right := new RoleMetrics();
      torso := new RoleMetrics();
      swaps := 0;
    }

    function Metrics(role: Role): (m: RoleMetrics)
      ensures m in {left, right, torso}
    {
      match role
      case LeftWrist => left
      case RightWrist => right
      case Torso => torso
    }

    method ObserveIdentity(topicRole: Role, messageRole: string, trackerId: string)
      requires Valid()
      modifies this`swaps, Metrics(topicRole)
      ensures State()
              == old(State()).With(topicRole, IdentityStep(Tally(old(State().Of(topicRole)), old(swaps)),
                                                           topicRole, messageRole, trackerId))
    {
      var value := Metrics(topicRole);
      var identity := if ValidTrackerId(trackerId) then trackerId else "";
      if messageRole != RoleName(topicRole) || identity == "" {
        swaps := swaps + 1;
        return;
      }
      if value.trackerId == "" {
        value.trackerId := identity;
        value.currentId := identity;
      } else if identity != value.currentId {
        swaps := swaps + 1;
        value.currentId := identity;
      }
    }

    /** An unknown topic role is refused and changes nothing. */
    method ObserveSample(topicRole: string, message: SampleMessage) returns (known: bool)
      requires Valid()
      modifies this, left, right, torso
      ensures known <==> RoleNamed(topicRole).Some?
      ensures State()
              == if known then old(State()).Next(Sample(RoleNamed(topicRole).value, message)) else old(State())
    {
      known := RoleNamed(topicRole).Some?;
      if known {
        var role := RoleNamed(topicRole).value;
        NoteSample(role, message);
      }
    }

    method NoteSample(role: Role, message: SampleMessage)
      requires Valid()
      modifies this`swaps, Metrics(role)
      ensures State()
              == old(State()).With(role, SampleStep(Tally(old(State().Of(role)), old(swaps)), role, message))
    {
      ghost var start := State();
      CountSample(role, message);
      WithTwice(start, role, CountedStep(Tally(start.Of(role), start.swaps), role, message));
      NoteContent(role, message);
    }

    /** The part of `observe_sample` up to the identity. */
    method CountSample(role: Role, message: SampleMessage)
      requires Valid()
      modifies this`swaps, Metrics(role)
      ensures State()
              == old(State()).With(role, CountedStep(Tally(old(State().Of(role)), old(swaps)), role, message))
    {
      var value := Metrics(role);
      value.samples := value.samples + 1;
      ObserveIdentity(role, message.role, message.trackerId);
    }

    /** The part of `observe_sample` after the identity. */
    method NoteContent(role: Role, message: SampleMessage)
      requires Valid()
      modifies Metrics(role)
      ensures State() == old(State()).With(role, Tally(ContentStep(old(State().Of(role)), message), old(swaps)))
    {
      var value := Metrics(role);
      ghost var start := value.State();
      var monotonic := message.hostMonotonic;
      if value.lastMonotonic.Some? && monotonic <= value.lastMonotonic.value {
        value.nonmonotonic := value.nonmonotonic + 1;
      } else {
        value.lastMonotonic := Some(monotonic);
      }
      assert value.State() == MonotonicStep(start, monotonic);
      if message.header.StampNs() != message.hostRealtime {
        value.mismatches := value.mismatches + 1;
      }
      if message.poseValid {
        NoteValidPose(value, message.header.StampNs(), monotonic);
      }
      assert value.State() == ContentStep(start, message);
    }

    /** The part of `observe_sample` for a valid pose. */
    method NoteValidPose(value: RoleMetrics, stamp: int, monotonic: int)
      modifies value
      ensures value.State() == ValidPoseStep(old(value.State()), stamp, monotonic)
    {
      value.validPoses := value.validPoses + 1;
      value.expectedStamps := value.expectedStamps + {stamp};
      if value.lastValid.Some? && monotonic > value.lastValid.value {
        if monotonic - value.lastValid.value > value.maxGap {
          value.maxGap := monotonic - value.lastValid.value;
        }
      }
      if value.lastValid.None? || monotonic > value.lastValid.value {
        value.lastValid := Some(monotonic);
      }
    }

    method ObservePose(topicRole: string, header: Header) returns (known: bool)
      requires Valid()
      modifies left, right, torso
      ensures known <==> RoleNamed(topicRole).Some?
      ensures State() == if known then old(State()).Next(Pose(RoleNamed(topicRole).value, header)) else old(State())
    {
      known := RoleNamed(topicRole).Some?;
      if known {
        var value := Metrics(RoleNamed(topicRole).value);
        value.poseMessages := value.poseMessages + 1;
        value.observedStamps := value.observedStamps + {header.StampNs()};
      }
    }

    method ObserveStatus(topicRole: string, message: StatusMessage) returns (known: bool)
      requires Valid()
      modifies this, left, right, torso
      ensures known <==> RoleNamed(topicRole).Some?
      ensures State()
              == if known then old(State()).Next(Status(RoleNamed(topicRole).value, message)) else old(State())
    {
      known := RoleNamed(topicRole).Some?;
      if known {
        var role := RoleNamed(topicRole).value;
        var value := Metrics(role);
        value.statuses := value.statuses + 1;
        ObserveIdentity(role, message.role, message.trackerId);
        if message.dropped > value.dropped {
          value.dropped := message.dropped;
        }
      }
    }

    /** The verdict and the figures behind it; nothing changes. */
    method MakeReport() returns (report: Report)
      requires Valid()
      ensures report.pass <==> Passed(limits, State())
      ensures report.roles == [RoleReportOf(limits, State().left), RoleReportOf(limits, State().right),
                               RoleReportOf(limits, State().torso)]
      ensures report.swaps == State().swaps && report.collisions == Collisions(State())
    {
      var identities := CollectIdentities();
      var collisions := |identities| - |set id | id in identities|;
      var passed := swaps == 0 && collisions == 0;
      ghost var s, start := State(), passed;
      var reports: seq<RoleReport> := [];
      for i := 0 to |ROLES|
        invariant reports == ReportsOf(limits, s)[..i]
        invariant passed <==> start && forall j :: 0 <= j < i ==> RolePassed(limits, s.Of(ROLES[j]))
      {
        var value := Metrics(ROLES[i]).State();
        assert value == s.Of(ROLES[i]);
        var rolePassed := RolePassed(limits, value);
        passed := passed && rolePassed;
        reports := reports + [RoleReportOf(limits, value)];
      }
      RolesPassedInOrder(limits, s);
      return Report(passed, reports, swaps, collisions);
    }

    method CollectIdentities() returns (identities: seq<string>)
      ensures identities == Identities(State())
    {
      identities := [];
      if left.trackerId != "" { identities := identities + [left.trackerId]; }
      if right.trackerId != "" { identities := identities + [right.trackerId]; }
      if torso.trackerId != "" { identities := identities + [torso.trackerId]; }
    }
  }

  /** Writing a role's counters and reading or writing them again. */
  lemma WithTwice(s: SessionState, role: Role, t: Tally)
    ensures s.With(role, t).Of(role) == t.metrics && s.With(role, t).swaps == t.swaps
    ensures forall u :: s.With(role, t).With(role, u) == s.With(role, u)
  {
  }

  ghost function ReportsOf(limits: Limits, s: SessionState): seq<RoleReport>
    requires limits.Valid()
  {
    [RoleReportOf(limits, s.left), RoleReportOf(limits, s.right), RoleReportOf(limits, s.torso)]
  }

  lemma RolesPassedInOrder(limits: Limits, s: SessionState)
    requires limits.Valid()
    ensures RolesPassed(limits, s) <==> forall j :: 0 <= j < |ROLES| ==> RolePassed(limits, s.Of(ROLES[j]))
  {
    assert ROLES[0] == LeftWrist && ROLES[1] == RightWrist && ROLES[2] == Torso;
    assert s.Of(ROLES[0]) == s.left && s.Of(ROLES[1]) == s.right && s.Of(ROLES[2]) == s.torso;
  }
}
