/**
 The tracker visualisation model
 (ros2_ws/src/vt_vive_tracker/vt_vive_tracker/visualization_model.py, lines 57-226).
 */
module VisualizationModel {
  import opened Prelude
  import opened TrackerRoles
  import opened TrailWindow

  datatype VisualHealth = Fresh | Delayed | Offline

  /** `_health`. */
  function HealthOf(w: Window, now: int): VisualHealth {
    if w.lastPose.None? then Offline
    else
      var age := now - w.lastPose.value.arrival;
      if age > OFFLINE_NS || (w.status.Some? && w.status.value.state == 0) then Offline
      else if age > FRESH_NS || w.status.None? || w.status.value.state in {1, 3} then Delayed
      else Fresh
  }

  datatype RoleSnapshot = RoleSnapshot(
    role: Role, health: VisualHealth, pose: Option<PoseValue>, trail: seq<PoseValue>, receiveRateHz: real,
    status: Option<StatusValue>, poseAge: Option<int>)

  function Poses(s: seq<TimedPose>): (r: seq<PoseValue>)
    ensures |r| == |s| && forall i {:trigger r[i]} :: 0 <= i < |s| ==> r[i] == s[i].pose
  {
    seq(|s|, i requires 0 <= i < |s| => s[i].pose)
  }

  /** What one role shows after pruning. */
  function Shown(role: Role, w: Window, now: nat): RoleSnapshot {
    RoleSnapshot(
      role, HealthOf(w, now),
      if w.lastPose.None? then None else Some(w.lastPose.value.pose),
      Poses(w.trail),
      (|w.rateTimes| * 1_000_000_000) as real / RATE_NS as real,
      w.status,
      if w.lastPose.None? then None else Some(Max(0, now - w.lastPose.value.arrival)))
  }

  /** A call of the model, as its users make it. */
  datatype Call =
    | PoseCall(roleName: string, pose: Option<PoseValue>, arrival: int)
    | StatusCall(roleName: string, status: StatusValue)
    | SnapshotCall(now: int)

  predicate StatusInRange(status: StatusValue) {
    status.state <= 3 && status.trackingStatus <= 255
  }

  /** What a call does to the three windows. */
  function ModelStep(s: PerRole<Window>, call: Call, cap: nat): PerRole<Window> {
    match call
    case PoseCall(name, pose, arrival) =>
      if RoleNamed(name).None? || pose.None? then s
      else
        var role := RoleNamed(name).value;
        s.With(role, Observe(s.Of(role), TimedPose(arrival, pose.value), cap))
    case StatusCall(name, status) =>
      if RoleNamed(name).None? || !StatusInRange(status) then s
      else
        var role := RoleNamed(name).value;
        s.With(role, Step(s.Of(role), Reported(status), cap))
    case SnapshotCall(now) =>
      if now < 0 then s
      else
        PerRole(TrailWindow.Prune(s.left, now), TrailWindow.Prune(s.right, now), TrailWindow.Prune(s.torso, now))
  }

  /** The rate shown is the number of poses counted: the window is one second. */
  lemma RateIsCount(role: Role, w: Window, now: nat)
    ensures Shown(role, w, now).receiveRateHz == |w.rateTimes| as real
  {
  }

  /** `_RoleState`. */
  class RoleState {
    var trail: seq<TimedPose>
    var rateTimes: seq<int>
    var lastPose: Option<TimedPose>
    var status: Option<StatusValue>

    constructor ()
      ensures State() == EMPTY
    {
      trail, rateTimes, lastPose, status := [], [], None, None;
    }

    function State(): Window
      reads this
    {
      Window(trail, rateTimes, lastPose, status)
    }

    /** `_prune`. */
    method Prune(now: nat)
      modifies this
      ensures State() == TrailWindow.Prune(old(State()), now)
    {
      var trailCutoff := now - TRAIL_NS;
      ghost var k := 0;
      while trail != [] && trail[0].arrival < trailCutoff
        invariant k <= |old(trail)| && trail == old(trail)[k..]
        invariant forall i :: 0 <= i < k ==> old(trail)[i].arrival < trailCutoff
        invariant rateTimes == old(rateTimes) && lastPose == old(lastPose) && status == old(status)
        decreases |trail|
      {
        trail := trail[1..];
        k := k + 1;
      }
      LeadingIs(Arrivals(old(trail)), trailCutoff, k);
      var rateCutoff := now - RATE_NS;
      ghost var r := 0;
      while rateTimes != [] && rateTimes[0] < rateCutoff
        invariant r <= |old(rateTimes)| && rateTimes == old(rateTimes)[r..]
        invariant forall i :: 0 <= i < r ==> old(rateTimes)[i] < rateCutoff
        invariant trail == old(trail)[k..] && lastPose == old(lastPose) && status == old(status)
        decreases |rateTimes|
      {
        rateTimes := rateTimes[1..];
        r := r + 1;
      }
      LeadingIs(old(rateTimes), rateCutoff, r);
    }
  }

  /** `TrackerVisualizationModel`. */
  class TrackerVisualizationModel {
    const maxTrailPoints: nat
    const left: RoleState
    const right: RoleState
    const torso: RoleState

    ghost predicate Valid() {
      maxTrailPoints > 0 && left != right && left != torso && right != torso
    }

    function State(): PerRole<Window>
      reads left, right, torso
    {
      PerRole(left.State(), right.State(), torso.State())
    }

    constructor (maxTrailPoints: nat)
      requires maxTrailPoints > 0
      ensures Valid() && this.maxTrailPoints == maxTrailPoints && State() == PerRole(EMPTY, EMPTY, EMPTY)
      ensures fresh(left) && fresh(right) && fresh(torso)
    {
      this.maxTrailPoints := maxTrailPoints;
      left := new RoleState();
      right := new RoleState();
      torso := new RoleState();
    }

    function Of(role: Role): (s: RoleState)
      ensures s in {left, right, torso}
    {
      match role
      case LeftWrist => left
      case RightWrist => right
      case Torso => torso
    }

    /** A pose is taken if its role is known, it is well formed, and it arrives in order. */
    method ObservePose(roleName: string, pose: Option<PoseValue>, arrival: int) returns (accepted: bool)
      requires Valid()
      modifies left, right, torso
      ensures accepted
              <==> RoleNamed(roleName).Some? && pose.Some?
                   && InOrder(old(State()).Of(RoleNamed(roleName).value), arrival)
      ensures State() == ModelStep(old(State()), PoseCall(roleName, pose, arrival), maxTrailPoints)
    {
      if RoleNamed(roleName).None? || pose.None? || arrival < 0 {
        return false;
      }
      var state := Of(RoleNamed(roleName).value);
      if state.lastPose.Some? && arrival < state.lastPose.value.arrival {
        return false;
      }
      var timed := TimedPose(arrival, pose.value);
      state.lastPose := Some(timed);
      state.trail := LastN(state.trail + [timed], maxTrailPoints);
      state.rateTimes := LastN(state.rateTimes + [arrival], maxTrailPoints);
      return true;
    }

    method ObserveStatus(roleName: string, status: StatusValue) returns (accepted: bool)
      requires Valid()
      modifies left, right, torso
      ensures accepted <==> RoleNamed(roleName).Some? && StatusInRange(status)
      ensures State() == ModelStep(old(State()), StatusCall(roleName, status), maxTrailPoints)
    {
      if RoleNamed(roleName).None? || !StatusInRange(status) {
        return false;
      }
      var state := Of(RoleNamed(roleName).value);
      state.status := Some(status);
      return true;
    }

    method ShowRole(role: Role, now: nat) returns (shown: RoleSnapshot)
      requires Valid()
      modifies Of(role)
      ensures State() == old(State()).With(role, TrailWindow.Prune(old(State()).Of(role), now))
      ensures shown == Shown(role, TrailWindow.Prune(old(State()).Of(role), now), now)
    {
      var state := Of(role);
      assert state.State() == State().Of(role);
      state.Prune(now);
      shown := Shown(role, state.State(), now);
    }

    /** The loop over the roles. */
    method ShowRoles(now: nat) returns (values: seq<RoleSnapshot>)
      requires Valid()
      modifies left, right, torso
      ensures State() == PrunedUpTo(old(State()), now, |ROLES|)
      ensures values == ShownUpTo(old(State()), now, |ROLES|)
    {
      ghost var start := State();
      values := [];
      for i := 0 to |ROLES|
        invariant State() == PrunedUpTo(start, now, i)
        invariant values == ShownUpTo(start, now, i)
      {
        PrunedStep(start, now, i);
        var shown := ShowRole(ROLES[i], now);
        values := values + [shown];
      }
    }

    /** Prunes every role and shows it; a negative time is refused. */
    method Snapshots(now: int) returns (r: Option<seq<RoleSnapshot>>)
      requires Valid()
      modifies left, right, torso
      ensures r.Some? <==> now >= 0
      ensures State() == ModelStep(old(State()), SnapshotCall(now), maxTrailPoints)
      ensures now >= 0 ==> r == Some(ShownUpTo(old(State()), now, |ROLES|))
    {
      if now < 0 {
        return None;
      }
      PrunedAll(State(), now);
      var values := ShowRoles(now);
      return Some(values);
    }
  }

  /** The first `i` roles pruned. */
  ghost function PrunedUpTo(s: PerRole<Window>, now: nat, i: nat): PerRole<Window>
    requires i <= |ROLES|
  {
    if i == 0 then s
    else PrunedUpTo(s, now, i - 1).With(ROLES[i - 1], TrailWindow.Prune(s.Of(ROLES[i - 1]), now))
  }

  /** The first `i` roles as shown. */
  ghost function ShownUpTo(s: PerRole<Window>, now: nat, i: nat): seq<RoleSnapshot>
    requires i <= |ROLES|
  {
    if i == 0 then []
    else ShownUpTo(s, now, i - 1) + [Shown(ROLES[i - 1], TrailWindow.Prune(s.Of(ROLES[i - 1]), now), now)]
  }

  /** Pruning earlier roles has not touched the next. */
  lemma PrunedStep(s: PerRole<Window>, now: nat, i: nat)
    requires i < |ROLES|
    ensures PrunedUpTo(s, now, i).Of(ROLES[i]) == s.Of(ROLES[i])
  {
    if i > 0 {
      var before := PrunedUpTo(s, now, i - 1);
      if i > 1 {
        assert PrunedUpTo(s, now, 1) == PrunedUpTo(s, now, 0).With(ROLES[0], TrailWindow.Prune(s.Of(ROLES[0]), now));
      }
    }
  }

  lemma PrunedAll(s: PerRole<Window>, now: nat)
    ensures PrunedUpTo(s, now, |ROLES|)
            == PerRole(TrailWindow.Prune(s.left, now), TrailWindow.Prune(s.right, now), TrailWindow.Prune(s.torso, now))
  {
    var one, two := PrunedUpTo(s, now, 1), PrunedUpTo(s, now, 2);
    assert ROLES[0] == LeftWrist && ROLES[1] == RightWrist && ROLES[2] == Torso;
    assert PrunedUpTo(s, now, 0) == s;
    assert one == s.With(LeftWrist, TrailWindow.Prune(s.left, now));
    assert two == one.With(RightWrist, TrailWindow.Prune(s.right, now));
  }

  /** Every role is pruned, and shown as pruned. */
  lemma AllPruned(s: PerRole<Window>, now: nat, role: Role)
    ensures PrunedUpTo(s, now, |ROLES|).Of(role) == TrailWindow.Prune(s.Of(role), now)
    ensures Shown(role, TrailWindow.Prune(s.Of(role), now), now) in ShownUpTo(s, now, |ROLES|)
  {
    var one, two := PrunedUpTo(s, now, 1), PrunedUpTo(s, now, 2);
    assert one == PrunedUpTo(s, now, 0).With(ROLES[0], TrailWindow.Prune(s.Of(ROLES[0]), now));
    assert two == one.With(ROLES[1], TrailWindow.Prune(s.Of(ROLES[1]), now));
    assert ROLES[0] == LeftWrist && ROLES[1] == RightWrist && ROLES[2] == Torso;
    assert ShownUpTo(s, now, 1) <= ShownUpTo(s, now, 2) <= ShownUpTo(s, now, 3);
    assert ShownUpTo(s, now, 1)[0] in ShownUpTo(s, now, 3) && ShownUpTo(s, now, 2)[1] in ShownUpTo(s, now, 3);
  }

  /** One snapshot per role: the left wrist, the right wrist, the torso. */
  lemma ShownInOrder(s: PerRole<Window>, now: nat)
    ensures ShownUpTo(s, now, |ROLES|)
            == [Shown(LeftWrist, TrailWindow.Prune(s.left, now), now),
                Shown(RightWrist, TrailWindow.Prune(s.right, now), now),
                Shown(Torso, TrailWindow.Prune(s.torso, now), now)]
  {
    assert ROLES[0] == LeftWrist && ROLES[1] == RightWrist && ROLES[2] == Torso;
    assert ShownUpTo(s, now, 1) == [Shown(LeftWrist, TrailWindow.Prune(s.left, now), now)];
    assert ShownUpTo(s, now, 2) == ShownUpTo(s, now, 1) + [Shown(RightWrist, TrailWindow.Prune(s.right, now), now)];
  }
}
