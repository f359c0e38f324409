/**
 What a viewer of the tracker visualisation sees, over every run of the three-role model
 (ros2_ws/src/vt_vive_tracker/vt_vive_tracker/visualization_model.py, lines 109-226).
 */
module VisualizationRuns {
  import opened Prelude
  import opened TrackerRoles
  import opened TrailWindow
  import opened VisualizationModel

  function ModelAfter(calls: seq<Call>, cap: nat): PerRole<Window> {
    if calls == [] then PerRole(EMPTY, EMPTY, EMPTY)
    else ModelStep(ModelAfter(calls[..|calls| - 1], cap), calls[|calls| - 1], cap)
  }

  /** What a call means for one role. */
  function EventsOf(call: Call, role: Role): seq<Event> {
    match call
    case PoseCall(name, pose, arrival) =>
      if RoleNamed(name) == Some(role) && pose.Some? then [Observed(TimedPose(arrival, pose.value))] else []
    case StatusCall(name, status) =>
      if RoleNamed(name) == Some(role) && StatusInRange(status) then [Reported(status)] else []
    case SnapshotCall(now) => if now >= 0 then [Snapshotted(now)] else []
  }

  /** The events of one role in a run. */
  function RoleEvents(calls: seq<Call>, role: Role): seq<Event> {
    if calls == [] then [] else RoleEvents(calls[..|calls| - 1], role) + EventsOf(calls[|calls| - 1], role)
  }

  lemma StepOfRole(s: PerRole<Window>, call: Call, cap: nat, role: Role)
    ensures ModelStep(s, call, cap).Of(role)
            == if EventsOf(call, role) == [] then s.Of(role) else Step(s.Of(role), EventsOf(call, role)[0], cap)
  {
  }

  lemma AfterOneMore(events: seq<Event>, more: seq<Event>, cap: nat)
    requires |more| <= 1
    ensures After(events + more, cap)
            == if more == [] then After(events, cap) else Step(After(events, cap), more[0], cap)
  {
    if more == [] {
      assert events + more == events;
    } else {
      assert (events + more)[..|events + more| - 1] == events;
    }
  }

  /** Each role's window is that of its own events alone. */
  lemma {:induction false} ModelSplits(calls: seq<Call>, cap: nat, role: Role)
    ensures ModelAfter(calls, cap).Of(role) == After(RoleEvents(calls, role), cap)
  {
    if calls != [] {
      var init, call := calls[..|calls| - 1], calls[|calls| - 1];
      ModelSplits(init, cap, role);
      StepOfRole(ModelAfter(init, cap), call, cap, role);
      AfterOneMore(RoleEvents(init, role), EventsOf(call, role), cap);
    }
  }

  /** No snapshot of the run was taken later than `now`. */
  ghost predicate CallsBy(calls: seq<Call>, now: int) {
    forall i :: 0 <= i < |calls| && calls[i].SnapshotCall? ==> calls[i].now <= now
  }

  lemma {:induction false} EventsBy(calls: seq<Call>, now: nat, role: Role)
    requires CallsBy(calls, now)
    ensures SnapshotsBy(RoleEvents(calls, role), now)
  {
    if calls != [] {
      var init, call := calls[..|calls| - 1], calls[|calls| - 1];
      assert call == calls[|calls| - 1];
      EventsBy(init, now, role);
    }
  }

  /** What one role shows at `now`, after the run. */
  function SeenAt(calls: seq<Call>, cap: nat, now: nat, role: Role): RoleSnapshot {
    Shown(role, Prune(ModelAfter(calls, cap).Of(role), now), now)
  }

  /**
   When no earlier snapshot was taken at a later time, every role shows, in order, exactly its accepted
   poses of the last three seconds among the newest `cap`, and as its rate the number of those of the
   last second.
   */
  lemma ViewerSeesTheWindow(calls: seq<Call>, cap: nat, now: nat, role: Role)
    requires cap > 0 && CallsBy(calls, now)
    ensures var events := RoleEvents(calls, role);
            var seen := SeenAt(calls, cap, now, role);
            && seen.trail == Poses(Ideal(events, cap, now, 3_000_000_000))
            && seen.receiveRateHz == |Ideal(events, cap, now, 1_000_000_000)| as real
  {
    ModelSplits(calls, cap, role);
    EventsBy(calls, now, role);
    SnapshotsShowTheWindow(RoleEvents(calls, role), cap, now);
    RateIsCount(role, Prune(ModelAfter(calls, cap).Of(role), now), now);
  }

  /** For any snapshot times, the trail shown is exactly that if and only if earlier pruning was harmless. */
  lemma TrailShownIff(calls: seq<Call>, cap: nat, now: nat, role: Role)
    requires cap > 0
    ensures var events := RoleEvents(calls, role);
            SeenAt(calls, cap, now, role).trail == Poses(Ideal(events, cap, now, 3_000_000_000))
            <==> PruningHarmless(events, cap, now, 3_000_000_000)
  {
    ModelSplits(calls, cap, role);
    TrailIsIdealIff(RoleEvents(calls, role), cap, now);
  }

  /** For any snapshot times, the rate shown counts exactly those poses if and only if earlier pruning was harmless. */
  lemma RateShownIff(calls: seq<Call>, cap: nat, now: nat, role: Role)
    requires cap > 0
    ensures var events := RoleEvents(calls, role);
            SeenAt(calls, cap, now, role).receiveRateHz == |Ideal(events, cap, now, 1_000_000_000)| as real
            <==> PruningHarmless(events, cap, now, 1_000_000_000)
  {
    ModelSplits(calls, cap, role);
    RateIsIdealIff(RoleEvents(calls, role), cap, now);
    RateIsCount(role, Prune(ModelAfter(calls, cap).Of(role), now), now);
  }

  // ----- What the health shown means -----

  /** The last status taken. */
  function LastStatus(events: seq<Event>): Option<StatusValue> {
    if events == [] then None
    else
      var last := events[|events| - 1];
      if last.Reported? then Some(last.status) else LastStatus(events[..|events| - 1])
  }

  lemma {:induction false} LastStatusKept(events: seq<Event>, cap: nat)
    ensures After(events, cap).status == LastStatus(events)
  {
    if events != [] {
      LastStatusKept(events[..|events| - 1], cap);
    }
  }

  /** Nothing accepted, nothing for over a second, or a disconnected tracker. */
  ghost predicate IsOffline(poses: seq<TimedPose>, status: Option<StatusValue>, now: int) {
    || poses == []
    || now - poses[|poses| - 1].arrival > 1_000_000_000
    || (status.Some? && status.value.state == 0)
  }

  /** Nothing for over a quarter of a second, no status, or one of a tracker that gives no poses or wrong ones. */
  ghost predicate IsBehind(poses: seq<TimedPose>, status: Option<StatusValue>, now: int) {
    || (poses != [] && now - poses[|poses| - 1].arrival > 250_000_000)
    || status.None?
    || status.value.state == 1 || status.value.state == 3
  }

  /** The health shown is the one those two conditions name. */
  ghost predicate HealthIs(health: VisualHealth, poses: seq<TimedPose>, status: Option<StatusValue>, now: int) {
    && (health == Offline <==> IsOffline(poses, status, now))
    && (health == Delayed <==> !IsOffline(poses, status, now) && IsBehind(poses, status, now))
  }

  /** The pose shown is the last, with its age, which is zero for a pose of the future. */
  ghost predicate PoseIs(seen: RoleSnapshot, poses: seq<TimedPose>, now: int) {
    if poses == [] then seen.pose == None && seen.poseAge == None
    else
      var last := poses[|poses| - 1];
      && seen.pose == Some(last.pose)
      && seen.poseAge == Some(if now < last.arrival then 0 else now - last.arrival)
  }

  lemma HealthOfWindow(w: Window, poses: seq<TimedPose>, now: int)
    requires w.lastPose == if poses == [] then None else Some(poses[|poses| - 1])
    ensures HealthIs(HealthOf(w, now), poses, w.status, now)
  {
  }

  lemma ShownOfWindow(role: Role, w: Window, poses: seq<TimedPose>, now: nat)
    requires w.lastPose == if poses == [] then None else Some(poses[|poses| - 1])
    ensures var seen := Shown(role, w, now);
            PoseIs(seen, poses, now) && seen.role == role && seen.status == w.status && seen.health == HealthOf(w, now)
  {
  }

  lemma WindowTells(calls: seq<Call>, cap: nat, now: nat, role: Role)
    ensures var events, w := RoleEvents(calls, role), Prune(ModelAfter(calls, cap).Of(role), now);
            && w.lastPose == (if Accepted(events) == [] then None else Some(Accepted(events)[|Accepted(events)| - 1]))
            && w.status == LastStatus(events)
  {
    ModelSplits(calls, cap, role);
    LastPoseKept(RoleEvents(calls, role), cap);
    LastStatusKept(RoleEvents(calls, role), cap);
  }

  /** Over every run, a role's health, pose, pose age and status are told by its accepted poses and its last status. */
  lemma HealthTells(calls: seq<Call>, cap: nat, now: nat, role: Role)
    ensures var events := RoleEvents(calls, role);
            var poses, status, seen := Accepted(events), LastStatus(events), SeenAt(calls, cap, now, role);
            HealthIs(seen.health, poses, status, now) && PoseIs(seen, poses, now)
            && seen.role == role && seen.status == status
  {
    var w, poses := Prune(ModelAfter(calls, cap).Of(role), now), Accepted(RoleEvents(calls, role));
    WindowTells(calls, cap, now, role);
    HealthOfWindow(w, poses, now);
    ShownOfWindow(role, w, poses, now);
  }
}
