/**
 When a snapshot of the health book shows a silent tracker as disconnected, exactly
 (ros2_ws/src/vt_vive_tracker/vt_vive_tracker/health.py, lines 106-183). Reports are stamped before
 they reach the book and snapshots sample the clock elsewhere, so no order of times is assumed.
 */
module TrackerSilence {
  import opened Prelude
  import opened TrackerRoles
  import opened TrackerHealth

  function Run(ids: PerRole<string>, trace: seq<Event>, timeout: nat): Book {
    After(NewBook(ids), trace, timeout)
  }

  /** The book does not refuse the event. */
  predicate Accepts(ids: PerRole<string>, before: seq<Event>, e: Event, timeout: nat) {
    Step(Run(ids, before, timeout), e, timeout).Ok?
  }

  /** A valid or invalid report of the role. */
  predicate Reports(e: Event, role: Role) {
    match e
    case Observed(s) => s.role == role
    case Invalid(name, _, _) => RoleNamed(name) == Some(role)
    case _ => false
  }

  function Stamp(e: Event): int {
    match e
    case Observed(s) => s.hostMonotonic
    case Invalid(_, _, at) => at
    case _ => 0
  }

  /** The stamp of the role's last accepted report. */
  function LastReport(ids: PerRole<string>, trace: seq<Event>, timeout: nat, role: Role): Option<int> {
    if trace == [] then None
    else
      var init, e := trace[..|trace| - 1], trace[|trace| - 1];
      if Reports(e, role) && Accepts(ids, init, e, timeout) then Some(Stamp(e))
      else LastReport(ids, init, timeout, role)
  }

  /** The stamp of the role's last accepted valid pose. */
  function LastPose(ids: PerRole<string>, trace: seq<Event>, timeout: nat, role: Role): Option<int> {
    if trace == [] then None
    else
      var init, e := trace[..|trace| - 1], trace[|trace| - 1];
      if Reports(e, role) && e.Observed? && e.sample.poseValid && Accepts(ids, init, e, timeout) then Some(Stamp(e))
      else LastPose(ids, init, timeout, role)
  }

  // ----- Stamps -----

  /** A role's flags and stamps are those of its accepted reports. */
  ghost predicate Coherent(h: Health, seen: Option<int>, pose: Option<int>) {
    && h.hasReport == seen.Some? && (seen.Some? ==> h.lastReport == seen.value)
    && h.hasValidPose == pose.Some? && (pose.Some? ==> h.lastValidPose == pose.value)
    && (pose.Some? ==> seen.Some? && pose.value <= seen.value)
    && (seen.None? ==> h.state == Disconnected)
  }

  /** What one event does to a role it does not report on. */
  lemma OtherEvent(b: Book, e: Event, timeout: nat, role: Role)
    requires !(Reports(e, role) && Step(b, e, timeout).Ok?)
    ensures var h, h' := b.values.Of(role), Next(b, e, timeout).values.Of(role);
            && h'.hasReport == h.hasReport && h'.lastReport == h.lastReport
            && h'.hasValidPose == h.hasValidPose && h'.lastValidPose == h.lastValidPose
            && h'.state == if e.Snapshotted? && e.now >= 0 then Checked(h, e.now, timeout).state else h.state
  {
    if e.Observed? {
      NamesNameRoles(RoleName(e.sample.role));
    }
  }

  /** What an accepted report does to its role. */
  lemma OwnReport(b: Book, e: Event, timeout: nat, role: Role)
    requires Reports(e, role) && Step(b, e, timeout).Ok?
    ensures var h, h' := b.values.Of(role), Next(b, e, timeout).values.Of(role);
            && Stamp(e) >= 0 && (h.hasReport ==> h.lastReport <= Stamp(e))
            && h' == if e.Observed? then Sampled(h, e.sample) else Invalidated(h, Stamp(e), timeout)
  {
    if e.Observed? {
      NamesNameRoles(RoleName(e.sample.role));
    }
  }

  /** Over every run, each role's flags and stamps are those of its accepted reports. */
  lemma {:induction false} RunKeepsCoherent(ids: PerRole<string>, trace: seq<Event>, timeout: nat, role: Role)
    ensures Coherent(Run(ids, trace, timeout).values.Of(role), LastReport(ids, trace, timeout, role),
                     LastPose(ids, trace, timeout, role))
  {
    if trace != [] {
      var init, e := trace[..|trace| - 1], trace[|trace| - 1];
      RunKeepsCoherent(ids, init, timeout, role);
      var b := Run(ids, init, timeout);
      if Reports(e, role) && Step(b, e, timeout).Ok? {
        OwnReport(b, e, timeout, role);
      } else {
        OtherEvent(b, e, timeout, role);
      }
    }
  }

  // ----- Silence -----

  /** An invalid report soon enough after the last valid pose leaves the state alone. */
  predicate StaysSilent(e: Event, pose: Option<int>, timeout: nat) {
    e.Invalid? && pose.Some? && e.at < pose.value + timeout
  }

  /** The snapshot found the role's last report at least the timeout old. */
  predicate FindsSilence(e: Event, seen: Option<int>, timeout: nat) {
    e.Snapshotted? && e.now >= 0 && seen.Some? && e.now - seen.value >= timeout
  }

  /** The event at `j` is an accepted report of the role. */
  predicate ReportedAt(ids: PerRole<string>, trace: seq<Event>, timeout: nat, role: Role, j: nat)
    requires j < |trace|
  {
    Reports(trace[j], role) && Accepts(ids, trace[..j], trace[j], timeout)
  }

  /** Every report accepted after `i` leaves the state alone. */
  ghost predicate QuietAfter(ids: PerRole<string>, trace: seq<Event>, timeout: nat, role: Role,
                             pose: Option<int>, i: nat)
  {
    forall j :: i < j < |trace| && ReportedAt(ids, trace, timeout, role, j) ==> StaysSilent(trace[j], pose, timeout)
  }

  /**
   The snapshot at `i` found the role silent, and every report accepted since was an invalid one soon
   enough after the last valid pose to leave the state alone.
   */
  ghost predicate SilencedBy(ids: PerRole<string>, trace: seq<Event>, timeout: nat, role: Role, i: nat) {
    && i < |trace|
    && FindsSilence(trace[i], LastReport(ids, trace[..i], timeout, role), timeout)
    && QuietAfter(ids, trace, timeout, role, LastPose(ids, trace[..i], timeout, role), i)
  }

  ghost predicate Silenced(ids: PerRole<string>, trace: seq<Event>, timeout: nat, role: Role) {
    exists i :: SilencedBy(ids, trace, timeout, role, i)
  }

  /** Only accepted reports move the last stamps, and invalid ones leave the last pose. */
  lemma LastStep(ids: PerRole<string>, trace: seq<Event>, timeout: nat, role: Role, j: nat)
    requires j < |trace|
    ensures var before, after := trace[..j], trace[..j + 1];
            && (!ReportedAt(ids, trace, timeout, role, j) ==>
                  LastReport(ids, after, timeout, role) == LastReport(ids, before, timeout, role))
            && (!ReportedAt(ids, trace, timeout, role, j) || trace[j].Invalid? ==>
                  LastPose(ids, after, timeout, role) == LastPose(ids, before, timeout, role))
  {
    assert trace[..j + 1][..j] == trace[..j];
  }

  /** Since the silencing snapshot no valid pose was accepted. */
  lemma {:induction false} PoseFrozen(ids: PerRole<string>, trace: seq<Event>, timeout: nat, role: Role, i: nat, k: nat)
    requires SilencedBy(ids, trace, timeout, role, i) && i < k <= |trace|
    ensures LastPose(ids, trace[..k], timeout, role) == LastPose(ids, trace[..i], timeout, role)
    decreases k
  {
    LastStep(ids, trace, timeout, role, k - 1);
    if k - 1 > i {
      PoseFrozen(ids, trace, timeout, role, i, k - 1);
      assert ReportedAt(ids, trace, timeout, role, k - 1) ==> trace[k - 1].Invalid?;
    }
  }

  lemma ReportedBefore(ids: PerRole<string>, trace: seq<Event>, timeout: nat, role: Role, j: nat)
    requires j < |trace| - 1
    ensures ReportedAt(ids, trace, timeout, role, j) == ReportedAt(ids, trace[..|trace| - 1], timeout, role, j)
  {
    assert trace[..|trace| - 1][..j] == trace[..j];
  }

  lemma QuietPrefix(ids: PerRole<string>, trace: seq<Event>, timeout: nat, role: Role, pose: Option<int>, i: nat)
    requires i < |trace| - 1 && QuietAfter(ids, trace, timeout, role, pose, i)
    ensures QuietAfter(ids, trace[..|trace| - 1], timeout, role, pose, i)
  {
    var init := trace[..|trace| - 1];
    forall j | i < j < |init| && ReportedAt(ids, init, timeout, role, j) ensures StaysSilent(init[j], pose, timeout) {
      ReportedBefore(ids, trace, timeout, role, j);
    }
  }

  lemma QuietExtend(ids: PerRole<string>, trace: seq<Event>, timeout: nat, role: Role, pose: Option<int>, i: nat)
    requires i < |trace| - 1 && QuietAfter(ids, trace[..|trace| - 1], timeout, role, pose, i)
    requires var n := |trace| - 1; ReportedAt(ids, trace, timeout, role, n) ==> StaysSilent(trace[n], pose, timeout)
    ensures QuietAfter(ids, trace, timeout, role, pose, i)
  {
    var init := trace[..|trace| - 1];
    forall j | i < j < |trace| && ReportedAt(ids, trace, timeout, role, j)
      ensures StaysSilent(trace[j], pose, timeout)
    {
      if j < |init| {
        ReportedBefore(ids, trace, timeout, role, j);
        assert StaysSilent(init[j], pose, timeout);
      }
    }
  }

  lemma QuietStep(ids: PerRole<string>, trace: seq<Event>, timeout: nat, role: Role, pose: Option<int>, i: nat)
    requires i < |trace| - 1
    ensures var n := |trace| - 1;
            QuietAfter(ids, trace, timeout, role, pose, i)
            <==> QuietAfter(ids, trace[..n], timeout, role, pose, i)
                 && (ReportedAt(ids, trace, timeout, role, n) ==> StaysSilent(trace[n], pose, timeout))
  {
    var n := |trace| - 1;
    if QuietAfter(ids, trace, timeout, role, pose, i) {
      QuietPrefix(ids, trace, timeout, role, pose, i);
    } else if QuietAfter(ids, trace[..n], timeout, role, pose, i)
              && (ReportedAt(ids, trace, timeout, role, n) ==> StaysSilent(trace[n], pose, timeout)) {
      QuietExtend(ids, trace, timeout, role, pose, i);
    }
  }

  lemma SilencedByStep(ids: PerRole<string>, trace: seq<Event>, timeout: nat, role: Role, i: nat)
    requires trace != [] && i < |trace| - 1
    ensures var init, e := trace[..|trace| - 1], trace[|trace| - 1];
            SilencedBy(ids, trace, timeout, role, i)
            <==> SilencedBy(ids, init, timeout, role, i)
                 && (Reports(e, role) && Accepts(ids, init, e, timeout) ==>
                       StaysSilent(e, LastPose(ids, init, timeout, role), timeout))
  {
    var init := trace[..|trace| - 1];
    assert init[..i] == trace[..i] && init[i] == trace[i];
    QuietStep(ids, trace, timeout, role, LastPose(ids, trace[..i], timeout, role), i);
    if SilencedBy(ids, init, timeout, role, i) {
      PoseFrozen(ids, init, timeout, role, i, |init|);
      assert init[..|init|] == init;
    }
  }

  /** The event leaves a silenced role silenced. */
  ghost predicate Keeps(ids: PerRole<string>, init: seq<Event>, e: Event, timeout: nat, role: Role) {
    Reports(e, role) && Accepts(ids, init, e, timeout) ==> StaysSilent(e, LastPose(ids, init, timeout, role), timeout)
  }

  lemma SilencedNow(ids: PerRole<string>, trace: seq<Event>, timeout: nat, role: Role)
    requires trace != []
    ensures var n := |trace| - 1;
            SilencedBy(ids, trace, timeout, role, n)
            <==> FindsSilence(trace[n], LastReport(ids, trace[..n], timeout, role), timeout)
  {
  }

  lemma SilencedBackwards(ids: PerRole<string>, trace: seq<Event>, timeout: nat, role: Role, i: nat)
    requires SilencedBy(ids, trace, timeout, role, i) && i < |trace| - 1
    ensures var init, e := trace[..|trace| - 1], trace[|trace| - 1];
            Silenced(ids, init, timeout, role) && Keeps(ids, init, e, timeout, role)
  {
    SilencedByStep(ids, trace, timeout, role, i);
    assert SilencedBy(ids, trace[..|trace| - 1], timeout, role, i);
  }

  lemma SilencedForwards(ids: PerRole<string>, trace: seq<Event>, timeout: nat, role: Role)
    requires trace != []
    requires var init, e := trace[..|trace| - 1], trace[|trace| - 1];
             Silenced(ids, init, timeout, role) && Keeps(ids, init, e, timeout, role)
    ensures Silenced(ids, trace, timeout, role)
  {
    var i: nat :| SilencedBy(ids, trace[..|trace| - 1], timeout, role, i);
    SilencedByStep(ids, trace, timeout, role, i);
    assert SilencedBy(ids, trace, timeout, role, i);
  }

  /** Whether the role is silenced, after one more event. */
  lemma SilencedStep(ids: PerRole<string>, trace: seq<Event>, timeout: nat, role: Role)
    requires trace != []
    ensures var init, e := trace[..|trace| - 1], trace[|trace| - 1];
            Silenced(ids, trace, timeout, role)
            <==> FindsSilence(e, LastReport(ids, init, timeout, role), timeout)
                 || (Silenced(ids, init, timeout, role) && Keeps(ids, init, e, timeout, role))
  {
    var init, e := trace[..|trace| - 1], trace[|trace| - 1];
    SilencedNow(ids, trace, timeout, role);
    if Silenced(ids, trace, timeout, role) {
      var i: nat :| SilencedBy(ids, trace, timeout, role, i);
      if i < |init| {
        SilencedBackwards(ids, trace, timeout, role, i);
      }
    }
    if Silenced(ids, init, timeout, role) && Keeps(ids, init, e, timeout, role) {
      SilencedForwards(ids, trace, timeout, role);
    }
  }

  /** A role that has reported is disconnected exactly while it is silenced. */
  lemma {:induction false} DisconnectedIffSilenced(ids: PerRole<string>, trace: seq<Event>, timeout: nat, role: Role)
    ensures var h := Run(ids, trace, timeout).values.Of(role);
            h.hasReport && h.state == Disconnected <==> Silenced(ids, trace, timeout, role)
  {
    if trace != [] {
      var init, e := trace[..|trace| - 1], trace[|trace| - 1];
      DisconnectedIffSilenced(ids, init, timeout, role);
      RunKeepsCoherent(ids, init, timeout, role);
      SilencedStep(ids, trace, timeout, role);
      var b := Run(ids, init, timeout);
      if Reports(e, role) && Step(b, e, timeout).Ok? {
        OwnReport(b, e, timeout, role);
      } else {
        OtherEvent(b, e, timeout, role);
      }
    }
  }

  /** The role as a snapshot taken now shows it. */
  function Shown(ids: PerRole<string>, trace: seq<Event>, now: nat, timeout: nat, role: Role): Health {
    Run(ids, trace + [Snapshotted(now)], timeout).values.Of(role)
  }

  /** No report of the role was accepted, or the last one is at least the timeout old. */
  predicate IsSilent(ids: PerRole<string>, trace: seq<Event>, now: nat, timeout: nat, role: Role) {
    var seen := LastReport(ids, trace, timeout, role);
    seen.None? || now - seen.value >= timeout
  }

  /**
   A snapshot shows a role disconnected exactly if it is silent, for every trace and every time, unless
   the role stands silenced by an earlier snapshot although its last report is recent.
   */
  lemma SnapshotShowsSilenceIff(ids: PerRole<string>, trace: seq<Event>, now: nat, timeout: nat, role: Role)
    ensures (Shown(ids, trace, now, timeout, role).state == Disconnected <==> IsSilent(ids, trace, now, timeout, role))
            <==> !(Silenced(ids, trace, timeout, role) && !IsSilent(ids, trace, now, timeout, role))
  {
    var all := trace + [Snapshotted(now)];
    assert all[..|trace|] == trace;
    RunKeepsCoherent(ids, trace, timeout, role);
    DisconnectedIffSilenced(ids, trace, timeout, role);
    OtherEvent(Run(ids, trace, timeout), Snapshotted(now), timeout, role);
  }

  // ----- A condition on one role's invalid reports -----

  /** No invalid report of the role is stamped before the time of an earlier snapshot. */
  ghost predicate InvalidsFollowSnapshots(trace: seq<Event>, role: Role) {
    forall i, j ::
      0 <= i < j < |trace| && trace[i].Snapshotted? && trace[j].Invalid? && Reports(trace[j], role) ==>
        trace[i].now <= trace[j].at
  }

  /** No snapshot of the trace is later than `now`. */
  ghost predicate SnapshotsBy(trace: seq<Event>, now: int) {
    forall i :: 0 <= i < |trace| && trace[i].Snapshotted? ==> trace[i].now <= now
  }

  lemma NothingAccepted(ids: PerRole<string>, trace: seq<Event>, timeout: nat, role: Role, i: nat, j: nat)
    requires InvalidsFollowSnapshots(trace, role)
    requires SilencedBy(ids, trace, timeout, role, i) && i < j < |trace|
    ensures !ReportedAt(ids, trace, timeout, role, j)
  {
    RunKeepsCoherent(ids, trace[..i], timeout, role);
    assert ReportedAt(ids, trace, timeout, role, j) ==>
        StaysSilent(trace[j], LastPose(ids, trace[..i], timeout, role), timeout);
  }

  /** Once silenced, such a role accepts no report at all. */
  lemma {:induction false} ReportFrozen(ids: PerRole<string>, trace: seq<Event>, timeout: nat, role: Role,
                                        i: nat, k: nat)
    requires InvalidsFollowSnapshots(trace, role)
    requires SilencedBy(ids, trace, timeout, role, i) && i < k <= |trace|
    ensures LastReport(ids, trace[..k], timeout, role) == LastReport(ids, trace[..i], timeout, role)
    decreases k
  {
    LastStep(ids, trace, timeout, role, k - 1);
    if k - 1 > i {
      ReportFrozen(ids, trace, timeout, role, i, k - 1);
      NothingAccepted(ids, trace, timeout, role, i, k - 1);
    }
  }

  /**
   If no invalid report of the role is stamped before an earlier snapshot's time, and no earlier snapshot
   was taken at a later time, a snapshot shows the role disconnected exactly if it is silent. Valid
   reports, and everything about other roles, may come in any order.
   */
  lemma SnapshotShowsSilence(ids: PerRole<string>, trace: seq<Event>, now: nat, timeout: nat, role: Role)
    requires InvalidsFollowSnapshots(trace, role) && SnapshotsBy(trace, now)
    ensures Shown(ids, trace, now, timeout, role).state == Disconnected <==> IsSilent(ids, trace, now, timeout, role)
  {
    SnapshotShowsSilenceIff(ids, trace, now, timeout, role);
    if Silenced(ids, trace, timeout, role) {
      var i: nat :| SilencedBy(ids, trace, timeout, role, i);
      ReportFrozen(ids, trace, timeout, role, i, |trace|);
      assert trace[..|trace|] == trace;
      assert trace[i].now <= now;
    }
  }

  /**
   With snapshots in order of time, an invalid report stamped before a snapshot but filed after it stays
   beside a role shown disconnected: a valid pose at 0, snapshots at 10 and 11, the report stamped 9.
   */
  lemma EarlySnapshotMisleads(id: string)
    ensures var ids := PerRole(id, id, id);
            var trace := [Observed(StampedSample(Torso, id, 0, 0, 2, true)), Snapshotted(10), Invalid("torso", id, 9)];
            && Shown(ids, trace, 11, 10, Torso).state == Disconnected
            && !IsSilent(ids, trace, 11, 10, Torso) && SilencedBy(ids, trace, 10, Torso, 1)
  {
    var ids := PerRole(id, id, id);
    var e0 := Observed(StampedSample(Torso, id, 0, 0, 2, true));
    var e2 := Invalid("torso", id, 9);
    var t1, t2, t3 := [e0], [e0, Snapshotted(10)], [e0, Snapshotted(10), e2];
    assert t3[..2] == t2 && t3[..1] == t1 && t2[..1] == t1 && t1[..0] == [];
    NamesNameRoles("torso");
    assert RoleNamed("torso") == Some(Torso);
    var b0 := NewBook(ids);
    assert Run(ids, [], 10) == b0;
    var b1 := Run(ids, t1, 10);
    OwnReport(b0, e0, 10, Torso);
    assert b1 == Next(b0, e0, 10);
    var b2 := Run(ids, t2, 10);
    OtherEvent(b1, Snapshotted(10), 10, Torso);
    assert b2 == Next(b1, Snapshotted(10), 10);
    assert b2.values.torso.trackerId == id;
    assert Step(b2, e2, 10).Ok?;
    assert LastReport(ids, t1, 10, Torso) == Some(0) && LastPose(ids, t1, 10, Torso) == Some(0);
    assert LastReport(ids, t3, 10, Torso) == Some(9);
    assert SilencedBy(ids, t3, 10, Torso, 1);
    SnapshotShowsSilenceIff(ids, t3, 11, 10, Torso);
  }
}
