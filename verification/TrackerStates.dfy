/**
 What the link state and status of a tracker mean
 (ros2_ws/src/vt_vive_tracker/vt_vive_tracker/health.py, lines 106-183), over every trace of the health book.
 */
module TrackerStates {
  import opened Prelude
  import opened TrackerRoles
  import opened TrackerHealth
  import opened TrackerSilence

  /**
   The event at `i` settles the role's state: an accepted report, unless it is an invalid one within the
   timeout after the last valid pose, or a snapshot that finds the role silent.
   */
  predicate Settles(ids: PerRole<string>, trace: seq<Event>, timeout: nat, role: Role, i: nat) {
    && i < |trace|
    && (FindsSilence(trace[i], LastReport(ids, trace[..i], timeout, role), timeout)
        || (ReportedAt(ids, trace, timeout, role, i)
            && !StaysSilent(trace[i], LastPose(ids, trace[..i], timeout, role), timeout)))
  }

  /** The state such an event means. */
  function Meaning(e: Event): LinkState {
    match e
    case Observed(s) => if s.poseValid then Tracking else ConnectedNoTracking
    case Invalid(_, _, _) => InvalidData
    case _ => Disconnected
  }

  /** The last settling event at or before the end, if there is one. */
  function LastSettled(ids: PerRole<string>, trace: seq<Event>, timeout: nat, role: Role, n: nat): (r: Option<nat>)
    requires n <= |trace|
    ensures r.Some? ==> r.value < n && Settles(ids, trace, timeout, role, r.value)
    ensures forall j :: (if r.Some? then r.value + 1 else 0) <= j < n ==> !Settles(ids, trace, timeout, role, j)
  {
    if n == 0 then None
    else if Settles(ids, trace, timeout, role, n - 1) then Some(n - 1)
    else LastSettled(ids, trace, timeout, role, n - 1)
  }

  lemma StateSteps(ids: PerRole<string>, trace: seq<Event>, timeout: nat, role: Role)
    requires trace != []
    ensures var n := |trace| - 1;
            Run(ids, trace, timeout).values.Of(role).state
            == if Settles(ids, trace, timeout, role, n) then Meaning(trace[n])
               else Run(ids, trace[..n], timeout).values.Of(role).state
  {
    var n := |trace| - 1;
    var init, e := trace[..n], trace[n];
    var b := Run(ids, init, timeout);
    RunKeepsCoherent(ids, init, timeout, role);
    if Reports(e, role) && Step(b, e, timeout).Ok? {
      OwnReport(b, e, timeout, role);
    } else {
      OtherEvent(b, e, timeout, role);
    }
  }

  lemma SettlesEarlier(ids: PerRole<string>, trace: seq<Event>, timeout: nat, role: Role, i: nat)
    requires i < |trace| - 1
    ensures Settles(ids, trace, timeout, role, i) == Settles(ids, trace[..|trace| - 1], timeout, role, i)
  {
    assert trace[..|trace| - 1][..i] == trace[..i];
  }

  lemma {:induction false} LastSettledEarlier(ids: PerRole<string>, trace: seq<Event>, timeout: nat, role: Role, n: nat)
    requires n <= |trace| - 1
    ensures LastSettled(ids, trace, timeout, role, n) == LastSettled(ids, trace[..|trace| - 1], timeout, role, n)
  {
    if n > 0 {
      SettlesEarlier(ids, trace, timeout, role, n - 1);
      LastSettledEarlier(ids, trace, timeout, role, n - 1);
    }
  }

  /**
   Over every trace, the state of a role is the one its last settling event means: tracking after a valid
   pose, connected without tracking after a sample without one, invalid data after an invalid report too
   long after the last valid pose, disconnected after a silent snapshot; and disconnected before any.
   */
  lemma {:induction false} StateIsTheLastSettled(ids: PerRole<string>, trace: seq<Event>, timeout: nat, role: Role)
    ensures var last := LastSettled(ids, trace, timeout, role, |trace|);
            Run(ids, trace, timeout).values.Of(role).state
            == if last.Some? then Meaning(trace[last.value]) else Disconnected
  {
    if trace != [] {
      var n := |trace| - 1;
      StateSteps(ids, trace, timeout, role);
      StateIsTheLastSettled(ids, trace[..n], timeout, role);
      LastSettledEarlier(ids, trace, timeout, role, n);
    }
  }

  /** The tracking status of the role's last accepted sample. */
  function LastTrackingStatus(ids: PerRole<string>, trace: seq<Event>, timeout: nat, role: Role): nat {
    if trace == [] then 0
    else
      var init, e := trace[..|trace| - 1], trace[|trace| - 1];
      if Reports(e, role) && e.Observed? && Accepts(ids, init, e, timeout) then e.sample.trackingStatus
      else LastTrackingStatus(ids, init, timeout, role)
  }

  lemma StatusUntouched(b: Book, e: Event, timeout: nat, role: Role)
    requires !(Reports(e, role) && e.Observed? && Step(b, e, timeout).Ok?)
    ensures var h, h' := b.values.Of(role), Next(b, e, timeout).values.Of(role);
            h'.trackingStatus == h.trackingStatus && h'.trackerId == h.trackerId
  {
    if e.Observed? {
      NamesNameRoles(RoleName(e.sample.role));
    }
  }

  /** Over every trace a role keeps its tracker id and shows the status of its last accepted sample. */
  lemma {:induction false} StatusIsTheLast(ids: PerRole<string>, trace: seq<Event>, timeout: nat, role: Role)
    ensures var h := Run(ids, trace, timeout).values.Of(role);
            h.trackingStatus == LastTrackingStatus(ids, trace, timeout, role) && h.trackerId == ids.Of(role)
  {
    if trace != [] {
      var init, e := trace[..|trace| - 1], trace[|trace| - 1];
      var b := Run(ids, init, timeout);
      StatusIsTheLast(ids, init, timeout, role);
      if Reports(e, role) && e.Observed? && Step(b, e, timeout).Ok? {
        OwnReport(b, e, timeout, role);
      } else {
        StatusUntouched(b, e, timeout, role);
      }
    }
  }

  /** Which reports the book accepts: the right tracker, known, and not stamped before the last one. */
  lemma AcceptsIff(ids: PerRole<string>, trace: seq<Event>, e: Event, timeout: nat, role: Role)
    requires Reports(e, role)
    ensures Accepts(ids, trace, e, timeout)
            <==> && Stamp(e) >= 0
                 && ids.Of(role) == (if e.Observed? then e.sample.trackerId else e.trackerId)
                 && var last := LastReport(ids, trace, timeout, role); last.Some? ==> Stamp(e) >= last.value
  {
    RunKeepsCoherent(ids, trace, timeout, role);
    StatusIsTheLast(ids, trace, timeout, role);
    if e.Observed? {
      NamesNameRoles(RoleName(e.sample.role));
    }
  }
}
