/**
 The health book and the drop-oldest sample queue that reports to it
 (ros2_ws/src/vt_vive_tracker/vt_vive_tracker/health.py, lines 58-225).
 */
module SampleQueue {
  import opened Prelude
  import opened TrackerRoles
  import opened TrackerHealth

  /** `TrackerHealthBook`. */
  class TrackerHealthBook {
    const timeout: nat
    var values: PerRole<Health>
    var requested: bool

    function State(): Book
      reads this
    {
      Book(values, requested)
    }

    constructor (ids: PerRole<string>, timeout: nat)
      requires timeout > 0
      ensures this.timeout == timeout && State() == NewBook(ids)
    {
      this.timeout := timeout;
      values := PerRole(NewHealth(ids.left), NewHealth(ids.right), NewHealth(ids.torso));
      requested := false;
    }

    method ObserveSample(s: StampedSample) returns (r: Result<bool, HealthError>)
      modifies this
      ensures Outcome(old(State()), Observed(s), r.Ok?, if r.Err? then Some(r.error) else None)
      ensures r.Ok? ==> (r.value <==> old(values.Of(s.role).state) != values.Of(s.role).state)
    {
      NamesNameRoles(RoleName(s.role));
      var role := Admit(State(), RoleName(s.role), s.trackerId, s.hostMonotonic);
      if role.Err? {
        return Err(role.error);
      }
      var h := values.Of(s.role);
      var state := if s.poseValid then Tracking else ConnectedNoTracking;
      var changed := h.state != state;
      h := h.(state := state, trackingStatus := s.trackingStatus, valid := h.valid + 1);
      h := h.(lastReport := s.hostMonotonic, hasReport := true);
      if s.poseValid {
        h := h.(lastValidPose := s.hostMonotonic, hasValidPose := true);
      }
      values := values.With(s.role, h);
      requested := requested || changed;
      return Ok(changed);
    }

    method ObserveInvalid(name: string, trackerId: string, at: int) returns (r: Result<bool, HealthError>)
      modifies this
      ensures Outcome(old(State()), Invalid(name, trackerId, at), r.Ok?, if r.Err? then Some(r.error) else None)
      ensures r.Ok? ==>
                var role := RoleNamed(name).value;
                RoleNamed(name).Some? && (r.value <==> old(values.Of(role).state) != values.Of(role).state)
    {
      var admitted := Admit(State(), name, trackerId, at);
      if admitted.Err? {
        return Err(admitted.error);
      }
      var role := admitted.value;
      var h := values.Of(role);
      var recentPose := h.hasValidPose && at - h.lastValidPose < timeout;
      var changed := false;
      if !recentPose {
        changed := h.state != InvalidData;
        h := h.(state := InvalidData);
      }
      h := h.(invalid := h.invalid + 1, lastReport := at, hasReport := true);
      values := values.With(role, h);
      requested := requested || changed;
      return Ok(changed);
    }

    method RecordDrop(name: string) returns (known: bool)
      modifies this
      ensures Outcome(old(State()), Dropped(name), known, if known then None else Some(UnknownRole))
    {
      known := RoleNamed(name).Some?;
      if known {
        var role := RoleNamed(name).value;
        var h := values.Of(role);
        values := values.With(role, h.(dropped := h.dropped + 1));
      }
    }

    method Snapshot(now: int) returns (r: Result<PerRole<Health>, HealthError>)
      modifies this
      ensures Outcome(old(State()), Snapshotted(now), r.Ok?, if r.Err? then Some(r.error) else None)
      ensures r.Ok? ==> r.value == values
    {
      if now < 0 {
        return Err(NegativeTimestamp);
      }
      ghost var start := State();
      for i := 0 to |ROLES|
        invariant State() == CheckedUpTo(start, now, timeout, i)
      {
        var h := values.Of(ROLES[i]);
        if h.hasReport && now - h.lastReport >= timeout {
          var changed := h.state != Disconnected;
          values := values.With(ROLES[i], h.(state := Disconnected));
          requested := requested || changed;
        }
      }
      CheckedAll(start, now, timeout);
      return Ok(values);
    }

    method ConsumeStatusPublishRequest() returns (was: bool)
      modifies this
      ensures was == old(requested)
      ensures Outcome(old(State()), Consumed, true, None)
    {
      was := requested;
      requested := false;
    }

    /** The call did what the step says, and failed when it does. */
    ghost predicate Outcome(before: Book, e: Event, ok: bool, error: Option<HealthError>)
      reads this
    {
      && State() == Next(before, e, timeout)
      && (ok <==> Step(before, e, timeout).Ok?)
      && (!ok ==> error == Some(Step(before, e, timeout).error))
    }
  }

  /** The first `i` roles checked for silence. */
  ghost function CheckedUpTo(b: Book, now: nat, timeout: nat, i: nat): Book
    requires i <= |ROLES|
  {
    if i == 0 then b
    else
      var before := CheckedUpTo(b, now, timeout, i - 1);
      before.Update(ROLES[i - 1], Checked(b.values.Of(ROLES[i - 1]), now, timeout))
  }

  lemma CheckedAll(b: Book, now: nat, timeout: nat)
    ensures CheckedUpTo(b, now, timeout, |ROLES|) == Next(b, Snapshotted(now), timeout)
  {
    assert ROLES[0] == LeftWrist && ROLES[1] == RightWrist && ROLES[2] == Torso;
    assert CheckedUpTo(b, now, timeout, 0) == b;
    var one := CheckedUpTo(b, now, timeout, 1);
    assert one == b.Update(LeftWrist, Checked(b.values.left, now, timeout));
    var two := CheckedUpTo(b, now, timeout, 2);
    assert two == one.Update(RightWrist, Checked(b.values.right, now, timeout));
  }

  /** `BoundedSampleQueue`. */
  class BoundedSampleQueue {
    const book: TrackerHealthBook
    const capacity: nat
    var values: seq<StampedSample>

    ghost predicate Valid()
      reads this
    {
      0 < capacity && |values| <= capacity
    }

    constructor (book: TrackerHealthBook, capacity: nat)
      requires capacity > 0
      ensures Valid() && this.book == book && this.capacity == capacity && values == []
    {
      this.book := book;
      this.capacity := capacity;
      values := [];
    }

    /** The newest `capacity` samples stay; one pushed out is charged to its role. */
    method Put(sample: StampedSample)
      requires Valid()
      modifies this, book
      ensures Valid() && values == LastN(old(values) + [sample], capacity)
      ensures book.State() == ChargedFor(old(book.State()), Overflow(old(values) + [sample], capacity), book.timeout)
    {
      ghost var all := values + [sample];
      if |values| == capacity {
        var dropped := values[0];
        assert Overflow(all, capacity) == [dropped];
        ChargeOne(book.State(), dropped, book.timeout);
        NamesNameRoles(RoleName(dropped.role));
        var known := book.RecordDrop(RoleName(dropped.role));
        assert known;
        values := values[1..] + [sample];
      } else {
        assert Overflow(all, capacity) == [];
        values := values + [sample];
      }
    }

    method Drain() returns (drained: seq<StampedSample>)
      requires Valid()
      modifies this
      ensures Valid() && drained == old(values) && values == []
    {
      drained := values;
      values := [];
    }

    function Length(): nat
      reads this
    {
      |values|
    }
  }

  /** What does not fit in the last `capacity` places. */
  function Overflow<T>(s: seq<T>, capacity: nat): seq<T> {
    if |s| <= capacity then [] else s[..|s| - capacity]
  }

  /** The book after dropping each of `lost`, in order. */
  function ChargedFor(b: Book, lost: seq<StampedSample>, timeout: nat): Book {
    if lost == [] then b
    else
      Next(ChargedFor(b, lost[..|lost| - 1], timeout), Dropped(RoleName(lost[|lost| - 1].role)), timeout)
  }

  lemma ChargeOne(b: Book, s: StampedSample, timeout: nat)
    ensures ChargedFor(b, [s], timeout) == Next(b, Dropped(RoleName(s.role)), timeout)
  {
    assert [s][..0] == [];
    assert ChargedFor(b, [s][..0], timeout) == b;
  }
}
