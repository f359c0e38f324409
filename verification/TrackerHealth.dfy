/**
 What the tracker health book keeps per role
 (ros2_ws/src/vt_vive_tracker/vt_vive_tracker/health.py, lines 11-189), one step per call.
 */
module TrackerHealth {
  import opened Prelude
  import opened TrackerRoles

  datatype LinkState = Disconnected | ConnectedNoTracking | Tracking | InvalidData

  datatype StampedSample = StampedSample(
    role: Role, trackerId: string, hostMonotonic: nat, packetIndex: nat, trackingStatus: nat, poseValid: bool)

  datatype Health = Health(
    trackerId: string, state: LinkState, trackingStatus: nat,
    valid: nat, invalid: nat, dropped: nat,
    lastReport: nat, lastValidPose: nat, hasReport: bool, hasValidPose: bool)

  datatype HealthError = NegativeTimestamp | UnknownRole | WrongIdentity | ReportMovedBackwards

  function NewHealth(trackerId: string): Health {
    Health(trackerId, Disconnected, 0, 0, 0, 0, 0, 0, false, false)
  }

  /** The book: health per role, and whether a status should be published at once. */
  datatype Book = Book(values: PerRole<Health>, requested: bool) {
    /** One role's health replaced; a change of its state asks for a publication. */
    function Update(role: Role, h: Health): Book {
      Book(values.With(role, h), requested || h.state != values.Of(role).state)
    }
  }

  /** Checks shared by both kinds of report. */
  function Admit(b: Book, role: string, trackerId: string, at: int): Result<Role, HealthError> {
    if at < 0 then Err(NegativeTimestamp)
    else if RoleNamed(role).None? then Err(UnknownRole)
    else
      var h := b.values.Of(RoleNamed(role).value);
      if h.trackerId != trackerId then Err(WrongIdentity)
      else if h.hasReport && at < h.lastReport then Err(ReportMovedBackwards)
      else Ok(RoleNamed(role).value)
  }

  function Sampled(h: Health, s: StampedSample): Health {
    h.(state := if s.poseValid then Tracking else ConnectedNoTracking,
       trackingStatus := s.trackingStatus,
       valid := h.valid + 1,
       lastReport := s.hostMonotonic,
       hasReport := true,
       lastValidPose := if s.poseValid then s.hostMonotonic else h.lastValidPose,
       hasValidPose := h.hasValidPose || s.poseValid)
  }

  function Invalidated(h: Health, at: nat, timeout: nat): Health {
    h.(state := if h.hasValidPose && at - h.lastValidPose < timeout then h.state else InvalidData,
       invalid := h.invalid + 1,
       lastReport := at,
       hasReport := true)
  }

  function Checked(h: Health, now: nat, timeout: nat): Health {
    if h.hasReport && now - h.lastReport >= timeout then h.(state := Disconnected) else h
  }

  datatype Event =
    | Observed(sample: StampedSample)
    | Invalid(role: string, trackerId: string, at: int)
    | Dropped(role: string)
    | Snapshotted(now: int)
    | Consumed

  function Step(b: Book, e: Event, timeout: nat): Result<Book, HealthError> {
    match e
    case Observed(s) =>
      var role := Admit(b, RoleName(s.role), s.trackerId, s.hostMonotonic);
      if role.Err? then Err(role.error) else Ok(b.Update(s.role, Sampled(b.values.Of(s.role), s)))
    case Invalid(name, trackerId, at) =>
      var role := Admit(b, name, trackerId, at);
      if role.Err? then Err(role.error)
      else Ok(b.Update(role.value, Invalidated(b.values.Of(role.value), at, timeout)))
    case Dropped(name) =>
      if RoleNamed(name).None? then Err(UnknownRole)
      else
        var h := b.values.Of(RoleNamed(name).value);
        Ok(b.Update(RoleNamed(name).value, h.(dropped := h.dropped + 1)))
    case Snapshotted(now) =>
      if now < 0 then Err(NegativeTimestamp)
      else
        Ok(b.Update(LeftWrist, Checked(b.values.left, now, timeout))
           .Update(RightWrist, Checked(b.values.right, now, timeout))
           .Update(Torso, Checked(b.values.torso, now, timeout)))
    case Consumed => Ok(b.(requested := false))
  }

  /** A refused call changes nothing. */
  function Next(b: Book, e: Event, timeout: nat): Book {
    var r := Step(b, e, timeout);
    if r.Ok? then r.value else b
  }

  function After(start: Book, trace: seq<Event>, timeout: nat): Book {
    if trace == [] then start else Next(After(start, trace[..|trace| - 1], timeout), trace[|trace| - 1], timeout)
  }

  function NewBook(ids: PerRole<string>): Book {
    Book(PerRole(NewHealth(ids.left), NewHealth(ids.right), NewHealth(ids.torso)), false)
  }

  // ----- Publication requests -----

  /** Some role's link state is not what it was. */
  ghost predicate StateChanged(b: Book, b': Book) {
    exists role :: b.values.Of(role).state != b'.values.Of(role).state
  }

  /** Some role's link state changed since a request was last consumed. */
  ghost predicate ChangedSinceConsumed(start: Book, trace: seq<Event>, timeout: nat) {
    trace != []
    && trace[|trace| - 1] != Consumed
    && (ChangedSinceConsumed(start, trace[..|trace| - 1], timeout)
        || StateChanged(After(start, trace[..|trace| - 1], timeout), After(start, trace, timeout)))
  }

  lemma NextRequests(b: Book, e: Event, timeout: nat)
    requires e != Consumed
    ensures Next(b, e, timeout).requested <==> b.requested || StateChanged(b, Next(b, e, timeout))
  {
    var b' := Next(b, e, timeout);
    assert StateChanged(b, b')
      <==> b.values.left.state != b'.values.left.state || b.values.right.state != b'.values.right.state
           || b.values.torso.state != b'.values.torso.state by {
      assert b.values.Of(LeftWrist) == b.values.left && b'.values.Of(LeftWrist) == b'.values.left;
      assert b.values.Of(RightWrist) == b.values.right && b'.values.Of(RightWrist) == b'.values.right;
      assert b.values.Of(Torso) == b.values.torso && b'.values.Of(Torso) == b'.values.torso;
    }
  }

  /** A publication is asked for exactly if some link state changed since the last request was consumed. */
  lemma {:induction false} RequestsAreExact(ids: PerRole<string>, trace: seq<Event>, timeout: nat)
    ensures After(NewBook(ids), trace, timeout).requested <==> ChangedSinceConsumed(NewBook(ids), trace, timeout)
  {
    if trace != [] {
      var init, e := trace[..|trace| - 1], trace[|trace| - 1];
      RequestsAreExact(ids, init, timeout);
      if e != Consumed {
        NextRequests(After(NewBook(ids), init, timeout), e, timeout);
      }
    }
  }

  // ----- Counters -----

  datatype Counter = Valids | Invalids | Drops {
    function Of(h: Health): nat {
      match this
      case Valids => h.valid
      case Invalids => h.invalid
      case Drops => h.dropped
    }

    /** Whether the event is one this counter counts for the role. */
    predicate Counts(e: Event, role: Role) {
      match e
      case Observed(s) => this == Valids && s.role == role
      case Invalid(name, _, _) => this == Invalids && RoleNamed(name) == Some(role)
      case Dropped(name) => this == Drops && RoleNamed(name) == Some(role)
      case Snapshotted(_) => false
      case Consumed => false
    }
  }

  /** How many events of the trace were accepted and counted for the role. */
  function Accepted(start: Book, trace: seq<Event>, timeout: nat, role: Role, counter: Counter): nat {
    if trace == [] then 0
    else
      var init, e := trace[..|trace| - 1], trace[|trace| - 1];
      Accepted(start, init, timeout, role, counter)
      + if Step(After(start, init, timeout), e, timeout).Ok? && counter.Counts(e, role) then 1 else 0
  }

  lemma NextCounts(b: Book, e: Event, timeout: nat, role: Role, counter: Counter)
    ensures counter.Of(Next(b, e, timeout).values.Of(role))
            == counter.Of(b.values.Of(role))
               + if Step(b, e, timeout).Ok? && counter.Counts(e, role) then 1 else 0
  {
    if e.Observed? {
      NamesNameRoles(RoleName(e.sample.role));
    }
  }

  /** Counters are exact per role and never reset: not by silence, by snapshots, or by refused calls. */
  lemma {:induction false} CountersAreExact(ids: PerRole<string>, trace: seq<Event>, timeout: nat, role: Role,
                                            counter: Counter)
    ensures counter.Of(After(NewBook(ids), trace, timeout).values.Of(role))
            == Accepted(NewBook(ids), trace, timeout, role, counter)
  {
    if trace != [] {
      var init, e := trace[..|trace| - 1], trace[|trace| - 1];
      CountersAreExact(ids, init, timeout, role, counter);
      NextCounts(After(NewBook(ids), init, timeout), e, timeout, role, counter);
    }
  }
}
