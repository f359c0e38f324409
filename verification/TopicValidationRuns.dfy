/**
 The online topic validator decides a property of the whole trace
 (ros2_ws/src/vt_vive_tracker/vt_vive_tracker/validate_topics.py, lines 97-223).
 */
module TopicValidationRuns {
  import opened Prelude
  import opened TopicValidation
  import opened TrackerRoles

  // ----- One role by itself -----

  /** Counters and swaps after one role's events. */
  function RoleAfter(es: seq<Event>): Tally {
    if es == [] then Tally(FRESH, 0) else Step(RoleAfter(es[..|es| - 1]), es[|es| - 1])
  }

  /** Events of one role do not disturb another, and swaps add up. */
  lemma {:induction false} SessionSplits(trace: seq<Event>)
    ensures forall role :: After(trace).Of(role) == RoleAfter(OfRole(trace, role)).metrics
    ensures After(trace).swaps == RoleAfter(OfRole(trace, LeftWrist)).swaps
                                  + RoleAfter(OfRole(trace, RightWrist)).swaps
                                  + RoleAfter(OfRole(trace, Torso)).swaps
  {
    if trace != [] {
      var init, e := trace[..|trace| - 1], trace[|trace| - 1];
      SessionSplits(init);
      SwapsShift(Tally(After(init).Of(e.topic), After(init).swaps), RoleAfter(OfRole(init, e.topic)), e);
      forall role ensures After(trace).Of(role) == RoleAfter(OfRole(trace, role)).metrics {
        OfRoleStep(trace, role);
      }
      OfRoleStep(trace, LeftWrist);
      OfRoleStep(trace, RightWrist);
      OfRoleStep(trace, Torso);
    }
  }

  lemma OfRoleStep(trace: seq<Event>, role: Role)
    requires trace != []
    ensures var init, e := trace[..|trace| - 1], trace[|trace| - 1];
            RoleAfter(OfRole(trace, role))
            == if e.topic == role then Step(RoleAfter(OfRole(init, role)), e) else RoleAfter(OfRole(init, role))
  {
    var init, e := trace[..|trace| - 1], trace[|trace| - 1];
    if e.topic == role {
      var es := OfRole(trace, role);
      assert es == OfRole(init, role) + [e];
      assert es[..|es| - 1] == OfRole(init, role);
    } else {
      assert OfRole(trace, role) == OfRole(init, role);
    }
  }

  /** The count of swaps is only ever added to. */
  lemma SwapsShift(t: Tally, u: Tally, e: Event)
    requires t.metrics == u.metrics
    ensures Step(t, e).metrics == Step(u, e).metrics
    ensures Step(t, e).swaps - t.swaps == Step(u, e).swaps - u.swaps
  {
    match e
    case Sample(topic, s) => SampleSwapsShift(t, u, topic, s);
    case Pose(_, _) =>
    case Status(topic, s) =>
      IdentitySwapsShift(
        t.(metrics := t.metrics.(statuses := t.metrics.statuses + 1)),
        u.(metrics := u.metrics.(statuses := u.metrics.statuses + 1)), topic, s.role, s.trackerId);
  }

  lemma IdentitySwapsShift(t: Tally, u: Tally, topic: Role, messageRole: string, id: string)
    requires t.metrics == u.metrics
    ensures var t', u' := IdentityStep(t, topic, messageRole, id), IdentityStep(u, topic, messageRole, id);
            t'.metrics == u'.metrics && t'.swaps - t.swaps == u'.swaps - u.swaps
  {
  }

  lemma CountedSwapsShift(t: Tally, u: Tally, topic: Role, s: SampleMessage)
    requires t.metrics == u.metrics
    ensures CountedStep(t, topic, s).metrics == CountedStep(u, topic, s).metrics
    ensures CountedStep(t, topic, s).swaps - t.swaps == CountedStep(u, topic, s).swaps - u.swaps
  {
    IdentitySwapsShift(
      t.(metrics := t.metrics.(samples := t.metrics.samples + 1)),
      u.(metrics := u.metrics.(samples := u.metrics.samples + 1)), topic, s.role, s.trackerId);
  }

  lemma SampleSwapsShift(t: Tally, u: Tally, topic: Role, s: SampleMessage)
    requires t.metrics == u.metrics
    ensures SampleStep(t, topic, s).metrics == SampleStep(u, topic, s).metrics
    ensures SampleStep(t, topic, s).swaps - t.swaps == SampleStep(u, topic, s).swaps - u.swaps
  {
    CountedSwapsShift(t, u, topic, s);
  }

  /** Identity bookkeeping touches nothing else. */
  lemma IdentityFrame(t: Tally, topic: Role, messageRole: string, id: string)
    ensures var u := IdentityStep(t, topic, messageRole, id);
            u.metrics == t.metrics.(trackerId := u.metrics.trackerId, currentId := u.metrics.currentId)
  {
  }

  /** What a sample does to the counters other than identity. */
  lemma SampleFields(t: Tally, topic: Role, s: SampleMessage)
    ensures var m, n := t.metrics, SampleStep(t, topic, s).metrics;
            && n.samples == m.samples + 1
            && n.validPoses == m.validPoses + (if s.poseValid then 1 else 0)
            && n.statuses == m.statuses && n.dropped == m.dropped && n.observedStamps == m.observedStamps
            && n.mismatches == m.mismatches + (if s.header.StampNs() != s.hostRealtime then 1 else 0)
            && n.expectedStamps == m.expectedStamps + (if s.poseValid then {s.header.StampNs()} else {})
  {
    IdentityFrame(t.(metrics := t.metrics.(samples := t.metrics.samples + 1)), topic, s.role, s.trackerId);
  }

  lemma SampleOrder(t: Tally, topic: Role, s: SampleMessage)
    ensures var m, n := t.metrics, SampleStep(t, topic, s).metrics;
            var k := MonotonicStep(m, s.hostMonotonic);
            n.nonmonotonic == k.nonmonotonic && n.lastMonotonic == k.lastMonotonic
  {
    IdentityFrame(t.(metrics := t.metrics.(samples := t.metrics.samples + 1)), topic, s.role, s.trackerId);
  }

  lemma SampleGap(t: Tally, topic: Role, s: SampleMessage)
    ensures var m, n := t.metrics, SampleStep(t, topic, s).metrics;
            var k := if s.poseValid then ValidPoseStep(m, s.header.StampNs(), s.hostMonotonic) else m;
            n.maxGap == k.maxGap && n.lastValid == k.lastValid
  {
    IdentityFrame(t.(metrics := t.metrics.(samples := t.metrics.samples + 1)), topic, s.role, s.trackerId);
  }

  /** Other messages leave what samples wrote. */
  lemma OtherFields(t: Tally, e: Event)
    requires !e.Sample?
    ensures var m, n := t.metrics, Step(t, e).metrics;
            && n.samples == m.samples && n.validPoses == m.validPoses && n.mismatches == m.mismatches
            && n.nonmonotonic == m.nonmonotonic && n.lastMonotonic == m.lastMonotonic
            && n.maxGap == m.maxGap && n.lastValid == m.lastValid && n.expectedStamps == m.expectedStamps
            && n.statuses == m.statuses + (if e.Status? then 1 else 0)
            && n.observedStamps == m.observedStamps + (if e.Pose? then {e.header.StampNs()} else {})
            && (e.Pose? ==> n.dropped == m.dropped)
            && (e.Status? ==> n.dropped == if e.status.dropped > m.dropped then e.status.dropped else m.dropped)
  {
    match e
    case Pose(_, _) =>
    case Status(topic, s) =>
      IdentityFrame(t.(metrics := t.metrics.(statuses := t.metrics.statuses + 1)), topic, s.role, s.trackerId);
  }

  /** Both of the above, by kind of message. */
  lemma StepFields(t: Tally, e: Event)
    ensures var m, n := t.metrics, Step(t, e).metrics;
            && n.samples == m.samples + (if e.Sample? then 1 else 0)
            && n.validPoses == m.validPoses + (if e.Sample? && e.sample.poseValid then 1 else 0)
            && n.statuses == m.statuses + (if e.Status? then 1 else 0)
            && n.mismatches == m.mismatches
                               + (if e.Sample? && e.sample.header.StampNs() != e.sample.hostRealtime then 1 else 0)
            && n.expectedStamps
               == m.expectedStamps + (if e.Sample? && e.sample.poseValid then {e.sample.header.StampNs()} else {})
            && n.observedStamps == m.observedStamps + (if e.Pose? then {e.header.StampNs()} else {})
            && n.dropped == (if e.Status? && e.status.dropped > m.dropped then e.status.dropped else m.dropped)
  {
    if e.Sample? {
      SampleFields(t, e.topic, e.sample);
    } else {
      OtherFields(t, e);
    }
  }

  // ----- What each counter says -----

  /** All events are on one role's topics. */
  ghost predicate OnTopic(es: seq<Event>, role: Role) {
    forall i :: 0 <= i < |es| ==> es[i].topic == role
  }

  lemma {:induction false} OfRoleIsOnTopic(trace: seq<Event>, role: Role)
    ensures OnTopic(OfRole(trace, role), role)
    ensures forall e :: e in OfRole(trace, role) <==> e in trace && e.topic == role
  {
    if trace != [] {
      OfRoleIsOnTopic(trace[..|trace| - 1], role);
      assert trace == trace[..|trace| - 1] + [trace[|trace| - 1]];
    }
  }

  lemma {:induction false} CountsAreExact(es: seq<Event>)
    ensures var m := RoleAfter(es).metrics;
            && m.samples == |Samples(es)|
            && m.validPoses == |ValidPoses(Samples(es))|
            && m.statuses == |Statuses(es)|
  {
    if es != [] {
      var init, e := es[..|es| - 1], es[|es| - 1];
      CountsAreExact(init);
      StepFields(RoleAfter(init), e);
      SamplesStep(es);
    }
  }

  lemma SamplesStep(es: seq<Event>)
    requires es != []
    ensures var e, before := es[|es| - 1], Samples(es[..|es| - 1]);
            && Samples(es) == (if e.Sample? then before + [e.sample] else before)
            && ValidPoses(Samples(es))
               == (if e.Sample? && e.sample.poseValid then ValidPoses(before) + [e.sample] else ValidPoses(before))
  {
    var e, before := es[|es| - 1], Samples(es[..|es| - 1]);
    if e.Sample? {
      assert (before + [e.sample])[..|before|] == before;
    } else {
      assert Samples(es) == before;
    }
  }

  lemma {:induction false} StampSetsAreExact(es: seq<Event>)
    ensures RoleAfter(es).metrics.expectedStamps == ExpectedStamps(es)
    ensures RoleAfter(es).metrics.observedStamps == ObservedStamps(es)
  {
    if es != [] {
      var init, e := es[..|es| - 1], es[|es| - 1];
      StampSetsAreExact(init);
      StepFields(RoleAfter(init), e);
      assert es == init + [e];
      assert ExpectedStamps(es)
          == ExpectedStamps(init) + if e.Sample? && e.sample.poseValid then {e.sample.header.StampNs()} else {};
      assert ObservedStamps(es) == ObservedStamps(init) + if e.Pose? then {e.header.StampNs()} else {};
    }
  }

  lemma {:induction false} DropsAreSeen(es: seq<Event>)
    ensures RoleAfter(es).metrics.dropped == 0 <==> forall s :: s in Statuses(es) ==> s.dropped <= 0
  {
    if es != [] {
      var init, e := es[..|es| - 1], es[|es| - 1];
      DropsAreSeen(init);
      StepFields(RoleAfter(init), e);
      assert forall s :: s in Statuses(es) <==> s in Statuses(init) || (e.Status? && s == e.status);
    }
  }

  lemma {:induction false} MismatchesAreSeen(es: seq<Event>)
    ensures RoleAfter(es).metrics.mismatches == 0 <==> StampsMatch(Samples(es))
  {
    if es != [] {
      var init, e := es[..|es| - 1], es[|es| - 1];
      MismatchesAreSeen(init);
      StepFields(RoleAfter(init), e);
      assert forall s :: s in Samples(es) <==> s in Samples(init) || (e.Sample? && s == e.sample);
    }
  }

  /** The counter of disorder against the samples so far. */
  ghost predicate DisorderSeen(m: Metrics, samples: seq<SampleMessage>) {
    && (m.nonmonotonic == 0 <==> Ordered(samples))
    && (Ordered(samples) ==>
          m.lastMonotonic == if samples == [] then None else Some(samples[|samples| - 1].hostMonotonic))
  }

  lemma DisorderSeenStep(m: Metrics, samples: seq<SampleMessage>, s: SampleMessage)
    requires DisorderSeen(m, samples)
    ensures DisorderSeen(MonotonicStep(m, s.hostMonotonic), samples + [s])
  {
    OrderedStep(samples, s);
  }

  lemma DisorderSeenAfter(t: Tally, e: Event, samples: seq<SampleMessage>)
    requires DisorderSeen(t.metrics, samples)
    ensures DisorderSeen(Step(t, e).metrics, if e.Sample? then samples + [e.sample] else samples)
  {
    if e.Sample? {
      DisorderSeenStep(t.metrics, samples, e.sample);
      SampleOrder(t, e.topic, e.sample);
    } else {
      OtherFields(t, e);
    }
  }

  lemma {:induction false} DisorderIsSeen(es: seq<Event>)
    ensures DisorderSeen(RoleAfter(es).metrics, Samples(es))
  {
    if es != [] {
      var init, e := es[..|es| - 1], es[|es| - 1];
      DisorderIsSeen(init);
      SamplesStep(es);
      DisorderSeenAfter(RoleAfter(init), e, Samples(init));
    }
  }

  lemma OrderedStep(samples: seq<SampleMessage>, s: SampleMessage)
    ensures Ordered(samples + [s])
            <==> Ordered(samples)
                 && (samples == [] || samples[|samples| - 1].hostMonotonic < s.hostMonotonic)
  {
    var all := samples + [s];
    if Ordered(all) {
      assert forall i :: 0 <= i < |samples| ==> all[i] == samples[i];
      if samples != [] {
        assert all[|samples| - 1].hostMonotonic < all[|samples|].hostMonotonic;
      }
    }
  }

  lemma {:induction false} ValidPosesAreSamples(samples: seq<SampleMessage>)
    ensures forall v :: v in ValidPoses(samples) ==> v in samples
  {
    if samples != [] {
      ValidPosesAreSamples(samples[..|samples| - 1]);
    }
  }

  /** The largest gap against the valid poses so far. */
  ghost predicate GapSeen(m: Metrics, valid: seq<SampleMessage>, limitMs: real) {
    && m.lastValid == (if valid == [] then None else Some(valid[|valid| - 1].hostMonotonic))
    && (GapWithin(m.maxGap, limitMs) <==> GapsWithin(valid, limitMs))
  }

  lemma GapOrder(a: int, b: int, limitMs: real)
    requires a <= b
    ensures GapWithin(b, limitMs) ==> GapWithin(a, limitMs)
  {
    assert a as real <= b as real;
  }

  lemma GapSeenStep(m: Metrics, valid: seq<SampleMessage>, s: SampleMessage, stamp: int, limitMs: real)
    requires GapSeen(m, valid, limitMs) && forall v :: v in valid ==> v.hostMonotonic < s.hostMonotonic
    ensures GapSeen(ValidPoseStep(m, stamp, s.hostMonotonic), valid + [s], limitMs)
  {
    GapsStep(valid, s, limitMs);
    if valid != [] {
      var gap := s.hostMonotonic - valid[|valid| - 1].hostMonotonic;
      assert valid[|valid| - 1] in valid;
      if gap > m.maxGap {
        GapOrder(m.maxGap, gap, limitMs);
      } else {
        GapOrder(gap, m.maxGap, limitMs);
      }
    }
  }

  /** While stamps increase, the largest gap is the largest between consecutive valid poses. */
  lemma {:induction false} GapsAreSeen(es: seq<Event>, limitMs: real)
    requires Ordered(Samples(es)) && limitMs >= 0.0
    ensures GapSeen(RoleAfter(es).metrics, ValidPoses(Samples(es)), limitMs)
  {
    if es != [] {
      var init, e := es[..|es| - 1], es[|es| - 1];
      SamplesStep(es);
      if e.Sample? {
        OrderedStep(Samples(init), e.sample);
        GapsAreSeen(init, limitMs);
        SampleGap(RoleAfter(init), e.topic, e.sample);
        if e.sample.poseValid {
          LastValidIsEarlier(Samples(init), e.sample);
          GapSeenStep(RoleAfter(init).metrics, ValidPoses(Samples(init)), e.sample, e.sample.header.StampNs(), limitMs);
        }
      } else {
        OtherFields(RoleAfter(init), e);
        GapsAreSeen(init, limitMs);
      }
    }
  }

  lemma LastValidIsEarlier(samples: seq<SampleMessage>, s: SampleMessage)
    requires Ordered(samples + [s])
    ensures forall v :: v in ValidPoses(samples) ==> v.hostMonotonic < s.hostMonotonic
  {
    ValidPosesAreSamples(samples);
    var all := samples + [s];
    forall v | v in ValidPoses(samples) ensures v.hostMonotonic < s.hostMonotonic {
      var i :| 0 <= i < |samples| && samples[i] == v;
      assert all[i].hostMonotonic < all[|samples|].hostMonotonic;
    }
  }

  lemma GapsStep(valid: seq<SampleMessage>, s: SampleMessage, limitMs: real)
    ensures GapsWithin(valid + [s], limitMs)
            <==> GapsWithin(valid, limitMs)
                 && (valid == []
                     || GapWithin(s.hostMonotonic - valid[|valid| - 1].hostMonotonic, limitMs))
  {
    var all := valid + [s];
    if GapsWithin(all, limitMs) {
      forall i | 0 < i < |valid|
        ensures GapWithin(valid[i].hostMonotonic - valid[i - 1].hostMonotonic, limitMs)
      {
        assert all[i] == valid[i] && all[i - 1] == valid[i - 1];
      }
      if valid != [] {
        assert all[|valid|] == s && all[|valid| - 1] == valid[|valid| - 1];
      }
    }
  }

  /** Without swaps the role has one tracker: the one its messages name. */
  lemma {:induction false} SwapsAreSeen(es: seq<Event>, role: Role)
    requires OnTopic(es, role)
    ensures RoleAfter(es).swaps == 0 <==> OneIdentity(role, es)
    ensures RoleAfter(es).swaps == 0 ==>
              var m := RoleAfter(es).metrics;
              && m.trackerId == m.currentId
              && (forall e :: e in es && e.Identified() ==> e.TrackerId() == m.trackerId)
              && (m.trackerId != "" ==> exists e :: e in es && e.Identified())
  {
    if es != [] {
      var init, e := es[..|es| - 1], es[|es| - 1];
      assert es == init + [e];
      SwapsAreSeen(init, role);
      assert forall f :: f in init ==> f in es;
      assert forall f :: f in es <==> f in init || f == e;
      if e.Identified() {
        IdentityIsKept(RoleAfter(init), e);
      }
    }
  }

  /** What a message does to identity. */
  lemma IdentityIsKept(t: Tally, e: Event)
    requires e.Identified()
    ensures var u := IdentityStep(t, e.topic, e.MessageRole(), e.TrackerId());
            && Step(t, e).swaps == u.swaps
            && Step(t, e).metrics.trackerId == u.metrics.trackerId
            && Step(t, e).metrics.currentId == u.metrics.currentId
  {
  }

  // ----- The verdict -----

  lemma TrackerIdNamed(es: seq<Event>, role: Role)
    requires OnTopic(es, role) && OneIdentity(role, es) && Samples(es) != []
    ensures var id := RoleAfter(es).metrics.trackerId;
            id != "" && exists e :: e in es && e.Identified() && e.TrackerId() == id
  {
    SwapsAreSeen(es, role);
    SomeSample(es);
  }

  lemma {:induction false} SomeSample(es: seq<Event>)
    requires Samples(es) != []
    ensures exists e :: e in es && e.Sample?
  {
    var init, e := es[..|es| - 1], es[|es| - 1];
    if !e.Sample? {
      SomeSample(init);
      assert forall f :: f in init ==> f in es;
    } else {
      assert e in es;
    }
  }

  /** One role's counters pass, with no swaps, exactly if its events do. */
  lemma RoleVerdict(limits: Limits, es: seq<Event>, role: Role)
    requires limits.Valid() && OnTopic(es, role)
    ensures RoleAfter(es).swaps == 0 && RolePassed(limits, RoleAfter(es).metrics) <==> RoleTracePasses(limits, role, es)
  {
    CountsAreExact(es);
    StampSetsAreExact(es);
    DropsAreSeen(es);
    MismatchesAreSeen(es);
    DisorderIsSeen(es);
    SwapsAreSeen(es, role);
    if Ordered(Samples(es)) {
      GapsAreSeen(es, limits.maximumGapMs);
    }
    if OneIdentity(role, es) && Samples(es) != [] {
      TrackerIdNamed(es, role);
    }
  }

  lemma DistinctMeansNoCollisions(s: SessionState)
    requires s.left.trackerId != "" && s.right.trackerId != "" && s.torso.trackerId != ""
    ensures Collisions(s) == 0
            <==> s.left.trackerId != s.right.trackerId && s.left.trackerId != s.torso.trackerId
                 && s.right.trackerId != s.torso.trackerId
  {
    var a, b, c := s.left.trackerId, s.right.trackerId, s.torso.trackerId;
    assert Identities(s) == [a, b, c];
    assert (set id | id in Identities(s)) == {a, b, c};
    if a == b {
      assert {a, b, c} == {a, c};
    } else if a == c || b == c {
      assert {a, b, c} == {a, b};
    }
  }

  /** All events of a role name the id its counters hold. */
  ghost predicate Named(trace: seq<Event>, role: Role, id: string) {
    && (forall e :: e in trace && e.topic == role && e.Identified() ==> e.TrackerId() == id)
    && (exists e :: e in trace && e.topic == role && e.Identified() && e.TrackerId() == id)
  }

  lemma PassingRoleIsNamed(limits: Limits, trace: seq<Event>, role: Role)
    requires limits.Valid() && RoleTracePasses(limits, role, OfRole(trace, role))
    ensures After(trace).Of(role).trackerId != "" && Named(trace, role, After(trace).Of(role).trackerId)
  {
    var es := OfRole(trace, role);
    OfRoleIsOnTopic(trace, role);
    SessionSplits(trace);
    SwapsAreSeen(es, role);
    TrackerIdNamed(es, role);
    var e :| e in es && e.Identified() && e.TrackerId() == RoleAfter(es).metrics.trackerId;
    assert e in trace && e.topic == role;
  }

  lemma DifferentNames(trace: seq<Event>, r1: Role, r2: Role, id1: string, id2: string)
    requires Named(trace, r1, id1) && Named(trace, r2, id2)
    ensures id1 != id2 <==> Apart(trace, r1, r2)
  {
    var e :| e in trace && e.topic == r1 && e.Identified() && e.TrackerId() == id1;
    var f :| f in trace && f.topic == r2 && f.Identified() && f.TrackerId() == id2;
  }

  ghost predicate AllNamed(trace: seq<Event>, s: SessionState) {
    forall role :: s.Of(role).trackerId != "" && Named(trace, role, s.Of(role).trackerId)
  }

  lemma PassingRolesAreNamed(limits: Limits, trace: seq<Event>)
    requires limits.Valid() && RolesPass(limits, trace)
    ensures AllNamed(trace, After(trace))
  {
    var s := After(trace);
    forall role ensures s.Of(role).trackerId != "" && Named(trace, role, s.Of(role).trackerId) {
      PassingRoleIsNamed(limits, trace, role);
    }
  }

  lemma NoCollisionsMeansApart(trace: seq<Event>, s: SessionState)
    requires AllNamed(trace, s)
    ensures Collisions(s) == 0 <==> RolesApart(trace)
  {
    assert s.Of(LeftWrist) == s.left && s.Of(RightWrist) == s.right && s.Of(Torso) == s.torso;
    DistinctMeansNoCollisions(s);
    forall r1, r2 | r1 != r2 ensures s.Of(r1).trackerId != s.Of(r2).trackerId <==> Apart(trace, r1, r2) {
      DifferentNames(trace, r1, r2, s.Of(r1).trackerId, s.Of(r2).trackerId);
    }
    if Collisions(s) == 0 {
      forall r1: Role, r2 | r1 != r2 ensures s.Of(r1).trackerId != s.Of(r2).trackerId {
      }
    }
  }

  lemma RolesVerdict(limits: Limits, trace: seq<Event>)
    requires limits.Valid()
    ensures var s := After(trace);
            s.swaps == 0 && RolesPassed(limits, s) <==> RolesPass(limits, trace)
  {
    SessionSplits(trace);
    forall role
      ensures RoleAfter(OfRole(trace, role)).swaps == 0 && RolePassed(limits, After(trace).Of(role))
              <==> RoleTracePasses(limits, role, OfRole(trace, role))
    {
      OfRoleIsOnTopic(trace, role);
      RoleVerdict(limits, OfRole(trace, role), role);
    }
    var s := After(trace);
    assert s.Of(LeftWrist) == s.left && s.Of(RightWrist) == s.right && s.Of(Torso) == s.torso;
  }

  /**
   The validator passes exactly the traces in which every role keeps one valid tracker of its own,
   stamps increase and match, consecutive valid poses are close enough, nothing was dropped, and the
   rates and the ratio are met.
   */
  lemma VerdictDecidesTrace(limits: Limits, trace: seq<Event>)
    requires limits.Valid()
    ensures Passed(limits, After(trace)) <==> TracePasses(limits, trace)
  {
    RolesVerdict(limits, trace);
    if RolesPass(limits, trace) {
      PassingRolesAreNamed(limits, trace);
      NoCollisionsMeansApart(trace, After(trace));
    }
  }
}
