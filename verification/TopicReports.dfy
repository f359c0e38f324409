/**
 What the figures of the validation report say of the messages
 (ros2_ws/src/vt_vive_tracker/vt_vive_tracker/validate_topics.py, lines 161-223).
 */
module TopicReports {
  import opened Prelude
  import opened TrackerRoles
  import opened TopicValidation
  import opened TopicValidationRuns
  import opened TopicValidator

  /** The pose messages, by their headers. */
  function PoseHeaders(es: seq<Event>): seq<Header> {
    if es == [] then []
    else
      var last := es[|es| - 1];
      PoseHeaders(es[..|es| - 1]) + if last.Pose? then [last.header] else []
  }

  /** How many samples' stamps differ from their host time. */
  function Mismatched(samples: seq<SampleMessage>): nat {
    if samples == [] then 0
    else
      var last := samples[|samples| - 1];
      Mismatched(samples[..|samples| - 1]) + if last.header.StampNs() != last.hostRealtime then 1 else 0
  }

  /** The largest drop count any status named, and zero at least. */
  function LargestDropped(statuses: seq<StatusMessage>): nat {
    if statuses == [] then 0
    else
      var rest, last := LargestDropped(statuses[..|statuses| - 1]), statuses[|statuses| - 1].dropped;
      if last > rest then last else rest
  }

  /** How many samples are stamped no later than the latest before them. */
  function Disordered(samples: seq<SampleMessage>): nat {
    if samples == [] then 0
    else
      var init, last := samples[..|samples| - 1], samples[|samples| - 1];
      Disordered(init) + if init != [] && last.hostMonotonic <= Latest(init) then 1 else 0
  }

  function Latest(samples: seq<SampleMessage>): int
    requires samples != []
  {
    var init, last := samples[..|samples| - 1], samples[|samples| - 1].hostMonotonic;
    if init == [] || last > Latest(init) then last else Latest(init)
  }

  /** The largest gap between a valid pose and the latest one before it. */
  function LargestGap(valid: seq<SampleMessage>): nat {
    if valid == [] then 0
    else
      var init, last := valid[..|valid| - 1], valid[|valid| - 1].hostMonotonic;
      var gap := if init == [] then 0 else last - Latest(init);
      if gap > LargestGap(init) then gap else LargestGap(init)
  }

  lemma StatusesStep(es: seq<Event>)
    requires es != []
    ensures var e, before := es[|es| - 1], Statuses(es[..|es| - 1]);
            Statuses(es) == if e.Status? then before + [e.status] else before
  {
  }

  lemma Figures(samples: seq<SampleMessage>, s: SampleMessage)
    ensures Mismatched(samples + [s])
            == Mismatched(samples) + if s.header.StampNs() != s.hostRealtime then 1 else 0
    ensures Disordered(samples + [s])
            == Disordered(samples) + if samples != [] && s.hostMonotonic <= Latest(samples) then 1 else 0
    ensures Latest(samples + [s])
            == if samples == [] || s.hostMonotonic > Latest(samples) then s.hostMonotonic else Latest(samples)
    ensures LargestGap(samples + [s])
            == if samples != [] && s.hostMonotonic - Latest(samples) > LargestGap(samples)
               then s.hostMonotonic - Latest(samples) else LargestGap(samples)
  {
    assert (samples + [s])[..|samples|] == samples;
  }

  /** The sample counters against the samples. */
  ghost predicate Agrees(m: Metrics, samples: seq<SampleMessage>) {
    && m.mismatches == Mismatched(samples)
    && m.nonmonotonic == Disordered(samples)
    && m.lastMonotonic == (if samples == [] then None else Some(Latest(samples)))
  }

  /** The gap counters against the valid poses. */
  ghost predicate GapsAgree(m: Metrics, valid: seq<SampleMessage>) {
    && m.lastValid == (if valid == [] then None else Some(Latest(valid)))
    && m.maxGap == LargestGap(valid)
  }

  lemma GapSteps(t: Tally, e: Event)
    ensures var m, n := t.metrics, Step(t, e).metrics;
            if !(e.Sample? && e.sample.poseValid) then n.lastValid == m.lastValid && n.maxGap == m.maxGap
            else
              var s := e.sample.hostMonotonic;
              && n.lastValid == (if m.lastValid.None? || s > m.lastValid.value then Some(s) else m.lastValid)
              && n.maxGap == if m.lastValid.Some? && s - m.lastValid.value > m.maxGap then s - m.lastValid.value
                             else m.maxGap
  {
  }

  lemma {:induction false} LargestGapAgrees(es: seq<Event>)
    ensures GapsAgree(RoleAfter(es).metrics, ValidPoses(Samples(es)))
  {
    if es != [] {
      var init, e := es[..|es| - 1], es[|es| - 1];
      LargestGapAgrees(init);
      GapSteps(RoleAfter(init), e);
      SamplesStep(es);
      if e.Sample? && e.sample.poseValid {
        Figures(ValidPoses(Samples(init)), e.sample);
      }
    }
  }

  /** What one message does to those counters. */
  lemma CounterSteps(t: Tally, e: Event)
    ensures var m, n := t.metrics, Step(t, e).metrics;
            && n.poseMessages == m.poseMessages + (if e.Pose? then 1 else 0)
            && n.mismatches
               == m.mismatches + (if e.Sample? && e.sample.header.StampNs() != e.sample.hostRealtime then 1 else 0)
            && n.dropped == (if e.Status? && e.status.dropped > m.dropped then e.status.dropped else m.dropped)
            && (if e.Sample? && m.lastMonotonic.Some? && e.sample.hostMonotonic <= m.lastMonotonic.value then
                  n.nonmonotonic == m.nonmonotonic + 1 && n.lastMonotonic == m.lastMonotonic
                else
                  && n.nonmonotonic == m.nonmonotonic
                  && n.lastMonotonic == if e.Sample? then Some(e.sample.hostMonotonic) else m.lastMonotonic)
  {
  }

  lemma {:induction false} CountersAgree(es: seq<Event>)
    ensures Agrees(RoleAfter(es).metrics, Samples(es))
  {
    if es != [] {
      var init, e := es[..|es| - 1], es[|es| - 1];
      CountersAgree(init);
      CounterSteps(RoleAfter(init), e);
      SamplesStep(es);
      if e.Sample? {
        Figures(Samples(init), e.sample);
      }
    }
  }

  lemma {:induction false} OthersAgree(es: seq<Event>)
    ensures RoleAfter(es).metrics.poseMessages == |PoseHeaders(es)|
    ensures RoleAfter(es).metrics.dropped == LargestDropped(Statuses(es))
  {
    if es != [] {
      var init, e := es[..|es| - 1], es[|es| - 1];
      OthersAgree(init);
      CounterSteps(RoleAfter(init), e);
      StatusesStep(es);
      if e.Status? {
        assert (Statuses(init) + [e.status])[..|Statuses(init)|] == Statuses(init);
      }
    }
  }

  /** The quotient, or zero of nothing. */
  function Share(part: nat, whole: nat): real {
    if whole == 0 then 0.0 else part as real / whole as real
  }

  /** The message names the role of its topic and a valid id. */
  predicate Proper(e: Event, role: Role)
    requires e.Identified()
  {
    e.MessageRole() == RoleName(role) && ValidTrackerId(e.TrackerId())
  }

  /** The ids of the role's proper messages, in order. */
  function Ids(es: seq<Event>, role: Role): seq<string> {
    if es == [] then []
    else
      var before, e := Ids(es[..|es| - 1], role), es[|es| - 1];
      if e.Identified() && Proper(e, role) then before + [e.TrackerId()] else before
  }

  /** How many messages that should name the role and an id do not. */
  function Improper(es: seq<Event>, role: Role): nat {
    if es == [] then 0
    else
      var e := es[|es| - 1];
      Improper(es[..|es| - 1], role) + if e.Identified() && !Proper(e, role) then 1 else 0
  }

  /** How often an id differs from the one just before it. */
  function Changes(ids: seq<string>): nat {
    if |ids| < 2 then 0
    else Changes(ids[..|ids| - 1]) + if ids[|ids| - 1] != ids[|ids| - 2] then 1 else 0
  }

  function FirstOf(ids: seq<string>): string {
    if ids == [] then "" else ids[0]
  }

  function LastOf(ids: seq<string>): string {
    if ids == [] then "" else ids[|ids| - 1]
  }

  ghost predicate IdsAgree(t: Tally, es: seq<Event>, role: Role) {
    var ids := Ids(es, role);
    && t.metrics.trackerId == FirstOf(ids) && t.metrics.currentId == LastOf(ids)
    && (t.metrics.trackerId == "" <==> ids == [])
    && t.swaps == Improper(es, role) + Changes(ids)
  }

  lemma OtherwiseKept(t: Tally, e: Event)
    requires !e.Identified()
    ensures var u := Step(t, e);
            && u.swaps == t.swaps && u.metrics.trackerId == t.metrics.trackerId
            && u.metrics.currentId == t.metrics.currentId
  {
  }

  lemma ChangesStep(ids: seq<string>, id: string)
    ensures Changes(ids + [id]) == Changes(ids) + if ids != [] && id != LastOf(ids) then 1 else 0
    ensures LastOf(ids + [id]) == id && FirstOf(ids + [id]) == if ids == [] then id else FirstOf(ids)
  {
    assert (ids + [id])[..|ids|] == ids;
  }

  lemma {:induction false} IdsAreReported(es: seq<Event>, role: Role)
    requires OnTopic(es, role)
    ensures IdsAgree(RoleAfter(es), es, role)
  {
    if es != [] {
      var init, e := es[..|es| - 1], es[|es| - 1];
      assert OnTopic(init, role) && e.topic == role;
      IdsAreReported(init, role);
      if e.Identified() {
        IdentityIsKept(RoleAfter(init), e);
        ChangesStep(Ids(init, role), e.TrackerId());
      } else {
        OtherwiseKept(RoleAfter(init), e);
      }
    }
  }

  /** What one role's messages add to the swaps of the session. */
  function SwapsOf(trace: seq<Event>, role: Role): nat {
    Improper(OfRole(trace, role), role) + Changes(Ids(OfRole(trace, role), role))
  }

  lemma RoleSwaps(trace: seq<Event>, role: Role)
    ensures RoleAfter(OfRole(trace, role)).swaps == SwapsOf(trace, role)
    ensures RoleAfter(OfRole(trace, role)).metrics.trackerId == FirstOf(Ids(OfRole(trace, role), role))
  {
    OfRoleIsOnTopic(trace, role);
    IdsAreReported(OfRole(trace, role), role);
  }

  /** Over every trace the swaps reported are the improper messages and the changes of id, role by role. */
  lemma SwapsTell(trace: seq<Event>)
    ensures After(trace).swaps == SwapsOf(trace, LeftWrist) + SwapsOf(trace, RightWrist) + SwapsOf(trace, Torso)
  {
    SessionSplits(trace);
    RoleSwaps(trace, LeftWrist);
    RoleSwaps(trace, RightWrist);
    RoleSwaps(trace, Torso);
  }

  /** Whether a role's id is one an earlier role has. */
  function Again(id: string, earlier: seq<string>): nat {
    if id != "" && id in earlier then 1 else 0
  }

  lemma SetGrows(ids: seq<string>, id: string)
    ensures |set x | x in ids + [id]| == |set x | x in ids| + if id in ids then 0 else 1
  {
    var before := set x | x in ids;
    assert (set x | x in ids + [id]) == before + {id};
  }

  lemma CollisionsOf(s: SessionState)
    ensures var a, b, c := s.left.trackerId, s.right.trackerId, s.torso.trackerId;
            Collisions(s) == Again(b, [a]) + Again(c, [a, b])
  {
    var a, b, c := s.left.trackerId, s.right.trackerId, s.torso.trackerId;
    var one := if a == "" then [] else [a];
    var two := if b == "" then one else one + [b];
    assert Identities(s) == if c == "" then two else two + [c];
    assert (set x: string | x in []) == {};
    SetGrows([], a);
    assert [] + [a] == [a];
    SetGrows(one, b);
    SetGrows(two, c);
  }

  /** Over every trace the collisions reported are the roles whose first id an earlier role came under first. */
  lemma CollisionsTell(trace: seq<Event>)
    ensures var left, right := FirstOf(Ids(OfRole(trace, LeftWrist), LeftWrist)),
                               FirstOf(Ids(OfRole(trace, RightWrist), RightWrist));
            var torso := FirstOf(Ids(OfRole(trace, Torso), Torso));
            Collisions(After(trace)) == Again(right, [left]) + Again(torso, [left, right])
  {
    SessionSplits(trace);
    RoleSwaps(trace, LeftWrist);
    RoleSwaps(trace, RightWrist);
    RoleSwaps(trace, Torso);
    CollisionsOf(After(trace));
  }

  /** How many messages of each kind the counters hold. */
  ghost predicate CountsAre(m: Metrics, es: seq<Event>) {
    && m.samples == |Samples(es)| && m.validPoses == |ValidPoses(Samples(es))|
    && m.poseMessages == |PoseHeaders(es)| && m.statuses == |Statuses(es)|
    && Matched(m) == |ExpectedStamps(es) * ObservedStamps(es)|
  }

  /** What of the messages the other counters hold. */
  ghost predicate FiguresAre(m: Metrics, es: seq<Event>, role: Role) {
    && m.trackerId == FirstOf(Ids(es, role)) && m.dropped == LargestDropped(Statuses(es))
    && m.nonmonotonic == Disordered(Samples(es)) && m.mismatches == Mismatched(Samples(es))
    && m.maxGap == LargestGap(ValidPoses(Samples(es)))
  }

  lemma CountsTell(es: seq<Event>)
    ensures CountsAre(RoleAfter(es).metrics, es)
  {
    CountsAreExact(es);
    StampSetsAreExact(es);
    OthersAgree(es);
  }

  lemma FiguresTell(es: seq<Event>, role: Role)
    requires OnTopic(es, role)
    ensures FiguresAre(RoleAfter(es).metrics, es, role)
  {
    CountersAgree(es);
    OthersAgree(es);
    LargestGapAgrees(es);
    IdsAreReported(es, role);
  }

  lemma RoleTells(trace: seq<Event>, role: Role)
    ensures CountsAre(After(trace).Of(role), OfRole(trace, role))
    ensures FiguresAre(After(trace).Of(role), OfRole(trace, role), role)
  {
    SessionSplits(trace);
    OfRoleIsOnTopic(trace, role);
    CountsTell(OfRole(trace, role));
    FiguresTell(OfRole(trace, role), role);
  }

  /** The report puts each counter where its name says. */
  lemma CountersAreReported(limits: Limits, m: Metrics, valid: nat, matched: nat, samples: nat, gap: nat)
    requires limits.Valid()
    requires valid == m.validPoses && matched == Matched(m) && samples == m.samples && gap == m.maxGap
    ensures RoleReportOf(limits, m)
            == RoleReport(m.trackerId, samples, valid, m.poseMessages, matched, m.statuses,
                          Rounded(valid as real / limits.duration), Rounded(matched as real / limits.duration),
                          Rounded(Share(valid, samples)), Rounded(gap as real / 1_000_000.0),
                          m.dropped, m.nonmonotonic, m.mismatches)
  {
    assert Ratio(m) == Share(valid, samples);
  }

  /** The report of one role's messages. */
  ghost function Told(limits: Limits, es: seq<Event>, role: Role): RoleReport
    requires limits.Valid()
  {
    var samples, statuses := Samples(es), Statuses(es);
    var valid, matched := |ValidPoses(samples)|, |ExpectedStamps(es) * ObservedStamps(es)|;
    RoleReport(FirstOf(Ids(es, role)), |samples|, valid, |PoseHeaders(es)|, matched, |statuses|,
               Rounded(valid as real / limits.duration), Rounded(matched as real / limits.duration),
               Rounded(Share(valid, |samples|)), Rounded(LargestGap(ValidPoses(samples)) as real / 1_000_000.0),
               LargestDropped(statuses), Disordered(samples), Mismatched(samples))
  }

  lemma ToldByCounters(limits: Limits, m: Metrics, es: seq<Event>, role: Role)
    requires limits.Valid() && CountsAre(m, es) && FiguresAre(m, es, role)
    ensures RoleReportOf(limits, m) == Told(limits, es, role)
  {
    CountersAreReported(limits, m, |ValidPoses(Samples(es))|, |ExpectedStamps(es) * ObservedStamps(es)|,
                        |Samples(es)|, LargestGap(ValidPoses(Samples(es))));
  }

  /**
   Over every trace, each figure of a role's report is the one its name says, of that role's messages
   alone; rates are per second and the ratio and rates are rounded to millionths.
   */
  lemma ReportTells(limits: Limits, trace: seq<Event>, role: Role)
    requires limits.Valid()
    ensures RoleReportOf(limits, After(trace).Of(role)) == Told(limits, OfRole(trace, role), role)
  {
    RoleTells(trace, role);
    ToldByCounters(limits, After(trace).Of(role), OfRole(trace, role), role);
  }
}
