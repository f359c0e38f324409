/**
 What the events of the aggregator say
 (ros2_ws/src/vt_realsense_capture/src/camera_frame_aggregator.cpp, lines 33-87, 126-145 and 202-252):
 the whole of every verdict and late report, in terms of what its stamp absorbed and what has closed.
 */
module AggregationVerdicts {
  import opened Prelude
  import opened Aggregation
  import opened CameraFrameAggregator
  import opened AggregationRuns

  /** The earlier host clock pair, the colour frame's if both came at once. */
  function Earlier(color: Observation, depth: Observation): Observation {
    if depth.hostMonotonic < color.hostMonotonic then depth else color
  }

  /** The timing of a group made of the two absorbed frames. */
  predicate TimesThePair(t: Timing, stamp: int, color: Observation, depth: Observation) {
    && t.stamp == stamp && t.color == color && t.depth == depth
    && t.groupMonotonic == Earlier(color, depth).hostMonotonic
    && t.groupRealtime == Earlier(color, depth).hostRealtime
    && (t.groupMonotonic + t.callbackSpread == color.hostMonotonic >= depth.hostMonotonic
        || t.groupMonotonic + t.callbackSpread == depth.hostMonotonic >= color.hostMonotonic)
  }

  /** Exactly which flags an observation must carry. */
  lemma RequiredFlags(o: Observation)
    ensures o.HasRequiredValidity()
            <==> o.validityFlags & 1 == 1 && o.validityFlags & 2 == 2 && o.validityFlags & 16 == 16
                 && o.validityFlags & 32 == 32 && o.validityFlags & 64 == 64
  {
    RequiredBits(o.validityFlags);
  }

  lemma RequiredBits(flags: bv32)
    ensures flags & REQUIRED_VALIDITY == REQUIRED_VALIDITY
            <==> flags & 1 == 1 && flags & 2 == 2 && flags & 16 == 16 && flags & 32 == 32 && flags & 64 == 64
  {
  }

  /** A complete group names the one colour and the one depth frame absorbed, whatever their order. */
  lemma GroupIsThePair(stamp: int, observations: seq<Observation>, color: Observation, depth: Observation)
    requires color in observations && color.stream == Color
    requires depth in observations && depth.stream == Depth
    requires Verdict(stamp, AbsorbAll(observations)).kind == Complete
    ensures Verdict(stamp, AbsorbAll(observations)).timing.Some?
    ensures TimesThePair(Verdict(stamp, AbsorbAll(observations)).timing.value, stamp, color, depth)
  {
    AbsorbAllShape(observations, Color);
    AbsorbAllShape(observations, Depth);
    var key := AbsorbAll(observations);
    if key.color.value != color {
      CountMembers(observations, color, key.color.value);
    }
    if key.depth.value != depth {
      CountMembers(observations, depth, key.depth.value);
    }
  }

  /** Stamp, timing and detail of a verdict. */
  lemma VerdictTells(stamp: int, observations: seq<Observation>)
    requires observations != []
    ensures var v := Verdict(stamp, AbsorbAll(observations));
            && v.stamp == stamp
            && (v.timing.Some? <==> v.kind == Complete)
            && v.detail == match v.kind
                           case Complete => ExactPair
                           case Incomplete => if CountOf(observations, Color) > 0 then MissingDepth else MissingColor
                           case Duplicate => SameStreamTwice
                           case Invalid => MissingValidity
                           case DomainMismatch => DomainsDiffer
  {
    AbsorbAllShape(observations, Color);
  }

  /** Every verdict of a run says this of everything its stamp absorbed. */
  lemma VerdictsTell(c: Config, ops: seq<Op>, i: nat)
    requires i < |Closings(c, ops)|
    ensures var v := Closings(c, ops)[i];
            var own := Of(Absorbed(c, ops), v.stamp);
            && own != [] && v == Verdict(v.stamp, AbsorbAll(own))
            && (v.timing.Some? <==> v.kind == Complete)
            && (forall color, depth :: v.kind == Complete && color in own && depth in own
                                       && color.stream == Color && depth.stream == Depth ==>
                                         TimesThePair(v.timing.value, v.stamp, color, depth))
  {
    VerdictsJudgeAllAbsorbed(c, ops, i);
    var v := Closings(c, ops)[i];
    var own := Of(Absorbed(c, ops), v.stamp);
    VerdictTells(v.stamp, own);
    forall color, depth | v.kind == Complete && color in own && depth in own
                          && color.stream == Color && depth.stream == Depth
      ensures TimesThePair(v.timing.value, v.stamp, color, depth)
    {
      GroupIsThePair(v.stamp, own, color, depth);
    }
  }

  /** How many closed stamps are remembered one by one: one more than may stay open, but at least 64. */
  function Remembered(c: Config): nat {
    if c.maxNewer == U64_LIMIT - 1 || c.maxNewer < 63 then 64 else c.maxNewer + 1
  }

  /** The stamp is that of one of the last verdicts. */
  ghost predicate ClosedLately(c: Config, ops: seq<Op>, stamp: int) {
    exists i :: 0 <= i < |Closings(c, ops)| && i >= |Closings(c, ops)| - Remembered(c)
                && Closings(c, ops)[i].stamp == stamp
  }

  lemma LateStepTells(c: Config, s: AggState, op: Op)
    requires Step(c, s, op).late.Some?
    ensures op.Push?
    ensures Step(c, s, op).late.value
            == Event(Duplicate, op.o.StampNs(), None,
                     if op.o.StampNs() in LastN(Step(c, s, op).state.closed, Remembered(c)) then AfterFinalization
                     else BehindWatermark)
  {
    assert c.HistoryCapacity() == Remembered(c);
  }

  lemma ClosedAreJudged(c: Config, ops: seq<Op>)
    ensures |Closings(c, ops)| == |After(c, ops).closed|
    ensures forall i :: 0 <= i < |Closings(c, ops)| ==> Closings(c, ops)[i].stamp == After(c, ops).closed[i]
  {
    RunAccounts(c, ops);
    forall i | 0 <= i < |Closings(c, ops)| ensures Closings(c, ops)[i].stamp == After(c, ops).closed[i] {
      VerdictsJudgeAllAbsorbed(c, ops, i);
    }
  }

  lemma LatelyIsRemembered(c: Config, ops: seq<Op>, stamp: int)
    ensures ClosedLately(c, ops, stamp) <==> stamp in LastN(After(c, ops).closed, Remembered(c))
  {
    ClosedAreJudged(c, ops);
    LatelyIff(After(c, ops).closed, Closings(c, ops), stamp, Remembered(c));
  }

  /** A late report is a duplicate of its stamp, and says whether that stamp is one of the last to close. */
  lemma LateReportTells(c: Config, ops: seq<Op>)
    requires ops != [] && LastStep(c, ops).late.Some?
    ensures ops[|ops| - 1].Push?
    ensures var stamp := ops[|ops| - 1].o.StampNs();
            LastStep(c, ops).late.value
            == Event(Duplicate, stamp, None,
                     if ClosedLately(c, ops, stamp) then AfterFinalization else BehindWatermark)
  {
    LateStepTells(c, After(c, ops[..|ops| - 1]), ops[|ops| - 1]);
    LatelyIsRemembered(c, ops, ops[|ops| - 1].o.StampNs());
  }

  lemma LatelyIff(closed: seq<int>, closings: seq<Event>, stamp: int, n: nat)
    requires |closed| == |closings| && forall i :: 0 <= i < |closed| ==> closings[i].stamp == closed[i]
    ensures stamp in LastN(closed, n)
            <==> exists i :: 0 <= i < |closings| && i >= |closings| - n && closings[i].stamp == stamp
  {
    var last := LastN(closed, n);
    var from := |closed| - |last|;
    forall i | 0 <= i < |closings| && i >= |closings| - n && closings[i].stamp == stamp ensures stamp in last {
      assert last[i - from] == stamp;
    }
    if stamp in last {
      var j :| 0 <= j < |last| && last[j] == stamp;
      assert closings[from + j].stamp == stamp;
    }
  }
}
