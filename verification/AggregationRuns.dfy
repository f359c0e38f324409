/**
 What the aggregator guarantees over every run of pushes and flushes, with arbitrary
 (even decreasing) host times
 (ros2_ws/src/vt_realsense_capture/src/camera_frame_aggregator.cpp, lines 126-273).
 */
module AggregationRuns {
  import opened Prelude
  import opened Aggregation
  import opened CameraFrameAggregator

  // ----- A run and what it leaves behind -----

  function After(c: Config, ops: seq<Op>): AggState {
    if ops == [] then INITIAL
    else Step(c, After(c, ops[..|ops| - 1]), ops[|ops| - 1]).state
  }

  function LastStep(c: Config, ops: seq<Op>): StepResult
    requires ops != []
  {
    Step(c, After(c, ops[..|ops| - 1]), ops[|ops| - 1])
  }

  /** All verdicts of the run, in order. */
  function Closings(c: Config, ops: seq<Op>): seq<Event> {
    if ops == [] then []
    else Closings(c, ops[..|ops| - 1]) + LastStep(c, ops).closings
  }

  /** Everything the run handed to its caller, in order. */
  function Emissions(c: Config, ops: seq<Op>): seq<Event> {
    if ops == [] then []
    else Emissions(c, ops[..|ops| - 1]) + LastStep(c, ops).Emitted()
  }

  /** The observations a run pushed. */
  function Pushed(ops: seq<Op>): seq<Observation> {
    if ops == [] then []
    else Pushed(ops[..|ops| - 1]) + if ops[|ops| - 1].Push? then [ops[|ops| - 1].o] else []
  }

  /** Those of them that were filed under a key. */
  function Absorbed(c: Config, ops: seq<Op>): seq<Observation> {
    if ops == [] then []
    else
      var op := ops[|ops| - 1];
      Absorbed(c, ops[..|ops| - 1]) + if op.Push? && LastStep(c, ops).late.None? then [op.o] else []
  }

  /** Those of them that were refused as late. */
  function Refused(c: Config, ops: seq<Op>): seq<Observation> {
    if ops == [] then []
    else
      var op := ops[|ops| - 1];
      Refused(c, ops[..|ops| - 1]) + if op.Push? && LastStep(c, ops).late.Some? then [op.o] else []
  }

  /** The observations of one stamp, in order. */
  function Of(observations: seq<Observation>, stamp: int): seq<Observation> {
    if observations == [] then []
    else
      var o := observations[|observations| - 1];
      Of(observations[..|observations| - 1], stamp) + if o.StampNs() == stamp then [o] else []
  }

  lemma OfAppend(observations: seq<Observation>, o: Observation, stamp: int)
    ensures Of(observations + [o], stamp)
            == if o.StampNs() == stamp then Of(observations, stamp) + [o] else Of(observations, stamp)
  {
    assert (observations + [o])[..|observations|] == observations;
  }

  /** The key that results from filing a whole sequence of observations. */
  function AbsorbAll(observations: seq<Observation>): PendingKey
    requires observations != []
  {
    var n := |observations| - 1;
    var o := observations[n];
    if n == 0 then Absorb(NewKey(o.hostMonotonic), o) else Absorb(AbsorbAll(observations[..n]), o)
  }

  // ----- The invariant: state and verdicts account for every absorbed observation -----

  ghost predicate KeyAccounted(e: Entry, absorbed: seq<Observation>) {
    var own := Of(absorbed, e.stamp);
    own != [] && e.key == AbsorbAll(own)
  }

  ghost predicate VerdictAccounted(stamp: int, event: Event, absorbed: seq<Observation>) {
    var own := Of(absorbed, stamp);
    own != [] && event == Verdict(stamp, AbsorbAll(own))
  }

  ghost predicate KeysAccounted(pending: seq<Entry>, absorbed: seq<Observation>) {
    forall i :: 0 <= i < |pending| ==> KeyAccounted(pending[i], absorbed)
  }

  ghost predicate VerdictsAccounted(closed: seq<int>, closings: seq<Event>, absorbed: seq<Observation>) {
    |closings| == |closed| && forall i :: 0 <= i < |closed| ==> VerdictAccounted(closed[i], closings[i], absorbed)
  }

  ghost predicate NothingLost(s: AggState, absorbed: seq<Observation>) {
    forall stamp :: Of(absorbed, stamp) != [] ==> s.IsPending(stamp) || stamp in s.closed
  }

  ghost predicate Accounted(s: AggState, closings: seq<Event>, absorbed: seq<Observation>) {
    && s.Good()
    && KeysAccounted(s.pending, absorbed)
    && VerdictsAccounted(s.closed, closings, absorbed)
    && NothingLost(s, absorbed)
  }

  /** Closing keys turns what they absorbed into verdicts. */
  lemma CloseAccounts(s: AggState, k: nat, closings: seq<Event>, absorbed: seq<Observation>)
    requires Accounted(s, closings, absorbed) && k <= |s.pending|
    ensures Accounted(Closed(s, k), closings + Verdicts(s.pending[..k]), absorbed)
  {
    ClosedIsGood(s, k);
    var s', closings' := Closed(s, k), closings + Verdicts(s.pending[..k]);
    forall i | 0 <= i < |s'.pending| ensures KeyAccounted(s'.pending[i], absorbed) {
      assert KeyAccounted(s.pending[k + i], absorbed);
    }
    forall i | 0 <= i < |s'.closed| ensures VerdictAccounted(s'.closed[i], closings'[i], absorbed) {
      if i < |s.closed| {
        assert VerdictAccounted(s.closed[i], closings[i], absorbed);
      } else {
        var e := s.pending[i - |s.closed|];
        assert s'.closed[i] == e.stamp && closings'[i] == Verdict(e.stamp, e.key);
        assert KeyAccounted(e, absorbed);
      }
    }
    CloseLosesNothing(s, k, absorbed);
  }

  lemma CloseLosesNothing(s: AggState, k: nat, absorbed: seq<Observation>)
    requires NothingLost(s, absorbed) && k <= |s.pending|
    ensures NothingLost(Closed(s, k), absorbed)
  {
    var s' := Closed(s, k);
    forall stamp | Of(absorbed, stamp) != [] ensures s'.IsPending(stamp) || stamp in s'.closed {
      if stamp in s.closed {
        var i :| 0 <= i < |s.closed| && s.closed[i] == stamp;
        assert s'.closed[i] == stamp;
      } else {
        var i :| 0 <= i < |s.pending| && s.pending[i].stamp == stamp;
        if i < k {
          assert s'.closed[|s.closed| + i] == stamp;
        } else {
          assert s'.pending[i - k].stamp == stamp;
        }
      }
    }
  }

  lemma FlushAccounts(c: Config, s: AggState, closings: seq<Event>, absorbed: seq<Observation>, now: uint64)
    requires Accounted(s, closings, absorbed)
    ensures var r := FlushStep(c, s, now);
            Accounted(r.state, closings + r.closings, absorbed) && |r.state.pending| <= c.maxNewer
  {
    var k := ClosureCount(c, s.pending, now, |s.pending|);
    CloseAccounts(s, k, closings, absorbed);
    if k < |s.pending| {
      assert !Ready(c, s.pending, k, now);
    }
  }

  lemma ClosedBehind(s: AggState, stamp: int)
    requires s.Good() && stamp in s.closed
    ensures s.BehindClosed(stamp) && !s.IsPending(stamp)
  {
    var i :| 0 <= i < |s.closed| && s.closed[i] == stamp;
    assert s.closed[i] <= s.closed[|s.closed| - 1];
  }

  /** The key an observation is filed under grows by exactly that observation. */
  lemma FiledKeyAccounts(s: AggState, absorbed: seq<Observation>, o: Observation)
    requires s.Good() && KeysAccounted(s.pending, absorbed) && NothingLost(s, absorbed)
    requires !s.IsLate(o.StampNs())
    ensures var p := Position(s.pending, o.StampNs());
            && p < |File(s.pending, o)|
            && File(s.pending, o)[p].stamp == o.StampNs()
            && KeyAccounted(File(s.pending, o)[p], absorbed + [o])
    ensures o.StampNs() !in s.closed
  {
    var stamp := o.StampNs();
    var p := Position(s.pending, stamp);
    PositionFinds(s, stamp);
    OfAppend(absorbed, o, stamp);
    var own := Of(absorbed, stamp) + [o];
    assert own[..|own| - 1] == Of(absorbed, stamp);
    if stamp in s.closed {
      ClosedBehind(s, stamp);
      assert false;
    }
    if s.IsPending(stamp) {
      assert KeyAccounted(s.pending[p], absorbed);
    } else {
      assert Of(absorbed, stamp) == [];
    }
  }

  /** Where the other entries end up when one is filed. */
  lemma FiledElsewhere(pending: seq<Entry>, o: Observation)
    ensures var p := Position(pending, o.StampNs());
            forall i :: 0 <= i < |File(pending, o)| && i != p ==> File(pending, o)[i] in pending
    ensures forall j :: 0 <= j < |pending| && pending[j].stamp != o.StampNs() ==> pending[j] in File(pending, o)
  {
    var p := Position(pending, o.StampNs());
    var filed := File(pending, o);
    var found := p < |pending| && pending[p].stamp == o.StampNs();
    forall i | 0 <= i < |filed| && i != p ensures filed[i] in pending {
      assert filed[i] == pending[if found || i < p then i else i - 1];
    }
    forall j | 0 <= j < |pending| && pending[j].stamp != o.StampNs() ensures pending[j] in filed {
      assert filed[if found || j < p then j else j + 1] == pending[j];
    }
  }

  lemma FileAccountsKeys(s: AggState, absorbed: seq<Observation>, o: Observation)
    requires s.Good() && KeysAccounted(s.pending, absorbed) && NothingLost(s, absorbed)
    requires !s.IsLate(o.StampNs())
    ensures KeysAccounted(File(s.pending, o), absorbed + [o])
  {
    var p := Position(s.pending, o.StampNs());
    var filed := File(s.pending, o);
    FileKeepsGood(s, o);
    FiledKeyAccounts(s, absorbed, o);
    FiledElsewhere(s.pending, o);
    forall i | 0 <= i < |filed| ensures KeyAccounted(filed[i], absorbed + [o]) {
      if i != p {
        var j :| 0 <= j < |s.pending| && s.pending[j] == filed[i];
        OtherKeyAccounts(s.pending[j], absorbed, o);
      }
    }
  }

  lemma OtherKeyAccounts(e: Entry, absorbed: seq<Observation>, o: Observation)
    requires KeyAccounted(e, absorbed) && e.stamp != o.StampNs()
    ensures KeyAccounted(e, absorbed + [o])
  {
    OfAppend(absorbed, o, e.stamp);
  }

  lemma OldVerdictsAccount(closed: seq<int>, closings: seq<Event>, absorbed: seq<Observation>, o: Observation)
    requires VerdictsAccounted(closed, closings, absorbed) && o.StampNs() !in closed
    ensures VerdictsAccounted(closed, closings, absorbed + [o])
  {
    forall i | 0 <= i < |closed| ensures VerdictAccounted(closed[i], closings[i], absorbed + [o]) {
      assert VerdictAccounted(closed[i], closings[i], absorbed);
      OfAppend(absorbed, o, closed[i]);
    }
  }

  lemma FileAccounts(s: AggState, closings: seq<Event>, absorbed: seq<Observation>, o: Observation)
    requires Accounted(s, closings, absorbed) && !s.IsLate(o.StampNs())
    ensures Accounted(AggState(File(s.pending, o), s.closed), closings, absorbed + [o])
  {
    FileKeepsGood(s, o);
    FiledKeyAccounts(s, absorbed, o);
    FileAccountsKeys(s, absorbed, o);
    OldVerdictsAccount(s.closed, closings, absorbed, o);
    FileLosesNothing(s, absorbed, o);
  }

  lemma FileLosesNothing(s: AggState, absorbed: seq<Observation>, o: Observation)
    requires s.Good() && KeysAccounted(s.pending, absorbed) && NothingLost(s, absorbed)
    requires !s.IsLate(o.StampNs())
    ensures NothingLost(AggState(File(s.pending, o), s.closed), absorbed + [o])
  {
    var s' := AggState(File(s.pending, o), s.closed);
    FiledKeyAccounts(s, absorbed, o);
    FiledElsewhere(s.pending, o);
    forall t | Of(absorbed + [o], t) != [] ensures s'.IsPending(t) || t in s'.closed {
      OfAppend(absorbed, o, t);
      if t != o.StampNs() && t !in s.closed {
        var j :| 0 <= j < |s.pending| && s.pending[j].stamp == t;
        assert s.pending[j] in s'.pending;
      }
    }
  }

  /** The run invariant holds after every run. */
  lemma {:induction false} RunAccounts(c: Config, ops: seq<Op>)
    ensures Accounted(After(c, ops), Closings(c, ops), Absorbed(c, ops))
    ensures |After(c, ops).pending| <= c.maxNewer
  {
    if ops != [] {
      var before, op := ops[..|ops| - 1], ops[|ops| - 1];
      RunAccounts(c, before);
      StepAccounts(c, After(c, before), Closings(c, before), Absorbed(c, before), op);
    }
  }

  lemma StepAccounts(c: Config, s: AggState, closings: seq<Event>, absorbed: seq<Observation>, op: Op)
    requires Accounted(s, closings, absorbed)
    ensures var r := Step(c, s, op);
            && Accounted(r.state, closings + r.closings, absorbed + if op.Push? && r.late.None? then [op.o] else [])
            && |r.state.pending| <= c.maxNewer
  {
    assert absorbed + [] == absorbed;
    match op
    case Flush(now) => FlushAccounts(c, s, closings, absorbed, now);
    case Push(o) =>
      if s.IsLate(o.StampNs()) {
        FlushAccounts(c, s, closings, absorbed, o.hostMonotonic);
      } else {
        FileAccounts(s, closings, absorbed, o);
        FlushAccounts(c, AggState(File(s.pending, o), s.closed), closings, absorbed + [o], o.hostMonotonic);
      }
  }

  // ----- Consequences -----

  /** The `i`-th verdict concerns the `i`-th closed stamp and judges all that stamp absorbed. */
  lemma VerdictsJudgeAllAbsorbed(c: Config, ops: seq<Op>, i: nat)
    requires i < |Closings(c, ops)|
    ensures i < |After(c, ops).closed|
    ensures var stamp := After(c, ops).closed[i];
            && Of(Absorbed(c, ops), stamp) != []
            && Closings(c, ops)[i].stamp == stamp
            && Closings(c, ops)[i] == Verdict(stamp, AbsorbAll(Of(Absorbed(c, ops), stamp)))
  {
    RunAccounts(c, ops);
    assert VerdictAccounted(After(c, ops).closed[i], Closings(c, ops)[i], Absorbed(c, ops));
    VerdictKeepsStamp(After(c, ops).closed[i], AbsorbAll(Of(Absorbed(c, ops), After(c, ops).closed[i])));
  }

  lemma VerdictKeepsStamp(stamp: int, key: PendingKey)
    ensures Verdict(stamp, key).stamp == stamp
  {
  }

  /** Verdicts come out in strictly increasing stamp order: no stamp is ever closed twice. */
  lemma ClosingsStrictlyIncrease(c: Config, ops: seq<Op>)
    ensures forall i, j :: 0 <= i < j < |Closings(c, ops)| ==> Closings(c, ops)[i].stamp < Closings(c, ops)[j].stamp
  {
    RunAccounts(c, ops);
    forall i | 0 <= i < |Closings(c, ops)| ensures Closings(c, ops)[i].stamp == After(c, ops).closed[i] {
      VerdictsJudgeAllAbsorbed(c, ops, i);
    }
  }

  /** No more than `max_newer_stamps` keys stay open after any call. */
  lemma PendingStaysBounded(c: Config, ops: seq<Op>)
    ensures |After(c, ops).pending| <= c.maxNewer
  {
    RunAccounts(c, ops);
  }

  /**
   Conservation: every pushed observation is absorbed or refused, never both; an absorbed one
   belongs to a key that is either open or closed, never both.
   */
  lemma Conservation(c: Config, ops: seq<Op>, stamp: int)
    ensures multiset(Pushed(ops)) == multiset(Absorbed(c, ops)) + multiset(Refused(c, ops))
    ensures Of(Absorbed(c, ops), stamp) != [] <==> After(c, ops).IsPending(stamp) || stamp in After(c, ops).closed
    ensures !(After(c, ops).IsPending(stamp) && stamp in After(c, ops).closed)
  {
    SplitPushed(c, ops);
    RunAccounts(c, ops);
    var s := After(c, ops);
    if stamp in s.closed {
      var i :| 0 <= i < |s.closed| && s.closed[i] == stamp;
      assert VerdictAccounted(s.closed[i], Closings(c, ops)[i], Absorbed(c, ops));
      ClosedBehind(s, stamp);
    }
    if s.IsPending(stamp) {
      var i :| 0 <= i < |s.pending| && s.pending[i].stamp == stamp;
      assert KeyAccounted(s.pending[i], Absorbed(c, ops));
    }
  }

  lemma {:induction false} SplitPushed(c: Config, ops: seq<Op>)
    ensures multiset(Pushed(ops)) == multiset(Absorbed(c, ops)) + multiset(Refused(c, ops))
  {
    if ops != [] {
      SplitPushed(c, ops[..|ops| - 1]);
    }
  }

  /** Which emitted events to look at. */
  datatype Choice = Groups | Judgements | LateReports(stamp: int) {
    predicate Takes(e: Event) {
      var late := e.detail == AfterFinalization || e.detail == BehindWatermark;
      match this
      case Groups => e.kind == Complete
      case Judgements => !late
      case LateReports(stamp) => late && e.stamp == stamp
    }
  }

  function Select(events: seq<Event>, keep: Choice): seq<Event> {
    if events == [] then []
    else Select(events[..|events| - 1], keep) + if keep.Takes(events[|events| - 1]) then [events[|events| - 1]] else []
  }

  lemma {:induction false} SelectConcat(a: seq<Event>, b: seq<Event>, keep: Choice)
    ensures Select(a + b, keep) == Select(a, keep) + Select(b, keep)
  {
    if b == [] {
      assert a + b == a;
    } else {
      var n := |b| - 1;
      SelectConcat(a, b[..n], keep);
      assert (a + b)[..|a + b| - 1] == a + b[..n];
    }
  }

  lemma SelectOne(e: Event, keep: Choice)
    ensures Select([e], keep) == if keep.Takes(e) then [e] else []
  {
    assert Select([e][..0], keep) == [];
  }

  lemma {:induction false} SelectAll(events: seq<Event>, keep: Choice)
    ensures (forall i :: 0 <= i < |events| ==> keep.Takes(events[i])) ==> Select(events, keep) == events
    ensures (forall i :: 0 <= i < |events| ==> !keep.Takes(events[i])) ==> Select(events, keep) == []
  {
    if events != [] {
      var n := |events| - 1;
      SelectAll(events[..n], keep);
      assert events == events[..n] + [events[n]];
    }
  }

  lemma VerdictsAreJudgements(entries: seq<Entry>)
    ensures forall i :: 0 <= i < |entries| ==> Judgements.Takes(Verdicts(entries)[i])
  {
  }

  lemma StepShape(c: Config, s: AggState, op: Op)
    ensures var r := Step(c, s, op);
            && (forall i :: 0 <= i < |r.closings| ==> Judgements.Takes(r.closings[i]))
            && (r.late.Some? ==> op.Push? && r.late.value.kind == Duplicate
                                 && LateReports(op.o.StampNs()).Takes(r.late.value))
  {
    match op
    case Flush(now) => VerdictsAreJudgements(s.pending[..ClosureCount(c, s.pending, now, |s.pending|)]);
    case Push(o) =>
      var filed := if s.IsLate(o.StampNs()) then s.pending else File(s.pending, o);
      VerdictsAreJudgements(filed[..ClosureCount(c, filed, o.hostMonotonic, |filed|)]);
  }

  /** Of what a step emits, a choice takes its share of the verdicts, after the late report if it takes that. */
  lemma EmittedSelects(r: StepResult, keep: Choice)
    ensures Select(r.Emitted(), keep)
            == if r.late.Some? && keep.Takes(r.late.value) then [r.late.value] + Select(r.closings, keep)
               else Select(r.closings, keep)
  {
    if r.late.Some? {
      SelectConcat([r.late.value], r.closings, keep);
      SelectOne(r.late.value, keep);
    } else {
      assert r.Emitted() == r.closings;
    }
  }

  /** Apart from late reports, a run emits exactly its verdicts. */
  lemma {:induction false} EmissionsAreVerdicts(c: Config, ops: seq<Op>)
    ensures Select(Emissions(c, ops), Judgements) == Closings(c, ops)
  {
    if ops != [] {
      var before := ops[..|ops| - 1];
      var r := LastStep(c, ops);
      EmissionsAreVerdicts(c, before);
      StepShape(c, After(c, before), ops[|ops| - 1]);
      SelectConcat(Emissions(c, before), r.Emitted(), Judgements);
      EmittedSelects(r, Judgements);
      SelectAll(r.closings, Judgements);
    }
  }

  /** Complete groups are found only among the verdicts. */
  lemma {:induction false} GroupsAreVerdicts(c: Config, ops: seq<Op>)
    ensures Select(Emissions(c, ops), Groups) == Select(Closings(c, ops), Groups)
  {
    if ops != [] {
      var before := ops[..|ops| - 1];
      var r := LastStep(c, ops);
      GroupsAreVerdicts(c, before);
      StepShape(c, After(c, before), ops[|ops| - 1]);
      SelectConcat(Emissions(c, before), r.Emitted(), Groups);
      SelectConcat(Closings(c, before), r.closings, Groups);
      EmittedSelects(r, Groups);
    }
  }

  /** Each late observation is answered by exactly one Duplicate report of its stamp. */
  lemma {:induction false} LateObservationsAreReported(c: Config, ops: seq<Op>, stamp: int)
    ensures var reports := Select(Emissions(c, ops), LateReports(stamp));
            && |reports| == |Of(Refused(c, ops), stamp)|
            && forall i :: 0 <= i < |reports| ==> reports[i].kind == Duplicate
  {
    if ops != [] {
      var before, op := ops[..|ops| - 1], ops[|ops| - 1];
      var r := LastStep(c, ops);
      LateObservationsAreReported(c, before, stamp);
      StepShape(c, After(c, before), op);
      StepReports(r, op, Refused(c, before), Emissions(c, before), stamp);
    }
  }

  /** A step with no late report adds none; a late one adds exactly its own. */
  lemma StepReports(r: StepResult, op: Op, refused: seq<Observation>, emitted: seq<Event>, stamp: int)
    requires forall i :: 0 <= i < |r.closings| ==> Judgements.Takes(r.closings[i])
    requires r.late.Some? ==> op.Push? && LateReports(op.o.StampNs()).Takes(r.late.value)
    ensures var reports := Select(emitted, LateReports(stamp));
            Select(emitted + r.Emitted(), LateReports(stamp))
            == if r.late.Some? && op.o.StampNs() == stamp then reports + [r.late.value] else reports
    ensures var refused' := refused + if op.Push? && r.late.Some? then [op.o] else [];
            |Of(refused', stamp)| == |Of(refused, stamp)| + if r.late.Some? && op.o.StampNs() == stamp then 1 else 0
  {
    SelectConcat(emitted, r.Emitted(), LateReports(stamp));
    EmittedSelects(r, LateReports(stamp));
    SelectAll(r.closings, LateReports(stamp));
    if r.late.Some? {
      OfAppend(refused, op.o, stamp);
    } else {
      assert refused + [] == refused;
    }
  }

  /** A Complete group is emitted at most once per stamp, in increasing stamp order. */
  lemma CompleteAtMostOnce(c: Config, ops: seq<Op>)
    ensures var groups := Select(Emissions(c, ops), Groups);
            forall i, j :: 0 <= i < j < |groups| ==> groups[i].stamp < groups[j].stamp
  {
    GroupsAreVerdicts(c, ops);
    ClosingsStrictlyIncrease(c, ops);
    SelectKeepsIncreasing(Closings(c, ops), Groups);
  }

  lemma {:induction false} SelectMembers(events: seq<Event>, keep: Choice, e: Event)
    requires e in Select(events, keep)
    ensures e in events
  {
    var n := |events| - 1;
    if e in Select(events[..n], keep) {
      SelectMembers(events[..n], keep, e);
    }
  }

  lemma {:induction false} SelectKeepsIncreasing(events: seq<Event>, keep: Choice)
    requires forall i, j :: 0 <= i < j < |events| ==> events[i].stamp < events[j].stamp
    ensures var kept := Select(events, keep);
            forall i, j :: 0 <= i < j < |kept| ==> kept[i].stamp < kept[j].stamp
  {
    if events != [] {
      var n := |events| - 1;
      SelectKeepsIncreasing(events[..n], keep);
      var kept := Select(events[..n], keep);
      forall i | 0 <= i < |kept| ensures kept[i].stamp < events[n].stamp {
        SelectMembers(events[..n], keep, kept[i]);
      }
    }
  }

  // ----- Order independence of the verdict -----

  function CountOf(observations: seq<Observation>, stream: StreamKind): nat {
    if observations == [] then 0
    else CountOf(observations[..|observations| - 1], stream)
         + if observations[|observations| - 1].stream == stream then 1 else 0
  }

  function StreamOf(key: PendingKey, stream: StreamKind): Option<Observation> {
    if stream == Color then key.color else key.depth
  }

  /** What filing a sequence leaves in a key, without reference to the order. */
  lemma {:induction false} AbsorbAllShape(observations: seq<Observation>, stream: StreamKind)
    requires observations != []
    ensures var key := AbsorbAll(observations);
            && (StreamOf(key, stream).Some? <==> CountOf(observations, stream) > 0)
            && (StreamOf(key, stream).Some? ==>
                  StreamOf(key, stream).value in observations && StreamOf(key, stream).value.stream == stream)
            && (key.duplicate <==> CountOf(observations, Color) > 1 || CountOf(observations, Depth) > 1)
            && (!key.duplicate ==> (key.invalid <==> exists o :: o in observations && !o.HasRequiredValidity()))
  {
    var n := |observations| - 1;
    var last := observations[n];
    assert observations == observations[..n] + [last];
    if n > 0 {
      AbsorbAllShape(observations[..n], stream);
      AbsorbAllShape(observations[..n], last.stream);
    }
  }

  lemma {:induction false} CountMembers(observations: seq<Observation>, x: Observation, y: Observation)
    requires x in observations && y in observations && x.stream == y.stream && x != y
    ensures CountOf(observations, x.stream) > 1
  {
    var n := |observations| - 1;
    assert observations == observations[..n] + [observations[n]];
    if x in observations[..n] && y in observations[..n] {
      CountMembers(observations[..n], x, y);
    } else if x in observations[..n] {
      CountPositive(observations[..n], x);
    } else {
      CountPositive(observations[..n], y);
    }
  }

  lemma {:induction false} CountPositive(observations: seq<Observation>, x: Observation)
    requires x in observations
    ensures CountOf(observations, x.stream) > 0
  {
    var n := |observations| - 1;
    assert observations == observations[..n] + [observations[n]];
    if x in observations[..n] {
      CountPositive(observations[..n], x);
    }
  }

  lemma {:induction false} CountSplice(observations: seq<Observation>, i: nat, stream: StreamKind)
    requires i < |observations|
    ensures CountOf(observations, stream)
            == CountOf(observations[..i] + observations[i + 1..], stream)
               + if observations[i].stream == stream then 1 else 0
  {
    var n := |observations| - 1;
    var rest := observations[..i] + observations[i + 1..];
    if i < n {
      CountSplice(observations[..n], i, stream);
      assert rest[..|rest| - 1] == observations[..n][..i] + observations[..n][i + 1..];
      assert rest[|rest| - 1] == observations[n];
    } else {
      assert rest == observations[..n];
    }
  }

  lemma MultisetSplice(observations: seq<Observation>, i: nat)
    requires i < |observations|
    ensures multiset(observations) - multiset{observations[i]} == multiset(observations[..i] + observations[i + 1..])
  {
    assert observations == observations[..i] + [observations[i]] + observations[i + 1..];
  }

  lemma {:induction false} CountPermutes(a: seq<Observation>, b: seq<Observation>, stream: StreamKind)
    requires multiset(a) == multiset(b)
    ensures CountOf(a, stream) == CountOf(b, stream)
    decreases |a|
  {
    if a == [] {
      assert |multiset(b)| == 0;
    } else {
      var n := |a| - 1;
      assert a[n] in multiset(a);
      var i :| 0 <= i < |b| && b[i] == a[n];
      MultisetSplice(a, n);
      assert a[..n] + a[n + 1..] == a[..n];
      MultisetSplice(b, i);
      CountSplice(b, i, stream);
      CountPermutes(a[..n], b[..i] + b[i + 1..], stream);
    }
  }

  /** The verdict depends only on which observations were absorbed, not on their order. */
  lemma VerdictIsOrderIndependent(stamp: int, a: seq<Observation>, b: seq<Observation>)
    requires a != [] && b != [] && multiset(a) == multiset(b)
    ensures Verdict(stamp, AbsorbAll(a)) == Verdict(stamp, AbsorbAll(b))
  {
    SameStream(a, b, Color);
    SameStream(a, b, Depth);
    assert forall o :: o in a <==> o in multiset(a);
    assert forall o :: o in b <==> o in multiset(b);
  }

  lemma SameStream(a: seq<Observation>, b: seq<Observation>, stream: StreamKind)
    requires a != [] && b != [] && multiset(a) == multiset(b)
    ensures AbsorbAll(a).duplicate == AbsorbAll(b).duplicate
    ensures !AbsorbAll(a).duplicate ==>
              && StreamOf(AbsorbAll(a), stream) == StreamOf(AbsorbAll(b), stream)
              && AbsorbAll(a).invalid == AbsorbAll(b).invalid
  {
    AbsorbAllShape(a, stream);
    AbsorbAllShape(b, stream);
    CountPermutes(a, b, Color);
    CountPermutes(a, b, Depth);
    assert forall o :: o in a <==> o in multiset(a);
    assert forall o :: o in b <==> o in multiset(b);
    var x, y := StreamOf(AbsorbAll(a), stream), StreamOf(AbsorbAll(b), stream);
    if !AbsorbAll(a).duplicate && x.Some? && x != y {
      CountMembers(a, x.value, y.value);
    }
  }

  /** What each verdict means, read off the absorbed observations alone. */
  lemma VerdictMeaning(stamp: int, observations: seq<Observation>)
    requires observations != []
    ensures var kind := Verdict(stamp, AbsorbAll(observations)).kind;
            var colors, depths := CountOf(observations, Color), CountOf(observations, Depth);
            && (kind == Duplicate <==> colors > 1 || depths > 1)
            && (kind == Invalid <==> colors <= 1 && depths <= 1
                                     && exists o :: o in observations && !o.HasRequiredValidity())
            && (kind == Incomplete <==> (colors == 0 || depths == 0) && colors <= 1 && depths <= 1
                                        && forall o :: o in observations ==> o.HasRequiredValidity())
            && (kind == Complete <==>
                  && colors == depths == 1
                  && (forall o :: o in observations ==> o.HasRequiredValidity())
                  && (forall o, p :: o in observations && p in observations ==>
                                       o.clockDomain == p.clockDomain != Unknown))
  {
    AbsorbAllShape(observations, Color);
    AbsorbAllShape(observations, Depth);
    var key := AbsorbAll(observations);
    if Verdict(stamp, key).kind == Complete {
      forall o | o in observations ensures o == key.color.value || o == key.depth.value {
        if o.stream == Color && o != key.color.value {
          CountMembers(observations, o, key.color.value);
        } else if o.stream == Depth && o != key.depth.value {
          CountMembers(observations, o, key.depth.value);
        }
      }
    }
  }

  // ----- The shutdown flush -----

  /** A flush empties the aggregator exactly when its newest key is ready. */
  lemma FlushEmptiesIff(c: Config, s: AggState, now: uint64)
    ensures FlushStep(c, s, now).state.pending == []
            <==> s.pending == [] || Ready(c, s.pending, |s.pending| - 1, now)
  {
    var k := ClosureCount(c, s.pending, now, |s.pending|);
    assert |s.pending[k..]| == |s.pending| - k;
  }

  /**
   When the shutdown drain leaves nothing behind, for every sampled time: the newest stamp's wait ends
   within the clock's range, and it first arrived no later than the sample or the drain time saturates.
   */
  lemma ShutdownDrainsIff(c: Config, s: AggState, now: uint64)
    ensures FlushStep(c, s, DrainTime(now, c.maxWait)).state.pending == []
            <==> s.pending == [] || c.maxNewer == 0
                 || var arrival := s.pending[|s.pending| - 1].key.firstArrival;
                    arrival + c.maxWait < U64_LIMIT && (arrival <= now || now + c.maxWait >= U64_LIMIT)
  {
    FlushEmptiesIff(c, s, DrainTime(now, c.maxWait));
  }

  /** When it saturates, a key that arrived within the last `max_wait_ns` of the clock can survive. */
  lemma SaturatedDrainCanLeaveKeys()
    ensures var o := Observation(Color, 1, 0, 0, Unknown, 0, U64_LIMIT - 1, 0, 0);
            var c := Config(2, 4);
            var s := After(c, [Push(o)]);
            FlushStep(c, s, DrainTime(U64_LIMIT - 1, c.maxWait)).state.pending != []
  {
    var o := Observation(Color, 1, 0, 0, Unknown, 0, U64_LIMIT - 1, 0, 0);
    var c := Config(2, 4);
    assert After(c, [Push(o)][..0]) == INITIAL;
    var s := After(c, [Push(o)]);
    var key := Absorb(NewKey(U64_LIMIT - 1), o);
    assert File([], o) == [Entry(o.StampNs(), key)];
    assert s == PushStep(c, INITIAL, o).state;
    assert !Ready(c, [Entry(o.StampNs(), key)], 0, U64_LIMIT - 1);
    assert s.pending == [Entry(o.StampNs(), key)];
    FlushEmptiesIff(c, s, DrainTime(U64_LIMIT - 1, c.maxWait));
  }
}
