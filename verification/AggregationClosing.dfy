/**
 When a stamp closes, over every run of the aggregator
 (ros2_ws/src/vt_realsense_capture/src/camera_frame_aggregator.cpp, lines 126-200): told by the host
 times at which stamps were first absorbed, by the settings, and by which stamps are open.
 */
module AggregationClosing {
  import opened Prelude
  import opened Aggregation
  import opened CameraFrameAggregator
  import opened AggregationRuns

  /** The stamps open after a run. */
  ghost function OpenStamps(c: Config, ops: seq<Op>): set<int> {
    StampsOf(After(c, ops).pending)
  }

  ghost function StampsOf(pending: seq<Entry>): set<int> {
    set i | 0 <= i < |pending| :: pending[i].stamp
  }

  /** The host time at which a stamp was first absorbed. */
  function FirstTime(c: Config, ops: seq<Op>, stamp: int): int
    requires Of(Absorbed(c, ops), stamp) != []
  {
    Of(Absorbed(c, ops), stamp)[0].hostMonotonic
  }

  /** The time of the last operation. */
  function Now(op: Op): uint64 {
    match op
    case Push(o) => o.hostMonotonic
    case Flush(now) => now
  }

  /** What is open once the last operation's observation is filed, before anything closes. */
  ghost function Candidates(c: Config, ops: seq<Op>): set<int>
    requires ops != []
  {
    var op := ops[|ops| - 1];
    OpenStamps(c, ops[..|ops| - 1]) + if op.Push? && LastStep(c, ops).late.None? then {op.o.StampNs()} else {}
  }

  // ----- First arrivals -----

  lemma {:induction false} FirstArrivalIsFirst(observations: seq<Observation>)
    requires observations != []
    ensures AbsorbAll(observations).firstArrival == observations[0].hostMonotonic
  {
    if |observations| > 1 {
      FirstArrivalIsFirst(observations[..|observations| - 1]);
    }
  }

  /** An open key's first arrival is the host time of the first observation absorbed at its stamp. */
  lemma OpenKeysKeepTheirFirstTime(c: Config, ops: seq<Op>, i: nat)
    requires i < |After(c, ops).pending|
    ensures var e := After(c, ops).pending[i];
            Of(Absorbed(c, ops), e.stamp) != [] && e.key.firstArrival == FirstTime(c, ops, e.stamp)
  {
    RunAccounts(c, ops);
    var e := After(c, ops).pending[i];
    assert KeyAccounted(e, Absorbed(c, ops));
    FirstArrivalIsFirst(Of(Absorbed(c, ops), e.stamp));
  }

  // ----- The entries once the observation is filed -----

  /** The entries the last operation judges. */
  ghost function Filed(c: Config, ops: seq<Op>): seq<Entry>
    requires ops != []
  {
    var s, op := After(c, ops[..|ops| - 1]), ops[|ops| - 1];
    if op.Push? && !s.IsLate(op.o.StampNs()) then File(s.pending, op.o) else s.pending
  }

  lemma FiledStamps(pending: seq<Entry>, o: Observation)
    ensures StampsOf(File(pending, o)) == StampsOf(pending) + {o.StampNs()}
  {
    var stamp, filed := o.StampNs(), File(pending, o);
    var p := Position(pending, stamp);
    var found := p < |pending| && pending[p].stamp == stamp;
    assert filed[p].stamp == stamp;
    forall j | 0 <= j < |pending| ensures pending[j].stamp in StampsOf(filed) {
      assert filed[if found || j < p then j else j + 1].stamp == pending[j].stamp;
    }
    forall i | 0 <= i < |filed| ensures filed[i].stamp in StampsOf(pending) + {stamp} {
      if i != p {
        assert filed[i] == pending[if found || i < p then i else i - 1];
      }
    }
  }

  /** The last step closes the first of them and keeps the rest. */
  lemma RestIsKept(c: Config, ops: seq<Op>)
    requires ops != []
    ensures var k := ClosureCount(c, Filed(c, ops), Now(ops[|ops| - 1]), |Filed(c, ops)|);
            After(c, ops).pending == Filed(c, ops)[k..]
    ensures LastStep(c, ops).late.Some?
            <==> ops[|ops| - 1].Push? && After(c, ops[..|ops| - 1]).IsLate(ops[|ops| - 1].o.StampNs())
  {
  }

  /** In stamp order, with what each stamp absorbed. */
  ghost predicate InOrderAndAccounted(filed: seq<Entry>, absorbed: seq<Observation>) {
    && (forall i, j :: 0 <= i < j < |filed| ==> filed[i].stamp < filed[j].stamp)
    && KeysAccounted(filed, absorbed)
  }

  lemma FiledAre(c: Config, ops: seq<Op>)
    requires ops != []
    ensures StampsOf(Filed(c, ops)) == Candidates(c, ops)
    ensures InOrderAndAccounted(Filed(c, ops), Absorbed(c, ops))
  {
    var before, op := ops[..|ops| - 1], ops[|ops| - 1];
    var s, absorbed := After(c, before), Absorbed(c, before);
    RunAccounts(c, before);
    RestIsKept(c, ops);
    if op.Push? && !s.IsLate(op.o.StampNs()) {
      FiledStamps(s.pending, op.o);
      FileKeepsGood(s, op.o);
      FileAccountsKeys(s, absorbed, op.o);
      assert Absorbed(c, ops) == absorbed + [op.o];
    } else {
      assert Absorbed(c, ops) == absorbed;
    }
  }

  // ----- Counting the stamps above -----

  /** The candidates newer than a stamp. */
  ghost function Above(stamps: set<int>, stamp: int): set<int> {
    set u | u in stamps && u > stamp
  }

  lemma {:induction false} SizeOfStamps(entries: seq<Entry>)
    requires forall i, j :: 0 <= i < j < |entries| ==> entries[i].stamp < entries[j].stamp
    ensures |StampsOf(entries)| == |entries|
  {
    if entries != [] {
      var n := |entries| - 1;
      SizeOfStamps(entries[..n]);
      assert StampsOf(entries) == StampsOf(entries[..n]) + {entries[n].stamp};
      assert entries[n].stamp !in StampsOf(entries[..n]);
    }
  }

  lemma AboveAreLater(entries: seq<Entry>, i: nat)
    requires forall i, j :: 0 <= i < j < |entries| ==> entries[i].stamp < entries[j].stamp
    requires i < |entries|
    ensures |Above(StampsOf(entries), entries[i].stamp)| == |entries| - 1 - i
  {
    SizeOfStamps(entries[i + 1..]);
    assert Above(StampsOf(entries), entries[i].stamp) == StampsOf(entries[i + 1..]) by {
      forall u | u in Above(StampsOf(entries), entries[i].stamp) ensures u in StampsOf(entries[i + 1..]) {
        var j :| 0 <= j < |entries| && entries[j].stamp == u;
        assert entries[i + 1..][j - i - 1].stamp == u;
      }
      forall u | u in StampsOf(entries[i + 1..]) ensures u in Above(StampsOf(entries), entries[i].stamp) {
        var j :| 0 <= j < |entries[i + 1..]| && entries[i + 1..][j].stamp == u;
        assert entries[i + 1 + j].stamp == u;
      }
    }
  }

  // ----- The rule -----

  /** A stamp that has waited long enough, or has enough newer ones beside it, closes with all before it. */
  ghost predicate Due(c: Config, now: uint64, open: set<int>, absorbed: seq<Observation>, stamp: int)
    requires Of(absorbed, stamp) != []
  {
    var first := Of(absorbed, stamp)[0].hostMonotonic;
    || (now >= first && now - first >= c.maxWait)
    || |Above(open, stamp)| >= c.maxNewer
  }

  /** No open stamp from `stamp` on is due. */
  ghost predicate NothingDueFrom(c: Config, now: uint64, open: set<int>, absorbed: seq<Observation>, stamp: int) {
    forall u {:trigger u in open} ::
      u in open && u >= stamp ==> Of(absorbed, u) != [] && !Due(c, now, open, absorbed, u)
  }

  lemma ReadyIffDue(c: Config, now: uint64, filed: seq<Entry>, absorbed: seq<Observation>, i: nat)
    requires InOrderAndAccounted(filed, absorbed) && i < |filed|
    ensures Of(absorbed, filed[i].stamp) != []
    ensures Ready(c, filed, i, now) <==> Due(c, now, StampsOf(filed), absorbed, filed[i].stamp)
  {
    assert KeyAccounted(filed[i], absorbed);
    FirstArrivalIsFirst(Of(absorbed, filed[i].stamp));
    AboveAreLater(filed, i);
  }

  lemma ReadyIsDue(c: Config, now: uint64, filed: seq<Entry>, absorbed: seq<Observation>, i: nat)
    requires InOrderAndAccounted(filed, absorbed) && i < |filed| && Ready(c, filed, i, now)
    ensures Of(absorbed, filed[i].stamp) != []
    ensures Due(c, now, StampsOf(filed), absorbed, filed[i].stamp) && filed[i].stamp in StampsOf(filed)
  {
    ReadyIffDue(c, now, filed, absorbed, i);
    InStamps(filed, i);
  }

  /** An entry that closes stands at or before one that is due. */
  lemma ClosedHasDue(c: Config, now: uint64, filed: seq<Entry>, absorbed: seq<Observation>, i: nat, k: nat)
    requires forall i, j :: 0 <= i < j < |filed| ==> filed[i].stamp < filed[j].stamp
    requires i < k <= |filed| && Of(absorbed, filed[k - 1].stamp) != []
    requires Due(c, now, StampsOf(filed), absorbed, filed[k - 1].stamp)
    ensures !NothingDueFrom(c, now, StampsOf(filed), absorbed, filed[i].stamp)
  {
    InStamps(filed, k - 1);
    DueBlocks(c, now, StampsOf(filed), absorbed, filed[i].stamp, filed[k - 1].stamp);
  }

  lemma InStamps(entries: seq<Entry>, i: nat)
    requires i < |entries|
    ensures entries[i].stamp in StampsOf(entries)
  {
  }

  lemma DueBlocks(c: Config, now: uint64, open: set<int>, absorbed: seq<Observation>, stamp: int, u: int)
    requires u in open && u >= stamp && Of(absorbed, u) != [] && Due(c, now, open, absorbed, u)
    ensures !NothingDueFrom(c, now, open, absorbed, stamp)
  {
  }

  /** An entry that is kept, and all after it, is not due. */
  lemma KeptIsNotDue(c: Config, now: uint64, filed: seq<Entry>, absorbed: seq<Observation>, i: nat)
    requires InOrderAndAccounted(filed, absorbed) && ClosureCount(c, filed, now, |filed|) <= i < |filed|
    ensures NothingDueFrom(c, now, StampsOf(filed), absorbed, filed[i].stamp)
  {
    forall u | u in StampsOf(filed) && u >= filed[i].stamp
      ensures Of(absorbed, u) != [] && !Due(c, now, StampsOf(filed), absorbed, u)
    {
      var j :| 0 <= j < |filed| && filed[j].stamp == u;
      NotBefore(filed, j, i);
      ReadyIffDue(c, now, filed, absorbed, j);
    }
  }

  lemma NotBefore(entries: seq<Entry>, j: nat, i: nat)
    requires forall i, j :: 0 <= i < j < |entries| ==> entries[i].stamp < entries[j].stamp
    requires i < |entries| && j < |entries| && entries[j].stamp >= entries[i].stamp
    ensures j >= i
  {
  }

  /** What the closure rule keeps open. */
  lemma KeptIff(c: Config, now: uint64, filed: seq<Entry>, absorbed: seq<Observation>, stamp: int)
    requires InOrderAndAccounted(filed, absorbed)
    ensures stamp in StampsOf(filed[ClosureCount(c, filed, now, |filed|)..])
            <==> stamp in StampsOf(filed) && NothingDueFrom(c, now, StampsOf(filed), absorbed, stamp)
  {
    var k := ClosureCount(c, filed, now, |filed|);
    if stamp in StampsOf(filed) {
      var i :| 0 <= i < |filed| && filed[i].stamp == stamp;
      InSuffix(filed, k, i);
      if i < k {
        ReadyIsDue(c, now, filed, absorbed, k - 1);
        ClosedHasDue(c, now, filed, absorbed, i, k);
      } else {
        KeptIsNotDue(c, now, filed, absorbed, i);
      }
    } else {
      SuffixStamps(filed, k);
    }
  }

  lemma SuffixStamps(filed: seq<Entry>, k: nat)
    requires k <= |filed|
    ensures StampsOf(filed[k..]) <= StampsOf(filed)
  {
    forall i | 0 <= i < |filed[k..]| ensures filed[k..][i].stamp in StampsOf(filed) {
      assert filed[k + i].stamp == filed[k..][i].stamp;
    }
  }

  lemma InSuffix(filed: seq<Entry>, k: nat, i: nat)
    requires forall i, j :: 0 <= i < j < |filed| ==> filed[i].stamp < filed[j].stamp
    requires k <= |filed| && i < |filed|
    ensures filed[i].stamp in StampsOf(filed[k..]) <==> i >= k
  {
    if i >= k {
      assert filed[k..][i - k].stamp == filed[i].stamp;
    }
    forall j | 0 <= j < |filed[k..]| && i < k ensures filed[k..][j].stamp != filed[i].stamp {
      assert filed[k..][j] == filed[k + j];
    }
  }

  /**
   Over every run, at any host times: an operation leaves a stamp open if and only if the stamp was open, or
   has just been absorbed, and neither it nor any newer open stamp is due.
   */
  lemma StaysOpenIff(c: Config, ops: seq<Op>, stamp: int)
    requires ops != []
    ensures stamp in OpenStamps(c, ops)
            <==> stamp in Candidates(c, ops)
                 && NothingDueFrom(c, Now(ops[|ops| - 1]), Candidates(c, ops), Absorbed(c, ops), stamp)
  {
    FiledAre(c, ops);
    RestIsKept(c, ops);
    KeptIff(c, Now(ops[|ops| - 1]), Filed(c, ops), Absorbed(c, ops), stamp);
  }

  /** Some stamp from `stamp` on was absorbed and is open no more. */
  ghost predicate ClosedFrom(open: set<int>, absorbed: seq<Observation>, stamp: int) {
    exists u {:trigger u in open} :: u >= stamp && u !in open && Of(absorbed, u) != []
  }

  /** Absorbed stamps are open or closed, and a closed one is not above the newest closed. */
  ghost predicate Placed(s: AggState, absorbed: seq<Observation>, u: int) {
    && (Of(absorbed, u) != [] <==> u in StampsOf(s.pending) || u in s.closed)
    && (u in s.closed ==> u !in StampsOf(s.pending) && s.closed != [] && u <= s.closed[|s.closed| - 1])
  }

  lemma StampsArePlaced(c: Config, ops: seq<Op>, u: int)
    ensures Placed(After(c, ops), Absorbed(c, ops), u)
  {
    RunAccounts(c, ops);
    Conservation(c, ops, u);
    if u in After(c, ops).closed {
      ClosedBehind(After(c, ops), u);
    }
  }

  lemma BehindIff(s: AggState, absorbed: seq<Observation>, stamp: int)
    requires forall u :: Placed(s, absorbed, u)
    ensures s.BehindClosed(stamp) <==> ClosedFrom(StampsOf(s.pending), absorbed, stamp)
  {
    if s.BehindClosed(stamp) {
      var u := s.closed[|s.closed| - 1];
      assert u in s.closed && Placed(s, absorbed, u);
      assert u !in StampsOf(s.pending);
    }
    forall u | u >= stamp && u !in StampsOf(s.pending) && Of(absorbed, u) != [] ensures s.BehindClosed(stamp) {
      assert Placed(s, absorbed, u);
    }
  }

  /** An observation is refused exactly if its stamp is not open and a stamp from it on has closed. */
  lemma RefusedIff(c: Config, ops: seq<Op>)
    requires ops != [] && ops[|ops| - 1].Push?
    ensures var before, stamp := ops[..|ops| - 1], ops[|ops| - 1].o.StampNs();
            LastStep(c, ops).late.Some?
            <==> stamp !in OpenStamps(c, before) && ClosedFrom(OpenStamps(c, before), Absorbed(c, before), stamp)
  {
    var before, stamp := ops[..|ops| - 1], ops[|ops| - 1].o.StampNs();
    RestIsKept(c, ops);
    forall u ensures Placed(After(c, before), Absorbed(c, before), u) {
      StampsArePlaced(c, before, u);
    }
    BehindIff(After(c, before), Absorbed(c, before), stamp);
  }

  // ----- The shutdown drain -----

  ghost predicate IsNewest(open: set<int>, stamp: int) {
    stamp in open && forall u :: u in open ==> u <= stamp
  }

  /** The newest open stamp, if its wait ends within the clock's range and by the time of the drain. */
  ghost predicate DrainReaches(c: Config, now: uint64, open: set<int>, absorbed: seq<Observation>, stamp: int) {
    && IsNewest(open, stamp) && Of(absorbed, stamp) != []
    && var first := Of(absorbed, stamp)[0].hostMonotonic;
       first + c.maxWait < U64_LIMIT && (first <= now || now + c.maxWait >= U64_LIMIT)
  }

  lemma NewestIsLast(entries: seq<Entry>, stamp: int)
    requires forall i, j :: 0 <= i < j < |entries| ==> entries[i].stamp < entries[j].stamp
    requires entries != []
    ensures IsNewest(StampsOf(entries), stamp) <==> stamp == entries[|entries| - 1].stamp
  {
    InStamps(entries, |entries| - 1);
  }

  lemma DrainReachesNewest(c: Config, now: uint64, pending: seq<Entry>, absorbed: seq<Observation>)
    requires pending != [] && InOrderAndAccounted(pending, absorbed)
    ensures var first := pending[|pending| - 1].key.firstArrival;
            (exists stamp :: DrainReaches(c, now, StampsOf(pending), absorbed, stamp))
            <==> first + c.maxWait < U64_LIMIT && (first <= now || now + c.maxWait >= U64_LIMIT)
  {
    var n := |pending| - 1;
    var newest := pending[n].stamp;
    assert KeyAccounted(pending[n], absorbed);
    FirstArrivalIsFirst(Of(absorbed, newest));
    forall stamp | IsNewest(StampsOf(pending), stamp) ensures stamp == newest {
      NewestIsLast(pending, stamp);
    }
    NewestIsLast(pending, newest);
    var reached := DrainReaches(c, now, StampsOf(pending), absorbed, newest);
  }

  lemma NothingOpen(pending: seq<Entry>)
    ensures StampsOf(pending) == {} <==> pending == []
  {
    if pending != [] {
      InStamps(pending, 0);
    }
  }

  lemma PendingAreAccounted(c: Config, ops: seq<Op>)
    ensures InOrderAndAccounted(After(c, ops).pending, Absorbed(c, ops))
  {
    RunAccounts(c, ops);
  }

  /** The shutdown drain leaves no stamp open exactly if it reaches the newest. */
  ghost predicate DrainsIffReached(c: Config, s: AggState, absorbed: seq<Observation>, now: uint64) {
    FlushStep(c, s, DrainTime(now, c.maxWait)).state.pending == []
    <==> StampsOf(s.pending) == {} || c.maxNewer == 0
         || exists stamp :: DrainReaches(c, now, StampsOf(s.pending), absorbed, stamp)
  }

  lemma AccountedDrains(c: Config, s: AggState, absorbed: seq<Observation>, now: uint64)
    requires InOrderAndAccounted(s.pending, absorbed)
    ensures DrainsIffReached(c, s, absorbed, now)
  {
    ShutdownDrainsIff(c, s, now);
    NothingOpen(s.pending);
    if s.pending != [] {
      DrainReachesNewest(c, now, s.pending, absorbed);
    }
  }

  /** Over every run, for every sampled time. */
  lemma ShutdownDrainsRunIff(c: Config, ops: seq<Op>, now: uint64)
    ensures DrainsIffReached(c, After(c, ops), Absorbed(c, ops), now)
  {
    PendingAreAccounted(c, ops);
    AccountedDrains(c, After(c, ops), Absorbed(c, ops), now);
  }
}
