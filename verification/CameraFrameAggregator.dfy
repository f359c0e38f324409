/**
 The aggregator as the program runs it
 (ros2_ws/src/vt_realsense_capture/src/camera_frame_aggregator.cpp, lines 100-273, and the
 shutdown flush of timing_normalizer_node.cpp, lines 356-378): an ordered map of open keys,
 a bounded queue and set of recently closed stamps, and a watermark. Each method is proved
 to act like the unbounded model in module Aggregation.
 */
module CameraFrameAggregator {
  import opened Prelude
  import opened Aggregation

  /** `std::stable_sort` by stamp, as insertion after equal stamps. */
  function StableSort(events: seq<Event>): seq<Event> {
    if events == [] then []
    else InsertSorted(StableSort(events[..|events| - 1]), events[|events| - 1])
  }

  function InsertSorted(events: seq<Event>, e: Event): seq<Event> {
    if events == [] || events[|events| - 1].stamp <= e.stamp then events + [e]
    else InsertSorted(events[..|events| - 1], e) + [events[|events| - 1]]
  }

  ghost predicate SortedByStamp(events: seq<Event>) {
    forall i, j :: 0 <= i < j < |events| ==> events[i].stamp <= events[j].stamp
  }

  /** The events of one stamp, in order. */
  ghost function AtStamp(events: seq<Event>, stamp: int): seq<Event> {
    if events == [] then []
    else AtStamp(events[..|events| - 1], stamp)
         + if events[|events| - 1].stamp == stamp then [events[|events| - 1]] else []
  }

  lemma {:induction false} InsertSortedPermutes(events: seq<Event>, e: Event)
    ensures multiset(InsertSorted(events, e)) == multiset(events) + multiset{e}
  {
    if events != [] && events[|events| - 1].stamp > e.stamp {
      var n := |events| - 1;
      InsertSortedPermutes(events[..n], e);
      assert events == events[..n] + [events[n]];
    }
  }

  lemma {:induction false} InsertSortedSorts(events: seq<Event>, e: Event)
    requires SortedByStamp(events)
    ensures SortedByStamp(InsertSorted(events, e))
    ensures forall i :: 0 <= i < |InsertSorted(events, e)| ==>
                          || InsertSorted(events, e)[i].stamp <= e.stamp
                          || (events != [] && InsertSorted(events, e)[i].stamp <= events[|events| - 1].stamp)
  {
    if events != [] && events[|events| - 1].stamp > e.stamp {
      var n := |events| - 1;
      InsertSortedSorts(events[..n], e);
    }
  }

  lemma {:induction false} AtStampAppend(events: seq<Event>, e: Event, stamp: int)
    ensures AtStamp(events + [e], stamp) == AtStamp(events, stamp) + if e.stamp == stamp then [e] else []
  {
    assert (events + [e])[..|events|] == events;
  }

  lemma {:induction false} InsertSortedIsStable(events: seq<Event>, e: Event, stamp: int)
    ensures AtStamp(InsertSorted(events, e), stamp) == AtStamp(events, stamp) + if e.stamp == stamp then [e] else []
  {
    if events == [] || events[|events| - 1].stamp <= e.stamp {
      AtStampAppend(events, e, stamp);
    } else {
      var init, last := events[..|events| - 1], events[|events| - 1];
      InsertSortedIsStable(init, e, stamp);
      AtStampAppend(InsertSorted(init, e), last, stamp);
      assert events == init + [last];
      AtStampAppend(init, last, stamp);
      var before := AtStamp(init, stamp);
      if e.stamp == stamp {
        assert before + [e] + [] == before + [] + [e];
      } else {
        assert before + [] + AtStamp([last], stamp) == before + AtStamp([last], stamp) + [];
      }
    }
  }

  lemma {:induction false} StableSortSorts(events: seq<Event>)
    ensures SortedByStamp(StableSort(events))
  {
    if events != [] {
      var n := |events| - 1;
      StableSortSorts(events[..n]);
      InsertSortedSorts(StableSort(events[..n]), events[n]);
    }
  }

  lemma {:induction false} StableSortPermutes(events: seq<Event>)
    ensures multiset(StableSort(events)) == multiset(events)
  {
    if events != [] {
      var n := |events| - 1;
      StableSortPermutes(events[..n]);
      InsertSortedPermutes(StableSort(events[..n]), events[n]);
      assert events == events[..n] + [events[n]];
    }
  }

  /** Events of one stamp keep their order. */
  lemma {:induction false} StableSortIsStable(events: seq<Event>, stamp: int)
    ensures AtStamp(StableSort(events), stamp) == AtStamp(events, stamp)
  {
    if events != [] {
      var n := |events| - 1;
      StableSortIsStable(events[..n], stamp);
      InsertSortedIsStable(StableSort(events[..n]), events[n], stamp);
    }
  }

  lemma {:induction false} SortedIsFixed(events: seq<Event>)
    requires SortedByStamp(events)
    ensures StableSort(events) == events
  {
    if events != [] {
      var n := |events| - 1;
      SortedIsFixed(events[..n]);
      assert events == events[..n] + [events[n]];
    }
  }

  lemma {:induction false} InsertBelowAll(events: seq<Event>, e: Event)
    requires forall i :: 0 <= i < |events| ==> e.stamp < events[i].stamp
    ensures InsertSorted(events, e) == [e] + events
  {
    if events != [] {
      var n := |events| - 1;
      InsertBelowAll(events[..n], e);
      assert events == events[..n] + [events[n]];
    }
  }

  /** The sort in `push` only ever moves the late report to the front. */
  lemma SortMovesLateToFront(closings: seq<Event>, late: Event)
    requires SortedByStamp(closings)
    requires forall i :: 0 <= i < |closings| ==> late.stamp < closings[i].stamp
    ensures StableSort(closings + [late]) == [late] + closings
  {
    assert (closings + [late])[..|closings|] == closings;
    SortedIsFixed(closings);
    InsertBelowAll(closings, late);
  }

  /** Dropping the first of the last `n + 1` elements leaves the last `n`. */
  lemma LastNAppend(s: seq<int>, x: int, n: nat)
    requires n > 0
    ensures var grown := LastN(s, n) + [x];
            LastN(s + [x], n) == if |grown| > n then grown[1..] else grown
  {
  }

  lemma SetOfDropFirst(s: seq<int>)
    requires s != [] && StrictlyIncreasing(s)
    ensures SetOf(s[1..]) == SetOf(s) - {s[0]}
  {
    forall x | x in SetOf(s) - {s[0]} ensures x in SetOf(s[1..]) {
      var i :| 0 <= i < |s| && s[i] == x;
      assert s[1..][i - 1] == x;
    }
    forall x | x in SetOf(s[1..]) ensures x in SetOf(s) && x != s[0] {
      var i :| 0 <= i < |s[1..]| && s[1..][i] == x;
      assert s[i + 1] == x;
    }
  }

  lemma SetOfAppend(s: seq<int>, x: int)
    ensures SetOf(s + [x]) == SetOf(s) + {x}
  {
    assert (s + [x])[|s|] == x;
    forall y | y in SetOf(s) ensures y in SetOf(s + [x]) {
      var i :| 0 <= i < |s| && s[i] == y;
      assert (s + [x])[i] == y;
    }
  }

  /** Appending above an increasing sequence keeps it, and every tail of it, increasing. */
  lemma AppendAbove(s: seq<int>, x: int, n: nat)
    requires StrictlyIncreasing(s)
    requires s != [] ==> s[|s| - 1] < x
    ensures StrictlyIncreasing(s + [x])
    ensures StrictlyIncreasing(LastN(s, n) + [x])
    ensures x !in LastN(s, n)
  {
    forall i | 0 <= i < |s| ensures s[i] < x {
      assert s[i] <= s[|s| - 1];
    }
  }

  /** Remembering one more closed stamp, in terms of the unbounded history. */
  lemma RememberFacts(closed: seq<int>, stamp: int, capacity: nat)
    requires StrictlyIncreasing(closed) && capacity > 0
    requires closed != [] ==> closed[|closed| - 1] < stamp
    ensures StrictlyIncreasing(closed + [stamp])
    ensures var recent := LastN(closed, capacity);
            var grown := recent + [stamp];
            && stamp !in SetOf(recent)
            && |recent| <= capacity
            && SetOf(grown) == SetOf(recent) + {stamp}
            && LastN(closed + [stamp], capacity) == (if |grown| > capacity then grown[1..] else grown)
            && SetOf(grown[1..]) == SetOf(grown) - {grown[0]}
  {
    AppendAbove(closed, stamp, capacity);
    SetOfAppend(LastN(closed, capacity), stamp);
    LastNAppend(closed, stamp, capacity);
    SetOfDropFirst(LastN(closed, capacity) + [stamp]);
  }

  /** The verdicts of sorted entries come out strictly sorted. */
  lemma ClosingsAreSorted(s: AggState, k: nat)
    requires s.Good() && k <= |s.pending|
    ensures SortedByStamp(Verdicts(s.pending[..k]))
    ensures forall i :: 0 <= i < k ==> Verdicts(s.pending[..k])[i].stamp == s.pending[i].stamp
  {
  }

  /** The state after closing the `k` oldest keys. */
  ghost function Closed(s: AggState, k: nat): AggState
    requires k <= |s.pending|
  {
    AggState(s.pending[k..], s.closed + Stamps(s.pending[..k]))
  }

  lemma ClosedIsGood(s: AggState, k: nat)
    requires s.Good() && k <= |s.pending|
    ensures Closed(s, k).Good()
  {
    var closed := Closed(s, k).closed;
    var stamps := Stamps(s.pending[..k]);
    forall i, j | 0 <= i < j < |closed| ensures closed[i] < closed[j] {
      if i < |s.closed| <= j {
        assert closed[j] == s.pending[j - |s.closed|].stamp;
        assert s.closed[i] <= s.closed[|s.closed| - 1];
      }
    }
    forall i | 0 <= i < |s.pending[k..]| ensures !Closed(s, k).BehindClosed(s.pending[k..][i].stamp) {
      assert !s.BehindClosed(s.pending[k + i].stamp);
      if k > 0 {
        assert closed[|closed| - 1] == s.pending[k - 1].stamp;
      } else {
        assert closed == s.closed;
      }
    }
  }

  lemma CloseOne(s: AggState, done: nat, k: nat)
    requires s.Good() && done <= k <= |s.pending| && k > 0
    requires Closed(s, done).pending != []
    requires Closed(s, done).pending[0].stamp <= s.pending[k - 1].stamp
    ensures done < k
    ensures var c := Closed(s, done);
            && StrictlyIncreasing(c.closed)
            && c.pending[0] == s.pending[done]
            && (c.closed != [] ==> c.closed[|c.closed| - 1] < s.pending[done].stamp)
            && Closed(s, done + 1) == AggState(c.pending[1..], c.closed + [s.pending[done].stamp])
    ensures Verdicts(s.pending[..done + 1])
            == Verdicts(s.pending[..done]) + [Verdict(s.pending[done].stamp, s.pending[done].key)]
  {
    assert Closed(s, done).pending[0] == s.pending[done];
    ClosedIsGood(s, done);
    assert !Closed(s, done).BehindClosed(Closed(s, done).pending[0].stamp);
    assert s.pending[..done + 1] == s.pending[..done] + [s.pending[done]];
    assert Stamps(s.pending[..done + 1]) == Stamps(s.pending[..done]) + [s.pending[done].stamp];
    assert s.closed + Stamps(s.pending[..done + 1]) == s.closed + Stamps(s.pending[..done]) + [s.pending[done].stamp];
  }

  /** The pop loop's stamp test stops exactly at the boundary. */
  lemma CloseStops(s: AggState, done: nat, k: nat)
    requires s.Good() && done <= k <= |s.pending|
    requires k == 0 || Closed(s, done).pending == [] || Closed(s, done).pending[0].stamp > s.pending[k - 1].stamp
    ensures done == k
  {
    if done < |s.pending| {
      assert Closed(s, done).pending[0] == s.pending[done];
    }
  }

  class CameraFrameAggregator {
    const config: Config
    const finalizedHistoryCapacity: nat
    var pending: seq<Entry>
    var finalizedOrder: seq<int>
    var finalizedRecent: set<int>
    var closedThrough: Option<int>
    ghost var closed: seq<int>

    /** The bounded history is exactly what the unbounded one prescribes. */
    ghost predicate HistoryAgrees()
      reads this
    {
      && finalizedHistoryCapacity == config.HistoryCapacity()
      && finalizedOrder == LastN(closed, finalizedHistoryCapacity)
      && finalizedRecent == SetOf(finalizedOrder)
      && closedThrough == if closed == [] then None else Some(closed[|closed| - 1])
    }

    ghost function Model(): AggState
      reads this
    {
      AggState(pending, closed)
    }

    ghost predicate Valid()
      reads this
    {
      Model().Good() && HistoryAgrees()
    }

    constructor (config: Config)
      ensures Valid() && Model() == INITIAL && this.config == config
    {
      this.config := config;
      this.finalizedHistoryCapacity := config.HistoryCapacity();
      pending, finalizedOrder, finalizedRecent, closedThrough, closed := [], [], {}, None, [];
    }

    /** Despite the bounded memory, this is exactly "at or below the watermark". */
    method WasFinalized(stamp: int) returns (b: bool)
      requires Valid()
      ensures b == Model().BehindClosed(stamp)
    {
      b := stamp in finalizedRecent || (closedThrough.Some? && stamp <= closedThrough.value);
      if stamp in finalizedRecent {
        assert stamp in finalizedOrder;
        ghost var i :| 0 <= i < |closed| && closed[i] == stamp;
        assert closed[i] <= closed[|closed| - 1];
      }
    }

    /** Records one closed stamp, forgetting the oldest when the memory is full. */
    method RememberFinalized(stamp: int)
      requires HistoryAgrees() && StrictlyIncreasing(closed)
      requires closed != [] ==> closed[|closed| - 1] < stamp
      modifies this`finalizedOrder, this`finalizedRecent, this`closedThrough, this`closed
      ensures HistoryAgrees() && StrictlyIncreasing(closed)
      ensures closed == old(closed) + [stamp]
    {
      RememberFacts(closed, stamp, finalizedHistoryCapacity);
      ghost var grown := finalizedOrder + [stamp];
      if stamp !in finalizedRecent {
        finalizedRecent := finalizedRecent + {stamp};
        finalizedOrder := finalizedOrder + [stamp];
      }
      if closedThrough.None? || stamp > closedThrough.value {
        closedThrough := Some(stamp);
      }
      closed := closed + [stamp];
      while |finalizedOrder| > finalizedHistoryCapacity
        invariant closed == old(closed) + [stamp] && closedThrough == Some(stamp)
        invariant finalizedOrder == grown || (|grown| > finalizedHistoryCapacity && finalizedOrder == grown[1..])
        invariant finalizedRecent == SetOf(finalizedOrder)
        decreases |finalizedOrder|
      {
        finalizedRecent := finalizedRecent - {finalizedOrder[0]};
        finalizedOrder := finalizedOrder[1..];
      }
    }

    /** The newest stamp that is old enough or has enough newer stamps. */
    method ClosureBoundary(now: uint64) returns (closureBoundary: Option<int>)
      ensures var k := ClosureCount(config, pending, now, |pending|);
              closureBoundary == if k == 0 then None else Some(pending[k - 1].stamp)
    {
      closureBoundary := None;
      var newerStamps := |pending|;
      var i := 0;
      ghost var boundary := 0;
      while i < |pending|
        invariant 0 <= i <= |pending| && newerStamps == |pending| - i
        invariant boundary == ClosureCount(config, pending, now, i)
        invariant closureBoundary == if boundary == 0 then None else Some(pending[boundary - 1].stamp)
      {
        newerStamps := newerStamps - 1;
        var first := pending[i].key.firstArrival;
        var oldEnough := now >= first && now - first >= config.maxWait;
        var watermarkReached := newerStamps >= config.maxNewer;
        if oldEnough || watermarkReached {
          closureBoundary := Some(pending[i].stamp);
          boundary := i + 1;
        }
        i := i + 1;
      }
    }

    /** Closes the oldest key, the one after the first `done` of `before`. */
    method CloseFirst(ghost before: AggState, ghost done: nat, ghost k: nat) returns (event: Event)
      requires before.Good() && done <= k <= |before.pending| && k > 0
      requires Model() == Closed(before, done) && HistoryAgrees()
      requires pending != [] && pending[0].stamp <= before.pending[k - 1].stamp
      modifies this`pending, this`finalizedOrder, this`finalizedRecent, this`closedThrough, this`closed
      ensures done < k && HistoryAgrees()
      ensures Model() == Closed(before, done + 1)
      ensures Verdicts(before.pending[..done + 1]) == Verdicts(before.pending[..done]) + [event]
      ensures |pending| < |old(pending)|
    {
      CloseOne(before, done, k);
      var stamp := pending[0].stamp;
      event := Verdict(stamp, pending[0].key);
      RememberFinalized(stamp);
      pending := pending[1..];
    }

    /** Closes the `k` keys up to the closure boundary, oldest stamp first. */
    method CloseThrough(closureBoundary: Option<int>, ghost k: nat) returns (events: seq<Event>)
      requires Valid() && k <= |pending|
      requires closureBoundary == if k == 0 then None else Some(pending[k - 1].stamp)
      modifies this`pending, this`finalizedOrder, this`finalizedRecent, this`closedThrough, this`closed
      ensures HistoryAgrees()
      ensures Model() == Closed(old(Model()), k)
      ensures events == Verdicts(old(pending)[..k])
    {
      events := [];
      ghost var before := Model();
      ghost var done := 0;
      while closureBoundary.Some? && pending != [] && pending[0].stamp <= closureBoundary.value
        invariant 0 <= done <= k
        invariant Model() == Closed(before, done)
        invariant events == Verdicts(before.pending[..done])
        invariant HistoryAgrees()
        decreases |pending|
      {
        var event := CloseFirst(before, done, k);
        events := events + [event];
        done := done + 1;
      }
      CloseStops(before, done, k);
    }

    /** Closes every key up to the newest one that is ready. */
    method FinalizeReady(now: uint64) returns (events: seq<Event>)
      requires Valid()
      modifies this`pending, this`finalizedOrder, this`finalizedRecent, this`closedThrough, this`closed
      ensures Valid()
      ensures Model() == FlushStep(config, old(Model()), now).state
      ensures events == FlushStep(config, old(Model()), now).closings
    {
      ghost var k := ClosureCount(config, pending, now, |pending|);
      var closureBoundary := ClosureBoundary(now);
      ClosedIsGood(Model(), k);
      events := CloseThrough(closureBoundary, k);
    }

    /** The part of `push` that files an observation under its key. */
    method FileObservation(o: Observation)
      modifies this`pending
      ensures pending == File(old(pending), o)
    {
      var stamp := o.StampNs();
      var p := Position(pending, stamp);
      if p == |pending| || pending[p].stamp != stamp {
        pending := pending[..p] + [Entry(stamp, NewKey(o.hostMonotonic))] + pending[p..];
      }
      var key := pending[p].key;
      var stream := if o.stream == Color then key.color else key.depth;
      if stream.Some? {
        key := key.(duplicate := true);
      } else {
        if !o.HasRequiredValidity() {
          key := key.(invalid := true);
        }
        key := if o.stream == Color then key.(color := Some(o)) else key.(depth := Some(o));
      }
      pending := pending[p := Entry(stamp, key)];
    }

    /** The part of `push` that reports a late observation. */
    method ReportLate(o: Observation) returns (events: seq<Event>)
      requires Valid() && Model().IsLate(o.StampNs())
      modifies this`pending, this`finalizedOrder, this`finalizedRecent, this`closedThrough, this`closed
      ensures Valid()
      ensures Model() == PushStep(config, old(Model()), o).state
      ensures events == PushStep(config, old(Model()), o).Emitted()
    {
      LateComesFirst(config, Model(), o);
      events := FinalizeReady(o.hostMonotonic);
      var detail := if o.StampNs() in finalizedRecent then AfterFinalization else BehindWatermark;
      events := StableSort(events + [Event(Duplicate, o.StampNs(), None, detail)]);
    }

    /** The part of `push` that files an observation and closes what is ready. */
    method FileAndFinalize(o: Observation) returns (events: seq<Event>)
      requires Valid() && !Model().IsLate(o.StampNs())
      modifies this`pending, this`finalizedOrder, this`finalizedRecent, this`closedThrough, this`closed
      ensures Valid()
      ensures Model() == PushStep(config, old(Model()), o).state
      ensures events == PushStep(config, old(Model()), o).Emitted()
    {
      ghost var before := Model();
      FileKeepsGood(before, o);
      FileObservation(o);
      assert Model() == AggState(File(before.pending, o), before.closed);
      events := FinalizeReady(o.hostMonotonic);
    }

    /** Files one observation, or reports it as late; then closes what is ready. */
    method Push(o: Observation) returns (events: seq<Event>)
      requires Valid()
      modifies this`pending, this`finalizedOrder, this`finalizedRecent, this`closedThrough, this`closed
      ensures Valid()
      ensures Model() == PushStep(config, old(Model()), o).state
      ensures events == PushStep(config, old(Model()), o).Emitted()
    {
      var stamp := o.StampNs();
      var p := Position(pending, stamp);
      var found := p < |pending| && pending[p].stamp == stamp;
      PositionFinds(Model(), stamp);
      var finalized := WasFinalized(stamp);
      if !found && finalized {
        events := ReportLate(o);
      } else {
        events := FileAndFinalize(o);
      }
    }

    /** Closes what is ready at `now`. */
    method Flush(now: uint64) returns (events: seq<Event>)
      requires Valid()
      modifies this`pending, this`finalizedOrder, this`finalizedRecent, this`closedThrough, this`closed
      ensures Valid()
      ensures Model() == FlushStep(config, old(Model()), now).state
      ensures events == FlushStep(config, old(Model()), now).closings
    {
      events := FinalizeReady(now);
    }
  }

  lemma PositionFinds(s: AggState, stamp: int)
    requires s.Good()
    ensures var p := Position(s.pending, stamp);
            s.IsPending(stamp) <==> p < |s.pending| && s.pending[p].stamp == stamp
  {
  }

  /** Filing an observation that is not late keeps the keys sorted and above the watermark. */
  lemma FileKeepsGood(s: AggState, o: Observation)
    requires s.Good() && !s.IsLate(o.StampNs())
    ensures AggState(File(s.pending, o), s.closed).Good()
  {
    var stamp := o.StampNs();
    var p := Position(s.pending, stamp);
    PositionFinds(s, stamp);
    if !s.IsPending(stamp) {
      InsertKeepsGood(s, p, Entry(stamp, Absorb(NewKey(o.hostMonotonic), o)));
    }
  }

  /** Where every entry is after an insertion at `p`. */
  lemma Inserted(pending: seq<Entry>, p: nat, e: Entry, i: nat)
    requires p <= |pending| && i <= |pending|
    ensures (pending[..p] + [e] + pending[p..])[i]
            == if i < p then pending[i] else if i == p then e else pending[i - 1]
  {
  }

  lemma InsertKeepsGood(s: AggState, p: nat, e: Entry)
    requires s.Good() && p <= |s.pending| && !s.BehindClosed(e.stamp)
    requires forall i :: 0 <= i < p ==> s.pending[i].stamp < e.stamp
    requires forall i :: p <= i < |s.pending| ==> e.stamp < s.pending[i].stamp
    ensures AggState(s.pending[..p] + [e] + s.pending[p..], s.closed).Good()
  {
    var filed := s.pending[..p] + [e] + s.pending[p..];
    forall i, j | 0 <= i < j < |filed| ensures filed[i].stamp < filed[j].stamp {
      Inserted(s.pending, p, e, i);
      Inserted(s.pending, p, e, j);
    }
    forall i | 0 <= i < |filed| ensures !s.BehindClosed(filed[i].stamp) {
      Inserted(s.pending, p, e, i);
    }
  }

  /** A late report is below everything its own push closes. */
  lemma LateComesFirst(c: Config, s: AggState, o: Observation)
    requires s.Good() && s.IsLate(o.StampNs())
    ensures var closings := FlushStep(c, s, o.hostMonotonic).closings;
            var late := PushStep(c, s, o).late.value;
            StableSort(closings + [late]) == [late] + closings
  {
    var k := ClosureCount(c, s.pending, o.hostMonotonic, |s.pending|);
    ClosingsAreSorted(s, k);
    var late := PushStep(c, s, o).late.value;
    SortMovesLateToFront(Verdicts(s.pending[..k]), late);
  }

  /** The saturating drain time of the shutdown service. */
  function DrainTime(now: uint64, maxWait: uint64): uint64 {
    if now > U64_LIMIT - 1 - maxWait then U64_LIMIT - 1 else now + maxWait
  }

  function CompleteCount(events: seq<Event>): nat {
    if events == [] then 0
    else CompleteCount(events[..|events| - 1]) + if events[|events| - 1].kind == Complete then 1 else 0
  }

  /** What `publish_events` counts: complete events with a timing message to publish. */
  function PublishedCount(events: seq<Event>): nat {
    if events == [] then 0
    else
      var e := events[|events| - 1];
      PublishedCount(events[..|events| - 1]) + if e.kind == Complete && e.timing.Some? then 1 else 0
  }

  /** A verdict is complete exactly when it carries a timing message. */
  lemma CompleteCarriesTiming(stamp: int, key: PendingKey)
    ensures Verdict(stamp, key).kind == Complete <==> Verdict(stamp, key).timing.Some?
  {
  }

  /** So every complete verdict is published. */
  lemma {:induction false} CompleteIsPublished(entries: seq<Entry>)
    ensures PublishedCount(Verdicts(entries)) == CompleteCount(Verdicts(entries))
  {
    if entries != [] {
      var n := |entries| - 1;
      CompleteIsPublished(entries[..n]);
      CompleteCarriesTiming(entries[n].stamp, entries[n].key);
      assert Verdicts(entries)[..n] == Verdicts(entries[..n]);
    }
  }

  /** How many groups each camera completes when flushed at `drain`. */
  ghost function DrainedCounts(configs: seq<Config>, states: seq<AggState>, drain: uint64): seq<nat>
    requires |configs| == |states|
  {
    seq(|states|, i requires 0 <= i < |states| => CompleteCount(FlushStep(configs[i], states[i], drain).closings))
  }

  method PublishEvents(events: seq<Event>) returns (published: nat)
    ensures published == PublishedCount(events)
  {
    published := 0;
    for i := 0 to |events|
      invariant published == PublishedCount(events[..i])
    {
      assert events[..i + 1][..i] == events[..i];
      if events[i].kind == Complete && events[i].timing.Some? {
        published := published + 1;
      }
    }
    assert events[..|events|] == events;
  }

  /** The cameras' states after flushing each at `drain`. */
  ghost function DrainedStates(configs: seq<Config>, states: seq<AggState>, drain: uint64): seq<AggState>
    requires |configs| == |states|
  {
    seq(|states|, i requires 0 <= i < |states| => FlushStep(configs[i], states[i], drain).state)
  }

  /** What one camera contributes. */
  lemma DrainedAt(configs: seq<Config>, states: seq<AggState>, drain: uint64, i: nat)
    requires |configs| == |states| && i < |states|
    ensures DrainedStates(configs, states, drain)[i] == FlushStep(configs[i], states[i], drain).state
    ensures DrainedCounts(configs, states, drain)[i] == CompleteCount(FlushStep(configs[i], states[i], drain).closings)
  {
  }

  lemma SumTake(counts: seq<nat>, i: nat)
    requires i < |counts|
    ensures Sum(counts[..i + 1]) == Sum(counts[..i]) + counts[i]
  {
    assert counts[..i + 1][..i] == counts[..i];
  }

  lemma FlushedIsPublished(c: Config, s: AggState, drain: uint64)
    ensures var closings := FlushStep(c, s, drain).closings;
            PublishedCount(closings) == CompleteCount(closings)
  {
    CompleteIsPublished(s.pending[..ClosureCount(c, s.pending, drain, |s.pending|)]);
  }

  /** Drains one camera and publishes its events. */
  method DrainCamera(camera: CameraFrameAggregator, drain: uint64) returns (published: nat)
    requires camera.Valid()
    modifies camera
    ensures camera.Valid()
    ensures camera.Model() == FlushStep(camera.config, old(camera.Model()), drain).state
    ensures published == CompleteCount(FlushStep(camera.config, old(camera.Model()), drain).closings)
  {
    ghost var before := camera.Model();
    var events := camera.Flush(drain);
    FlushedIsPublished(camera.config, before, drain);
    published := PublishEvents(events);
  }

  /** Cameras below `i` are drained, the others still as they were. */
  ghost predicate DrainedUpTo(cameras: seq<CameraFrameAggregator>, states: seq<AggState>, drained: seq<AggState>,
                              i: nat)
    reads cameras
  {
    && |states| == |drained| == |cameras|
    && forall j :: 0 <= j < |cameras| ==>
                     cameras[j].Valid() && cameras[j].Model() == if j < i then drained[j] else states[j]
  }

  /** One round of the drain loop. */
  method DrainOne(cameras: seq<CameraFrameAggregator>, i: nat, drain: uint64,
                  ghost states: seq<AggState>, ghost drained: seq<AggState>)
    returns (published: nat)
    requires i < |cameras| && Distinct(cameras) && DrainedUpTo(cameras, states, drained, i)
    requires drained[i] == FlushStep(cameras[i].config, states[i], drain).state
    modifies cameras[i]
    ensures DrainedUpTo(cameras, states, drained, i + 1)
    ensures published == CompleteCount(FlushStep(cameras[i].config, states[i], drain).closings)
  {
    label before:
    published := DrainCamera(cameras[i], drain);
    forall j | 0 <= j < |cameras|
      ensures cameras[j].Valid() && cameras[j].Model() == if j < i + 1 then drained[j] else states[j]
    {
      assert j == i || unchanged@before(cameras[j]);
    }
  }

  /** Drains every camera at one time and counts the groups published. */
  method DrainAll(cameras: seq<CameraFrameAggregator>, drainNow: uint64,
                  ghost configs: seq<Config>, ghost states: seq<AggState>)
    returns (published: nat)
    requires Distinct(cameras) && |configs| == |states| == |cameras|
    requires forall i :: 0 <= i < |cameras| ==> cameras[i].config == configs[i]
    requires DrainedUpTo(cameras, states, states, 0)
    modifies cameras
    ensures DrainedUpTo(cameras, states, DrainedStates(configs, states, drainNow), |cameras|)
    ensures published == Sum(DrainedCounts(configs, states, drainNow))
  {
    ghost var drained := DrainedStates(configs, states, drainNow);
    ghost var counts := DrainedCounts(configs, states, drainNow);
    published := 0;
    var i := 0;
    while i < |cameras|
      invariant 0 <= i <= |cameras|
      invariant DrainedUpTo(cameras, states, drained, i)
      invariant published == Sum(counts[..i])
    {
      DrainedAt(configs, states, drainNow, i);
      SumTake(counts, i);
      var count := DrainOne(cameras, i, drainNow, states, drained);
      published := published + count;
      i := i + 1;
    }
    assert counts[..i] == counts;
  }

  /**
   `flush_for_shutdown`: fails and touches nothing when the clock cannot be sampled; otherwise drains
   every camera and counts the groups published. `configs` and `states` name the cameras' settings and
   states before the call.
   */
  method FlushForShutdown(cameras: seq<CameraFrameAggregator>, clock: Option<uint64>, maxWait: uint64,
                          ghost configs: seq<Config>, ghost states: seq<AggState>)
    returns (published: Option<nat>)
    requires Distinct(cameras) && |configs| == |states| == |cameras|
    requires forall i :: 0 <= i < |cameras| ==> cameras[i].config == configs[i]
    requires DrainedUpTo(cameras, states, states, 0)
    modifies cameras
    ensures published.Some? <==> clock.Some?
    ensures clock.None? ==> DrainedUpTo(cameras, states, states, 0)
    ensures clock.Some? ==>
              var drain := DrainTime(clock.value, maxWait);
              && DrainedUpTo(cameras, states, DrainedStates(configs, states, drain), |cameras|)
              && published == Some(Sum(DrainedCounts(configs, states, drain)))
  {
    if clock.None? {
      return None;
    }
    var count := DrainAll(cameras, DrainTime(clock.value, maxWait), configs, states);
    return Some(count);
  }
}
