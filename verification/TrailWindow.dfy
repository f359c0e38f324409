/**
 The windows the tracker visualisation keeps per role
 (ros2_ws/src/vt_vive_tracker/vt_vive_tracker/visualization_model.py, lines 11-226):
 capped, lazily pruned sequences against filters over the whole history.
 */
module TrailWindow {
  import opened Prelude

  const FRESH_NS: nat := 250_000_000
  const OFFLINE_NS: nat := 1_000_000_000
  const TRAIL_NS: nat := 3_000_000_000
  const RATE_NS: nat := 1_000_000_000

  datatype PoseValue = PoseValue(position: (real, real, real), orientation: (real, real, real, real))

  datatype TimedPose = TimedPose(arrival: int, pose: PoseValue)

  datatype StatusValue = StatusValue(
    state: nat, valid: nat, invalid: nat, dropped: nat, trackerId: string, trackingStatus: nat)

  /** What is kept for one role. */
  datatype Window = Window(
    trail: seq<TimedPose>, rateTimes: seq<int>, lastPose: Option<TimedPose>, status: Option<StatusValue>)

  const EMPTY := Window([], [], None, None)

  function Max(a: int, b: int): int {
    if a < b then b else a
  }

  function Arrivals(s: seq<TimedPose>): (r: seq<int>)
    ensures |r| == |s| && forall i {:trigger r[i]} :: 0 <= i < |s| ==> r[i] == s[i].arrival
  {
    seq(|s|, i requires 0 <= i < |s| => s[i].arrival)
  }

  /** The first position from `i` on whose time is not before the cutoff. */
  function LeadingFrom(times: seq<int>, cutoff: int, i: nat): (n: nat)
    requires i <= |times|
    ensures i <= n <= |times|
    ensures forall j :: i <= j < n ==> times[j] < cutoff
    ensures n < |times| ==> times[n] >= cutoff
    decreases |times| - i
  {
    if i < |times| && times[i] < cutoff then LeadingFrom(times, cutoff, i + 1) else i
  }

  /** How many leading times are before the cutoff: what pruning removes. */
  function Leading(times: seq<int>, cutoff: int): nat {
    LeadingFrom(times, cutoff, 0)
  }

  // ----- Steps -----

  /** An arrival in order is accepted. */
  predicate InOrder(w: Window, arrival: int) {
    arrival >= 0 && (w.lastPose.Some? ==> arrival >= w.lastPose.value.arrival)
  }

  function Observe(w: Window, p: TimedPose, cap: nat): Window {
    if InOrder(w, p.arrival) then
      w.(lastPose := Some(p), trail := LastN(w.trail + [p], cap), rateTimes := LastN(w.rateTimes + [p.arrival], cap))
    else w
  }

  function Prune(w: Window, now: int): Window {
    w.(trail := w.trail[Leading(Arrivals(w.trail), now - TRAIL_NS)..],
       rateTimes := w.rateTimes[Leading(w.rateTimes, now - RATE_NS)..])
  }

  datatype Event =
    | Observed(pose: TimedPose)
    | Reported(status: StatusValue)
    | Snapshotted(now: nat)

  function Step(w: Window, e: Event, cap: nat): Window {
    match e
    case Observed(p) => Observe(w, p, cap)
    case Reported(s) => w.(status := Some(s))
    case Snapshotted(now) => Prune(w, now)
  }

  function After(events: seq<Event>, cap: nat): Window {
    if events == [] then EMPTY else Step(After(events[..|events| - 1], cap), events[|events| - 1], cap)
  }

  // ----- The history -----

  /** The accepted poses: each not before the one accepted last. */
  function Accepted(events: seq<Event>): seq<TimedPose> {
    if events == [] then []
    else
      var before, e := Accepted(events[..|events| - 1]), events[|events| - 1];
      if e.Observed? && e.pose.arrival >= 0 && (before != [] ==> e.pose.arrival >= before[|before| - 1].arrival)
      then before + [e.pose]
      else before
  }

  /** The poses not older than the cutoff. */
  function Since(s: seq<TimedPose>, cutoff: int): seq<TimedPose> {
    if s == [] then []
    else
      var last := s[|s| - 1];
      Since(s[..|s| - 1], cutoff) + if last.arrival >= cutoff then [last] else []
  }

  ghost predicate Before(times: seq<int>, i: int, j: int) {
    0 <= i < j < |times| ==> times[i] <= times[j]
  }

  ghost predicate NonDecreasing(times: seq<int>) {
    forall i, j :: Before(times, i, j)
  }

  lemma InOrderAppend(times: seq<int>, t: int)
    requires NonDecreasing(times) && (times != [] ==> times[|times| - 1] <= t)
    ensures NonDecreasing(times + [t])
  {
    forall i, j ensures Before(times + [t], i, j) {
      assert Before(times, i, j) && Before(times, i, |times| - 1);
    }
  }

  lemma ArrivalsAppend(all: seq<TimedPose>, p: TimedPose)
    ensures Arrivals(all + [p]) == Arrivals(all) + [p.arrival]
  {
    assert (all + [p])[..|all|] == all;
  }

  lemma ArrivalsSuffix(all: seq<TimedPose>, k: nat)
    requires k <= |all|
    ensures Arrivals(all[k..]) == Arrivals(all)[k..]
  {
  }

  /** The accepted poses arrived in order. */
  lemma {:induction false} AcceptedInOrder(events: seq<Event>)
    ensures NonDecreasing(Arrivals(Accepted(events)))
  {
    if events != [] {
      var before, e := Accepted(events[..|events| - 1]), events[|events| - 1];
      AcceptedInOrder(events[..|events| - 1]);
      if e.Observed? && Accepted(events) == before + [e.pose] {
        ArrivalsAppend(before, e.pose);
        if e.pose.arrival >= 0 && (before != [] ==> e.pose.arrival >= before[|before| - 1].arrival) {
          InOrderAppend(Arrivals(before), e.pose.arrival);
        }
      }
    }
  }

  // ----- Pruning -----

  lemma LeadingIs(times: seq<int>, cutoff: int, n: nat)
    requires n <= |times| && (forall i :: 0 <= i < n ==> times[i] < cutoff) && (n < |times| ==> times[n] >= cutoff)
    ensures Leading(times, cutoff) == n
  {
  }

  /** Pruning a suffix of an ordered sequence leaves a later suffix. */
  lemma LeadingOfSuffix(times: seq<int>, k: nat, cutoff: int)
    requires NonDecreasing(times) && k <= |times|
    ensures k + Leading(times[k..], cutoff) == Max(k, Leading(times, cutoff))
  {
    var n := Leading(times, cutoff);
    if k <= n {
      LeadingIs(times[k..], cutoff, n - k);
    } else {
      assert Before(times, n, k);
      LeadingIs(times[k..], cutoff, 0);
    }
  }

  /** How far into the accepted poses some snapshot has pruned, for poses kept `age` long. */
  function PrunedTo(events: seq<Event>, age: nat): nat {
    if events == [] then 0
    else
      var before, e := PrunedTo(events[..|events| - 1], age), events[|events| - 1];
      if e.Snapshotted? then Max(before, Leading(Arrivals(Accepted(events)), e.now - age)) else before
  }

  /** Where the kept suffix of the accepted poses starts. */
  function Start(events: seq<Event>, cap: nat, age: nat): int {
    Max(PrunedTo(events, age), |Accepted(events)| - cap)
  }

  lemma {:induction false} PrunedWithin(events: seq<Event>, age: nat)
    ensures PrunedTo(events, age) <= |Accepted(events)|
  {
    if events != [] {
      PrunedWithin(events[..|events| - 1], age);
    }
  }

  lemma CapSuffix<T>(all: seq<T>, k: nat, x: T, cap: nat)
    requires k <= |all| && cap > 0
    ensures LastN(all[k..] + [x], cap) == (all + [x])[Max(k, |all| + 1 - cap)..]
  {
  }

  lemma PruneTimes(kept: seq<int>, times: seq<int>, r: int, cutoff: int)
    requires 0 <= r <= |times| && kept == times[r..] && NonDecreasing(times)
    ensures r + Leading(kept, cutoff) == Max(r, Leading(times, cutoff)) <= |times|
    ensures kept[Leading(kept, cutoff)..] == times[Max(r, Leading(times, cutoff))..]
  {
    LeadingOfSuffix(times, r, cutoff);
  }

  lemma PruneTrail(trail: seq<TimedPose>, all: seq<TimedPose>, t: int, cutoff: int)
    requires 0 <= t <= |all| && trail == all[t..] && NonDecreasing(Arrivals(all))
    ensures t <= Max(t, Leading(Arrivals(all), cutoff)) <= |all|
    ensures trail[Leading(Arrivals(trail), cutoff)..] == all[Max(t, Leading(Arrivals(all), cutoff))..]
  {
    ArrivalsSuffix(all, t);
    PruneTimes(Arrivals(trail), Arrivals(all), t, cutoff);
  }

  /** Whether the event adds an accepted pose. */
  predicate Adds(w: Window, e: Event) {
    e.Observed? && InOrder(w, e.pose.arrival)
  }

  lemma AcceptedStep(events: seq<Event>, w: Window, cap: nat)
    requires events != []
    requires var all := Accepted(events[..|events| - 1]);
             w.lastPose == if all == [] then None else Some(all[|all| - 1])
    ensures var all, e := Accepted(events[..|events| - 1]), events[|events| - 1];
            Accepted(events) == if Adds(w, e) then all + [e.pose] else all
  {
  }

  /** The last pose kept is the last accepted. */
  lemma {:induction false} LastPoseKept(events: seq<Event>, cap: nat)
    ensures var all := Accepted(events);
            After(events, cap).lastPose == if all == [] then None else Some(all[|all| - 1])
  {
    if events != [] {
      var init := events[..|events| - 1];
      LastPoseKept(init, cap);
      AcceptedStep(events, After(init, cap), cap);
    }
  }

  lemma StartStep(events: seq<Event>, cap: nat, age: nat)
    requires events != []
    ensures var init, e := events[..|events| - 1], events[|events| - 1];
            && (!e.Snapshotted? ==> Start(events, cap, age) == Max(Start(init, cap, age), |Accepted(events)| - cap))
            && (e.Snapshotted? ==>
                  Start(events, cap, age) == Max(Start(init, cap, age), Leading(Arrivals(Accepted(init)), e.now - age)))
  {
    var init, e := events[..|events| - 1], events[|events| - 1];
    if e.Snapshotted? {
      assert Accepted(events) == Accepted(init);
    } else {
      assert PrunedTo(events, age) == PrunedTo(init, age);
      assert |Accepted(events)| >= |Accepted(init)|;
    }
  }

  lemma TrailPruned(w: Window, now: int, all: seq<TimedPose>, t: int)
    requires 0 <= t <= |all| && w.trail == all[t..] && NonDecreasing(Arrivals(all))
    ensures var t' := Max(t, Leading(Arrivals(all), now - TRAIL_NS));
            0 <= t' <= |all| && Prune(w, now).trail == all[t'..]
  {
    PruneTrail(w.trail, all, t, now - TRAIL_NS);
  }

  lemma TrailStep(w: Window, e: Event, cap: nat, all: seq<TimedPose>, t: int, all': seq<TimedPose>, t': int)
    requires cap > 0 && 0 <= t <= |all| && |all| - cap <= t && w.trail == all[t..] && NonDecreasing(Arrivals(all))
    requires all' == if Adds(w, e) then all + [e.pose] else all
    requires t' == if e.Snapshotted? then Max(t, Leading(Arrivals(all), e.now - TRAIL_NS)) else Max(t, |all'| - cap)
    ensures 0 <= t' <= |all'| && Step(w, e, cap).trail == all'[t'..]
  {
    if e.Snapshotted? {
      TrailPruned(w, e.now, all, t);
    } else if Adds(w, e) {
      CapSuffix(all, t, e.pose, cap);
    }
  }

  /** The trail: the accepted poses past those pruned and those the cap pushed out. */
  lemma {:induction false} TrailKept(events: seq<Event>, cap: nat)
    requires cap > 0
    ensures 0 <= Start(events, cap, TRAIL_NS) <= |Accepted(events)|
    ensures After(events, cap).trail == Accepted(events)[Start(events, cap, TRAIL_NS)..]
  {
    if events != [] {
      var init, e := events[..|events| - 1], events[|events| - 1];
      TrailKept(init, cap);
      AcceptedInOrder(init);
      LastPoseKept(init, cap);
      AcceptedStep(events, After(init, cap), cap);
      StartStep(events, cap, TRAIL_NS);
      TrailStep(After(init, cap), e, cap, Accepted(init), Start(init, cap, TRAIL_NS),
                Accepted(events), Start(events, cap, TRAIL_NS));
    }
  }

  lemma RateStep(w: Window, e: Event, cap: nat, times: seq<int>, r: int, times': seq<int>, r': int)
    requires cap > 0 && 0 <= r <= |times| && |times| - cap <= r && w.rateTimes == times[r..] && NonDecreasing(times)
    requires times' == if Adds(w, e) then times + [e.pose.arrival] else times
    requires r' == if e.Snapshotted? then Max(r, Leading(times, e.now - RATE_NS)) else Max(r, |times'| - cap)
    ensures 0 <= r' <= |times'| && Step(w, e, cap).rateTimes == times'[r'..]
  {
    if e.Snapshotted? {
      PruneTimes(w.rateTimes, times, r, e.now - RATE_NS);
    } else if Adds(w, e) {
      CapSuffix(times, r, e.pose.arrival, cap);
    }
  }

  lemma {:induction false} RateKept(events: seq<Event>, cap: nat)
    requires cap > 0
    ensures 0 <= Start(events, cap, RATE_NS) <= |Accepted(events)|
    ensures After(events, cap).rateTimes == Arrivals(Accepted(events))[Start(events, cap, RATE_NS)..]
  {
    if events != [] {
      var init, e := events[..|events| - 1], events[|events| - 1];
      RateKept(init, cap);
      AcceptedInOrder(init);
      LastPoseKept(init, cap);
      AcceptedStep(events, After(init, cap), cap);
      StartStep(events, cap, RATE_NS);
      if Adds(After(init, cap), e) {
        ArrivalsAppend(Accepted(init), e.pose);
      }
      RateStep(After(init, cap), e, cap, Arrivals(Accepted(init)), Start(init, cap, RATE_NS),
               Arrivals(Accepted(events)), Start(events, cap, RATE_NS));
    }
  }

  // ----- Against the filter over the whole history -----

  /** In an ordered sequence the recent poses are a suffix. */
  lemma {:induction false} SinceIsSuffix(s: seq<TimedPose>, cutoff: int)
    requires NonDecreasing(Arrivals(s))
    ensures Since(s, cutoff) == s[Leading(Arrivals(s), cutoff)..]
  {
    if s != [] {
      var init, last := s[..|s| - 1], s[|s| - 1];
      assert s == init + [last];
      ArrivalsAppend(init, last);
      forall i, j ensures Before(Arrivals(init), i, j) {
        assert Before(Arrivals(s), i, j);
      }
      SinceIsSuffix(init, cutoff);
      LeadingAppend(Arrivals(init), last.arrival, cutoff);
      assert Before(Arrivals(s), Leading(Arrivals(init), cutoff), |init|);
    }
  }

  lemma LeadingAppend(times: seq<int>, t: int, cutoff: int)
    ensures var n := Leading(times, cutoff);
            Leading(times + [t], cutoff) == if n == |times| && t < cutoff then n + 1 else n
  {
    var n := Leading(times, cutoff);
    LeadingIs(times + [t], cutoff, if n == |times| && t < cutoff then n + 1 else n);
  }

  /** What a viewer should see: the newest `cap` accepted poses that are recent enough. */
  function Ideal(events: seq<Event>, cap: nat, now: nat, age: nat): seq<TimedPose> {
    Since(LastN(Accepted(events), cap), now - age)
  }

  lemma SuffixInOrder(times: seq<int>, k: nat)
    requires NonDecreasing(times) && k <= |times|
    ensures NonDecreasing(times[k..])
  {
    forall i, j ensures Before(times[k..], i, j) {
      assert Before(times, k + i, k + j);
    }
  }

  lemma RecentSuffix(all: seq<TimedPose>, cap: nat, cutoff: int)
    requires NonDecreasing(Arrivals(all))
    ensures var k := Max(Leading(Arrivals(all), cutoff), |all| - cap);
            0 <= k <= |all| && Since(LastN(all, cap), cutoff) == all[k..]
  {
    var k := Max(0, |all| - cap);
    assert LastN(all, cap) == all[k..];
    ArrivalsSuffix(all, k);
    SuffixInOrder(Arrivals(all), k);
    SinceIsSuffix(all[k..], cutoff);
    LeadingOfSuffix(Arrivals(all), k, cutoff);
  }

  /**
   When a snapshot is exact: nothing was pruned, the newest pose ever pruned is too old now as well, or
   the cap would have pushed it out anyway.
   */
  ghost predicate PruningHarmless(events: seq<Event>, cap: nat, now: nat, age: nat)
  {
    var all, p := Accepted(events), PrunedTo(events, age);
    p == 0 || p <= |all| - cap || (p <= |all| && all[p - 1].arrival < now - age)
  }

  lemma HarmlessIff(events: seq<Event>, cap: nat, now: nat, age: nat)
    requires cap > 0
    ensures var f := Leading(Arrivals(Accepted(events)), now - age);
            PruningHarmless(events, cap, now, age)
            <==> Max(Start(events, cap, age), f) == Max(f, |Accepted(events)| - cap)
  {
    PrunedWithin(events, age);
    AcceptedInOrder(events);
    var p, times := PrunedTo(events, age), Arrivals(Accepted(events));
    if p > 0 {
      BeforeCutoff(times, p - 1, now - age);
    }
  }

  lemma BeforeCutoff(times: seq<int>, i: nat, cutoff: int)
    requires NonDecreasing(times) && i < |times|
    ensures times[i] < cutoff <==> i < Leading(times, cutoff)
  {
    var f := Leading(times, cutoff);
    assert Before(times, f, i);
  }

  lemma SuffixesEqual<T>(s: seq<T>, i: nat, j: nat)
    requires i <= |s| && j <= |s|
    ensures s[i..] == s[j..] <==> i == j
  {
    if s[i..] == s[j..] {
      assert |s[i..]| == |s| - i && |s[j..]| == |s| - j;
    }
  }

  /** A snapshot shows the ideal trail exactly if earlier pruning was harmless. */
  lemma TrailIsIdealIff(events: seq<Event>, cap: nat, now: nat)
    requires cap > 0
    ensures var shown := Prune(After(events, cap), now).trail;
            var ideal := Ideal(events, cap, now, TRAIL_NS);
            && (shown == ideal <==> PruningHarmless(events, cap, now, TRAIL_NS))
            && (|shown| == |ideal| <==> PruningHarmless(events, cap, now, TRAIL_NS))
  {
    var w, all, start := After(events, cap), Accepted(events), Start(events, cap, TRAIL_NS);
    assert PruningHarmless(events, cap, now, TRAIL_NS)
      <==> Max(start, Leading(Arrivals(all), now - TRAIL_NS))
           == Max(Leading(Arrivals(all), now - TRAIL_NS), |all| - cap) by {
      HarmlessIff(events, cap, now, TRAIL_NS);
    }
    TrailKept(events, cap);
    AcceptedInOrder(events);
    TrailShown(w.trail, all, start, cap, now - TRAIL_NS);
    assert Prune(w, now).trail == w.trail[Leading(Arrivals(w.trail), now - TRAIL_NS)..];
  }

  lemma TrailShown(trail: seq<TimedPose>, all: seq<TimedPose>, t: int, cap: nat, cutoff: int)
    requires 0 <= t <= |all| && trail == all[t..] && NonDecreasing(Arrivals(all))
    ensures var f := Leading(Arrivals(all), cutoff);
            var shown, ideal := trail[Leading(Arrivals(trail), cutoff)..], Since(LastN(all, cap), cutoff);
            && (shown == ideal <==> Max(t, f) == Max(f, |all| - cap))
            && (|shown| == |ideal| <==> Max(t, f) == Max(f, |all| - cap))
  {
    var f := Leading(Arrivals(all), cutoff);
    PruneTrail(trail, all, t, cutoff);
    RecentSuffix(all, cap, cutoff);
    SuffixesEqual(all, Max(t, f), Max(f, |all| - cap));
  }

  /** Likewise the receive rate counts the ideal poses of the last second. */
  lemma RateIsIdealIff(events: seq<Event>, cap: nat, now: nat)
    requires cap > 0
    ensures var shown := Prune(After(events, cap), now).rateTimes;
            var ideal := Ideal(events, cap, now, RATE_NS);
            && (shown == Arrivals(ideal) <==> PruningHarmless(events, cap, now, RATE_NS))
            && (|shown| == |ideal| <==> PruningHarmless(events, cap, now, RATE_NS))
  {
    var w, all, start := After(events, cap), Accepted(events), Start(events, cap, RATE_NS);
    assert PruningHarmless(events, cap, now, RATE_NS)
      <==> Max(start, Leading(Arrivals(all), now - RATE_NS))
           == Max(Leading(Arrivals(all), now - RATE_NS), |all| - cap) by {
      HarmlessIff(events, cap, now, RATE_NS);
    }
    RateKept(events, cap);
    AcceptedInOrder(events);
    RateShown(w.rateTimes, all, start, cap, now - RATE_NS);
    assert Prune(w, now).rateTimes == w.rateTimes[Leading(w.rateTimes, now - RATE_NS)..];
  }

  lemma RateShown(kept: seq<int>, all: seq<TimedPose>, r: int, cap: nat, cutoff: int)
    requires 0 <= r <= |all| && kept == Arrivals(all)[r..] && NonDecreasing(Arrivals(all))
    ensures var f := Leading(Arrivals(all), cutoff);
            var shown, ideal := kept[Leading(kept, cutoff)..], Since(LastN(all, cap), cutoff);
            && (shown == Arrivals(ideal) <==> Max(r, f) == Max(f, |all| - cap))
            && (|shown| == |ideal| <==> Max(r, f) == Max(f, |all| - cap))
  {
    var f := Leading(Arrivals(all), cutoff);
    PruneTimes(kept, Arrivals(all), r, cutoff);
    RecentSuffix(all, cap, cutoff);
    ArrivalsSuffix(all, Max(f, |all| - cap));
    SuffixesEqual(Arrivals(all), Max(r, f), Max(f, |all| - cap));
  }

  // ----- Snapshots that never go back in time -----

  /** No snapshot is later than `now`. */
  ghost predicate SnapshotsBy(events: seq<Event>, now: nat) {
    forall i :: 0 <= i < |events| && events[i].Snapshotted? ==> events[i].now <= now
  }

  lemma {:induction false} EarlierPruningIsHarmless(events: seq<Event>, now: nat, age: nat)
    requires SnapshotsBy(events, now)
    ensures var p := PrunedTo(events, age);
            p <= |Accepted(events)| && (p > 0 ==> Accepted(events)[p - 1].arrival < now - age)
  {
    PrunedWithin(events, age);
    if events != [] {
      var init, e := events[..|events| - 1], events[|events| - 1];
      assert SnapshotsBy(init, now) by {
        assert forall i :: 0 <= i < |init| ==> init[i] == events[i];
      }
      EarlierPruningIsHarmless(init, now, age);
      if e.Snapshotted? {
        assert e == events[|events| - 1] && e.now <= now;
        var f := Leading(Arrivals(Accepted(events)), e.now - age);
        if f > 0 {
          assert Arrivals(Accepted(events))[f - 1] < e.now - age;
        }
      }
    }
  }

  /**
   When no earlier snapshot was taken at a later time, a snapshot shows exactly the accepted poses of the
   last three seconds among the newest `cap`, and counts exactly those of the last second.
   */
  lemma SnapshotsShowTheWindow(events: seq<Event>, cap: nat, now: nat)
    requires cap > 0 && SnapshotsBy(events, now)
    ensures Prune(After(events, cap), now).trail == Ideal(events, cap, now, TRAIL_NS)
    ensures Prune(After(events, cap), now).rateTimes == Arrivals(Ideal(events, cap, now, RATE_NS))
  {
    assert PruningHarmless(events, cap, now, TRAIL_NS) by {
      EarlierPruningIsHarmless(events, now, TRAIL_NS);
    }
    assert PruningHarmless(events, cap, now, RATE_NS) by {
      EarlierPruningIsHarmless(events, now, RATE_NS);
    }
    TrailIsIdealIff(events, cap, now);
    RateIsIdealIff(events, cap, now);
  }

  /** After a snapshot from the future, one at the present misses poses that are still recent. */
  lemma LateSnapshotLosesPoses(p: PoseValue, cap: nat)
    requires cap > 0
    ensures var events := [Observed(TimedPose(0, p)), Snapshotted(TRAIL_NS + 1)];
            Prune(After(events, cap), 1).trail == [] && Ideal(events, cap, 1, TRAIL_NS) == [TimedPose(0, p)]
  {
    var x := TimedPose(0, p);
    var one, events := [Observed(x)], [Observed(x), Snapshotted(TRAIL_NS + 1)];
    assert events[..1] == one && one[..0] == [];
    assert Accepted(one) == [x];
    assert Accepted(events) == Accepted(one);
    var w := After(one, cap);
    assert After([], cap) == EMPTY && one[..|one| - 1] == [];
    assert w == Step(EMPTY, Observed(x), cap) == Observe(EMPTY, x, cap);
    assert w.trail == LastN([] + [x], cap) == [x];
    assert After(events, cap) == Prune(w, TRAIL_NS + 1);
    LeadingIs(Arrivals(w.trail), TRAIL_NS + 1 - TRAIL_NS, 1);
    assert After(events, cap).trail == w.trail[1..] == [];
    assert Prune(After(events, cap), 1).trail == [];
    assert [x][..0] == [];
    assert Since([x], 1 - TRAIL_NS) == [x];
  }
}
