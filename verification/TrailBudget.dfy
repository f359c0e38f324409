/**
 The fixed point budget of a drawn trail
 (ros2_ws/src/vt_vive_tracker_gui/vt_vive_tracker_gui/canvas3d.py, lines 39 and 66-105).
 */
module TrailBudget {
  import opened Prelude
  import opened Apportionment
  import opened TrailSampling

  const MAX_TRAIL_POINTS: nat := 96

  function Lengths<T>(runs: seq<seq<T>>): (s: seq<nat>)
    ensures |s| == |runs| && forall i :: 0 <= i < |runs| ==> s[i] == |runs[i]|
  {
    seq(|runs|, i requires 0 <= i < |runs| => |runs[i]|)
  }

  function TotalPoints<T>(runs: seq<seq<T>>): nat {
    Sum(Lengths(runs))
  }

  /** What every run keeps at least: its endpoints. */
  function Minimum<T>(run: seq<T>): nat {
    if |run| == 1 then 1 else 2
  }

  function Minimums<T>(runs: seq<seq<T>>): (s: seq<nat>)
    ensures |s| == |runs| && forall i :: 0 <= i < |runs| ==> s[i] == Minimum(runs[i])
  {
    seq(|runs|, i requires 0 <= i < |runs| => Minimum(runs[i]))
  }

  ghost predicate NonemptyRuns<T>(runs: seq<seq<T>>) {
    forall i :: 0 <= i < |runs| ==> runs[i] != []
  }

  function Capacities<T>(runs: seq<seq<T>>): (s: seq<nat>)
    requires forall i :: 0 <= i < |runs| ==> runs[i] != []
    ensures |s| == |runs| && forall i :: 0 <= i < |runs| ==> s[i] == |runs[i]| - Minimum(runs[i])
  {
    seq(|runs|, i requires 0 <= i < |runs| => assert runs[i] != []; |runs[i]| - Minimum(runs[i]))
  }

  /** Every output run is drawn from one input run, in order and without mixing. */
  ghost predicate DrawnFrom<T>(out: seq<seq<T>>, runs: seq<seq<T>>, source: seq<nat>) {
    && |source| == |out|
    && (forall k, l :: 0 <= k < l < |source| ==> source[k] < source[l])
    && (forall k :: 0 <= k < |out| ==>
          && source[k] < |runs| && IsSubsequence(out[k], runs[source[k]])
          && (out[k] == [] ==> runs[source[k]] == []))
  }

  ghost predicate KeepsEnds<T>(part: seq<T>, run: seq<T>) {
    part != [] && run != [] && part[0] == run[0] && part[|part| - 1] == run[|run| - 1]
  }

  // ----- When the minimums fit: apportion the rest -----

  lemma {:induction false} SumOfSums(a: seq<nat>, b: seq<nat>, c: seq<nat>)
    requires |a| == |b| == |c| && forall i :: 0 <= i < |a| ==> a[i] + b[i] == c[i]
    ensures Sum(a) + Sum(b) == Sum(c)
  {
    if a != [] {
      SumOfSums(a[..|a| - 1], b[..|b| - 1], c[..|c| - 1]);
    }
  }

  lemma SumsAgree(a: seq<nat>, b: seq<nat>)
    requires |a| == |b| && forall i :: 0 <= i < |a| ==> a[i] == b[i]
    ensures Sum(a) == Sum(b)
  {
    assert a == b;
  }

  function Quotas(minimums: seq<nat>, extras: seq<nat>): (s: seq<nat>)
    requires |minimums| == |extras|
    ensures |s| == |minimums| && forall i :: 0 <= i < |s| ==> s[i] == minimums[i] + extras[i]
  {
    seq(|minimums|, i requires 0 <= i < |minimums| => minimums[i] + extras[i])
  }

  /** An even sample of the run of the size asked for, ends included. */
  ghost predicate WellSampled<T>(part: seq<T>, run: seq<T>, quota: nat) {
    |part| == quota && IsSubsequence(part, run) && KeepsEnds(part, run) && IsEvenSample(part, run)
  }

  lemma RunIsWellSampled<T>(run: seq<T>, quota: nat)
    requires run != [] && Minimum(run) <= quota <= |run|
    ensures WellSampled(EvenlySampled(run, quota), run, quota)
  {
    SamplingPicks(run, quota);
    SamplingIsSubsequence(run, quota);
    SamplingIsEven(run, quota);
  }

  /** Samples each run down to its quota. */
  method SampleRuns<T>(runs: seq<seq<T>>, quotas: seq<nat>) returns (out: seq<seq<T>>)
    requires |quotas| == |runs| && NonemptyRuns(runs)
    requires forall i :: 0 <= i < |runs| ==> Minimum(runs[i]) <= quotas[i] <= |runs[i]|
    ensures |out| == |runs|
    ensures forall i :: 0 <= i < |runs| ==> WellSampled(out[i], runs[i], quotas[i])
  {
    out := [];
    var i := 0;
    while i < |runs|
      invariant 0 <= i <= |runs| && |out| == i
      invariant forall j :: 0 <= j < i ==> out[j] == EvenlySampled(runs[j], quotas[j])
    {
      out := out + [EvenlySampled(runs[i], quotas[i])];
      i := i + 1;
    }
    forall i | 0 <= i < |runs| ensures WellSampled(out[i], runs[i], quotas[i]) {
      RunIsWellSampled(runs[i], quotas[i]);
    }
  }

  ghost function Identity(n: nat): (s: seq<nat>)
    ensures |s| == n && forall i :: 0 <= i < n ==> s[i] == i
  {
    seq(n, i => i)
  }

  /** Shares out what the minimums leave over. */
  method SpareShares<T>(runs: seq<seq<T>>) returns (extras: seq<nat>)
    requires NonemptyRuns(runs)
    requires TotalPoints(runs) > MAX_TRAIL_POINTS >= Sum(Minimums(runs))
    ensures |extras| == |runs| && Sum(extras) == MAX_TRAIL_POINTS - Sum(Minimums(runs))
    ensures forall i :: 0 <= i < |runs| ==> Minimum(runs[i]) + extras[i] <= |runs[i]|
    ensures Sum(Capacities(runs)) > 0
    ensures Fair(MAX_TRAIL_POINTS - Sum(Minimums(runs)), Capacities(runs), Sum(Capacities(runs)), extras)
  {
    var minimums := Minimums(runs);
    var remaining := MAX_TRAIL_POINTS - Sum(minimums);
    var capacities := Capacities(runs);
    SumOfSums(minimums, capacities, Lengths(runs));
    extras := Apportion(remaining, capacities);
  }

  method ApportionedRuns<T>(runs: seq<seq<T>>) returns (out: seq<seq<T>>)
    requires NonemptyRuns(runs)
    requires TotalPoints(runs) > MAX_TRAIL_POINTS >= Sum(Minimums(runs))
    ensures TotalPoints(out) == MAX_TRAIL_POINTS
    ensures DrawnFrom(out, runs, Identity(|runs|))
    ensures forall i :: 0 <= i < |runs| ==> Minimum(runs[i]) <= |out[i]| <= |runs[i]| && KeepsEnds(out[i], runs[i])
    ensures ProportionalTo(out, runs)
    ensures forall i :: 0 <= i < |runs| ==> IsEvenSample(out[i], runs[i])
  {
    var extras := SpareShares(runs);
    out := SampleRuns(runs, Quotas(Minimums(runs), extras));
    QuotasAddUp(out, runs, extras);
    SampledAreDrawn(out, runs);
    ExtrasAgree(out, runs, extras);
  }

  lemma QuotasAddUp<T>(out: seq<seq<T>>, runs: seq<seq<T>>, extras: seq<nat>)
    requires |out| == |runs| == |extras|
    requires forall i :: 0 <= i < |runs| ==> |out[i]| == Minimum(runs[i]) + extras[i]
    ensures TotalPoints(out) == Sum(Minimums(runs)) + Sum(extras)
  {
    SumOfSums(Minimums(runs), extras, Lengths(out));
  }

  lemma SampledAreDrawn<T>(out: seq<seq<T>>, runs: seq<seq<T>>)
    requires |out| == |runs|
    requires forall i :: 0 <= i < |runs| ==> IsSubsequence(out[i], runs[i]) && KeepsEnds(out[i], runs[i])
    ensures DrawnFrom(out, runs, Identity(|runs|))
  {
  }

  /** The points each run keeps beyond its minimum. */
  ghost function Extras<T>(out: seq<seq<T>>, runs: seq<seq<T>>): (s: seq<nat>)
    requires |out| == |runs| && forall i :: 0 <= i < |runs| ==> Minimum(runs[i]) <= |out[i]|
  {
    seq(|runs|, i requires 0 <= i < |runs| => |out[i]| - Minimum(runs[i]))
  }

  /** Spare points are shared in proportion to spare length, by largest remainder. */
  ghost predicate ProportionalTo<T>(out: seq<seq<T>>, runs: seq<seq<T>>) {
    && |out| == |runs| && NonemptyRuns(runs)
    && (forall i :: 0 <= i < |runs| ==> Minimum(runs[i]) <= |out[i]|)
    && MAX_TRAIL_POINTS >= Sum(Minimums(runs))
    && Sum(Capacities(runs)) > 0
    && Fair(MAX_TRAIL_POINTS - Sum(Minimums(runs)), Capacities(runs), Sum(Capacities(runs)), Extras(out, runs))
  }

  lemma ExtrasAgree<T>(out: seq<seq<T>>, runs: seq<seq<T>>, extras: seq<nat>)
    requires |out| == |runs| == |extras|
    requires forall i :: 0 <= i < |runs| ==> |out[i]| == Minimum(runs[i]) + extras[i]
    ensures Extras(out, runs) == extras
  {
  }

  // ----- When even the endpoints do not fit: sample the endpoints -----

  /** One endpoint: its run, and the point. */
  datatype Endpoint<T> = Endpoint(run: nat, point: T)

  /** The first or the last position of a run. */
  ghost predicate IsEnd(position: nat, length: nat) {
    position == 0 || position + 1 == length
  }

  /** Endpoints of the first `n` runs, in order, at the positions `at` of their runs. */
  ghost predicate EndpointsOf<T>(endpoints: seq<Endpoint<T>>, at: seq<nat>, runs: seq<seq<T>>, n: nat) {
    && |at| == |endpoints|
    && (forall k :: 0 <= k < |endpoints| ==>
                      && endpoints[k].run < n <= |runs| && at[k] < |runs[endpoints[k].run]|
                      && IsEnd(at[k], |runs[endpoints[k].run]|)
                      && endpoints[k].point == runs[endpoints[k].run][at[k]])
    && (forall k, l :: 0 <= k < l < |endpoints| ==>
                         endpoints[k].run < endpoints[l].run || (endpoints[k].run == endpoints[l].run && at[k] < at[l]))
  }

  lemma EndpointsAppend<T>(endpoints: seq<Endpoint<T>>, at: seq<nat>, runs: seq<seq<T>>, r: nat, position: nat)
    requires EndpointsOf(endpoints, at, runs, r + 1) && r < |runs| && position < |runs[r]| && IsEnd(position, |runs[r]|)
    requires forall k :: 0 <= k < |endpoints| ==> endpoints[k].run < r || (endpoints[k].run == r && at[k] < position)
    ensures EndpointsOf(endpoints + [Endpoint(r, runs[r][position])], at + [position], runs, r + 1)
  {
  }

  /** The first and the last point of a run, or its only one. */
  function EndsOf<T>(run: seq<T>): seq<T> {
    if |run| <= 1 then run else [run[0], run[|run| - 1]]
  }

  /** All endpoints of the runs, in order. */
  function AllEndpoints<T>(runs: seq<seq<T>>): seq<T> {
    if runs == [] then [] else AllEndpoints(runs[..|runs| - 1]) + EndsOf(runs[|runs| - 1])
  }

  /** The points of a list of endpoints. */
  function PointsIn<T>(endpoints: seq<Endpoint<T>>): (s: seq<T>)
    ensures |s| == |endpoints| && forall i :: 0 <= i < |s| ==> s[i] == endpoints[i].point
  {
    seq(|endpoints|, i requires 0 <= i < |endpoints| => endpoints[i].point)
  }

  /** Appends the one or two endpoints of run `r`. */
  method AppendRun<T>(runs: seq<seq<T>>, r: nat, endpoints: seq<Endpoint<T>>, ghost at: seq<nat>)
    returns (endpoints': seq<Endpoint<T>>, ghost at': seq<nat>)
    requires r < |runs| && runs[r] != [] && EndpointsOf(endpoints, at, runs, r)
    ensures |endpoints'| == |endpoints| + Minimum(runs[r])
    ensures EndpointsOf(endpoints', at', runs, r + 1)
    ensures PointsIn(endpoints') == PointsIn(endpoints) + EndsOf(runs[r])
    ensures endpoints' != [] && endpoints'[|endpoints'| - 1] == Endpoint(r, runs[r][|runs[r]| - 1])
    ensures endpoints'[0] == if endpoints == [] then Endpoint(r, runs[r][0]) else endpoints[0]
  {
    var run := runs[r];
    EndpointsAppend(endpoints, at, runs, r, 0);
    endpoints', at' := endpoints + [Endpoint(r, run[0])], at + [0];
    if |run| > 1 {
      EndpointsAppend(endpoints', at', runs, r, |run| - 1);
      endpoints', at' := endpoints' + [Endpoint(r, run[|run| - 1])], at' + [|run| - 1];
    }
  }

  /** From the very first endpoint to the very last. */
  ghost predicate Spans<T>(endpoints: seq<Endpoint<T>>, runs: seq<seq<T>>) {
    && endpoints != [] && runs != [] && runs[0] != [] && runs[|runs| - 1] != []
    && endpoints[0] == Endpoint(0, runs[0][0])
    && var n := |runs| - 1;
       endpoints[|endpoints| - 1] == Endpoint(n, runs[n][|runs[n]| - 1])
  }

  /** The endpoints of the first `r` runs, all of them and in order. */
  ghost predicate Collected<T>(endpoints: seq<Endpoint<T>>, at: seq<nat>, runs: seq<seq<T>>, r: nat) {
    && r <= |runs|
    && |endpoints| == Sum(Minimums(runs)[..r])
    && EndpointsOf(endpoints, at, runs, r)
    && PointsIn(endpoints) == AllEndpoints(runs[..r])
    && if r == 0 then endpoints == [] else Spans(endpoints, runs[..r])
  }

  /** One more run. */
  method CollectRun<T>(runs: seq<seq<T>>, r: nat, endpoints: seq<Endpoint<T>>, ghost at: seq<nat>)
    returns (endpoints': seq<Endpoint<T>>, ghost at': seq<nat>)
    requires NonemptyRuns(runs) && r < |runs| && Collected(endpoints, at, runs, r)
    ensures Collected(endpoints', at', runs, r + 1)
  {
    endpoints', at' := AppendRun(runs, r, endpoints, at);
    ghost var minimums := Minimums(runs);
    assert minimums[..r + 1] == minimums[..r] + [minimums[r]];
    SumAppend(minimums[..r], minimums[r]);
    assert runs[..r + 1][..r] == runs[..r];
  }

  lemma NothingCollected<T>(runs: seq<seq<T>>)
    ensures Collected<T>([], [], runs, 0)
  {
    assert runs[..0] == [];
  }

  lemma AllCollected<T>(endpoints: seq<Endpoint<T>>, at: seq<nat>, runs: seq<seq<T>>)
    requires Collected(endpoints, at, runs, |runs|)
    ensures |endpoints| == Sum(Minimums(runs))
    ensures EndpointsOf(endpoints, at, runs, |runs|)
    ensures PointsIn(endpoints) == AllEndpoints(runs)
    ensures runs != [] ==> Spans(endpoints, runs)
  {
    assert Minimums(runs)[..|runs|] == Minimums(runs) && runs[..|runs|] == runs;
  }

  method CollectEndpoints<T>(runs: seq<seq<T>>) returns (endpoints: seq<Endpoint<T>>, ghost at: seq<nat>)
    requires NonemptyRuns(runs)
    ensures |endpoints| == Sum(Minimums(runs))
    ensures EndpointsOf(endpoints, at, runs, |runs|)
    ensures PointsIn(endpoints) == AllEndpoints(runs)
    ensures runs != [] ==> Spans(endpoints, runs)
  {
    endpoints, at := [], [];
    NothingCollected(runs);
    var r := 0;
    while r < |runs|
      invariant 0 <= r <= |runs|
      invariant Collected(endpoints, at, runs, r)
    {
      endpoints, at := CollectRun(runs, r, endpoints, at);
      r := r + 1;
    }
    AllCollected(endpoints, at, runs);
  }

  /** One entry of the insertion-ordered dictionary of selected points. */
  datatype Group<T> = Group(run: nat, points: seq<T>)

  /** `selected_runs.setdefault(run_index, []).append(point)`. */
  function AddPoint<T>(groups: seq<Group<T>>, run: nat, point: T): seq<Group<T>> {
    if groups == [] then [Group(run, [point])]
    else if groups[0].run == run then [Group(run, groups[0].points + [point])] + groups[1..]
    else [groups[0]] + AddPoint(groups[1..], run, point)
  }

  function PointsOf<T>(groups: seq<Group<T>>): (out: seq<seq<T>>)
    ensures |out| == |groups| && forall i :: 0 <= i < |groups| ==> out[i] == groups[i].points
  {
    seq(|groups|, i requires 0 <= i < |groups| => groups[i].points)
  }

  /** The points of the groups, one after the other. */
  function Spread<T>(groups: seq<Group<T>>): seq<T> {
    Flatten(PointsOf(groups))
  }

  lemma {:induction false} SpreadAppend<T>(groups: seq<Group<T>>, group: Group<T>)
    ensures Spread(groups + [group]) == Spread(groups) + group.points
  {
    assert PointsOf(groups + [group]) == PointsOf(groups) + [group.points];
    FlattenAppend(PointsOf(groups), group.points);
  }

  /** A point added at the end comes last. */
  lemma {:induction false} AddPointSpreads<T>(groups: seq<Group<T>>, run: nat, point: T)
    requires forall k, l :: 0 <= k < l < |groups| ==> groups[k].run < groups[l].run
    requires groups != [] ==> groups[|groups| - 1].run <= run
    ensures Spread(AddPoint(groups, run, point)) == Spread(groups) + [point]
  {
    var n := |groups| - 1;
    AddPointAtEnd(groups, run, point);
    if groups != [] && groups[n].run == run {
      assert groups == groups[..n] + [groups[n]];
      SpreadAppend(groups[..n], groups[n]);
      SpreadAppend(groups[..n], Group(run, groups[n].points + [point]));
    } else {
      SpreadAppend(groups, Group(run, [point]));
    }
  }

  /** With runs arriving in order, a point only ever joins the last group or opens a new one. */
  lemma {:induction false} AddPointAtEnd<T>(groups: seq<Group<T>>, run: nat, point: T)
    requires forall k, l :: 0 <= k < l < |groups| ==> groups[k].run < groups[l].run
    requires groups != [] ==> groups[|groups| - 1].run <= run
    ensures var n := |groups| - 1;
            AddPoint(groups, run, point)
            == if groups != [] && groups[n].run == run then groups[..n] + [Group(run, groups[n].points + [point])]
               else groups + [Group(run, [point])]
  {
    if |groups| > 1 {
      AddPointAtEnd(groups[1..], run, point);
    }
  }

  ghost predicate GroupsOf<T>(groups: seq<Group<T>>, picks: seq<seq<nat>>, runs: seq<seq<T>>) {
    && |picks| == |groups|
    && (forall k, l :: 0 <= k < l < |groups| ==> groups[k].run < groups[l].run)
    && (forall k :: 0 <= k < |groups| ==>
                      && groups[k].run < |runs| && groups[k].points != []
                      && Picks(picks[k], runs[groups[k].run], groups[k].points)
                      && PicksEnds(picks[k], |runs[groups[k].run]|))
  }

  ghost predicate PicksEnds(picked: seq<nat>, length: nat) {
    forall i :: 0 <= i < |picked| ==> IsEnd(picked[i], length)
  }

  /** The last point grouped so far lies strictly before the next one. */
  ghost predicate LastBefore<T>(groups: seq<Group<T>>, picks: seq<seq<nat>>, run: nat, position: nat) {
    |picks| == |groups| && (groups != [] ==>
      var n := |groups| - 1;
      picks[n] != [] && (groups[n].run < run || (groups[n].run == run && picks[n][|picks[n]| - 1] < position)))
  }

  ghost function GroupSizes<T>(groups: seq<Group<T>>): (s: seq<nat>)
    ensures |s| == |groups| && forall i :: 0 <= i < |groups| ==> s[i] == |groups[i].points|
  {
    seq(|groups|, i requires 0 <= i < |groups| => |groups[i].points|)
  }

  /** The point just added is the last pick of the last group. */
  ghost predicate EndsAt<T>(groups: seq<Group<T>>, picks: seq<seq<nat>>, run: nat, position: nat) {
    && |picks| == |groups| && groups != []
    && var n := |groups| - 1;
       groups[n].run == run && picks[n] != [] && picks[n][|picks[n]| - 1] == position
  }

  lemma JoinLastGroup<T>(groups: seq<Group<T>>, picks: seq<seq<nat>>, runs: seq<seq<T>>, position: nat)
    returns (groups': seq<Group<T>>, picks': seq<seq<nat>>)
    requires GroupsOf(groups, picks, runs) && groups != []
    requires var run := groups[|groups| - 1].run;
             position < |runs[run]| && IsEnd(position, |runs[run]|) && LastBefore(groups, picks, run, position)
    ensures var n := |groups| - 1;
            groups' == groups[..n] + [Group(groups[n].run, groups[n].points + [runs[groups[n].run][position]])]
    ensures GroupsOf(groups', picks', runs) && EndsAt(groups', picks', groups[|groups| - 1].run, position)
    ensures Sum(GroupSizes(groups')) == Sum(GroupSizes(groups)) + 1
  {
    var n := |groups| - 1;
    var run := groups[n].run;
    PicksAppend(picks[n], runs[run], groups[n].points, position);
    groups' := groups[..n] + [Group(run, groups[n].points + [runs[run][position]])];
    picks' := picks[..n] + [picks[n] + [position]];
    SumIncrement(GroupSizes(groups), n);
    assert GroupSizes(groups') == GroupSizes(groups)[n := GroupSizes(groups)[n] + 1];
  }

  lemma OpenNewGroup<T>(groups: seq<Group<T>>, picks: seq<seq<nat>>, runs: seq<seq<T>>, run: nat, position: nat)
    returns (groups': seq<Group<T>>, picks': seq<seq<nat>>)
    requires GroupsOf(groups, picks, runs) && run < |runs| && position < |runs[run]| && IsEnd(position, |runs[run]|)
    requires groups != [] ==> groups[|groups| - 1].run < run
    ensures groups' == groups + [Group(run, [runs[run][position]])]
    ensures GroupsOf(groups', picks', runs) && EndsAt(groups', picks', run, position)
    ensures Sum(GroupSizes(groups')) == Sum(GroupSizes(groups)) + 1
  {
    groups' := groups + [Group(run, [runs[run][position]])];
    picks' := picks + [[position]];
    SumAppend(GroupSizes(groups), 1);
    assert GroupSizes(groups') == GroupSizes(groups) + [1];
    forall k | 0 <= k < |groups| ensures groups[k].run < run {
      assert k < |groups| - 1 ==> groups[k].run < groups[|groups| - 1].run;
    }
  }

  /** Adding the next point in order keeps groups unmixed, in order, and adds one to the total. */
  lemma AddPointKeeps<T>(groups: seq<Group<T>>, picks: seq<seq<nat>>, runs: seq<seq<T>>, run: nat, position: nat)
    returns (picks': seq<seq<nat>>)
    requires GroupsOf(groups, picks, runs) && LastBefore(groups, picks, run, position)
    requires run < |runs| && position < |runs[run]| && IsEnd(position, |runs[run]|)
    ensures var groups' := AddPoint(groups, run, runs[run][position]);
            && GroupsOf(groups', picks', runs) && EndsAt(groups', picks', run, position)
            && Sum(GroupSizes(groups')) == Sum(GroupSizes(groups)) + 1
            && groups'[0].points[0] == (if groups == [] then runs[run][position] else groups[0].points[0])
            && groups'[0].run == (if groups == [] then run else groups[0].run)
  {
    AddPointAtEnd(groups, run, runs[run][position]);
    var groups';
    if groups != [] && groups[|groups| - 1].run == run {
      groups', picks' := JoinLastGroup(groups, picks, runs, position);
    } else {
      groups', picks' := OpenNewGroup(groups, picks, runs, run, position);
    }
    assert groups' == AddPoint(groups, run, runs[run][position]);
  }

  lemma PicksAppend<T>(picked: seq<nat>, whole: seq<T>, part: seq<T>, position: nat)
    requires Picks(picked, whole, part) && position < |whole|
    requires picked != [] ==> picked[|picked| - 1] < position
    ensures Picks(picked + [position], whole, part + [whole[position]])
  {
    forall i | 0 <= i < |picked| ensures picked[i] < position {
      assert i < |picked| - 1 ==> picked[i] < picked[|picked| - 1];
    }
  }

  /** The groups start with the first selected point and end with the last. */
  ghost predicate GroupsSpan<T>(groups: seq<Group<T>>, selected: seq<Endpoint<T>>) {
    && groups != [] && selected != []
    && groups[0].points != [] && groups[0].run == selected[0].run && groups[0].points[0] == selected[0].point
    && var last, end := groups[|groups| - 1], selected[|selected| - 1];
       last.points != [] && last.run == end.run && last.points[|last.points| - 1] == end.point
  }

  lemma LastPointOf<T>(groups: seq<Group<T>>, picks: seq<seq<nat>>, runs: seq<seq<T>>)
    requires GroupsOf(groups, picks, runs) && groups != []
    ensures var last, picked := groups[|groups| - 1], picks[|groups| - 1];
            && picked != [] && picked[|picked| - 1] < |runs[last.run]|
            && last.points[|last.points| - 1] == runs[last.run][picked[|picked| - 1]]
  {
  }

  /** One or both endpoints of the run, in order. */
  ghost predicate OnlyEndpoints<T>(part: seq<T>, run: seq<T>) {
    && run != []
    && var first, last := run[0], run[|run| - 1];
       part == [first] || part == [last] || (|run| > 1 && part == [first, last])
  }

  lemma EndPicksAreEndpoints<T>(picked: seq<nat>, run: seq<T>, part: seq<T>)
    requires Picks(picked, run, part) && PicksEnds(picked, |run|) && part != []
    ensures OnlyEndpoints(part, run)
  {
    assert IsEnd(picked[0], |run|);
    var third := if |picked| > 2 then picked[2] else 0;
    if |picked| > 1 {
      assert picked[0] < picked[1] && IsEnd(picked[1], |run|);
    }
    if |picked| > 2 {
      assert false;
    }
  }

  /** What survives of too many runs: endpoints only, from the very first to the very last. */
  ghost predicate EndpointsSurvive<T>(out: seq<seq<T>>, runs: seq<seq<T>>, source: seq<nat>) {
    && |source| == |out| > 0 && runs != []
    && (forall k :: 0 <= k < |out| ==> source[k] < |runs| && OnlyEndpoints(out[k], runs[source[k]]))
    && source[0] == 0 && source[|out| - 1] == |runs| - 1
    && out[0][0] == runs[0][0]
    && var last, run := out[|out| - 1], runs[|runs| - 1];
       last[|last| - 1] == run[|run| - 1]
  }

  lemma GroupsSpanGrows<T>(before: seq<Group<T>>, groups: seq<Group<T>>, selected: seq<Endpoint<T>>, k: nat)
    requires k < |selected| && groups != [] && groups[0].points != []
    requires if k == 0 then before == [] else GroupsSpan(before, selected[..k])
    requires groups[0].run == if before == [] then selected[k].run else before[0].run
    requires groups[0].points[0] == if before == [] then selected[k].point else before[0].points[0]
    requires var last := groups[|groups| - 1];
             && last.points != [] && last.run == selected[k].run
             && last.points[|last.points| - 1] == selected[k].point
    ensures GroupsSpan(groups, selected[..k + 1])
  {
  }

  /** The first `k` selected endpoints are grouped, and the next one comes after them. */
  ghost predicate Grouped<T>(groups: seq<Group<T>>, picks: seq<seq<nat>>, selected: seq<Endpoint<T>>, at: seq<nat>,
                             runs: seq<seq<T>>, k: nat)
    requires |at| == |selected|
  {
    && k <= |selected|
    && GroupsOf(groups, picks, runs)
    && Sum(GroupSizes(groups)) == k
    && Spread(groups) == PointsIn(selected[..k])
    && (k < |selected| ==> LastBefore(groups, picks, selected[k].run, at[k]))
    && if k == 0 then groups == [] else GroupsSpan(groups, selected[..k])
  }

  lemma GroupOne<T>(groups: seq<Group<T>>, picks: seq<seq<nat>>, selected: seq<Endpoint<T>>, at: seq<nat>,
                    runs: seq<seq<T>>, k: nat)
    returns (picks': seq<seq<nat>>)
    requires EndpointsOf(selected, at, runs, |runs|) && k < |selected|
    requires Grouped(groups, picks, selected, at, runs, k)
    ensures Grouped(AddPoint(groups, selected[k].run, selected[k].point), picks', selected, at, runs, k + 1)
  {
    var groups' := AddPoint(groups, selected[k].run, selected[k].point);
    picks' := AddPointKeeps(groups, picks, runs, selected[k].run, at[k]);
    OneMoreSpreads(groups, selected, k);
    LastPointOf(groups', picks', runs);
    GroupsSpanGrows(groups, groups', selected, k);
    NextIsLater(groups', picks', selected, at, runs, k);
  }

  lemma {:induction false} OneMoreSpreads<T>(groups: seq<Group<T>>, selected: seq<Endpoint<T>>, k: nat)
    requires k < |selected| && Spread(groups) == PointsIn(selected[..k])
    requires forall i, j :: 0 <= i < j < |groups| ==> groups[i].run < groups[j].run
    requires groups != [] ==> groups[|groups| - 1].run <= selected[k].run
    ensures Spread(AddPoint(groups, selected[k].run, selected[k].point)) == PointsIn(selected[..k + 1])
  {
    AddPointSpreads(groups, selected[k].run, selected[k].point);
    assert PointsIn(selected[..k + 1]) == PointsIn(selected[..k]) + [selected[k].point];
  }

  /** The point just added comes before the next one. */
  lemma NextIsLater<T>(groups: seq<Group<T>>, picks: seq<seq<nat>>, selected: seq<Endpoint<T>>, at: seq<nat>,
                       runs: seq<seq<T>>, k: nat)
    requires EndpointsOf(selected, at, runs, |runs|) && k < |selected|
    requires EndsAt(groups, picks, selected[k].run, at[k])
    ensures k + 1 < |selected| ==> LastBefore(groups, picks, selected[k + 1].run, at[k + 1])
  {
  }

  lemma NothingGrouped<T>(selected: seq<Endpoint<T>>, at: seq<nat>, runs: seq<seq<T>>)
    requires |at| == |selected|
    ensures Grouped<T>([], [], selected, at, runs, 0)
  {
  }

  /** Groups the selected endpoints by run. */
  method GroupEndpoints<T>(selected: seq<Endpoint<T>>, ghost at: seq<nat>, runs: seq<seq<T>>)
    returns (groups: seq<Group<T>>, ghost picks: seq<seq<nat>>)
    requires EndpointsOf(selected, at, runs, |runs|)
    ensures GroupsOf(groups, picks, runs)
    ensures Sum(GroupSizes(groups)) == |selected|
    ensures Spread(groups) == PointsIn(selected)
    ensures selected != [] ==> GroupsSpan(groups, selected)
  {
    groups, picks := [], [];
    NothingGrouped(selected, at, runs);
    var k := 0;
    while k < |selected|
      invariant 0 <= k <= |selected|
      invariant Grouped(groups, picks, selected, at, runs, k)
    {
      picks := GroupOne(groups, picks, selected, at, runs, k);
      groups := AddPoint(groups, selected[k].run, selected[k].point);
      k := k + 1;
    }
    assert selected[..k] == selected;
  }

  /** Sampled endpoints are still endpoints in order. */
  lemma SampledEndpoints<T>(endpoints: seq<Endpoint<T>>, at: seq<nat>, runs: seq<seq<T>>, count: nat)
    returns (at': seq<nat>)
    requires EndpointsOf(endpoints, at, runs, |runs|) && 0 < count
    ensures EndpointsOf(EvenlySampled(endpoints, count), at', runs, |runs|)
    ensures |EvenlySampled(endpoints, count)| == if |endpoints| <= count then |endpoints| else count
    ensures count >= 2 && Spans(endpoints, runs) ==> Spans(EvenlySampled(endpoints, count), runs)
  {
    SamplingPicks(endpoints, count);
    var picked := SampledPositions(|endpoints|, count);
    var selected := EvenlySampled(endpoints, count);
    at' := seq(|picked|, i requires 0 <= i < |picked| => at[picked[i]]);
    forall k | 0 <= k < |selected| ensures selected[k] == endpoints[picked[k]] && at'[k] == at[picked[k]] {}
  }

  ghost function RunsOf<T>(groups: seq<Group<T>>): (s: seq<nat>)
    ensures |s| == |groups| && forall i :: 0 <= i < |groups| ==> s[i] == groups[i].run
  {
    seq(|groups|, i requires 0 <= i < |groups| => groups[i].run)
  }

  /** Sampling endpoints is sampling their points. */
  lemma PointsAreEven<T>(selected: seq<Endpoint<T>>, endpoints: seq<Endpoint<T>>)
    requires IsEvenSample(selected, endpoints)
    ensures IsEvenSample(PointsIn(selected), PointsIn(endpoints))
  {
    if selected != endpoints && |selected| != 1 {
      var picked :| Picks(picked, endpoints, selected) && EvenlySpaced(picked, |endpoints|);
      assert Picks(picked, PointsIn(endpoints), PointsIn(selected));
    }
  }

  lemma SampledEndpointsAreEven<T>(endpoints: seq<Endpoint<T>>, all: seq<T>)
    requires PointsIn(endpoints) == all
    ensures IsEvenSample(PointsIn(EvenlySampled(endpoints, MAX_TRAIL_POINTS)), all)
  {
    SamplingIsEven(endpoints, MAX_TRAIL_POINTS);
    PointsAreEven(EvenlySampled(endpoints, MAX_TRAIL_POINTS), endpoints);
  }

  /** Groups of endpoints, as runs of points. */
  lemma GroupsAreDrawn<T>(groups: seq<Group<T>>, picks: seq<seq<nat>>, runs: seq<seq<T>>)
    requires GroupsOf(groups, picks, runs)
    ensures DrawnFrom(PointsOf(groups), runs, RunsOf(groups))
    ensures forall k :: 0 <= k < |groups| ==> OnlyEndpoints(groups[k].points, runs[groups[k].run])
    ensures TotalPoints(PointsOf(groups)) == Sum(GroupSizes(groups))
  {
    SumsAgree(Lengths(PointsOf(groups)), GroupSizes(groups));
    forall k | 0 <= k < |groups|
      ensures IsSubsequence(groups[k].points, runs[groups[k].run])
      ensures OnlyEndpoints(groups[k].points, runs[groups[k].run])
    {
      assert Picks(picks[k], runs[groups[k].run], groups[k].points);
      EndPicksAreEndpoints(picks[k], runs[groups[k].run], groups[k].points);
    }
  }

  method SampledEndpointRuns<T>(runs: seq<seq<T>>) returns (out: seq<seq<T>>, ghost source: seq<nat>)
    requires NonemptyRuns(runs) && Sum(Minimums(runs)) > MAX_TRAIL_POINTS
    ensures TotalPoints(out) == MAX_TRAIL_POINTS
    ensures DrawnFrom(out, runs, source) && EndpointsSurvive(out, runs, source)
    ensures IsEvenSample(Flatten(out), AllEndpoints(runs))
  {
    ghost var at, picks;
    var endpoints, groups;
    endpoints, at := CollectEndpoints(runs);
    at := SampledEndpoints(endpoints, at, runs, MAX_TRAIL_POINTS);
    groups, picks := GroupEndpoints(EvenlySampled(endpoints, MAX_TRAIL_POINTS), at, runs);
    out := PointsOf(groups);
    source := RunsOf(groups);
    GroupsAreDrawn(groups, picks, runs);
    SampledEndpointsAreEven(endpoints, AllEndpoints(runs));
  }

  /**
   `_bounded_trail_runs`: within budget nothing changes; over budget exactly 96 points remain,
   each output run a subsequence of one input run, in the original order of runs. `source`
   names the input run behind each output run.
   */
  method BoundedTrailRuns<T>(runs: seq<seq<T>>) returns (out: seq<seq<T>>, ghost source: seq<nat>)
    requires TotalPoints(runs) > MAX_TRAIL_POINTS ==> NonemptyRuns(runs)
    ensures TotalPoints(runs) <= MAX_TRAIL_POINTS ==> out == runs
    ensures TotalPoints(runs) > MAX_TRAIL_POINTS ==> TotalPoints(out) == MAX_TRAIL_POINTS
    ensures DrawnFrom(out, runs, source)
    ensures TotalPoints(runs) > MAX_TRAIL_POINTS >= Sum(Minimums(runs)) ==>
              && |out| == |runs| && ProportionalTo(out, runs)
              && forall i :: 0 <= i < |runs| ==> Minimum(runs[i]) <= |out[i]| <= |runs[i]| && KeepsEnds(out[i], runs[i])
    ensures TotalPoints(runs) > MAX_TRAIL_POINTS >= Sum(Minimums(runs)) ==>
              forall i :: 0 <= i < |runs| ==> IsEvenSample(out[i], runs[i])
    ensures TotalPoints(runs) > MAX_TRAIL_POINTS && Sum(Minimums(runs)) > MAX_TRAIL_POINTS ==>
              EndpointsSurvive(out, runs, source) && IsEvenSample(Flatten(out), AllEndpoints(runs))
  {
    if TotalPoints(runs) <= MAX_TRAIL_POINTS {
      out, source := runs, Identity(|runs|);
      forall k | 0 <= k < |runs| ensures IsSubsequence(runs[k], runs[k]) {
        assert Picks(Identity(|runs[k]|), runs[k], runs[k]);
      }
    } else if Sum(Minimums(runs)) > MAX_TRAIL_POINTS {
      out, source := SampledEndpointRuns(runs);
    } else {
      out := ApportionedRuns(runs);
      source := Identity(|runs|);
    }
  }
}
