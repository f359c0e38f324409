/**
 From projected trail points to the runs drawn
 (ros2_ws/src/vt_vive_tracker_gui/vt_vive_tracker_gui/canvas3d.py, lines 253-272): points that do not
 project cut the trail into runs, which are then brought within the budget.
 */
module TrailRuns {
  import opened Prelude
  import opened TrailBudget
  import opened TrailSampling

  /** The run is what projects from `start` on, and nothing more projects beside it. */
  ghost predicate Stretch<T>(points: seq<Option<T>>, start: nat, run: seq<T>) {
    && run != [] && start + |run| <= |points|
    && (forall i :: 0 <= i < |run| ==> points[start + i] == Some(run[i]))
    && (start == 0 || points[start - 1].None?)
    && (start + |run| == |points| || points[start + |run|].None?)
  }

  /** Point `i` belongs to run `k`. */
  ghost predicate Within<T>(runs: seq<seq<T>>, starts: seq<nat>, k: int, i: int)
    requires |starts| == |runs|
  {
    0 <= k < |runs| && starts[k] <= i < starts[k] + |runs[k]|
  }

  ghost predicate Covered<T>(runs: seq<seq<T>>, starts: seq<nat>, i: int)
    requires |starts| == |runs|
  {
    exists k :: Within(runs, starts, k, i)
  }

  /** The runs are maximal unbroken stretches of the trail, in order, and miss no point before `i`. */
  ghost predicate StretchesUpTo<T>(points: seq<Option<T>>, runs: seq<seq<T>>, starts: seq<nat>, i: nat) {
    && |starts| == |runs| && i <= |points|
    && (forall k :: 0 <= k < |runs| ==> Stretch(points, starts[k], runs[k]))
    && (forall k, l :: 0 <= k < l < |runs| ==> starts[k] + |runs[k]| < starts[l])
    && (forall j :: 0 <= j < i && points[j].Some? ==> Covered(runs, starts, j))
  }

  ghost predicate Stretches<T>(points: seq<Option<T>>, runs: seq<seq<T>>, starts: seq<nat>) {
    StretchesUpTo(points, runs, starts, |points|)
  }

  function VisibleCount<T>(points: seq<Option<T>>): nat {
    if points == [] then 0
    else VisibleCount(points[..|points| - 1]) + if points[|points| - 1].Some? then 1 else 0
  }

  // ----- The loop -----

  /** The points before `i` are cut into finished runs and one still open, which ends at `i`. */
  ghost predicate CutUpTo<T>(points: seq<Option<T>>, runs: seq<seq<T>>, starts: seq<nat>, current: seq<T>, i: nat) {
    && |current| <= i <= |points|
    && StretchesUpTo(points, runs, starts, i - |current|)
    && EndBefore(runs, starts, i - |current|)
    && (forall j :: 0 <= j < |current| ==> points[i - |current| + j] == Some(current[j]))
    && (i == |current| || points[i - |current| - 1].None?)
  }

  ghost predicate EndBefore<T>(runs: seq<seq<T>>, starts: seq<nat>, i: nat)
    requires |starts| == |runs|
  {
    forall k :: 0 <= k < |runs| ==> starts[k] + |runs[k]| < i
  }

  lemma CutVisible<T>(points: seq<Option<T>>, runs: seq<seq<T>>, starts: seq<nat>, current: seq<T>, i: nat)
    requires CutUpTo(points, runs, starts, current, i) && i < |points| && points[i].Some?
    ensures CutUpTo(points, runs, starts, current + [points[i].value], i + 1)
  {
  }

  /** A point that does not project leaves finished runs as they are. */
  lemma CutHidden<T>(points: seq<Option<T>>, runs: seq<seq<T>>, starts: seq<nat>, i: nat)
    requires i < |points| && points[i].None?
    requires StretchesUpTo(points, runs, starts, i) && EndBefore(runs, starts, i + 1)
    ensures CutUpTo(points, runs, starts, [], i + 1)
  {
  }

  /** The open run joins the finished ones where it ends. */
  lemma RunAppended<T>(points: seq<Option<T>>, runs: seq<seq<T>>, starts: seq<nat>, current: seq<T>, i: nat)
    requires CutUpTo(points, runs, starts, current, i) && current != []
    requires i == |points| || points[i].None?
    ensures StretchesUpTo(points, runs + [current], starts + [i - |current|], i)
    ensures EndBefore(runs + [current], starts + [i - |current|], i + 1)
  {
    var runs', starts' := runs + [current], starts + [i - |current|];
    assert Stretch(points, i - |current|, current);
    forall j | 0 <= j < i && points[j].Some? ensures Covered(runs', starts', j) {
      if j < i - |current| {
        assert Covered(runs, starts, j);
        var k :| Within(runs, starts, k, j);
        assert Within(runs', starts', k, j);
      } else {
        assert Within(runs', starts', |runs|, j);
      }
    }
  }

  lemma PointsAppended<T>(runs: seq<seq<T>>, run: seq<T>)
    ensures TotalPoints(runs + [run]) == TotalPoints(runs) + |run|
  {
    assert Lengths(runs + [run]) == Lengths(runs) + [|run|];
    assert (Lengths(runs) + [|run|])[..|runs|] == Lengths(runs);
  }

  /** Ends the open run, if there is one. */
  method CloseRun<T>(points: seq<Option<T>>, i: nat, runs: seq<seq<T>>, ghost starts: seq<nat>, current: seq<T>)
    returns (runs': seq<seq<T>>, ghost starts': seq<nat>)
    requires CutUpTo(points, runs, starts, current, i) && (i == |points| || points[i].None?)
    ensures StretchesUpTo(points, runs', starts', i) && EndBefore(runs', starts', i + 1)
    ensures TotalPoints(runs') == TotalPoints(runs) + |current|
  {
    runs', starts' := runs, starts;
    if current != [] {
      RunAppended(points, runs, starts, current, i);
      PointsAppended(runs, current);
      starts' := starts + [i - |current|];
      runs' := runs + [current];
    }
  }

  /** One round of the loop: a point joins the open run, or ends it. */
  method TakePoint<T>(points: seq<Option<T>>, i: nat, runs: seq<seq<T>>, ghost starts: seq<nat>, current: seq<T>)
    returns (runs': seq<seq<T>>, ghost starts': seq<nat>, current': seq<T>)
    requires i < |points| && CutUpTo(points, runs, starts, current, i)
    ensures CutUpTo(points, runs', starts', current', i + 1)
    ensures TotalPoints(runs') + |current'| == TotalPoints(runs) + |current| + if points[i].Some? then 1 else 0
  {
    if points[i].None? {
      runs', starts' := CloseRun(points, i, runs, starts, current);
      current' := [];
      CutHidden(points, runs', starts', i);
    } else {
      CutVisible(points, runs, starts, current, i);
      runs', starts', current' := runs, starts, current + [points[i].value];
    }
  }

  lemma NothingCut<T>(points: seq<Option<T>>)
    ensures CutUpTo(points, [], [], [], 0)
  {
  }

  lemma CountOneMore<T>(points: seq<Option<T>>, i: nat)
    requires i < |points|
    ensures VisibleCount(points[..i + 1]) == VisibleCount(points[..i]) + if points[i].Some? then 1 else 0
  {
    assert points[..i + 1][..i] == points[..i];
  }

  /** Cuts the trail where a point does not project. */
  method VisibleRuns<T>(points: seq<Option<T>>) returns (runs: seq<seq<T>>, ghost starts: seq<nat>)
    ensures Stretches(points, runs, starts)
    ensures TotalPoints(runs) == VisibleCount(points)
  {
    runs, starts := [], [];
    var current: seq<T> := [];
    NothingCut(points);
    for i := 0 to |points|
      invariant CutUpTo(points, runs, starts, current, i)
      invariant TotalPoints(runs) + |current| == VisibleCount(points[..i])
    {
      CountOneMore(points, i);
      runs, starts, current := TakePoint(points, i, runs, starts, current);
    }
    assert points[..|points|] == points;
    runs, starts := CloseRun(points, |points|, runs, starts, current);
  }

  lemma StretchesAreNonempty<T>(points: seq<Option<T>>, runs: seq<seq<T>>, starts: seq<nat>)
    requires Stretches(points, runs, starts)
    ensures NonemptyRuns(runs)
  {
    forall k | 0 <= k < |runs| ensures runs[k] != [] {
      assert Stretch(points, starts[k], runs[k]);
    }
  }

  lemma DrawnAreNonempty<T>(out: seq<seq<T>>, runs: seq<seq<T>>, source: seq<nat>)
    requires NonemptyRuns(runs) && DrawnFrom(out, runs, source)
    ensures NonemptyRuns(out)
  {
    forall k | 0 <= k < |out| ensures out[k] != [] {
      assert source[k] < |runs| && runs[source[k]] != [];
    }
  }

  /**
   The runs drawn of a projected trail: at most 96 points, all of them if no more project, and no run is
   empty or bridges a point that does not project.
   */
  method DrawnRuns<T>(points: seq<Option<T>>)
    returns (out: seq<seq<T>>, ghost runs: seq<seq<T>>, ghost starts: seq<nat>, ghost source: seq<nat>)
    ensures Stretches(points, runs, starts) && DrawnFrom(out, runs, source) && NonemptyRuns(out)
    ensures VisibleCount(points) <= 96 ==> out == runs
    ensures VisibleCount(points) > 96 ==> TotalPoints(out) == 96
    ensures VisibleCount(points) > 96 >= Sum(Minimums(runs)) ==>
              && |out| == |runs| && ProportionalTo(out, runs)
              && forall i :: 0 <= i < |runs| ==> IsEvenSample(out[i], runs[i])
    ensures VisibleCount(points) > 96 && Sum(Minimums(runs)) > 96 ==>
              EndpointsSurvive(out, runs, source) && IsEvenSample(Flatten(out), AllEndpoints(runs))
  {
    var found;
    found, starts := VisibleRuns(points);
    runs := found;
    StretchesAreNonempty(points, runs, starts);
    out, source := BoundedTrailRuns(found);
    DrawnAreNonempty(out, runs, source);
  }

  /** There is one way to cut a trail into its maximal unbroken stretches. */
  lemma StretchesAreUnique<T>(points: seq<Option<T>>, runs: seq<seq<T>>, starts: seq<nat>,
                              runs': seq<seq<T>>, starts': seq<nat>, k: nat, l: nat, i: nat)
    requires Stretches(points, runs, starts) && Stretches(points, runs', starts')
    requires Within(runs, starts, k, i) && Within(runs', starts', l, i)
    ensures starts[k] == starts'[l] && runs[k] == runs'[l]
  {
    assert Stretch(points, starts[k], runs[k]) && Stretch(points, starts'[l], runs'[l]);
    StartsAgree(points, starts[k], runs[k], starts'[l], runs'[l], i);
    StartsAgree(points, starts'[l], runs'[l], starts[k], runs[k], i);
  }

  lemma VisibleInside<T>(points: seq<Option<T>>, start: nat, run: seq<T>)
    requires Stretch(points, start, run)
    ensures forall i :: start <= i < start + |run| ==> points[i].Some?
  {
    forall i | start <= i < start + |run| ensures points[i].Some? {
      assert points[start + (i - start)] == Some(run[i - start]);
    }
  }

  lemma StartsAgree<T>(points: seq<Option<T>>, a: nat, run: seq<T>, b: nat, other: seq<T>, i: nat)
    requires Stretch(points, a, run) && Stretch(points, b, other)
    requires a <= i < a + |run| && b <= i < b + |other|
    ensures a <= b && b + |other| <= a + |run|
    ensures a == b && |run| == |other| ==> run == other
  {
    VisibleInside(points, a, run);
    VisibleInside(points, b, other);
    if a == b && |run| == |other| {
      forall j | 0 <= j < |run| ensures run[j] == other[j] {
        assert points[a + j] == Some(run[j]) && points[b + j] == Some(other[j]);
      }
    }
  }
}
