/**
 Even sampling of a trail run
 (ros2_ws/src/vt_vive_tracker_gui/vt_vive_tracker_gui/canvas3d.py, lines 51-63).
 */
module TrailSampling {
  import opened Nonlinear

  /** The rounded index of `slot` when `finalSlot + 1` samples span indices 0 to `finalIndex`. */
  function SampleIndex(slot: nat, finalIndex: nat, finalSlot: nat): nat
    requires finalSlot > 0
  {
    (slot * finalIndex + finalSlot / 2) / finalSlot
  }

  /** Sample indices run strictly upwards from the first index to the last. */
  lemma SampleIndexIncreases(slot: nat, slot': nat, finalIndex: nat, finalSlot: nat)
    requires slot < slot' && 0 < finalSlot <= finalIndex
    ensures SampleIndex(slot, finalIndex, finalSlot) < SampleIndex(slot', finalIndex, finalSlot)
  {
    MulDistributes(finalIndex, slot', slot);
    MulSign(finalIndex, slot' - slot);
    QuotientIncreases(slot * finalIndex + finalSlot / 2, slot' * finalIndex + finalSlot / 2, finalSlot);
  }

  lemma SampleIndexEnds(finalIndex: nat, finalSlot: nat)
    requires finalSlot > 0
    ensures SampleIndex(0, finalIndex, finalSlot) == 0
    ensures SampleIndex(finalSlot, finalIndex, finalSlot) == finalIndex
  {
    DivisionUnique(finalSlot * finalIndex + finalSlot / 2, finalSlot, finalIndex, finalSlot / 2);
    DivisionUnique(0 * finalIndex + finalSlot / 2, finalSlot, 0, finalSlot / 2);
  }

  /**
   Position `p` is the nearest to where slot `k` of `count` would fall in `length` points at exactly equal
   spacing, the later of two equally near.
   */
  predicate IsNearestTo(p: nat, k: nat, length: nat, count: nat) {
    -(count - 1) < 2 * (p * (count - 1) - k * (length - 1)) <= count - 1
  }

  lemma SampleIndexIsNearest(slot: nat, finalIndex: nat, finalSlot: nat)
    requires finalSlot > 0
    ensures IsNearestTo(SampleIndex(slot, finalIndex, finalSlot), slot, finalIndex + 1, finalSlot + 1)
  {
    var a := slot * finalIndex + finalSlot / 2;
    var q := a / finalSlot;
    assert a == finalSlot * q + a % finalSlot;
  }

  lemma SampleIndexInRange(slot: nat, finalIndex: nat, finalSlot: nat)
    requires slot <= finalSlot && 0 < finalSlot <= finalIndex
    ensures SampleIndex(slot, finalIndex, finalSlot) <= finalIndex
  {
    SampleIndexEnds(finalIndex, finalSlot);
    if slot < finalSlot {
      SampleIndexIncreases(slot, finalSlot, finalIndex, finalSlot);
    }
  }

  function Sample<T>(points: seq<T>, count: nat, slot: nat): T
    requires 2 <= count < |points| && slot < count
  {
    SampleIndexInRange(slot, |points| - 1, count - 1);
    points[SampleIndex(slot, |points| - 1, count - 1)]
  }

  /** `_evenly_sampled`. */
  function EvenlySampled<T>(points: seq<T>, count: nat): seq<T> {
    if |points| <= count then points
    else if count == 1 then [points[0]]
    else seq(count, slot requires 0 <= slot < count => Sample(points, count, slot))
  }

  /** `picked` lists, in increasing order, the positions of `whole` that make up `part`. */
  ghost predicate Picks<T>(picked: seq<nat>, whole: seq<T>, part: seq<T>) {
    && |picked| == |part|
    && (forall i, j :: 0 <= i < j < |picked| ==> picked[i] < picked[j])
    && (forall i :: 0 <= i < |picked| ==> picked[i] < |whole| && part[i] == whole[picked[i]])
  }

  /** `part` is `whole` with some elements left out and none moved. */
  ghost predicate IsSubsequence<T>(part: seq<T>, whole: seq<T>) {
    exists picked :: Picks(picked, whole, part)
  }

  /** The positions picked are as evenly spaced as whole positions can be. */
  ghost predicate EvenlySpaced(picked: seq<nat>, length: nat) {
    forall k :: 0 <= k < |picked| ==> IsNearestTo(picked[k], k, length, |picked|)
  }

  /** `part` is `whole`, or its first point, or its points at evenly spaced positions. */
  ghost predicate IsEvenSample<T>(part: seq<T>, whole: seq<T>) {
    || part == whole
    || (|part| == 1 < |whole| && part[0] == whole[0])
    || (2 <= |part| < |whole| && exists picked :: Picks(picked, whole, part) && EvenlySpaced(picked, |whole|))
  }

  /** The positions an even sample takes. */
  ghost function SampledPositions(length: nat, count: nat): seq<nat>
    requires count > 0 || length == 0
  {
    if length <= count then seq(length, i => i)
    else if count == 1 then [0]
    else seq(count, slot requires 0 <= slot < count => SampleIndex(slot, length - 1, count - 1))
  }

  lemma SampledPositionsIncrease(length: nat, count: nat)
    requires 1 < count < length
    ensures var positions := SampledPositions(length, count);
            && positions[0] == 0 && positions[count - 1] == length - 1
            && (forall i, j :: 0 <= i < j < count ==> positions[i] < positions[j])
            && (forall i :: 0 <= i < count ==> positions[i] < length)
  {
    var positions := SampledPositions(length, count);
    SampleIndexEnds(length - 1, count - 1);
    forall i, j | 0 <= i < j < count ensures positions[i] < positions[j] {
      SampleIndexIncreases(i, j, length - 1, count - 1);
    }
    forall i | 0 <= i < count ensures positions[i] < length {
      SampleIndexInRange(i, length - 1, count - 1);
    }
  }

  /** Sampling leaves points out but never reorders, keeps both ends, and returns `count` points if it can. */
  lemma SamplingPicks<T>(points: seq<T>, count: nat)
    requires count > 0
    ensures Picks(SampledPositions(|points|, count), points, EvenlySampled(points, count))
    ensures |EvenlySampled(points, count)| == if |points| <= count then |points| else count
    ensures points != [] ==> EvenlySampled(points, count)[0] == points[0]
    ensures points != [] && count >= 2 ==>
              EvenlySampled(points, count)[|EvenlySampled(points, count)| - 1] == points[|points| - 1]
  {
    if 1 < count < |points| {
      SampledPositionsIncrease(|points|, count);
      forall slot | 0 <= slot < count
        ensures EvenlySampled(points, count)[slot] == points[SampledPositions(|points|, count)[slot]]
      {}
    }
  }

  lemma SamplingIsSubsequence<T>(points: seq<T>, count: nat)
    requires count > 0
    ensures IsSubsequence(EvenlySampled(points, count), points)
  {
    SamplingPicks(points, count);
  }

  /** The sample takes the points nearest to equal spacing, and of two equally near the later. */
  lemma SamplingIsEven<T>(points: seq<T>, count: nat)
    requires count > 0
    ensures IsEvenSample(EvenlySampled(points, count), points)
  {
    if 1 < count < |points| {
      var picked := SampledPositions(|points|, count);
      SamplingPicks(points, count);
      forall k | 0 <= k < |picked| ensures IsNearestTo(picked[k], k, |points|, |picked|) {
        SampleIndexIsNearest(k, |points| - 1, count - 1);
      }
      assert EvenlySpaced(picked, |points|);
    }
  }

  /** Only one sample of a given size is even. */
  lemma EvenSampleIsUnique<T>(part: seq<T>, other: seq<T>, whole: seq<T>)
    requires IsEvenSample(part, whole) && IsEvenSample(other, whole) && |part| == |other| > 0
    ensures part == other
  {
    if 2 <= |part| < |whole| {
      var picked :| Picks(picked, whole, part) && EvenlySpaced(picked, |whole|);
      var picked' :| Picks(picked', whole, other) && EvenlySpaced(picked', |whole|);
      forall k | 0 <= k < |part| ensures part[k] == other[k] {
        assert IsNearestTo(picked[k], k, |whole|, |part|) && IsNearestTo(picked'[k], k, |whole|, |part|);
        NearestIsUnique(picked[k], picked'[k], k, |whole|, |part|);
      }
    }
  }

  lemma NearestIsUnique(p: nat, q: nat, k: nat, length: nat, count: nat)
    requires count >= 2 && IsNearestTo(p, k, length, count) && IsNearestTo(q, k, length, count)
    ensures p == q
  {
    MulDistributes(count - 1, p, q);
    MulSign(count - 1, p - q);
    MulSign(count - 1, q - p);
    MulDistributes(count - 1, q, p);
  }
}
