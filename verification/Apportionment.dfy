/**
 Largest-remainder apportionment of a point budget
 (ros2_ws/src/vt_vive_tracker_gui/vt_vive_tracker_gui/canvas3d.py, lines 85-100).
 */
module Apportionment {
  import opened Nonlinear
  import opened Prelude

  lemma SumAppend(s: seq<nat>, x: nat)
    ensures Sum(s + [x]) == Sum(s) + x
  {
    assert (s + [x])[..|s|] == s;
  }

  lemma {:induction false} SumIncrement(s: seq<nat>, i: nat)
    requires i < |s|
    ensures Sum(s[i := s[i] + 1]) == Sum(s) + 1
  {
    var n := |s| - 1;
    var s' := s[i := s[i] + 1];
    if i < n {
      SumIncrement(s[..n], i);
      assert s'[..n] == s[..n][i := s[..n][i] + 1];
    } else {
      assert s'[..n] == s[..n];
    }
  }

  /** One share of a division problem: how much, how much is left, out of how much. */
  ghost predicate Divides(budget: nat, capacities: seq<nat>, total: nat, shares: seq<nat>, remainders: seq<nat>) {
    && total > 0 && |shares| == |remainders| == |capacities|
    && forall i :: 0 <= i < |capacities| ==>
                     budget * capacities[i] == total * shares[i] + remainders[i] && remainders[i] < total
  }

  function Shares(budget: nat, capacities: seq<nat>, total: nat): (s: seq<nat>)
    requires total > 0
    ensures |s| == |capacities|
  {
    seq(|capacities|, i requires 0 <= i < |capacities| => budget * capacities[i] / total)
  }

  function Remainders(budget: nat, capacities: seq<nat>, total: nat): (s: seq<nat>)
    requires total > 0
    ensures |s| == |capacities|
  {
    seq(|capacities|, i requires 0 <= i < |capacities| => budget * capacities[i] % total)
  }

  lemma SharesDivide(budget: nat, capacities: seq<nat>, total: nat)
    requires total > 0
    ensures Divides(budget, capacities, total, Shares(budget, capacities, total), Remainders(budget, capacities, total))
  {
    forall i | 0 <= i < |capacities|
      ensures budget * capacities[i]
              == total * Shares(budget, capacities, total)[i] + Remainders(budget, capacities, total)[i]
    {
      var product := budget * capacities[i];
      assert product == total * (product / total) + product % total;
    }
  }

  /** Rounding down loses exactly the remainders, a whole multiple of the total. */
  lemma {:induction false} RemaindersAddUp(budget: nat, capacities: seq<nat>, total: nat, shares: seq<nat>,
                                           remainders: seq<nat>)
    requires Divides(budget, capacities, total, shares, remainders)
    ensures budget * Sum(capacities) == total * Sum(shares) + Sum(remainders)
  {
    if capacities != [] {
      var n := |capacities| - 1;
      RemaindersAddUp(budget, capacities[..n], total, shares[..n], remainders[..n]);
      assert budget * (Sum(capacities[..n]) + capacities[n]) == budget * Sum(capacities[..n]) + budget * capacities[n];
      assert total * (Sum(shares[..n]) + shares[n]) == total * Sum(shares[..n]) + total * shares[n];
    } else {
      assert budget * 0 == 0 && total * 0 == 0;
    }
  }

  // ----- Ranking by remainder -----

  /** The order of `sorted(..., key=(-remainder, index))`. */
  predicate Before(remainders: seq<nat>, i: nat, j: nat)
    requires i < |remainders| && j < |remainders|
  {
    remainders[i] > remainders[j] || (remainders[i] == remainders[j] && i < j)
  }

  predicate Indexes(order: seq<nat>, remainders: seq<nat>) {
    forall k :: 0 <= k < |order| ==> order[k] < |remainders|
  }

  ghost predicate Ranked(order: seq<nat>, remainders: seq<nat>) {
    && Indexes(order, remainders)
    && forall k, l :: 0 <= k < l < |order| ==> Before(remainders, order[k], order[l])
  }

  /** Inserts index `i` into a ranked order. */
  function RankInsert(order: seq<nat>, remainders: seq<nat>, i: nat): (r: seq<nat>)
    requires Indexes(order, remainders) && i < |remainders|
    ensures |r| == |order| + 1 && Indexes(r, remainders)
  {
    if order == [] || Before(remainders, order[|order| - 1], i) then order + [i]
    else RankInsert(order[..|order| - 1], remainders, i) + [order[|order| - 1]]
  }

  /** The first `n` indices, ranked. */
  function Rank(remainders: seq<nat>, n: nat): (order: seq<nat>)
    requires n <= |remainders|
    ensures |order| == n && Indexes(order, remainders)
  {
    if n == 0 then [] else RankInsert(Rank(remainders, n - 1), remainders, n - 1)
  }

  function SumAt(order: seq<nat>, remainders: seq<nat>): nat
    requires Indexes(order, remainders)
  {
    if order == [] then 0 else SumAt(order[..|order| - 1], remainders) + remainders[order[|order| - 1]]
  }

  lemma {:induction false} RankInsertMembers(order: seq<nat>, remainders: seq<nat>, i: nat, k: nat)
    requires Indexes(order, remainders) && i < |remainders| && k <= |order|
    ensures RankInsert(order, remainders, i)[k] == i || RankInsert(order, remainders, i)[k] in order
  {
    if order != [] && !Before(remainders, order[|order| - 1], i) {
      var n := |order| - 1;
      if k < |order| {
        RankInsertMembers(order[..n], remainders, i, k);
      }
    }
  }

  lemma {:induction false} RankInsertSums(order: seq<nat>, remainders: seq<nat>, i: nat)
    requires Indexes(order, remainders) && i < |remainders|
    ensures SumAt(RankInsert(order, remainders, i), remainders) == SumAt(order, remainders) + remainders[i]
  {
    var r := RankInsert(order, remainders, i);
    if order == [] || Before(remainders, order[|order| - 1], i) {
      assert r[..|order|] == order;
    } else {
      var n := |order| - 1;
      RankInsertSums(order[..n], remainders, i);
      assert r[..n + 1] == RankInsert(order[..n], remainders, i);
    }
  }

  lemma RankedAppend(order: seq<nat>, remainders: seq<nat>, i: nat)
    requires Ranked(order, remainders) && i < |remainders|
    requires forall k :: 0 <= k < |order| ==> Before(remainders, order[k], i)
    ensures Ranked(order + [i], remainders)
  {
  }

  lemma RankedPrefix(order: seq<nat>, remainders: seq<nat>, n: nat)
    requires Ranked(order, remainders) && n <= |order|
    ensures Ranked(order[..n], remainders)
  {
  }

  lemma {:induction false} RankInsertKeeps(order: seq<nat>, remainders: seq<nat>, i: nat)
    requires Ranked(order, remainders) && i < |remainders|
    requires forall k :: 0 <= k < |order| ==> order[k] < i
    ensures Ranked(RankInsert(order, remainders, i), remainders)
    ensures forall k :: 0 <= k < |order| + 1 ==> RankInsert(order, remainders, i)[k] <= i
  {
    if order == [] || Before(remainders, order[|order| - 1], i) {
      forall k | 0 <= k < |order| ensures Before(remainders, order[k], i) {
        assert k < |order| - 1 ==> Before(remainders, order[k], order[|order| - 1]);
      }
      RankedAppend(order, remainders, i);
    } else {
      var n := |order| - 1;
      RankedPrefix(order, remainders, n);
      RankInsertKeeps(order[..n], remainders, i);
      var shorter := RankInsert(order[..n], remainders, i);
      forall k | 0 <= k < |shorter| ensures Before(remainders, shorter[k], order[n]) {
        RankInsertMembers(order[..n], remainders, i, k);
        if shorter[k] != i {
          var l :| 0 <= l < n && order[..n][l] == shorter[k];
          assert Before(remainders, order[l], order[n]);
        }
      }
      RankedAppend(shorter, remainders, order[n]);
    }
  }

  lemma {:induction false} RankIsRanked(remainders: seq<nat>, n: nat)
    requires n <= |remainders|
    ensures Ranked(Rank(remainders, n), remainders)
    ensures forall k :: 0 <= k < n ==> Rank(remainders, n)[k] < n
  {
    if n > 0 {
      RankIsRanked(remainders, n - 1);
      RankInsertKeeps(Rank(remainders, n - 1), remainders, n - 1);
    }
  }

  lemma {:induction false} RankSum(remainders: seq<nat>, n: nat)
    requires n <= |remainders|
    ensures SumAt(Rank(remainders, n), remainders) == Sum(remainders[..n])
  {
    if n > 0 {
      var before := Rank(remainders, n - 1);
      calc {
        SumAt(Rank(remainders, n), remainders);
        SumAt(RankInsert(before, remainders, n - 1), remainders);
        { RankInsertSums(before, remainders, n - 1); }
        SumAt(before, remainders) + remainders[n - 1];
        { RankSum(remainders, n - 1); }
        Sum(remainders[..n - 1]) + remainders[n - 1];
        { SumAppend(remainders[..n - 1], remainders[n - 1]); }
        Sum(remainders[..n - 1] + [remainders[n - 1]]);
        { assert remainders[..n] == remainders[..n - 1] + [remainders[n - 1]]; }
        Sum(remainders[..n]);
      }
    }
  }

  lemma RankedIsDistinct(order: seq<nat>, remainders: seq<nat>)
    requires Ranked(order, remainders)
    ensures Distinct(order)
  {
    forall k, l | 0 <= k < l < |order| ensures order[k] != order[l] {
      assert Before(remainders, order[k], order[l]);
    }
  }

  // ----- The pigeonhole: leftover points only go to indices with a nonzero remainder -----

  lemma {:induction false} SumAtBound(order: seq<nat>, remainders: seq<nat>, k: nat, total: nat)
    requires Indexes(order, remainders) && k <= |order| && total > 0
    requires forall l :: 0 <= l < k ==> remainders[order[l]] < total
    requires forall l :: k <= l < |order| ==> remainders[order[l]] == 0
    ensures SumAt(order, remainders) <= (total - 1) * k
  {
    if order != [] {
      var n := |order| - 1;
      if k == |order| {
        SumAtBound(order[..n], remainders, k - 1, total);
        MulDistributes(total - 1, k, 1);
      } else {
        SumAtBound(order[..n], remainders, k, total);
      }
    }
  }

  /** Fewer than `leftover` remainders below `total` cannot add up to `total * leftover`. */
  lemma RankedSumReaches(order: seq<nat>, remainders: seq<nat>, k: nat, total: nat, leftover: nat)
    requires Indexes(order, remainders) && k <= |order| && total > 0
    requires forall l :: 0 <= l < k ==> remainders[order[l]] < total
    requires forall l :: k <= l < |order| ==> remainders[order[l]] == 0
    requires SumAt(order, remainders) == total * leftover
    ensures leftover <= k
  {
    SumAtBound(order, remainders, k, total);
    MulDistributes(total, leftover, k);
    MulDistributes(k, total, 1);
    MulSign(total, leftover - k);
  }

  lemma LeftoverGoesToNonzero(remainders: seq<nat>, total: nat, leftover: nat, order: seq<nat>)
    requires total > 0 && Sum(remainders) == total * leftover
    requires forall i :: 0 <= i < |remainders| ==> remainders[i] < total
    requires order == Rank(remainders, |remainders|)
    ensures leftover <= |order|
    ensures forall k :: 0 <= k < leftover ==> remainders[order[k]] > 0
  {
    var n := |remainders|;
    RankIsRanked(remainders, n);
    RankSum(remainders, n);
    assert remainders[..n] == remainders;
    RankedSumReaches(order, remainders, n, total, leftover);
    forall k | 0 <= k < leftover ensures remainders[order[k]] > 0 {
      ZeroEndsRanking(order, remainders, k, total, leftover);
    }
  }

  lemma ZeroEndsRanking(order: seq<nat>, remainders: seq<nat>, k: nat, total: nat, leftover: nat)
    requires Ranked(order, remainders) && k < |order| && total > 0
    requires forall l :: 0 <= l < |order| ==> remainders[order[l]] < total
    requires SumAt(order, remainders) == total * leftover
    ensures remainders[order[k]] == 0 ==> leftover <= k
  {
    if remainders[order[k]] == 0 {
      forall l | k <= l < |order| ensures remainders[order[l]] == 0 {
        assert l > k ==> Before(remainders, order[k], order[l]);
      }
      RankedSumReaches(order, remainders, k, total, leftover);
    }
  }

  // ----- The loop -----

  /** Where the rounded shares and the leftover points end up. */
  ghost predicate Apportioned(budget: nat, capacities: seq<nat>, extras: seq<nat>) {
    && |extras| == |capacities|
    && Sum(extras) == budget
    && (forall i :: 0 <= i < |capacities| ==> extras[i] <= capacities[i])
  }

  lemma NonzeroRemainderLeavesRoom(budget: nat, capacity: nat, total: nat, share: nat, remainder: nat)
    requires budget <= total && budget * capacity == total * share + remainder
    requires total > 0
    ensures share <= capacity
    ensures remainder > 0 ==> share < capacity
  {
    MulMonotone(capacity, budget, total);
    MulDistributes(total, share, capacity);
    MulSign(total, share - capacity);
  }

  /** Each extra is its exact share rounded down or up, and larger remainders are rounded up first. */
  ghost predicate Fair(budget: nat, capacities: seq<nat>, total: nat, extras: seq<nat>)
    requires total > 0 && |extras| == |capacities|
  {
    var shares, remainders := Shares(budget, capacities, total), Remainders(budget, capacities, total);
    && (forall i :: 0 <= i < |extras| ==> extras[i] == shares[i] || extras[i] == shares[i] + 1)
    && (forall i, j :: 0 <= i < |extras| && 0 <= j < |extras|
                       && extras[i] == shares[i] + 1 && extras[j] == shares[j] ==>
                         Before(remainders, i, j))
  }

  /** Gives one more point to each of the first `leftover` ranked indices. */
  method Bump(shares: seq<nat>, order: seq<nat>, leftover: nat) returns (extras: seq<nat>)
    requires leftover <= |order| && Distinct(order)
    requires forall k :: 0 <= k < |order| ==> order[k] < |shares|
    ensures |extras| == |shares| && Sum(extras) == Sum(shares) + leftover
    ensures forall i :: 0 <= i < |extras| ==> extras[i] == shares[i] + if i in order[..leftover] then 1 else 0
  {
    extras := shares;
    var k := 0;
    while k < leftover
      invariant 0 <= k <= leftover
      invariant |extras| == |shares| && Sum(extras) == Sum(shares) + k
      invariant forall i :: 0 <= i < |extras| ==> extras[i] == shares[i] + if i in order[..k] then 1 else 0
    {
      var index := order[k];
      SumIncrement(extras, index);
      assert index !in order[..k];
      assert order[..k + 1] == order[..k] + [index];
      extras := extras[index := extras[index] + 1];
      k := k + 1;
    }
  }

  /** Divides `budget` points over the capacities. */
  method Apportion(budget: nat, capacities: seq<nat>) returns (extras: seq<nat>)
    requires budget < Sum(capacities)
    ensures Apportioned(budget, capacities, extras)
    ensures Fair(budget, capacities, Sum(capacities), extras)
  {
    var total := Sum(capacities);
    var shares := Shares(budget, capacities, total);
    var remainders := Remainders(budget, capacities, total);
    SharesDivide(budget, capacities, total);
    RemaindersAddUp(budget, capacities, total, shares, remainders);
    LeftoverExact(budget, total, Sum(shares), Sum(remainders));
    var leftover := budget - Sum(shares);
    var order := Rank(remainders, |remainders|);
    LeftoverGoesToNonzero(remainders, total, leftover, order);
    RankIsRanked(remainders, |remainders|);
    RankedIsDistinct(order, remainders);
    extras := Bump(shares, order, leftover);
    BumpedFit(budget, capacities, total, shares, remainders, extras, order, leftover);
    BumpedIsFair(budget, capacities, total, order, leftover, extras);
  }

  lemma BumpedIsFair(budget: nat, capacities: seq<nat>, total: nat, order: seq<nat>, leftover: nat, extras: seq<nat>)
    requires total > 0 && |extras| == |capacities| == |order| && leftover <= |order|
    requires Ranked(order, Remainders(budget, capacities, total))
    requires forall i :: 0 <= i < |extras| ==>
                           extras[i] == Shares(budget, capacities, total)[i] + if i in order[..leftover] then 1 else 0
    ensures Fair(budget, capacities, total, extras)
  {
    BumpedComeFirst(order, Remainders(budget, capacities, total), leftover);
  }

  lemma BumpedFit(budget: nat, capacities: seq<nat>, total: nat, shares: seq<nat>, remainders: seq<nat>,
                  extras: seq<nat>, order: seq<nat>, leftover: nat)
    requires budget <= total && Divides(budget, capacities, total, shares, remainders)
    requires |extras| == |shares| && leftover <= |order| && Indexes(order, remainders)
    requires forall i :: 0 <= i < |extras| ==> extras[i] == shares[i] + if i in order[..leftover] then 1 else 0
    requires forall k :: 0 <= k < leftover ==> remainders[order[k]] > 0
    ensures forall i :: 0 <= i < |capacities| ==> extras[i] <= capacities[i]
  {
    forall i | 0 <= i < |capacities| ensures extras[i] <= capacities[i] {
      NonzeroRemainderLeavesRoom(budget, capacities[i], total, shares[i], remainders[i]);
      if i in order[..leftover] {
        var k :| 0 <= k < leftover && order[..leftover][k] == i;
        assert remainders[order[k]] > 0;
      }
    }
  }

  lemma LeftoverExact(budget: nat, total: nat, shares: nat, remainders: nat)
    requires total > 0 && budget * total == total * shares + remainders
    ensures shares <= budget && remainders == total * (budget - shares)
  {
    MulDistributes(total, budget, shares);
    MulSign(total, shares - budget);
  }

  /** Every index is ranked, so an index outside the first `k` comes after all inside. */
  lemma BumpedComeFirst(order: seq<nat>, remainders: seq<nat>, k: nat)
    requires Ranked(order, remainders) && |order| == |remainders| && k <= |order|
    ensures forall i, j :: 0 <= i < |remainders| && 0 <= j < |remainders| && i in order[..k] && j !in order[..k] ==>
                             Before(remainders, i, j)
  {
    RankedIsDistinct(order, remainders);
    forall i, j | 0 <= i < |remainders| && 0 <= j < |remainders| && i in order[..k] && j !in order[..k]
      ensures Before(remainders, i, j)
    {
      var a :| 0 <= a < k && order[..k][a] == i;
      AllRanked(order, |remainders|, j);
      var b :| 0 <= b < |order| && order[b] == j;
      assert forall l :: 0 <= l < k ==> order[..k][l] == order[l];
      assert order[a] == i;
      assert b >= k;
    }
  }

  /** The indices below `n`. */
  ghost function Below(n: nat): (s: set<nat>)
    ensures |s| == n
    ensures forall i: nat :: i in s <==> i < n
  {
    if n == 0 then {} else Below(n - 1) + {n - 1}
  }

  /** `n` distinct indices below `n` are all the indices below `n`. */
  lemma AllRanked(order: seq<nat>, n: nat, j: nat)
    requires Distinct(order) && |order| == n && j < n
    requires forall k :: 0 <= k < n ==> order[k] < n
    ensures j in order
  {
    DistinctCount(order);
    SubsetCount(SetOf(order), Below(n) - {j});
  }

  lemma {:induction false} DistinctCount(s: seq<nat>)
    requires Distinct(s)
    ensures |SetOf(s)| == |s|
  {
    if s != [] {
      var n := |s| - 1;
      DistinctCount(s[..n]);
      assert s[n] !in s[..n];
      assert s == s[..n] + [s[n]];
      assert SetOf(s) == SetOf(s[..n]) + {s[n]};
    }
  }

  lemma {:induction false} SubsetCount(a: set<nat>, b: set<nat>)
    ensures a <= b ==> |a| <= |b|
    decreases |a|
  {
    if a != {} {
      var x :| x in a;
      if x in b {
        SubsetCount(a - {x}, b - {x});
      }
    }
  }
}
