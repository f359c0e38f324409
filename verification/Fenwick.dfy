/**
 The prefix-maximum index of the frame matcher
 (tools/multisensor_alignment/src/vt_multisensor_alignment/matcher.py, lines 32-60):
 a total order on chains, and a Fenwick tree that answers prefix maxima under it.
 */
module Fenwick {
  import opened Prelude

  /** A partial matching summary: pairs matched, total residual, last edge. */
  datatype Chain = Chain(count: nat, cost: nat, edge: Option<nat>)

  const EMPTY := Chain(0, 0, None)

  /** `better` of the source, branch for branch. */
  function Better(left: Chain, right: Chain): Chain {
    if left.count != right.count || left.cost != right.cost then
      if left.count > right.count || (left.count == right.count && left.cost < right.cost) then left else right
    else if left.edge.None? then right
    else if right.edge.None? then left
    else if left.edge.value < right.edge.value then left
    else right
  }

  /** The order `Better` maximises: more pairs, then less residual, then an earlier edge. */
  predicate AtLeast(a: Chain, b: Chain) {
    || a.count > b.count
    || (a.count == b.count && a.cost < b.cost)
    || (a.count == b.count && a.cost == b.cost
        && (b.edge.None? || (a.edge.Some? && a.edge.value <= b.edge.value)))
  }

  lemma AtLeastIsTotalOrder(a: Chain, b: Chain, c: Chain)
    ensures AtLeast(a, b) || AtLeast(b, a)
    ensures AtLeast(a, b) && AtLeast(b, a) ==> a == b
    ensures AtLeast(a, b) && AtLeast(b, c) ==> AtLeast(a, c)
    ensures Better(a, b) == if AtLeast(a, b) then a else b
  {
  }

  lemma BetterLaws(a: Chain, b: Chain, c: Chain)
    ensures Better(a, b) == Better(b, a)
    ensures Better(a, a) == a
    ensures Better(Better(a, b), c) == Better(a, Better(b, c))
  {
  }

  /** One `update` call: a value posted at a candidate position. */
  datatype Post = Post(position: nat, value: Chain)

  /** The specification: the maximum of EMPTY and every value posted in [lo, hi). */
  function Best(log: seq<Post>, lo: int, hi: int): Chain {
    if log == [] then EMPTY
    else
      var rest := Best(log[..|log| - 1], lo, hi);
      var post := log[|log| - 1];
      if lo <= post.position < hi then Better(rest, post.value) else rest
  }

  /** `Best` is a maximum: it dominates every post in range, and is attained. */
  lemma {:induction false} BestIsMaximum(log: seq<Post>, lo: int, hi: int)
    ensures AtLeast(Best(log, lo, hi), EMPTY)
    ensures forall k :: 0 <= k < |log| && lo <= log[k].position < hi ==> AtLeast(Best(log, lo, hi), log[k].value)
    ensures Best(log, lo, hi) == EMPTY
            || exists k :: 0 <= k < |log| && lo <= log[k].position < hi && log[k].value == Best(log, lo, hi)
  {
    if log != [] {
      var n := |log| - 1;
      BestIsMaximum(log[..n], lo, hi);
      var rest := Best(log[..n], lo, hi);
      AtLeastIsTotalOrder(rest, log[n].value, EMPTY);
      forall k | 0 <= k < |log| && lo <= log[k].position < hi
        ensures AtLeast(Best(log, lo, hi), log[k].value)
      {
        if k < n {
          assert log[..n][k] == log[k];
          AtLeastIsTotalOrder(Best(log, lo, hi), rest, log[k].value);
        }
      }
    }
  }

  lemma {:induction false} BestSplit(log: seq<Post>, lo: int, mid: int, hi: int)
    requires lo <= mid <= hi
    ensures Best(log, lo, hi) == Better(Best(log, lo, mid), Best(log, mid, hi))
  {
    if log != [] {
      var n := |log| - 1;
      BestSplit(log[..n], lo, mid, hi);
      var left, right := Best(log[..n], lo, mid), Best(log[..n], mid, hi);
      BetterLaws(left, right, log[n].value);
      BetterLaws(left, log[n].value, right);
      BetterLaws(right, log[n].value, left);
    }
  }

  lemma {:induction false} BestOfEmptyRange(log: seq<Post>, at: int)
    ensures Best(log, at, at) == EMPTY
  {
    if log != [] {
      BestOfEmptyRange(log[..|log| - 1], at);
    }
  }

  lemma BestAppend(log: seq<Post>, post: Post, lo: int, hi: int)
    ensures Best(log + [post], lo, hi)
            == if lo <= post.position < hi then Better(Best(log, lo, hi), post.value) else Best(log, lo, hi)
  {
    assert (log + [post])[..|log|] == log;
  }

  // ----- The bit trick -----

  /** Bitwise `&` on unbounded two's-complement integers. */
  function BitAnd(a: int, b: int): int
    decreases Abs(a) + Abs(b)
  {
    if a == 0 || b == 0 then 0
    else if a == -1 then b
    else if b == -1 then a
    else 2 * BitAnd(a / 2, b / 2) + (a % 2) * (b % 2)
  }

  /** The largest power of two dividing `i`. */
  function LowBit(i: int): (b: int)
    requires i > 0
    ensures 1 <= b <= i
  {
    if i % 2 == 1 then 1 else 2 * LowBit(i / 2)
  }

  lemma {:induction false} BitAndComplement(x: int)
    ensures BitAnd(x, -x - 1) == 0
    decreases Abs(x)
  {
    if x != 0 && x != -1 {
      assert (-x - 1) / 2 == -(x / 2) - 1;
      BitAndComplement(x / 2);
    }
  }

  /** `index & -index` isolates the lowest set bit. */
  lemma {:induction false} BitTrickIsLowBit(i: int)
    requires i > 0
    ensures BitAnd(i, -i) == LowBit(i)
    decreases i
  {
    if i % 2 == 1 {
      if i != 1 {
        assert (-i) / 2 == -(i / 2) - 1;
        BitAndComplement(i / 2);
        assert BitAnd(i, -i) == 2 * BitAnd(i / 2, (-i) / 2) + (i % 2) * ((-i) % 2);
      }
    } else {
      assert (-i) / 2 == -(i / 2);
      BitTrickIsLowBit(i / 2);
    }
  }

  /** The next node an update visits covers everything the current one does. */
  lemma {:induction false} NextNodeCovers(i: int)
    requires i > 0
    ensures LowBit(i + LowBit(i)) >= 2 * LowBit(i)
    decreases i
  {
    if i % 2 == 0 {
      NextNodeCovers(i / 2);
      assert (i + LowBit(i)) / 2 == i / 2 + LowBit(i / 2);
    }
  }

  /** Nodes an update skips do not reach back to the posted position. */
  lemma {:induction false} SkippedNodesStartLater(i: int, j: int)
    requires 0 < i < j < i + LowBit(i)
    ensures j - LowBit(j) >= i
    decreases i
  {
    if j % 2 == 0 {
      SkippedNodesStartLater(i / 2, j / 2);
    }
  }

  /** Nodes lo..hi of `nodes` each hold the best post of their own span. */
  ghost predicate Holds(nodes: seq<Chain>, log: seq<Post>, lo: int, hi: int) {
    forall i :: 1 <= lo <= i < hi <= |nodes| ==> nodes[i] == Best(log, i - LowBit(i), i)
  }

  /** Nodes at or below the posted position are unaffected by the post. */
  lemma NodesBelowKeep(nodes: seq<Chain>, log: seq<Post>, post: Post)
    requires post.position + 1 < |nodes|
    requires Holds(nodes, log, 1, |nodes|)
    ensures Holds(nodes, log + [post], 1, post.position + 1)
  {
    forall i | 1 <= i < post.position + 1
      ensures nodes[i] == Best(log + [post], i - LowBit(i), i)
    {
      BestAppend(log, post, i - LowBit(i), i);
    }
  }

  /** One round of the update loop extends the refreshed prefix to the next node. */
  lemma UpdateRound(nodes: seq<Chain>, log: seq<Post>, post: Post, index: int)
    requires 1 <= index < |nodes|
    requires index - LowBit(index) <= post.position < index
    requires Holds(nodes, log + [post], 1, index)
    requires Holds(nodes, log, index, |nodes|)
    ensures var nodes' := nodes[index := Better(nodes[index], post.value)];
            var next := index + LowBit(index);
            && next - LowBit(next) <= post.position < next
            && Holds(nodes', log + [post], 1, if next < |nodes| then next else |nodes|)
            && (next < |nodes| ==> Holds(nodes', log, next, |nodes|))
  {
    var nodes' := nodes[index := Better(nodes[index], post.value)];
    var next := index + LowBit(index);
    NextNodeCovers(index);
    forall i | 1 <= i < next && i < |nodes|
      ensures nodes'[i] == Best(log + [post], i - LowBit(i), i)
    {
      if i >= index {
        BestAppend(log, post, i - LowBit(i), i);
      }
      if i > index {
        SkippedNodesStartLater(index, i);
      }
    }
  }

  /** The in-place index: node i holds the best post in [i - LowBit(i), i). */
  class FenwickTree {
    const tree: array<Chain>
    ghost var log: seq<Post>

    ghost predicate Valid()
      reads this, tree
    {
      && tree.Length >= 1
      && Holds(tree[..], log, 1, tree.Length)
    }

    constructor (candidateCount: nat)
      ensures Valid() && fresh(tree)
      ensures log == [] && tree.Length == candidateCount + 1
    {
      tree := new Chain[candidateCount + 1](_ => EMPTY);
      log := [];
    }

    /** The best chain posted strictly below `candidateCount`. */
    method Query(candidateCount: nat) returns (result: Chain)
      requires Valid() && candidateCount < tree.Length
      ensures result == Best(log, 0, candidateCount)
    {
      result := EMPTY;
      var index: int := candidateCount;
      BestIsMaximum(log, 0, candidateCount);
      AtLeastIsTotalOrder(EMPTY, Best(log, 0, candidateCount), EMPTY);
      while index > 0
        invariant 0 <= index <= candidateCount
        invariant AtLeast(result, EMPTY)
        invariant Better(result, Best(log, 0, index)) == Best(log, 0, candidateCount)
        decreases index
      {
        BitTrickIsLowBit(index);
        ghost var from := index - LowBit(index);
        assert tree[..][index] == tree[index] == Best(log, from, index);
        BestSplit(log, 0, from, index);
        BetterLaws(Best(log, 0, from), tree[index], result);
        BetterLaws(result, tree[index], Best(log, 0, from));
        AtLeastIsTotalOrder(result, tree[index], EMPTY);
        result := Better(result, tree[index]);
        index := index - BitAnd(index, -index);
      }
      BestOfEmptyRange(log, 0);
      AtLeastIsTotalOrder(result, EMPTY, EMPTY);
    }

    /** Posts `value` at `candidateIndex`. */
    method Update(candidateIndex: nat, value: Chain)
      requires Valid() && candidateIndex + 1 < tree.Length
      modifies this, tree
      ensures Valid()
      ensures log == old(log) + [Post(candidateIndex, value)]
    {
      ghost var before := log;
      ghost var post := Post(candidateIndex, value);
      NodesBelowKeep(tree[..], before, post);
      var index: int := candidateIndex + 1;
      while index < tree.Length
        invariant log == before
        invariant 1 <= index
        invariant index - LowBit(index) <= candidateIndex < index
        invariant Holds(tree[..], before + [post], 1, if index < tree.Length then index else tree.Length)
        invariant index < tree.Length ==> Holds(tree[..], before, index, tree.Length)
        decreases tree.Length - index
      {
        BitTrickIsLowBit(index);
        UpdateRound(tree[..], before, post, index);
        ghost var updated := tree[..][index := Better(tree[index], value)];
        tree[index] := Better(tree[index], value);
        assert tree[..] == updated;
        index := index + BitAnd(index, -index);
      }
      log := before + [post];
    }
  }
}
