/**
 What a frame matching is, when it is best, and why looking at order-preserving
 matchings only loses nothing
 (tools/multisensor_alignment/src/vt_multisensor_alignment/matcher.py, lines 18-31).
 */
module Matching {
  import opened Prelude

  /** One matching problem: two timestamp lists and an inclusive tolerance. */
  datatype Problem = Problem(references: seq<int>, candidates: seq<int>, maxDelta: int) {
    predicate WellFormed() {
      StrictlyIncreasing(references) && StrictlyIncreasing(candidates)
    }

    predicate IsEdge(p: Pair) {
      && p.reference < |references| && p.candidate < |candidates|
      && Abs(candidates[p.candidate] - references[p.reference]) <= maxDelta
    }

    function Residual(p: Pair): nat
      requires p.reference < |references| && p.candidate < |candidates|
    {
      Abs(candidates[p.candidate] - references[p.reference])
    }

    predicate AllEdges(m: seq<Pair>) {
      forall k :: 0 <= k < |m| ==> IsEdge(m[k])
    }

    function Cost(m: seq<Pair>): nat
      requires AllEdges(m)
    {
      if m == [] then 0 else Cost(m[..|m| - 1]) + Residual(m[|m| - 1])
    }

    /** A chain: edges that increase strictly on both sides. */
    ghost predicate IsChain(m: seq<Pair>) {
      && AllEdges(m)
      && (forall i, j :: 0 <= i < j < |m| ==> m[i].reference < m[j].reference)
      && (forall i, j :: 0 <= i < j < |m| ==> m[i].candidate < m[j].candidate)
    }

    /** Every assigned candidate is within tolerance of its reference. */
    predicate OnEdges(a: seq<Option<nat>>) {
      forall r :: 0 <= r < |a| && a[r].Some? ==> IsEdge(Pair(r, a[r].value))
    }

    /** An assignment gives each reference at most one candidate, within tolerance, never reusing one. */
    ghost predicate IsMatching(a: seq<Option<nat>>) {
      && |a| == |references|
      && OnEdges(a)
      && (forall r, s :: 0 <= r < s < |a| && a[r].Some? && a[s].Some? ==> a[r].value != a[s].value)
    }

    /** The pairs of an assignment, in reference order. */
    function Pairs(a: seq<Option<nat>>): (m: seq<Pair>)
      ensures forall k :: 0 <= k < |m| ==> m[k].reference < |a| && a[m[k].reference] == Some(m[k].candidate)
      ensures forall i, j :: 0 <= i < j < |m| ==> m[i].reference < m[j].reference
    {
      if a == [] then []
      else
        var n := |a| - 1;
        Pairs(a[..n]) + if a[n].Some? then [Pair(n, a[n].value)] else []
    }

    /** How many references an assignment matches. */
    function Size(a: seq<Option<nat>>): nat {
      if a == [] then 0 else Size(a[..|a| - 1]) + if a[|a| - 1].Some? then 1 else 0
    }

    /** The total residual of an assignment. */
    function Total(a: seq<Option<nat>>): nat
      requires OnEdges(a)
    {
      if a == [] then 0
      else
        var n := |a| - 1;
        Total(a[..n]) + if a[n].Some? then Residual(Pair(n, a[n].value)) else 0
    }

    /** `a` matches at least as many frames as `b` and, at equal numbers, with no more residual. */
    ghost predicate NoWorse(a: seq<Option<nat>>, b: seq<Option<nat>>)
      requires IsMatching(a) && IsMatching(b)
    {
      Size(a) > Size(b) || (Size(a) == Size(b) && Total(a) <= Total(b))
    }

    /** The promise of the matcher: best among ALL matchings, crossing ones included. */
    ghost predicate IsOptimal(a: seq<Option<nat>>) {
      IsMatching(a) && forall b :: IsMatching(b) ==> NoWorse(a, b)
    }
  }

  /** Later references are matched to later candidates. */
  ghost predicate InOrder(a: seq<Option<nat>>) {
    forall r, s :: 0 <= r < s < |a| && a[r].Some? && a[s].Some? ==> a[r].value < a[s].value
  }

  datatype Pair = Pair(reference: nat, candidate: nat)

  /** By reference, then by candidate. */
  predicate Earlier(a: Pair, b: Pair) {
    a.reference < b.reference || (a.reference == b.reference && a.candidate < b.candidate)
  }

  /** The same pairs, or at the last place where they differ `a` has the earlier pair. */
  ghost predicate ComesFirst(a: seq<Pair>, b: seq<Pair>) {
    && |a| == |b|
    && (a == b || exists k :: 0 <= k < |a| && Earlier(a[k], b[k]) && a[k + 1..] == b[k + 1..])
  }

  lemma FirstByLast(a: seq<Pair>, b: seq<Pair>)
    requires |a| == |b| > 0
    requires var n := |a| - 1; Earlier(a[n], b[n]) || (a[n] == b[n] && ComesFirst(a[..n], b[..n]))
    ensures ComesFirst(a, b)
  {
    var n := |a| - 1;
    if Earlier(a[n], b[n]) {
      assert a[n + 1..] == b[n + 1..];
    } else if a[..n] == b[..n] {
      assert a == a[..n] + [a[n]] && b == b[..n] + [b[n]];
    } else {
      var k :| 0 <= k < n && Earlier(a[..n][k], b[..n][k]) && a[..n][k + 1..] == b[..n][k + 1..];
      assert a[k + 1..] == a[..n][k + 1..] + [a[n]] && b[k + 1..] == b[..n][k + 1..] + [b[n]];
    }
  }

  lemma SameBehind(a: seq<Pair>, b: seq<Pair>, k: nat)
    requires |a| == |b| && k < |a| && a[k + 1..] == b[k + 1..]
    ensures forall i :: k < i < |a| ==> a[i] == b[i]
  {
    forall i | k < i < |a| ensures a[i] == b[i] {
      assert a[k + 1..][i - k - 1] == b[k + 1..][i - k - 1];
    }
  }

  lemma StrictlyFirst(a: seq<Pair>, b: seq<Pair>, k: nat)
    requires |a| == |b| && k < |a| && Earlier(a[k], b[k]) && a[k + 1..] == b[k + 1..]
    ensures !ComesFirst(b, a)
  {
    SameBehind(a, b, k);
    forall l | 0 <= l < |b| && Earlier(b[l], a[l]) ensures b[l + 1..] != a[l + 1..] {
      if l < k {
        assert b[l + 1..][k - l - 1] == b[k] && a[l + 1..][k - l - 1] == a[k];
      }
    }
  }

  /** Of two lists of pairs only one comes first. */
  lemma OnlyOneComesFirst(a: seq<Pair>, b: seq<Pair>)
    requires ComesFirst(a, b) && ComesFirst(b, a)
    ensures a == b
  {
    if k :| 0 <= k < |a| && Earlier(a[k], b[k]) && a[k + 1..] == b[k + 1..] {
      StrictlyFirst(a, b, k);
    }
  }

  ghost function CandidatesOf(m: seq<Pair>): set<nat> {
    if m == [] then {} else CandidatesOf(m[..|m| - 1]) + {m[|m| - 1].candidate}
  }

  lemma {:induction false} CandidatesOfMembers(m: seq<Pair>, c: nat)
    ensures c in CandidatesOf(m) <==> exists k :: 0 <= k < |m| && m[k].candidate == c
  {
    if m != [] {
      var n := |m| - 1;
      CandidatesOfMembers(m[..n], c);
      if k :| 0 <= k < |m| && m[k].candidate == c {
        assert k < n ==> m[..n][k].candidate == c;
      }
    }
  }

  lemma CostAppend(p: Problem, m: seq<Pair>, e: Pair)
    requires p.AllEdges(m) && p.IsEdge(e)
    ensures p.AllEdges(m + [e])
    ensures p.Cost(m + [e]) == p.Cost(m) + p.Residual(e)
  {
    assert (m + [e])[..|m|] == m;
  }

  /** The pairs of an assignment have its size and its total residual. */
  lemma {:induction false} PairsMeasure(p: Problem, a: seq<Option<nat>>)
    requires p.OnEdges(a)
    ensures p.AllEdges(p.Pairs(a))
    ensures |p.Pairs(a)| == p.Size(a)
    ensures p.Cost(p.Pairs(a)) == p.Total(a)
  {
    if a != [] {
      var n := |a| - 1;
      PairsMeasure(p, a[..n]);
      if a[n].Some? {
        CostAppend(p, p.Pairs(a[..n]), Pair(n, a[n].value));
      } else {
        assert p.Pairs(a) == p.Pairs(a[..n]);
      }
    }
  }

  /** Swapping a crossing pair stays within tolerance and costs no more. */
  lemma Uncross(r1: int, r2: int, c1: int, c2: int, delta: int)
    requires r1 < r2 && c1 < c2
    requires Abs(c2 - r1) <= delta && Abs(c1 - r2) <= delta
    ensures Abs(c1 - r1) <= delta && Abs(c2 - r2) <= delta
    ensures Abs(c1 - r1) + Abs(c2 - r2) <= Abs(c2 - r1) + Abs(c1 - r2)
  {
  }

  lemma ChainBelowLast(p: Problem, m: seq<Pair>, i: nat)
    requires p.IsChain(m) && i < |m|
    ensures m[i].reference <= m[|m| - 1].reference && m[i].candidate <= m[|m| - 1].candidate
  {
  }

  /** Appending past the last candidate keeps a chain. */
  lemma ChainAppend(p: Problem, m: seq<Pair>, e: Pair)
    requires p.IsChain(m) && p.IsEdge(e)
    requires m != [] ==> m[|m| - 1].reference < e.reference && m[|m| - 1].candidate < e.candidate
    ensures p.IsChain(m + [e])
    ensures p.Cost(m + [e]) == p.Cost(m) + p.Residual(e)
    ensures CandidatesOf(m + [e]) == CandidatesOf(m) + {e.candidate}
  {
    CostAppend(p, m, e);
    var m' := m + [e];
    assert m'[..|m|] == m;
    forall i, j | 0 <= i < j < |m'|
      ensures m'[i].reference < m'[j].reference && m'[i].candidate < m'[j].candidate
    {
      ChainBelowLast(p, m, i);
    }
  }

  lemma ChainPrefix(p: Problem, m: seq<Pair>)
    requires p.IsChain(m) && m != []
    ensures var n := |m| - 1;
            && p.IsChain(m[..n])
            && p.Cost(m) == p.Cost(m[..n]) + p.Residual(m[n])
            && CandidatesOf(m) == CandidatesOf(m[..n]) + {m[n].candidate}
            && (n > 0 ==> m[..n][n - 1].reference < m[n].reference && m[..n][n - 1].candidate < m[n].candidate)
  {
  }

  /** Inserts one more edge after a chain, uncrossing from the right as needed. */
  lemma {:induction false} InsertLast(p: Problem, m: seq<Pair>, e: Pair) returns (m': seq<Pair>)
    requires p.WellFormed() && p.IsChain(m) && p.IsEdge(e)
    requires m != [] ==> m[|m| - 1].reference < e.reference
    requires e.candidate !in CandidatesOf(m)
    ensures p.IsChain(m') && |m'| == |m| + 1
    ensures m'[|m|].reference == e.reference
    ensures m'[|m|].candidate == e.candidate || (m != [] && m'[|m|].candidate == m[|m| - 1].candidate)
    ensures CandidatesOf(m') == CandidatesOf(m) + {e.candidate}
    ensures p.Cost(m') <= p.Cost(m) + p.Residual(e)
    decreases |m|
  {
    if m == [] || m[|m| - 1].candidate < e.candidate {
      m' := m + [e];
      ChainAppend(p, m, e);
    } else {
      var n := |m| - 1;
      var last := m[n];
      var down, up := Pair(last.reference, e.candidate), Pair(e.reference, last.candidate);
      var rest := m[..n];
      ChainPrefix(p, m);
      UncrossEdges(p, last, e);
      var m1 := InsertLast(p, rest, down);
      assert CandidatesOf(m1) == CandidatesOf(rest) + {e.candidate};
      assert m1[|m1| - 1].candidate < up.candidate;
      ChainAppend(p, m1, up);
      m' := m1 + [up];
    }
  }

  lemma UncrossEdges(p: Problem, left: Pair, right: Pair)
    requires p.WellFormed() && p.IsEdge(left) && p.IsEdge(right)
    requires left.reference < right.reference && left.candidate > right.candidate
    ensures var down, up := Pair(left.reference, right.candidate), Pair(right.reference, left.candidate);
            && p.IsEdge(down) && p.IsEdge(up)
            && p.Residual(down) + p.Residual(up) <= p.Residual(left) + p.Residual(right)
  {
    Uncross(p.references[left.reference], p.references[right.reference],
            p.candidates[right.candidate], p.candidates[left.candidate], p.maxDelta);
  }

  /** In-tolerance pairs in reference order with distinct candidates, crossing or not. */
  ghost predicate IsPairing(p: Problem, m: seq<Pair>) {
    && p.AllEdges(m)
    && (forall i, j :: 0 <= i < j < |m| ==> m[i].reference < m[j].reference)
    && (forall i, j :: 0 <= i < j < |m| ==> m[i].candidate != m[j].candidate)
  }

  lemma PairingPrefix(p: Problem, m: seq<Pair>)
    requires IsPairing(p, m) && m != []
    ensures var n := |m| - 1;
            && IsPairing(p, m[..n])
            && (n > 0 ==> m[..n][n - 1].reference < m[n].reference)
            && p.Cost(m) == p.Cost(m[..n]) + p.Residual(m[n])
            && CandidatesOf(m) == CandidatesOf(m[..n]) + {m[n].candidate}
            && m[n].candidate !in CandidatesOf(m[..n])
  {
    CandidatesOfMembers(m[..|m| - 1], m[|m| - 1].candidate);
  }

  /** Every pairing has a chain that matches as many frames and costs no more. */
  lemma {:induction false} Straighten(p: Problem, m: seq<Pair>) returns (m': seq<Pair>)
    requires p.WellFormed() && IsPairing(p, m)
    ensures p.IsChain(m') && |m'| == |m|
    ensures m != [] ==> m'[|m| - 1].reference == m[|m| - 1].reference
    ensures CandidatesOf(m') == CandidatesOf(m)
    ensures p.Cost(m') <= p.Cost(m)
    decreases |m|
  {
    if m == [] {
      m' := [];
    } else {
      PairingPrefix(p, m);
      var m1 := Straighten(p, m[..|m| - 1]);
      m' := InsertLast(p, m1, m[|m| - 1]);
    }
  }

  /** Every matching, crossing or not, is dominated by a chain of the same size. */
  lemma MatchingHasChain(p: Problem, b: seq<Option<nat>>) returns (m: seq<Pair>)
    requires p.WellFormed() && p.IsMatching(b)
    ensures p.IsChain(m) && |m| == p.Size(b) && p.Cost(m) <= p.Total(b)
  {
    PairsMeasure(p, b);
    m := Straighten(p, p.Pairs(b));
  }

  /** `a` assigns exactly the pairs of `m`, which lists them in reference order. */
  ghost predicate Spells(a: seq<Option<nat>>, m: seq<Pair>) {
    && (forall i, j :: 0 <= i < j < |m| ==> m[i].reference < m[j].reference)
    && (forall k :: 0 <= k < |m| ==> m[k].reference < |a| && a[m[k].reference] == Some(m[k].candidate))
    && (forall r :: 0 <= r < |a| && a[r].Some? ==> exists k :: 0 <= k < |m| && m[k].reference == r)
  }

  ghost function FirstReference(m: seq<Pair>): int {
    if m == [] then -1 else m[0].reference
  }

  lemma FirstInRange(a: seq<Option<nat>>, m: seq<Pair>)
    requires Spells(a, m)
    ensures FirstReference(m) < |a|
  {
  }

  lemma SpellsPrefixMatched(a: seq<Option<nat>>, m: seq<Pair>)
    requires Spells(a, m) && a != [] && a[|a| - 1].Some?
    ensures m != [] && m[|m| - 1] == Pair(|a| - 1, a[|a| - 1].value)
    ensures Spells(a[..|a| - 1], m[..|m| - 1])
  {
    var n := |a| - 1;
    var k :| 0 <= k < |m| && m[k].reference == n;
    assert m[k].reference <= m[|m| - 1].reference;
    assert m[|m| - 1].reference == n;
    forall r | 0 <= r < n && a[..n][r].Some? ensures exists i :: 0 <= i < k && m[..k][i].reference == r {
      var i :| 0 <= i < |m| && m[i].reference == r;
      assert m[..k][i].reference == r;
    }
  }

  lemma SpellsPrefixUnmatched(a: seq<Option<nat>>, m: seq<Pair>)
    requires Spells(a, m) && a != [] && a[|a| - 1].None?
    ensures Spells(a[..|a| - 1], m)
  {
    forall i | 0 <= i < |m| ensures m[i].reference < |a| - 1 {
      assert a[m[i].reference].Some?;
    }
  }

  /** The assignment a chain spells out has exactly the chain's pairs. */
  lemma {:induction false} PairsOfChain(p: Problem, a: seq<Option<nat>>, m: seq<Pair>)
    requires Spells(a, m)
    ensures p.Pairs(a) == m
    decreases |a|
  {
    if a != [] {
      var n := |a| - 1;
      if a[n].Some? {
        SpellsPrefixMatched(a, m);
        PairsOfChain(p, a[..n], m[..|m| - 1]);
      } else {
        SpellsPrefixUnmatched(a, m);
        PairsOfChain(p, a[..n], m);
      }
    } else {
      FirstInRange(a, m);
    }
  }

  lemma {:induction false} PairOfMatched(p: Problem, a: seq<Option<nat>>, r: nat)
    requires r < |a| && a[r].Some?
    ensures exists k :: 0 <= k < |p.Pairs(a)| && p.Pairs(a)[k] == Pair(r, a[r].value)
  {
    var n := |a| - 1;
    if r < n {
      PairOfMatched(p, a[..n], r);
      var k :| 0 <= k < |p.Pairs(a[..n])| && p.Pairs(a[..n])[k] == Pair(r, a[r].value);
      assert p.Pairs(a)[k] == Pair(r, a[r].value);
    } else {
      assert p.Pairs(a)[|p.Pairs(a)| - 1] == Pair(r, a[r].value);
    }
  }

  /** Assignments with the same pairs are the same. */
  lemma PairsDetermine(p: Problem, a: seq<Option<nat>>, b: seq<Option<nat>>)
    requires |a| == |b| && p.Pairs(a) == p.Pairs(b)
    ensures a == b
  {
    forall r | 0 <= r < |a| ensures a[r] == b[r] {
      if a[r].Some? {
        PairOfMatched(p, a, r);
      }
      if b[r].Some? {
        PairOfMatched(p, b, r);
      }
    }
  }

  /** The pairs of an assignment in order are a chain. */
  lemma PairsAreChain(p: Problem, b: seq<Option<nat>>)
    requires p.IsMatching(b) && InOrder(b)
    ensures p.IsChain(p.Pairs(b)) && |p.Pairs(b)| == p.Size(b) && p.Cost(p.Pairs(b)) == p.Total(b)
  {
    PairsMeasure(p, b);
    var m := p.Pairs(b);
    forall i, j | 0 <= i < j < |m| ensures m[i].candidate < m[j].candidate {
      assert b[m[i].reference] == Some(m[i].candidate) && b[m[j].reference] == Some(m[j].candidate);
    }
  }

  /** Optimal, without crossings, and first among all such assignments. */
  ghost predicate IsFirstOptimal(p: Problem, a: seq<Option<nat>>) {
    && p.IsOptimal(a) && InOrder(a)
    && forall b :: p.IsOptimal(b) && InOrder(b) ==> ComesFirst(p.Pairs(a), p.Pairs(b))
  }

  /** So at most one assignment qualifies: the problem alone determines it. */
  lemma FirstOptimalIsUnique(p: Problem, a: seq<Option<nat>>, b: seq<Option<nat>>)
    requires IsFirstOptimal(p, a) && IsFirstOptimal(p, b)
    ensures a == b
  {
    OnlyOneComesFirst(p.Pairs(a), p.Pairs(b));
    PairsDetermine(p, a, b);
  }
}
