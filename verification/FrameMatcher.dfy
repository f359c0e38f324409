/**
 The frame matcher itself
 (tools/multisensor_alignment/src/vt_multisensor_alignment/matcher.py, lines 9-91 and 146-183):
 a dynamic programme over edges, indexed by the Fenwick tree, then a backtrace.
 */
module FrameMatcher {
  import opened Prelude
  import opened Fenwick
  import opened Matching

  datatype Input = References | Candidates | Generic

  datatype MatchError =
    | NegativeTimestamp(input: Input)
    | NotIncreasing(input: Input)
    | NegativeTolerance

  /** `_timestamps`: only adjacent entries are compared, yet the whole list ends up ordered. */
  function Timestamps(values: seq<int>, context: Input): (r: Result<seq<int>, MatchError>)
    ensures r.Ok? <==> (forall k :: 0 <= k < |values| ==> values[k] >= 0) && StrictlyIncreasing(values)
    ensures r.Ok? ==> r.value == values
    ensures r == Err(NegativeTimestamp(context)) <==> exists k :: 0 <= k < |values| && values[k] < 0
  {
    if exists k :: 0 <= k < |values| && values[k] < 0 then Err(NegativeTimestamp(context))
    else if exists k :: 0 <= k < |values| - 1 && values[k] >= values[k + 1] then
      Err(NotIncreasing(context))
    else
      AdjacentIncreasing(values);
      Ok(values)
  }

  lemma {:induction false} AdjacentIncreasing(values: seq<int>)
    requires forall k :: 0 <= k < |values| - 1 ==> values[k] < values[k + 1]
    ensures StrictlyIncreasing(values)
  {
    if |values| > 1 {
      var n := |values| - 1;
      AdjacentIncreasing(values[..n]);
      forall i, j | 0 <= i < j < |values| ensures values[i] < values[j] {
        assert values[n - 1] < values[n - 1 + 1];
        if j == n && i < n - 1 {
          assert values[..n][i] < values[..n][n - 1];
        }
      }
    }
  }

  /** Python's `bisect_left`: how many entries are below `x`. */
  function BisectLeft(s: seq<int>, x: int): (r: nat)
    requires StrictlyIncreasing(s)
    ensures r <= |s|
    ensures forall k :: 0 <= k < r ==> s[k] < x
    ensures forall k :: r <= k < |s| ==> s[k] >= x
  {
    if s == [] then 0
    else if s[|s| - 1] < x then |s|
    else BisectLeft(s[..|s| - 1], x)
  }

  /** Python's `bisect_right`: how many entries are at most `x`. */
  function BisectRight(s: seq<int>, x: int): (r: nat)
    requires StrictlyIncreasing(s)
    ensures r <= |s|
    ensures forall k :: 0 <= k < r ==> s[k] <= x
    ensures forall k :: r <= k < |s| ==> s[k] > x
  {
    if s == [] then 0
    else if s[|s| - 1] <= x then |s|
    else BisectRight(s[..|s| - 1], x)
  }

  datatype Edge = Edge(pair: Pair, previous: Option<nat>)

  /** No chain ending at `last` beats `count` pairs at total residual `cost`. */
  ghost predicate BestEnding(p: Problem, last: Pair, count: nat, cost: nat) {
    forall m :: p.IsChain(m) && m != [] && m[|m| - 1] == last ==>
                  count > |m| || (count == |m| && cost <= p.Cost(m))
  }

  /** Of all chains as good as `trace` that end where it does, `trace` comes first. */
  ghost predicate FirstEnding(p: Problem, trace: seq<Pair>)
    requires p.IsChain(trace) && trace != []
  {
    forall m :: p.IsChain(m) && |m| == |trace| && m[|m| - 1] == trace[|trace| - 1] && p.Cost(m) == p.Cost(trace) ==>
                  ComesFirst(trace, m)
  }

  /** Edges are listed by reference, then by candidate. */
  ghost predicate EdgesInOrder(edges: seq<Edge>) {
    forall e, f :: 0 <= e < f < |edges| ==> Earlier(edges[e].pair, edges[f].pair)
  }

  /** What is known of edge `e`: the chain its links spell out, its posted value, and its optimality. */
  ghost predicate EdgeSound(p: Problem, edges: seq<Edge>, posts: seq<Post>, traces: seq<seq<Pair>>, e: nat)
    requires e < |edges| == |posts| == |traces|
  {
    && (edges[e].previous.Some? ==> edges[e].previous.value < e)
    && traces[e] == (if edges[e].previous.Some? then traces[edges[e].previous.value] else []) + [edges[e].pair]
    && p.IsChain(traces[e])
    && posts[e] == Post(edges[e].pair.candidate, Chain(|traces[e]|, p.Cost(traces[e]), Some(e)))
    && BestEnding(p, edges[e].pair, |traces[e]|, p.Cost(traces[e]))
    && FirstEnding(p, traces[e])
  }

  /** The dynamic-programming table. `traces` is the chain each edge stands for. */
  ghost predicate Table(p: Problem, edges: seq<Edge>, posts: seq<Post>, traces: seq<seq<Pair>>) {
    && |edges| == |posts| == |traces|
    && forall e :: 0 <= e < |edges| ==> EdgeSound(p, edges, posts, traces, e)
  }

  ghost predicate HasEdge(edges: seq<Edge>, q: Pair) {
    exists e :: 0 <= e < |edges| && edges[e].pair == q
  }

  /** The edges so far are exactly those of references below `done`. */
  ghost predicate CoversBelow(p: Problem, edges: seq<Edge>, done: nat) {
    && (forall e :: 0 <= e < |edges| ==> edges[e].pair.reference < done)
    && (forall q :: p.IsEdge(q) && q.reference < done ==> HasEdge(edges, q))
  }

  /** The chain a new edge on `pair` stands for, given the queried predecessor. */
  ghost function Extended(traces: seq<seq<Pair>>, previous: Chain, pair: Pair): seq<Pair>
    requires previous.edge.Some? ==> previous.edge.value < |traces|
  {
    (if previous.edge.Some? then traces[previous.edge.value] else []) + [pair]
  }

  /** The chain a link stands for. */
  ghost function TraceOf(traces: seq<seq<Pair>>, link: Option<nat>): seq<Pair>
    requires link.Some? ==> link.value < |traces|
  {
    if link.Some? then traces[link.value] else []
  }

  /** The predecessor a query yields is EMPTY or the value of an edge on earlier candidates. */
  lemma QueriedEdge(p: Problem, edges: seq<Edge>, posts: seq<Post>, traces: seq<seq<Pair>>, c: int)
    requires Table(p, edges, posts, traces)
    ensures var previous := Best(posts, 0, c);
            previous == EMPTY || (
              && previous.edge.Some? && previous.edge.value < |edges|
              && posts[previous.edge.value].value == previous
              && edges[previous.edge.value].pair.candidate < c)
  {
    BestIsMaximum(posts, 0, c);
    var previous := Best(posts, 0, c);
    if previous != EMPTY {
      var k :| 0 <= k < |posts| && 0 <= posts[k].position < c && posts[k].value == previous;
      assert EdgeSound(p, edges, posts, traces, k);
    }
  }

  /** The queried chain is no worse than any chain that `pair` could extend. */
  lemma PredecessorDominates(p: Problem, edges: seq<Edge>, posts: seq<Post>, traces: seq<seq<Pair>>, pair: Pair,
                             m: seq<Pair>)
    requires Table(p, edges, posts, traces)
    requires CoversBelow(p, edges, pair.reference)
    requires p.IsChain(m)
    requires m != [] ==> m[|m| - 1].reference < pair.reference && m[|m| - 1].candidate < pair.candidate
    ensures var previous := Best(posts, 0, pair.candidate);
            previous.count > |m| || (previous.count == |m| && previous.cost <= p.Cost(m))
  {
    if m == [] {
      BestIsMaximum(posts, 0, pair.candidate);
    } else {
      var e := EdgeOfLast(p, edges, pair.reference, m);
      assert EdgeSound(p, edges, posts, traces, e);
      PostIsDominated(posts, pair.candidate, e);
      BestEndingDominates(p, edges[e].pair, |traces[e]|, p.Cost(traces[e]), m);
    }
  }

  /** The last pair of a chain is the pair of some edge. */
  lemma EdgeOfLast(p: Problem, edges: seq<Edge>, done: nat, m: seq<Pair>) returns (e: nat)
    requires CoversBelow(p, edges, done) && p.IsChain(m) && m != [] && m[|m| - 1].reference < done
    ensures e < |edges| && edges[e].pair == m[|m| - 1]
  {
    var q := m[|m| - 1];
    assert p.IsEdge(q);
    assert HasEdge(edges, q);
    e :| 0 <= e < |edges| && edges[e].pair == q;
  }

  lemma PostIsDominated(posts: seq<Post>, c: int, e: nat)
    requires e < |posts| && posts[e].position < c
    ensures AtLeast(Best(posts, 0, c), posts[e].value)
  {
    BestIsMaximum(posts, 0, c);
  }

  lemma BestEndingDominates(p: Problem, q: Pair, count: nat, cost: nat, m: seq<Pair>)
    requires BestEnding(p, q, count, cost) && p.IsChain(m) && m != [] && m[|m| - 1] == q
    ensures count > |m| || (count == |m| && cost <= p.Cost(m))
  {
  }

  /** What an edge posted. */
  lemma Posted(p: Problem, edges: seq<Edge>, posts: seq<Post>, traces: seq<seq<Pair>>, e: nat)
    requires Table(p, edges, posts, traces) && e < |edges|
    ensures p.IsChain(traces[e]) && traces[e] != [] && traces[e][|traces[e]| - 1] == edges[e].pair
    ensures posts[e].position == edges[e].pair.candidate
    ensures posts[e].value == Chain(|traces[e]|, p.Cost(traces[e]), Some(e))
    ensures BestEnding(p, edges[e].pair, |traces[e]|, p.Cost(traces[e])) && FirstEnding(p, traces[e])
  {
    assert EdgeSound(p, edges, posts, traces, e);
  }

  /** An edge's chain comes first among those as good, and an earlier edge's before all on a later edge. */
  lemma {:induction false} EarlierEdgeComesFirst(p: Problem, edges: seq<Edge>, posts: seq<Post>, traces: seq<seq<Pair>>,
                              f: nat, e: nat, m: seq<Pair>)
    requires Table(p, edges, posts, traces) && EdgesInOrder(edges) && f <= e < |edges|
    requires p.IsChain(m) && m != [] && m[|m| - 1] == edges[e].pair
    requires p.AllEdges(traces[f]) && |m| == |traces[f]| && p.Cost(m) == p.Cost(traces[f])
    ensures ComesFirst(traces[f], m)
  {
    Posted(p, edges, posts, traces, f);
    if f < e {
      FirstByLast(traces[f], m);
    }
  }

  /** Of all chains as good as the queried one, it comes first: ties go to the earlier edge, at every link. */
  lemma QueryComesFirst(p: Problem, edges: seq<Edge>, posts: seq<Post>, traces: seq<seq<Pair>>, done: nat, c: int,
                        m: seq<Pair>)
    requires Table(p, edges, posts, traces) && CoversBelow(p, edges, done) && EdgesInOrder(edges)
    requires p.IsChain(m) && (m != [] ==> m[|m| - 1].reference < done && m[|m| - 1].candidate < c)
    requires var previous := Best(posts, 0, c); |m| == previous.count && p.Cost(m) == previous.cost
    ensures var previous := Best(posts, 0, c);
            && (previous.edge.Some? ==> previous.edge.value < |edges|)
            && ComesFirst(TraceOf(traces, previous.edge), m)
  {
    var previous := Best(posts, 0, c);
    QueriedEdge(p, edges, posts, traces, c);
    if previous.edge.Some? {
      Posted(p, edges, posts, traces, previous.edge.value);
    }
    if m != [] {
      var e := EdgeOfLast(p, edges, done, m);
      Posted(p, edges, posts, traces, e);
      PostIsDominated(posts, c, e);
      BestEndingDominates(p, edges[e].pair, |traces[e]|, p.Cost(traces[e]), m);
      EarlierEdgeComesFirst(p, edges, posts, traces, previous.edge.value, e, m);
    }
  }

  /** Extending the queried chain by `pair` gives a chain of the count and cost that get posted. */
  lemma ExtendedIsChain(p: Problem, edges: seq<Edge>, posts: seq<Post>, traces: seq<seq<Pair>>, pair: Pair)
    requires Table(p, edges, posts, traces)
    requires CoversBelow(p, edges, pair.reference) && p.IsEdge(pair)
    ensures var previous := Best(posts, 0, pair.candidate);
            && (previous.edge.Some? ==> previous.edge.value < |edges|)
            && var trace := Extended(traces, previous, pair);
            && p.IsChain(trace)
            && |trace| == previous.count + 1
            && p.Cost(trace) == previous.cost + p.Residual(pair)
  {
    var previous := Best(posts, 0, pair.candidate);
    QueriedEdge(p, edges, posts, traces, pair.candidate);
    if previous.edge.Some? {
      var e := previous.edge.value;
      assert EdgeSound(p, edges, posts, traces, e);
      ChainAppend(p, traces[e], pair);
    } else {
      ChainAppend(p, [], pair);
    }
  }

  /** The step of the dynamic programme: extending the queried chain is best for the new edge. */
  lemma ExtendedIsBest(p: Problem, edges: seq<Edge>, posts: seq<Post>, traces: seq<seq<Pair>>, pair: Pair)
    requires Table(p, edges, posts, traces)
    requires CoversBelow(p, edges, pair.reference) && p.IsEdge(pair)
    ensures var previous := Best(posts, 0, pair.candidate);
            BestEnding(p, pair, previous.count + 1, previous.cost + p.Residual(pair))
  {
    var previous := Best(posts, 0, pair.candidate);
    var count, cost := previous.count + 1, previous.cost + p.Residual(pair);
    forall m | p.IsChain(m) && m != [] && m[|m| - 1] == pair
      ensures count > |m| || (count == |m| && cost <= p.Cost(m))
    {
      ChainPrefix(p, m);
      PredecessorDominates(p, edges, posts, traces, pair, m[..|m| - 1]);
    }
  }

  lemma ExtensionBeats(p: Problem, edges: seq<Edge>, posts: seq<Post>, traces: seq<seq<Pair>>, pair: Pair,
                       trace: seq<Pair>, m: seq<Pair>)
    requires Table(p, edges, posts, traces) && EdgesInOrder(edges) && CoversBelow(p, edges, pair.reference)
    requires var previous := Best(posts, 0, pair.candidate);
             && (previous.edge.Some? ==> previous.edge.value < |edges|)
             && trace == TraceOf(traces, previous.edge) + [pair]
             && p.IsEdge(pair)
             && p.IsChain(m) && |m| == |trace| == previous.count + 1 && m[|m| - 1] == pair
             && p.Cost(m) == previous.cost + p.Residual(pair)
    ensures ComesFirst(trace, m)
  {
    ChainPrefix(p, m);
    QueryComesFirst(p, edges, posts, traces, pair.reference, pair.candidate, m[..|m| - 1]);
    var previous := Best(posts, 0, pair.candidate);
    assert trace[..|trace| - 1] == TraceOf(traces, previous.edge);
    FirstByLast(trace, m);
  }

  /** The extension comes first among the chains as good that end at the new edge. */
  lemma ExtendedComesFirst(p: Problem, edges: seq<Edge>, posts: seq<Post>, traces: seq<seq<Pair>>, pair: Pair)
    requires Table(p, edges, posts, traces) && EdgesInOrder(edges)
    requires CoversBelow(p, edges, pair.reference) && p.IsEdge(pair)
    ensures var previous := Best(posts, 0, pair.candidate);
            && (previous.edge.Some? ==> previous.edge.value < |edges|)
            && var trace := Extended(traces, previous, pair);
            && p.IsChain(trace) && FirstEnding(p, trace)
  {
    var previous := Best(posts, 0, pair.candidate);
    ExtendedIsChain(p, edges, posts, traces, pair);
    var trace := Extended(traces, previous, pair);
    forall m | p.IsChain(m) && |m| == |trace| && m[|m| - 1] == trace[|trace| - 1] && p.Cost(m) == p.Cost(trace)
      ensures ComesFirst(trace, m)
    {
      ExtensionBeats(p, edges, posts, traces, pair, trace, m);
    }
  }

  /** Edge facts survive appending to the table. */
  lemma EdgeSoundExtends(p: Problem, edges: seq<Edge>, posts: seq<Post>, traces: seq<seq<Pair>>,
                         edges': seq<Edge>, posts': seq<Post>, traces': seq<seq<Pair>>, e: nat)
    requires e < |edges| == |posts| == |traces| && |edges'| == |posts'| == |traces'|
    requires edges <= edges' && posts <= posts' && traces <= traces'
    requires EdgeSound(p, edges, posts, traces, e)
    ensures EdgeSound(p, edges', posts', traces', e)
  {
    assert edges'[e] == edges[e] && posts'[e] == posts[e] && traces'[e] == traces[e];
    if edges[e].previous.Some? {
      assert traces'[edges[e].previous.value] == traces[edges[e].previous.value];
    }
  }

  lemma TableGrows(p: Problem, edges: seq<Edge>, posts: seq<Post>, traces: seq<seq<Pair>>,
                   edges': seq<Edge>, posts': seq<Post>, traces': seq<seq<Pair>>)
    requires Table(p, edges, posts, traces)
    requires |edges'| == |posts'| == |traces'| == |edges| + 1
    requires edges <= edges' && posts <= posts' && traces <= traces'
    requires EdgeSound(p, edges', posts', traces', |edges|)
    ensures Table(p, edges', posts', traces')
  {
    forall e | 0 <= e < |edges'| ensures EdgeSound(p, edges', posts', traces', e) {
      if e < |edges| {
        EdgeSoundExtends(p, edges, posts, traces, edges', posts', traces', e);
      }
    }
  }

  /** Extending the queried chain by `pair` is what the table wants of a new edge. */
  ghost predicate GoodExtension(p: Problem, before: seq<seq<Pair>>, previous: Chain, pair: Pair) {
    && (previous.edge.Some? ==> previous.edge.value < |before|)
    && p.IsEdge(pair)
    && var trace := Extended(before, previous, pair);
       && p.IsChain(trace) && |trace| == previous.count + 1
       && p.Cost(trace) == previous.cost + p.Residual(pair)
       && BestEnding(p, pair, previous.count + 1, previous.cost + p.Residual(pair))
       && FirstEnding(p, trace)
  }

  lemma ExtensionIsGood(p: Problem, edges: seq<Edge>, posts: seq<Post>, traces: seq<seq<Pair>>, pair: Pair)
    requires Table(p, edges, posts, traces) && EdgesInOrder(edges)
    requires CoversBelow(p, edges, pair.reference) && p.IsEdge(pair)
    ensures GoodExtension(p, traces, Best(posts, 0, pair.candidate), pair)
  {
    ExtendedIsChain(p, edges, posts, traces, pair);
    ExtendedIsBest(p, edges, posts, traces, pair);
    ExtendedComesFirst(p, edges, posts, traces, pair);
  }

  lemma NewEdgeIsSound(p: Problem, before: seq<seq<Pair>>, traces: seq<seq<Pair>>, previous: Chain, pair: Pair,
                       edges': seq<Edge>, posts': seq<Post>, traces': seq<seq<Pair>>)
    requires before <= traces && |edges'| == |posts'| == |traces'| == |traces| + 1
    requires GoodExtension(p, before, previous, pair)
    requires traces' == traces + [Extended(before, previous, pair)]
    requires edges'[|traces|] == Edge(pair, previous.edge)
    requires posts'[|traces|]
             == Post(pair.candidate, Chain(previous.count + 1, previous.cost + p.Residual(pair), Some(|traces|)))
    ensures EdgeSound(p, edges', posts', traces', |traces|)
  {
    var e := |traces|;
    if previous.edge.Some? {
      assert traces'[previous.edge.value] == before[previous.edge.value];
    }
    assert traces'[e] == Extended(before, previous, pair);
  }

  /**
   Adding the edge on `pair`: its predecessor is queried among the edges of earlier
   references only (`before`), although edges of the same reference are already listed.
   */
  lemma TableAppend(p: Problem, before: seq<seq<Pair>>, edges: seq<Edge>, posts: seq<Post>, traces: seq<seq<Pair>>,
                    pair: Pair, previous: Chain, edges': seq<Edge>, posts': seq<Post>, traces': seq<seq<Pair>>)
    requires Table(p, edges, posts, traces) && before <= traces
    requires GoodExtension(p, before, previous, pair)
    requires edges' == edges + [Edge(pair, previous.edge)]
    requires posts' == posts + [Post(pair.candidate,
                                     Chain(previous.count + 1, previous.cost + p.Residual(pair), Some(|edges|)))]
    requires traces' == traces + [Extended(before, previous, pair)]
    ensures Table(p, edges', posts', traces')
  {
    NewEdgeIsSound(p, before, traces, previous, pair, edges', posts', traces');
    TableGrows(p, edges, posts, traces, edges', posts', traces');
  }

  /** The candidate window of one reference holds exactly its in-tolerance candidates. */
  lemma WindowIsTolerance(p: Problem, r: nat, c: nat)
    requires p.WellFormed() && r < |p.references| && c < |p.candidates|
    ensures p.IsEdge(Pair(r, c))
            <==> BisectLeft(p.candidates, p.references[r] - p.maxDelta) <= c
                 < BisectRight(p.candidates, p.references[r] + p.maxDelta)
  {
  }

  /** The end of the round: the pending values enter the tree in order. */
  method PostPending(tree: FenwickTree, pending: seq<Post>)
    requires tree.Valid()
    requires forall e :: 0 <= e < |pending| ==> pending[e].position + 1 < tree.tree.Length
    modifies tree, tree.tree
    ensures tree.Valid() && tree.log == old(tree.log) + pending
  {
    var next := 0;
    while next < |pending|
      invariant 0 <= next <= |pending|
      invariant tree.Valid() && tree.log == old(tree.log) + pending[..next]
    {
      tree.Update(pending[next].position, pending[next].value);
      next := next + 1;
    }
  }

  /** The new edges are those of reference `r` and the candidates from `lower` to before `c`, in order. */
  ghost predicate WindowEdges(edges: seq<Edge>, edges': seq<Edge>, r: nat, lower: nat, c: nat) {
    && edges <= edges' && EdgesInOrder(edges')
    && lower <= c && |edges'| == |edges| + (c - lower)
    && forall k :: lower <= k < c ==> edges'[|edges| + k - lower].pair == Pair(r, k)
  }

  /** The window of reference `r` is linked up to candidate `c`, upwards from `lower`. */
  ghost predicate LinkedUpTo(p: Problem, r: nat, edges: seq<Edge>, posts: seq<Post>, traces: seq<seq<Pair>>,
                             edges': seq<Edge>, posts': seq<Post>, traces': seq<seq<Pair>>, lower: nat, c: nat) {
    && posts <= posts' && traces <= traces'
    && Table(p, edges', posts', traces')
    && WindowEdges(edges, edges', r, lower, c)
  }

  /** The window is walked upwards, so the edges stay in order. */
  lemma WindowAppend(edges: seq<Edge>, edges': seq<Edge>, r: nat, lower: nat, c: nat, edge: Edge)
    requires WindowEdges(edges, edges', r, lower, c) && edge.pair == Pair(r, c)
    requires forall e :: 0 <= e < |edges| ==> edges[e].pair.reference < r
    ensures WindowEdges(edges, edges' + [edge], r, lower, c + 1)
  {
    forall e | 0 <= e < |edges'| ensures Earlier(edges'[e].pair, edge.pair) {
      if e < |edges| {
        assert edges'[e] == edges[e];
      } else {
        var k := e - |edges| + lower;
        assert edges'[|edges| + k - lower].pair == Pair(r, k);
      }
    }
  }

  lemma LinkOne(p: Problem, r: nat, edges: seq<Edge>, posts: seq<Post>, traces: seq<seq<Pair>>,
                edges': seq<Edge>, posts': seq<Post>, traces': seq<seq<Pair>>, lower: nat, c: nat,
                previous: Chain, edge: Edge, post: Post)
    requires CoversBelow(p, edges, r) && GoodExtension(p, traces, previous, Pair(r, c))
    requires LinkedUpTo(p, r, edges, posts, traces, edges', posts', traces', lower, c)
    requires edge == Edge(Pair(r, c), previous.edge)
    requires post == Post(c, Chain(previous.count + 1, previous.cost + p.Residual(Pair(r, c)), Some(|edges'|)))
    ensures LinkedUpTo(p, r, edges, posts, traces, edges' + [edge], posts' + [post],
                       traces' + [Extended(traces, previous, Pair(r, c))], lower, c + 1)
  {
    TableAppend(p, traces, edges', posts', traces', Pair(r, c), previous, edges' + [edge], posts' + [post],
                traces' + [Extended(traces, previous, Pair(r, c))]);
    WindowAppend(edges, edges', r, lower, c, edge);
  }

  /** One candidate of the window, with the predecessor the tree answers. */
  lemma LinkQueried(p: Problem, r: nat, edges: seq<Edge>, posts: seq<Post>, traces: seq<seq<Pair>>,
                    edges': seq<Edge>, posts': seq<Post>, traces': seq<seq<Pair>>, lower: nat, c: nat,
                    previous: Chain, edge: Edge, post: Post)
    returns (trace: seq<Pair>)
    requires Table(p, edges, posts, traces) && CoversBelow(p, edges, r) && EdgesInOrder(edges)
    requires p.IsEdge(Pair(r, c)) && previous == Best(posts, 0, c)
    requires LinkedUpTo(p, r, edges, posts, traces, edges', posts', traces', lower, c)
    requires edge == Edge(Pair(r, c), previous.edge)
    requires post == Post(c, Chain(previous.count + 1, previous.cost + p.Residual(Pair(r, c)), Some(|edges'|)))
    ensures LinkedUpTo(p, r, edges, posts, traces, edges' + [edge], posts' + [post], traces' + [trace], lower, c + 1)
  {
    ExtensionIsGood(p, edges, posts, traces, Pair(r, c));
    trace := Extended(traces, previous, Pair(r, c));
    LinkOne(p, r, edges, posts, traces, edges', posts', traces', lower, c, previous, edge, post);
  }

  /**
   One round of the outer loop: query the whole window of reference `r` first,
   post the new values only afterwards.
   */
  method LinkReference(p: Problem, r: nat, tree: FenwickTree, edges: seq<Edge>,
                       ghost posts: seq<Post>, ghost traces: seq<seq<Pair>>)
    returns (edges': seq<Edge>, ghost posts': seq<Post>, ghost traces': seq<seq<Pair>>)
    requires p.WellFormed() && r < |p.references|
    requires tree.Valid() && tree.log == posts && tree.tree.Length == |p.candidates| + 1
    requires Table(p, edges, posts, traces) && CoversBelow(p, edges, r) && EdgesInOrder(edges)
    modifies tree, tree.tree
    ensures tree.Valid() && tree.log == posts'
    ensures Table(p, edges', posts', traces') && CoversBelow(p, edges', r + 1) && EdgesInOrder(edges')
  {
    var reference := p.references[r];
    var lower := BisectLeft(p.candidates, reference - p.maxDelta);
    var upper := BisectRight(p.candidates, reference + p.maxDelta);
    var pending: seq<Post> := [];
    edges', posts', traces' := edges, posts, traces;
    var candidateIndex := lower;
    while candidateIndex < upper
      invariant lower <= candidateIndex && (lower < upper ==> candidateIndex <= upper)
      invariant lower >= upper ==> candidateIndex == lower
      invariant tree.Valid() && tree.log == posts
      invariant posts' == posts + pending
      invariant LinkedUpTo(p, r, edges, posts, traces, edges', posts', traces', lower, candidateIndex)
      decreases upper - candidateIndex
    {
      var previous := tree.Query(candidateIndex);
      WindowIsTolerance(p, r, candidateIndex);
      var edge := Edge(Pair(r, candidateIndex), previous.edge);
      var post := Post(candidateIndex,
                       Chain(previous.count + 1,
                             previous.cost + Abs(p.candidates[candidateIndex] - reference),
                             Some(|edges'|)));
      ghost var trace := LinkQueried(p, r, edges, posts, traces, edges', posts', traces', lower, candidateIndex,
                                     previous, edge, post);
      edges', posts', traces' := edges' + [edge], posts' + [post], traces' + [trace];
      pending := pending + [post];
      candidateIndex := candidateIndex + 1;
    }
    WindowCovered(p, r, edges, edges');
    PostsInRange(p, edges', posts', traces');
    assert forall e :: 0 <= e < |pending| ==> pending[e] == posts'[|posts| + e];
    PostPending(tree, pending);
  }

  lemma PostsInRange(p: Problem, edges: seq<Edge>, posts: seq<Post>, traces: seq<seq<Pair>>)
    requires Table(p, edges, posts, traces)
    ensures forall e :: 0 <= e < |posts| ==> posts[e].position < |p.candidates|
  {
    forall e | 0 <= e < |posts| ensures posts[e].position < |p.candidates| {
      assert EdgeSound(p, edges, posts, traces, e);
      assert p.IsEdge(traces[e][|traces[e]| - 1]);
    }
  }

  /** After the window of `r`, every edge up to `r` is in the table. */
  lemma WindowCovered(p: Problem, r: nat, edges: seq<Edge>, edges': seq<Edge>)
    requires p.WellFormed() && r < |p.references|
    requires CoversBelow(p, edges, r) && edges <= edges'
    requires var lower := BisectLeft(p.candidates, p.references[r] - p.maxDelta);
             var upper := BisectRight(p.candidates, p.references[r] + p.maxDelta);
             && |edges'| == |edges| + (if lower < upper then upper - lower else 0)
             && forall k :: lower <= k < upper ==> edges'[|edges| + k - lower].pair == Pair(r, k)
    ensures CoversBelow(p, edges', r + 1)
  {
    var lower := BisectLeft(p.candidates, p.references[r] - p.maxDelta);
    forall e | 0 <= e < |edges'| ensures edges'[e].pair.reference < r + 1 {
      if e >= |edges| {
        var k := e - |edges| + lower;
        assert edges'[|edges| + k - lower].pair == Pair(r, k);
      } else {
        assert edges'[e] == edges[e];
      }
    }
    forall q | p.IsEdge(q) && q.reference < r + 1 ensures HasEdge(edges', q) {
      if q.reference == r {
        WindowIsTolerance(p, r, q.candidate);
        assert edges'[|edges| + q.candidate - lower].pair == q;
      } else {
        assert HasEdge(edges, q);
        var e :| 0 <= e < |edges| && edges[e].pair == q;
        assert edges'[e].pair == q;
      }
    }
  }

  /** The overall winner is no worse than any chain at all. */
  lemma WinnerIsBestChain(p: Problem, edges: seq<Edge>, posts: seq<Post>, traces: seq<seq<Pair>>, m: seq<Pair>)
    requires Table(p, edges, posts, traces) && CoversBelow(p, edges, |p.references|)
    requires p.IsChain(m)
    ensures var winner := Best(posts, 0, |p.candidates|);
            winner.count > |m| || (winner.count == |m| && winner.cost <= p.Cost(m))
  {
    PredecessorDominates(p, edges, posts, traces, Pair(|p.references|, |p.candidates|), m);
  }

  /** The winner's stored count and cost are those of its chain. */
  lemma WinnerTrace(p: Problem, edges: seq<Edge>, posts: seq<Post>, traces: seq<seq<Pair>>, winner: Chain)
    requires Table(p, edges, posts, traces) && winner == Best(posts, 0, |p.candidates|)
    ensures winner.edge.Some? ==> winner.edge.value < |traces|
    ensures var trace := TraceOf(traces, winner.edge);
            p.IsChain(trace) && winner.count == |trace| && winner.cost == p.Cost(trace)
  {
    QueriedEdge(p, edges, posts, traces, |p.candidates|);
    if winner.edge.Some? {
      assert EdgeSound(p, edges, posts, traces, winner.edge.value);
    }
  }

  lemma WinnerIsNoWorse(p: Problem, edges: seq<Edge>, posts: seq<Post>, traces: seq<seq<Pair>>,
                        a: seq<Option<nat>>, b: seq<Option<nat>>)
    requires p.WellFormed() && p.IsMatching(a) && p.IsMatching(b)
    requires Table(p, edges, posts, traces) && CoversBelow(p, edges, |p.references|)
    requires p.Size(a) == Best(posts, 0, |p.candidates|).count
    requires p.Total(a) == Best(posts, 0, |p.candidates|).cost
    ensures p.NoWorse(a, b)
  {
    var m := MatchingHasChain(p, b);
    WinnerIsBestChain(p, edges, posts, traces, m);
  }

  /** Whatever spells out the winning chain is optimal among ALL matchings. */
  lemma WinnerIsOptimal(p: Problem, edges: seq<Edge>, posts: seq<Post>, traces: seq<seq<Pair>>, a: seq<Option<nat>>)
    requires p.WellFormed() && |a| == |p.references|
    requires Table(p, edges, posts, traces) && CoversBelow(p, edges, |p.references|)
    requires var winner := Best(posts, 0, |p.candidates|);
             && (winner.edge.Some? ==> winner.edge.value < |traces|)
             && Spells(a, TraceOf(traces, winner.edge))
    ensures p.IsOptimal(a) && InOrder(a)
    ensures p.Size(a) == Best(posts, 0, |p.candidates|).count
    ensures p.Total(a) == Best(posts, 0, |p.candidates|).cost
  {
    var winner := Best(posts, 0, |p.candidates|);
    var trace := TraceOf(traces, winner.edge);
    WinnerTrace(p, edges, posts, traces, winner);
    ChainIsMatching(p, a, trace);
    ChainIsInOrder(p, a, trace);
    PairsOfChain(p, a, trace);
    PairsMeasure(p, a);
    forall b | p.IsMatching(b) ensures p.NoWorse(a, b) {
      WinnerIsNoWorse(p, edges, posts, traces, a, b);
    }
  }

  /** It also comes first among all optimal matchings without crossings. */
  lemma WinnerIsFirst(p: Problem, edges: seq<Edge>, posts: seq<Post>, traces: seq<seq<Pair>>, a: seq<Option<nat>>)
    requires p.WellFormed() && |a| == |p.references| && EdgesInOrder(edges)
    requires Table(p, edges, posts, traces) && CoversBelow(p, edges, |p.references|)
    requires var winner := Best(posts, 0, |p.candidates|);
             && (winner.edge.Some? ==> winner.edge.value < |traces|)
             && Spells(a, TraceOf(traces, winner.edge))
    ensures IsFirstOptimal(p, a)
  {
    var winner := Best(posts, 0, |p.candidates|);
    WinnerIsOptimal(p, edges, posts, traces, a);
    PairsOfChain(p, a, TraceOf(traces, winner.edge));
    forall b | p.IsOptimal(b) && InOrder(b) ensures ComesFirst(p.Pairs(a), p.Pairs(b)) {
      assert p.NoWorse(a, b) && p.NoWorse(b, a);
      PairsAreChain(p, b);
      var m := p.Pairs(b);
      assert m != [] ==> p.IsEdge(m[|m| - 1]);
      QueryComesFirst(p, edges, posts, traces, |p.references|, |p.candidates|, m);
    }
  }

  lemma ChainIsMatching(p: Problem, a: seq<Option<nat>>, m: seq<Pair>)
    requires p.IsChain(m) && |a| == |p.references| && Spells(a, m)
    ensures p.IsMatching(a)
  {
    forall r | 0 <= r < |a| && a[r].Some? ensures p.IsEdge(Pair(r, a[r].value)) {
      var k :| 0 <= k < |m| && m[k].reference == r;
      assert p.IsEdge(m[k]);
    }
    forall r, s | 0 <= r < s < |a| && a[r].Some? && a[s].Some? ensures a[r].value != a[s].value {
      var k :| 0 <= k < |m| && m[k].reference == r;
      var l :| 0 <= l < |m| && m[l].reference == s;
      assert k < l;
    }
  }

  lemma ChainIsInOrder(p: Problem, a: seq<Option<nat>>, m: seq<Pair>)
    requires p.IsChain(m) && |a| == |p.references| && Spells(a, m)
    ensures InOrder(a)
  {
    forall r, s | 0 <= r < s < |a| && a[r].Some? && a[s].Some? ensures a[r].value < a[s].value {
      var k :| 0 <= k < |m| && m[k].reference == r;
      var l :| 0 <= l < |m| && m[l].reference == s;
      assert k < l;
    }
  }

  /** Half-way through the backtrace: `result` spells the part of `whole` behind `link`. */
  ghost predicate Backtracked(p: Problem, traces: seq<seq<Pair>>, whole: seq<Pair>, link: Option<nat>,
                              result: seq<Option<nat>>) {
    && (link.Some? ==> link.value < |traces|)
    && p.IsChain(whole)
    && |result| == |p.references|
    && var prefix := TraceOf(traces, link);
    && prefix <= whole && Spells(result, whole[|prefix|..])
  }

  lemma EdgeTrace(p: Problem, edges: seq<Edge>, posts: seq<Post>, traces: seq<seq<Pair>>, e: nat)
    requires Table(p, edges, posts, traces) && e < |edges|
    ensures edges[e].previous.Some? ==> edges[e].previous.value < e
    ensures traces[e] == TraceOf(traces, edges[e].previous) + [edges[e].pair]
    ensures p.IsChain(traces[e])
  {
    assert EdgeSound(p, edges, posts, traces, e);
  }

  lemma BacktraceStart(p: Problem, edges: seq<Edge>, posts: seq<Post>, traces: seq<seq<Pair>>,
                       start: Option<nat>, result: seq<Option<nat>>)
    requires Table(p, edges, posts, traces) && (start.Some? ==> start.value < |edges|)
    requires |result| == |p.references| && forall r :: 0 <= r < |result| ==> result[r] == None
    ensures Backtracked(p, traces, TraceOf(traces, start), start, result)
  {
    if start.Some? {
      EdgeTrace(p, edges, posts, traces, start.value);
    }
    var whole := TraceOf(traces, start);
    assert whole[|whole|..] == [];
  }

  /** Writing the pair of edge `e` and moving to its predecessor. */
  lemma BacktraceStep(p: Problem, edges: seq<Edge>, posts: seq<Post>, traces: seq<seq<Pair>>,
                      whole: seq<Pair>, e: nat, result: seq<Option<nat>>)
    requires Table(p, edges, posts, traces) && e < |edges|
    requires Backtracked(p, traces, whole, Some(e), result)
    ensures var q, previous := edges[e].pair, edges[e].previous;
            && q.reference < |result|
            && (previous.Some? ==> previous.value < e)
            && Backtracked(p, traces, whole, previous, result[q.reference := Some(q.candidate)])
  {
    EdgeTrace(p, edges, posts, traces, e);
    var q, previous := edges[e].pair, edges[e].previous;
    var rest := TraceOf(traces, previous);
    var tail := whole[|traces[e]|..];
    assert traces[e] == rest + [q];
    assert whole[|rest|..] == [q] + tail;
    assert whole == rest + ([q] + tail);
    SpellsCons(p, result, whole, rest, q, tail);
  }

  /** Follows predecessor links from the winning edge, writing each pair it meets. */
  method Backtrace(p: Problem, edges: seq<Edge>, ghost posts: seq<Post>, ghost traces: seq<seq<Pair>>,
                   start: Option<nat>)
    returns (result: seq<Option<nat>>)
    requires Table(p, edges, posts, traces)
    requires start.Some? ==> start.value < |edges|
    ensures |result| == |p.references|
    ensures Spells(result, TraceOf(traces, start))
  {
    ghost var whole := TraceOf(traces, start);
    result := seq(|p.references|, _ => None);
    var edgeIndex: Option<nat> := start;
    BacktraceStart(p, edges, posts, traces, start, result);
    while edgeIndex.Some?
      invariant edgeIndex.Some? ==> edgeIndex.value < |edges|
      invariant Backtracked(p, traces, whole, edgeIndex, result)
      decreases if edgeIndex.Some? then edgeIndex.value + 1 else 0
    {
      var edge := edges[edgeIndex.value];
      BacktraceStep(p, edges, posts, traces, whole, edgeIndex.value, result);
      result := result[edge.pair.reference := Some(edge.pair.candidate)];
      edgeIndex := edge.previous;
    }
    assert whole[0..] == whole;
  }

  lemma SpellsCons(p: Problem, a: seq<Option<nat>>, whole: seq<Pair>, rest: seq<Pair>, q: Pair, tail: seq<Pair>)
    requires Spells(a, tail) && p.IsChain(whole) && whole == rest + ([q] + tail)
    requires |a| == |p.references|
    ensures q.reference < |a|
    ensures Spells(a[q.reference := Some(q.candidate)], [q] + tail)
  {
    assert whole[|rest|] == q && p.IsEdge(whole[|rest|]);
    var a' := a[q.reference := Some(q.candidate)];
    var tail' := [q] + tail;
    forall i, j | 0 <= i < j < |tail'| ensures tail'[i].reference < tail'[j].reference {
      assert whole[|rest| + i] == tail'[i] && whole[|rest| + j] == tail'[j];
    }
    forall r | 0 <= r < |a'| && a'[r].Some? ensures exists k :: 0 <= k < |tail'| && tail'[k].reference == r {
      if r == q.reference {
        assert tail'[0].reference == r;
      } else {
        var k :| 0 <= k < |tail| && tail[k].reference == r;
        assert tail'[k + 1].reference == r;
      }
    }
  }

  /**
   `match_nearest_unique`. On valid input the result is optimal among all matchings: most frames
   matched, then least total residual. It never crosses, and among equally good matchings without
   crossings it is the one that comes first, seen from the end.
   */
  method MatchNearestUnique(references: seq<int>, candidates: seq<int>, maxDelta: int)
    returns (result: Result<seq<Option<nat>>, MatchError>)
    ensures result.Ok?
            <==> Timestamps(references, References).Ok? && Timestamps(candidates, Candidates).Ok? && maxDelta >= 0
    ensures Timestamps(references, References).Err? ==> result == Err(Timestamps(references, References).error)
    ensures Timestamps(references, References).Ok? && Timestamps(candidates, Candidates).Err? ==>
              result == Err(Timestamps(candidates, Candidates).error)
    ensures result.Err? && Timestamps(references, References).Ok? && Timestamps(candidates, Candidates).Ok? ==>
              result == Err(NegativeTolerance)
    ensures result.Ok? ==> Problem(references, candidates, maxDelta).IsOptimal(result.value)
    ensures result.Ok? ==> IsFirstOptimal(Problem(references, candidates, maxDelta), result.value)
  {
    var checkedReferences := Timestamps(references, References);
    if checkedReferences.Err? {
      return Err(checkedReferences.error);
    }
    var checkedCandidates := Timestamps(candidates, Candidates);
    if checkedCandidates.Err? {
      return Err(checkedCandidates.error);
    }
    if maxDelta < 0 {
      return Err(NegativeTolerance);
    }
    var p := Problem(references, candidates, maxDelta);
    var tree := new FenwickTree(|candidates|);
    var edges: seq<Edge> := [];
    ghost var posts: seq<Post> := [];
    ghost var traces: seq<seq<Pair>> := [];
    var r := 0;
    while r < |references|
      invariant 0 <= r <= |references|
      invariant fresh(tree) && fresh(tree.tree)
      invariant tree.Valid() && tree.log == posts && tree.tree.Length == |candidates| + 1
      invariant Table(p, edges, posts, traces) && CoversBelow(p, edges, r) && EdgesInOrder(edges)
    {
      edges, posts, traces := LinkReference(p, r, tree, edges, posts, traces);
      r := r + 1;
    }
    var winner := tree.Query(|candidates|);
    QueriedEdge(p, edges, posts, traces, |candidates|);
    var matching := Backtrace(p, edges, posts, traces, winner.edge);
    WinnerIsFirst(p, edges, posts, traces, matching);
    result := Ok(matching);
  }

  datatype Strategy = Nearest | Previous

  /** A closest sample within tolerance, the earliest of them; none only when none is within tolerance. */
  ghost predicate IsNearest(timestamps: seq<int>, timestamp: int, maxDelta: int, r: Option<nat>) {
    match r
    case Some(best) =>
      && best < |timestamps| && Abs(timestamps[best] - timestamp) <= maxDelta
      && forall k :: 0 <= k < |timestamps| ==>
                       && Abs(timestamps[best] - timestamp) <= Abs(timestamps[k] - timestamp)
                       && (k < best ==> Abs(timestamps[best] - timestamp) < Abs(timestamps[k] - timestamp))
    case None => forall k :: 0 <= k < |timestamps| ==> Abs(timestamps[k] - timestamp) > maxDelta
  }

  /** The latest sample not in the future, if it is within tolerance; none only when it is not, or there is none. */
  ghost predicate IsPrevious(timestamps: seq<int>, timestamp: int, maxDelta: int, r: Option<nat>) {
    match r
    case Some(best) =>
      && best < |timestamps| && timestamps[best] <= timestamp && timestamp - timestamps[best] <= maxDelta
      && forall k :: best < k < |timestamps| ==> timestamps[k] > timestamp
    case None =>
      forall k :: 0 <= k < |timestamps| && timestamps[k] <= timestamp ==> timestamp - timestamps[k] > maxDelta
  }

  function SelectSample(timestamps: seq<int>, timestamp: int, strategy: Strategy, maxDelta: nat): (r: Option<nat>)
    requires StrictlyIncreasing(timestamps)
    ensures strategy == Nearest ==> IsNearest(timestamps, timestamp, maxDelta, r)
    ensures strategy == Previous ==> IsPrevious(timestamps, timestamp, maxDelta, r)
  {
    if timestamps == [] then None
    else if strategy == Previous then
      var insertion := BisectRight(timestamps, timestamp);
      if insertion == 0 then None
      else if Abs(timestamps[insertion - 1] - timestamp) > maxDelta then None
      else Some(insertion - 1)
    else
      var insertion := BisectLeft(timestamps, timestamp);
      var selected :=
        if insertion == 0 then 0
        else if insertion == |timestamps| then insertion - 1
        else if Abs(timestamps[insertion - 1] - timestamp) <= Abs(timestamps[insertion] - timestamp) then insertion - 1
        else insertion;
      if Abs(timestamps[selected] - timestamp) > maxDelta then None else Some(selected)
  }

  datatype SelectError = BadTimestamp | BadTolerance | UnknownStrategy | BadSamples(error: MatchError)

  /** `select_generic_sample`: checks its arguments in order, then picks by strategy. */
  function SelectGenericSample(timestamps: seq<int>, timestamp: int, strategy: string, maxDelta: int):
      (r: Result<Option<nat>, SelectError>)
    ensures r.Ok? <==> timestamp >= 0 && maxDelta >= 0 && strategy in {"nearest", "previous"}
                       && (forall k :: 0 <= k < |timestamps| ==> timestamps[k] >= 0) && StrictlyIncreasing(timestamps)
    ensures r.Ok? && strategy == "nearest" ==> IsNearest(timestamps, timestamp, maxDelta, r.value)
    ensures r.Ok? && strategy == "previous" ==> IsPrevious(timestamps, timestamp, maxDelta, r.value)
    ensures r == Err(BadTimestamp) <==> timestamp < 0
    ensures r == Err(BadTolerance) <==> timestamp >= 0 > maxDelta
    ensures r == Err(UnknownStrategy) <==> timestamp >= 0 && maxDelta >= 0 && strategy !in {"nearest", "previous"}
  {
    if timestamp < 0 then Err(BadTimestamp)
    else if maxDelta < 0 then Err(BadTolerance)
    else if strategy != "nearest" && strategy != "previous" then Err(UnknownStrategy)
    else
      var checked := Timestamps(timestamps, Generic);
      if checked.Err? then Err(BadSamples(checked.error))
      else
        assert "nearest"[0] != "previous"[0];
        Ok(SelectSample(timestamps, timestamp, if strategy == "previous" then Previous else Nearest, maxDelta))
  }
}
