/** Arcs between known nodes, paths over them, and what makes a layering the longest-path one. */
module Dag {
  import opened Wrappers

  type Node = string

  /** An edge as stored: several spellings of its ends, and optional ports. */
  datatype Edge = Edge(
    source: Option<Node>, sourceId: Option<Node>, from: Option<Node>,
    target: Option<Node>, targetId: Option<Node>, to: Option<Node>,
    sourcePort: Option<string>, targetPort: Option<string>)

  datatype Arc = Arc(source: Node, target: Node)

  function OrElse(first: Option<Node>, second: Option<Node>): Option<Node> {
    if first.Some? then first else second
  }

  /** The ends the scheduler sees. */
  function Source(edge: Edge): Option<Node> {
    OrElse(edge.source, OrElse(edge.sourceId, edge.from))
  }

  function Target(edge: Edge): Option<Node> {
    OrElse(edge.target, OrElse(edge.targetId, edge.to))
  }

  predicate Known(nodes: seq<Node>, edge: Edge) {
    Source(edge).Some? && Source(edge).value in nodes && Target(edge).Some? && Target(edge).value in nodes
  }

  /** The edges between known nodes, parallel edges and self-loops included. */
  function Arcs(nodes: seq<Node>, edges: seq<Edge>): seq<Arc> {
    if edges == [] then []
    else
      var last := edges[|edges| - 1];
      Arcs(nodes, edges[..|edges| - 1]) +
      if Known(nodes, last) then [Arc(Source(last).value, Target(last).value)] else []
  }

  lemma {:induction false} ArcsAreKnown(nodes: seq<Node>, edges: seq<Edge>)
    ensures forall a :: a in Arcs(nodes, edges) ==> a.source in nodes && a.target in nodes
  {
    if edges != [] {
      ArcsAreKnown(nodes, edges[..|edges| - 1]);
    }
  }

  /** The edge's source, by the first of the three spellings it has. */
  predicate LeavesFrom(e: Edge, u: Node) {
    e.source == Some(u) || (e.source.None? && (e.sourceId == Some(u) || (e.sourceId.None? && e.from == Some(u))))
  }

  predicate LeadsTo(e: Edge, v: Node) {
    e.target == Some(v) || (e.target.None? && (e.targetId == Some(v) || (e.targetId.None? && e.to == Some(v))))
  }

  /** An arc is an edge, however its ends are spelled, between two nodes of the graph. */
  lemma {:induction false} ArcsMean(nodes: seq<Node>, edges: seq<Edge>, u: Node, v: Node)
    ensures Arc(u, v) in Arcs(nodes, edges) <==>
            u in nodes && v in nodes && exists i :: 0 <= i < |edges| && LeavesFrom(edges[i], u) && LeadsTo(edges[i], v)
  {
    if edges != [] {
      var init, last := edges[..|edges| - 1], edges[|edges| - 1];
      ArcsMean(nodes, init, u, v);
      assert edges == init + [last];
      assert LeavesFrom(last, u) <==> Source(last) == Some(u);
      assert LeadsTo(last, v) <==> Target(last) == Some(v);
      assert edges[|init|] == last && forall i :: 0 <= i < |init| ==> edges[i] == init[i];
    }
  }

  /** A path has one more node than arcs. */
  predicate IsPath(arcs: seq<Arc>, p: seq<Node>) {
    p != [] && forall i :: 0 <= i < |p| - 1 ==> Linked(arcs, p, i)
  }

  predicate Linked(arcs: seq<Arc>, p: seq<Node>, i: nat)
    requires i + 1 < |p|
  {
    Arc(p[i], p[i + 1]) in arcs
  }

  lemma SubPath(arcs: seq<Arc>, p: seq<Node>, i: nat, j: nat)
    requires IsPath(arcs, p) && i < j <= |p|
    ensures IsPath(arcs, p[i..j])
  {
    forall k: nat | k < j - i - 1 ensures Linked(arcs, p[i..j], k) {
      assert Linked(arcs, p, i + k);
    }
  }

  lemma JoinPaths(arcs: seq<Arc>, p: seq<Node>, q: seq<Node>)
    requires IsPath(arcs, p) && IsPath(arcs, q) && Arc(p[|p| - 1], q[0]) in arcs
    ensures IsPath(arcs, p + q)
  {
    forall k: nat | k < |p + q| - 1 ensures Linked(arcs, p + q, k) {
      if k < |p| - 1 {
        assert Linked(arcs, p, k);
      } else if k >= |p| {
        assert Linked(arcs, q, k - |p|);
      }
    }
  }

  predicate IsCycle(arcs: seq<Arc>, p: seq<Node>) {
    IsPath(arcs, p) && |p| >= 2 && p[0] == p[|p| - 1]
  }

  ghost predicate Cyclic(arcs: seq<Arc>) {
    exists p :: IsCycle(arcs, p)
  }

  /** Some path of `n` arcs ends in `v`, and none is longer. */
  ghost predicate LongestPathInto(arcs: seq<Arc>, v: Node, n: nat) {
    && (exists p :: IsPath(arcs, p) && p[|p| - 1] == v && |p| == n + 1)
    && (forall p :: IsPath(arcs, p) && p[|p| - 1] == v ==> |p| <= n + 1)
  }

  /** Every ranked node sits one above its highest predecessor. */
  predicate Layered(arcs: seq<Arc>, rank: map<Node, nat>) {
    && (forall a :: a in arcs && a.target in rank ==> a.source in rank && rank[a.source] < rank[a.target])
    && (forall v {:trigger HasParent(arcs, rank, v)} :: v in rank && rank[v] > 0 ==> HasParent(arcs, rank, v))
  }

  predicate HasParent(arcs: seq<Arc>, rank: map<Node, nat>, v: Node)
    requires v in rank
  {
    exists a :: a in arcs && a.target == v && a.source in rank && rank[a.source] + 1 == rank[v]
  }

  lemma {:induction false} PathsRise(arcs: seq<Arc>, rank: map<Node, nat>, p: seq<Node>)
    requires Layered(arcs, rank) && IsPath(arcs, p) && p[|p| - 1] in rank
    ensures p[0] in rank && rank[p[0]] + |p| - 1 <= rank[p[|p| - 1]]
    decreases |p|
  {
    if |p| > 1 {
      var q := p[..|p| - 1];
      assert Linked(arcs, p, |p| - 2);
      SubPath(arcs, p, 0, |p| - 1);
      assert q == p[0..|p| - 1];
      PathsRise(arcs, rank, q);
    }
  }

  lemma {:induction false} RankIsReached(arcs: seq<Arc>, rank: map<Node, nat>, v: Node) returns (p: seq<Node>)
    requires Layered(arcs, rank) && v in rank
    ensures IsPath(arcs, p) && p[|p| - 1] == v && |p| == rank[v] + 1
    decreases rank[v]
  {
    if rank[v] == 0 {
      p := [v];
    } else {
      assert HasParent(arcs, rank, v);
      var a :| a in arcs && a.target == v && a.source in rank && rank[a.source] + 1 == rank[v];
      var q := RankIsReached(arcs, rank, a.source);
      p := q + [v];
      JoinPaths(arcs, q, [v]);
    }
  }

  /** A node's rank in a layering is the length of the longest path into it. */
  lemma RankIsLongestPath(arcs: seq<Arc>, rank: map<Node, nat>, v: Node)
    requires Layered(arcs, rank) && v in rank
    ensures LongestPathInto(arcs, v, rank[v])
  {
    var p := RankIsReached(arcs, rank, v);
    forall q | IsPath(arcs, q) && q[|q| - 1] == v ensures |q| <= rank[v] + 1 {
      PathsRise(arcs, rank, q);
    }
  }

  /** A layering of every arc's target leaves no room for a cycle. */
  lemma LayeredIsAcyclic(arcs: seq<Arc>, rank: map<Node, nat>)
    requires Layered(arcs, rank) && forall a :: a in arcs ==> a.target in rank
    ensures !Cyclic(arcs)
  {
    forall p ensures !IsCycle(arcs, p) {
      if IsPath(arcs, p) && |p| >= 2 {
        assert Linked(arcs, p, |p| - 2);
        PathsRise(arcs, rank, p);
      }
    }
  }

  /** Every one of the nodes has a predecessor among them. */
  predicate Rootless(arcs: seq<Arc>, stuck: set<Node>) {
    forall v {:trigger HasPredecessor(arcs, stuck, v)} :: v in stuck ==> HasPredecessor(arcs, stuck, v)
  }

  predicate HasPredecessor(arcs: seq<Arc>, among: set<Node>, v: Node) {
    exists a :: a in arcs && a.target == v && a.source in among
  }

  lemma RootlessIsCyclic(arcs: seq<Arc>, stuck: set<Node>)
    requires stuck != {} && Rootless(arcs, stuck)
    ensures Cyclic(arcs)
  {
    var p := WalkBack(arcs, stuck, |stuck|);
    var i, j := Repeat(p, stuck);
    SubPath(arcs, p, i, j + 1);
    assert IsCycle(arcs, p[i..j + 1]);
  }

  lemma {:induction false} WalkBack(arcs: seq<Arc>, stuck: set<Node>, n: nat) returns (p: seq<Node>)
    requires stuck != {} && Rootless(arcs, stuck)
    ensures IsPath(arcs, p) && |p| == n + 1 && forall v :: v in p ==> v in stuck
  {
    if n == 0 {
      var v :| v in stuck;
      p := [v];
    } else {
      var q := WalkBack(arcs, stuck, n - 1);
      var a := Predecessor(arcs, stuck, q[0]);
      p := [a] + q;
      JoinPaths(arcs, [a], q);
    }
  }

  lemma Predecessor(arcs: seq<Arc>, stuck: set<Node>, v: Node) returns (u: Node)
    requires Rootless(arcs, stuck) && v in stuck
    ensures u in stuck && Arc(u, v) in arcs
  {
    assert HasPredecessor(arcs, stuck, v);
    var a :| a in arcs && a.target == v && a.source in stuck;
    u := a.source;
  }

  /** More places than values: two places hold the same value. */
  lemma {:induction false} Repeat(p: seq<Node>, values: set<Node>) returns (i: nat, j: nat)
    requires |p| > |values| && forall v :: v in p ==> v in values
    ensures i < j < |p| && p[i] == p[j]
    decreases |p|
  {
    var q, last := p[..|p| - 1], p[|p| - 1];
    assert last in p;
    if k :| 0 <= k < |q| && q[k] == last {
      i, j := k, |p| - 1;
    } else {
      assert forall v :: v in q ==> v in p && v in values - {last};
      i, j := Repeat(q, values - {last});
    }
  }
}
