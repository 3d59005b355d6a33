/** Kahn's algorithm in place: levels, or the discovery of a cycle. */
module Scheduler {
  import opened Wrappers
  import opened Dag

  /** The arcs into `v` that have not been crossed off yet. */
  function Open(arcs: seq<Arc>, crossed: set<nat>, v: Node): set<nat> {
    set i: nat | i < |arcs| && i !in crossed && arcs[i].target == v
  }

  /** The arcs leaving a set of nodes. */
  function Leaving(arcs: seq<Arc>, done: set<Node>): set<nat> {
    set i: nat | i < |arcs| && arcs[i].source in done
  }

  /** The in-degree table counts exactly the open arcs. */
  ghost predicate DegreesOk(nodes: seq<Node>, arcs: seq<Arc>, crossed: set<nat>, inDegree: map<Node, int>) {
    && inDegree.Keys == Elements(nodes)
    && forall v {:trigger DegreeAt(arcs, crossed, inDegree, v)} :: v in inDegree ==>
        DegreeAt(arcs, crossed, inDegree, v)
  }

  predicate DegreeAt(arcs: seq<Arc>, crossed: set<nat>, inDegree: map<Node, int>, v: Node)
    requires v in inDegree
  {
    inDegree[v] == |Open(arcs, crossed, v)|
  }

  /** `index` names, for each node, the positions of its arcs, in the adjacency list's order. */
  ghost predicate AdjacencyOk(arcs: seq<Arc>, adjacency: map<Node, seq<Node>>, index: map<Node, seq<nat>>) {
    && index.Keys == adjacency.Keys
    && (forall u :: u in index ==> NeighborsOk(arcs, u, adjacency[u], index[u]))
    && (forall i: nat :: i < |arcs| ==> arcs[i].source in index && i in index[arcs[i].source])
  }

  ghost predicate NeighborsOk(arcs: seq<Arc>, u: Node, neighbors: seq<Node>, index: seq<nat>) {
    && |index| == |neighbors| && Distinct(index)
    && (forall b :: 0 <= b < |index| ==> index[b] < |arcs| && arcs[index[b]] == Arc(u, neighbors[b]))
  }

  method BuildGraph(nodes: seq<Node>, edges: seq<Edge>)
    returns (inDegree: map<Node, int>, adjacency: map<Node, seq<Node>>, ghost index: map<Node, seq<nat>>)
    ensures DegreesOk(nodes, Arcs(nodes, edges), {}, inDegree)
    ensures AdjacencyOk(Arcs(nodes, edges), adjacency, index)
  {
    inDegree := map v | v in nodes :: 0;
    adjacency, index := map[], map[];
    assert edges[..0] == [];
    forall v | v in inDegree ensures DegreeAt([], {}, inDegree, v) {
      assert Open([], {}, v) == {};
    }
    for e := 0 to |edges|
      invariant DegreesOk(nodes, Arcs(nodes, edges[..e]), {}, inDegree)
      invariant AdjacencyOk(Arcs(nodes, edges[..e]), adjacency, index)
    {
      var edge := edges[e];
      ghost var arcs := Arcs(nodes, edges[..e]);
      assert edges[..e + 1][..e] == edges[..e];
      if Known(nodes, edge) {
        var source, target := Source(edge).value, Target(edge).value;
        ArcAdded(nodes, arcs, inDegree, adjacency, index, Arc(source, target));
        var neighbors := if source in adjacency then adjacency[source] else [];
        index := index[source := (if source in index then index[source] else []) + [|arcs|]];
        adjacency := adjacency[source := neighbors + [target]];
        inDegree := inDegree[target := inDegree[target] + 1];
      } else {
        assert Arcs(nodes, edges[..e + 1]) == arcs + [] == arcs;
      }
    }
    assert edges[..|edges|] == edges;
  }

  lemma ArcAdded(nodes: seq<Node>, arcs: seq<Arc>, inDegree: map<Node, int>, adjacency: map<Node, seq<Node>>,
                 index: map<Node, seq<nat>>, a: Arc)
    requires DegreesOk(nodes, arcs, {}, inDegree) && AdjacencyOk(arcs, adjacency, index)
    requires a.source in nodes && a.target in nodes
    ensures DegreesOk(nodes, arcs + [a], {}, inDegree[a.target := inDegree[a.target] + 1])
    ensures var before := if a.source in adjacency then adjacency[a.source] else [];
            var positions := if a.source in index then index[a.source] else [];
            AdjacencyOk(arcs + [a], adjacency[a.source := before + [a.target]], index[a.source := positions + [|arcs|]])
  {
    forall v | v in inDegree ensures DegreeAt(arcs + [a], {}, inDegree[a.target := inDegree[a.target] + 1], v) {
      assert DegreeAt(arcs, {}, inDegree, v);
      OpenWith(arcs, a, v);
    }
    NeighborAdded(arcs, adjacency, index, a);
  }

  lemma OpenWith(arcs: seq<Arc>, a: Arc, v: Node)
    ensures |Open(arcs + [a], {}, v)| == |Open(arcs, {}, v)| + if v == a.target then 1 else 0
  {
    if v == a.target {
      assert Open(arcs + [a], {}, v) == Open(arcs, {}, v) + {|arcs|};
    } else {
      assert Open(arcs + [a], {}, v) == Open(arcs, {}, v);
    }
  }

  lemma NeighborAdded(arcs: seq<Arc>, adjacency: map<Node, seq<Node>>, index: map<Node, seq<nat>>, a: Arc)
    requires AdjacencyOk(arcs, adjacency, index)
    ensures var before := if a.source in adjacency then adjacency[a.source] else [];
            var positions := if a.source in index then index[a.source] else [];
            AdjacencyOk(arcs + [a], adjacency[a.source := before + [a.target]], index[a.source := positions + [|arcs|]])
  {
    var before := if a.source in adjacency then adjacency[a.source] else [];
    var positions := if a.source in index then index[a.source] else [];
    assert NeighborsOk(arcs + [a], a.source, before + [a.target], positions + [|arcs|]);
    forall u | u in index ensures NeighborsOk(arcs + [a], u, adjacency[u], index[u]) {
      assert NeighborsOk(arcs, u, adjacency[u], index[u]);
    }
    assert |arcs| in positions + [|arcs|];
  }

  /** The queue of the next level: the nodes whose last open arc was crossed since `before`. */
  ghost predicate Freed(arcs: seq<Arc>, before: set<nat>, crossed: set<nat>, queue: seq<Node>) {
    && Distinct(queue)
    && forall v :: v in queue <==> Open(arcs, before, v) != {} && Open(arcs, crossed, v) == {}
  }

  lemma OpenLess(arcs: seq<Arc>, crossed: set<nat>, i: nat)
    requires i < |arcs| && i !in crossed
    ensures forall v ::
              |Open(arcs, crossed + {i}, v)| == |Open(arcs, crossed, v)| - if v == arcs[i].target then 1 else 0
  {
    forall v ensures |Open(arcs, crossed + {i}, v)| == |Open(arcs, crossed, v)| - if v == arcs[i].target then 1 else 0 {
      if v == arcs[i].target {
        assert Open(arcs, crossed, v) == Open(arcs, crossed + {i}, v) + {i};
      } else {
        assert Open(arcs, crossed, v) == Open(arcs, crossed + {i}, v);
      }
    }
  }

  lemma FreedMore(arcs: seq<Arc>, before: set<nat>, crossed: set<nat>, queue: seq<Node>, i: nat)
    requires Freed(arcs, before, crossed, queue) && before <= crossed && i < |arcs| && i !in crossed
    ensures var v := arcs[i].target;
            Freed(arcs, before, crossed + {i}, if |Open(arcs, crossed + {i}, v)| == 0 then queue + [v] else queue)
  {
    var v := arcs[i].target;
    assert i in Open(arcs, crossed, v) && i in Open(arcs, before, v);
    forall u | u != v ensures Open(arcs, crossed + {i}, u) == Open(arcs, crossed, u) {
    }
  }

  /** Crossing off one arc: its target loses one degree, and joins the queue at zero. */
  method CrossOff(nodes: seq<Node>, ghost arcs: seq<Arc>, ghost before: set<nat>, ghost crossed: set<nat>,
                  inDegree: map<Node, int>, queue: seq<Node>, neighbor: Node, ghost i: nat)
    returns (inDegree': map<Node, int>, queue': seq<Node>)
    requires DegreesOk(nodes, arcs, crossed, inDegree) && Freed(arcs, before, crossed, queue) && before <= crossed
    requires i < |arcs| && i !in crossed && arcs[i].target == neighbor && neighbor in nodes
    ensures DegreesOk(nodes, arcs, crossed + {i}, inDegree') && Freed(arcs, before, crossed + {i}, queue')
  {
    OpenLess(arcs, crossed, i);
    FreedMore(arcs, before, crossed, queue, i);
    assert DegreeAt(arcs, crossed, inDegree, neighbor);
    inDegree' := inDegree[neighbor := inDegree[neighbor] - 1];
    forall v | v in inDegree' ensures DegreeAt(arcs, crossed + {i}, inDegree', v) {
      assert DegreeAt(arcs, crossed, inDegree, v);
    }
    queue' := queue;
    if inDegree'[neighbor] == 0 {
      queue' := queue' + [neighbor];
    }
  }

  /** Crosses off the arcs of one node of the current level. */
  method Release(nodes: seq<Node>, ghost arcs: seq<Arc>, ghost before: set<nat>, ghost crossed: set<nat>,
                 inDegree: map<Node, int>, queue: seq<Node>, neighbors: seq<Node>, ghost u: Node, ghost index: seq<nat>)
    returns (inDegree': map<Node, int>, queue': seq<Node>)
    requires DegreesOk(nodes, arcs, crossed, inDegree) && Freed(arcs, before, crossed, queue) && before <= crossed
    requires NeighborsOk(arcs, u, neighbors, index) && (forall b :: 0 <= b < |index| ==> index[b] !in crossed)
    requires forall a :: a in arcs ==> a.target in nodes
    ensures DegreesOk(nodes, arcs, crossed + Elements(index), inDegree')
    ensures Freed(arcs, before, crossed + Elements(index), queue')
  {
    inDegree', queue' := inDegree, queue;
    ghost var sofar := crossed;
    for b := 0 to |neighbors|
      invariant crossed <= sofar == crossed + Elements(index[..b])
      invariant DegreesOk(nodes, arcs, sofar, inDegree') && Freed(arcs, before, sofar, queue')
    {
      NextIsOpen(arcs, u, neighbors, index, crossed, b);
      inDegree', queue' := CrossOff(nodes, arcs, before, sofar, inDegree', queue', neighbors[b], index[b]);
      sofar := sofar + {index[b]};
    }
    assert index[..|neighbors|] == index;
  }

  lemma NextIsOpen(arcs: seq<Arc>, u: Node, neighbors: seq<Node>, index: seq<nat>, crossed: set<nat>, b: nat)
    requires NeighborsOk(arcs, u, neighbors, index) && b < |index| && index[b] !in crossed
    ensures index[b] < |arcs| && arcs[index[b]].target == neighbors[b] && arcs[index[b]] in arcs
    ensures index[b] !in crossed + Elements(index[..b])
    ensures crossed + Elements(index[..b + 1]) == crossed + Elements(index[..b]) + {index[b]}
  {
    assert index[..b + 1] == index[..b] + [index[b]];
  }

  function Elements<T>(s: seq<T>): set<T> {
    set x | x in s
  }

  lemma LeavingMore(arcs: seq<Arc>, adjacency: map<Node, seq<Node>>, index: map<Node, seq<nat>>, done: set<Node>,
                    u: Node)
    requires AdjacencyOk(arcs, adjacency, index) && u !in done
    ensures var positions := if u in index then index[u] else [];
            && Leaving(arcs, done + {u}) == Leaving(arcs, done) + Elements(positions)
            && forall b :: 0 <= b < |positions| ==> positions[b] !in Leaving(arcs, done)
  {
    if u in index {
      assert NeighborsOk(arcs, u, adjacency[u], index[u]);
    }
  }

  /** Crosses off every arc that leaves the current level. */
  method ReleaseLevel(nodes: seq<Node>, ghost arcs: seq<Arc>, ghost done: set<Node>, level: seq<Node>,
                      inDegree: map<Node, int>, adjacency: map<Node, seq<Node>>, ghost index: map<Node, seq<nat>>)
    returns (inDegree': map<Node, int>, queue: seq<Node>)
    requires DegreesOk(nodes, arcs, Leaving(arcs, done), inDegree) && AdjacencyOk(arcs, adjacency, index)
    requires Distinct(level) && (forall v :: v in level ==> v !in done) && forall a :: a in arcs ==> a.target in nodes
    ensures DegreesOk(nodes, arcs, Leaving(arcs, done + Elements(level)), inDegree')
    ensures Freed(arcs, Leaving(arcs, done), Leaving(arcs, done + Elements(level)), queue)
  {
    inDegree', queue := inDegree, [];
    ghost var before := Leaving(arcs, done);
    assert done + Elements(level[..0]) == done;
    for n := 0 to |level|
      invariant DegreesOk(nodes, arcs, Leaving(arcs, done + Elements(level[..n])), inDegree')
      invariant Freed(arcs, before, Leaving(arcs, done + Elements(level[..n])), queue)
    {
      ghost var sofar := done + Elements(level[..n]);
      assert done + Elements(level[..n + 1]) == sofar + {level[n]};
      LeavingMore(arcs, adjacency, index, sofar, level[n]);
      if level[n] in adjacency {
        assert NeighborsOk(arcs, level[n], adjacency[level[n]], index[level[n]]);
        inDegree', queue := Release(nodes, arcs, before, Leaving(arcs, sofar), inDegree', queue,
                                    adjacency[level[n]], level[n], index[level[n]]);
      } else {
        assert Leaving(arcs, sofar + {level[n]}) == Leaving(arcs, sofar);
      }
    }
    assert level[..|level|] == level;
  }

  /** The queue holds the nodes not yet placed whose predecessors all are. */
  ghost predicate QueueOk(nodes: seq<Node>, arcs: seq<Arc>, placed: set<Node>, queue: seq<Node>) {
    Distinct(queue) && forall v {:trigger Queued(nodes, arcs, placed, queue, v)} ::
        Queued(nodes, arcs, placed, queue, v)
  }

  predicate Queued(nodes: seq<Node>, arcs: seq<Arc>, placed: set<Node>, queue: seq<Node>, v: Node) {
    v in queue <==> v in nodes && v !in placed && Open(arcs, Leaving(arcs, placed), v) == {}
  }

  lemma QueueIsNew(nodes: seq<Node>, arcs: seq<Arc>, placed: set<Node>, queue: seq<Node>)
    requires QueueOk(nodes, arcs, placed, queue)
    ensures forall v :: v in queue ==> v in nodes && v !in placed && Open(arcs, Leaving(arcs, placed), v) == {}
  {
    forall v | v in queue ensures v in nodes && v !in placed && Open(arcs, Leaving(arcs, placed), v) == {} {
      assert Queued(nodes, arcs, placed, queue, v);
    }
  }

  /** `rank` is where the levels put each node. */
  ghost predicate LevelsOk(nodes: seq<Node>, levels: seq<seq<Node>>, rank: map<Node, nat>) {
    && (forall v {:trigger IsPlaced(nodes, levels, rank, v)} :: v in rank ==> IsPlaced(nodes, levels, rank, v))
    && (forall k: nat {:trigger LevelOk(levels, rank, k)} :: k < |levels| ==> LevelOk(levels, rank, k))
  }

  predicate IsPlaced(nodes: seq<Node>, levels: seq<seq<Node>>, rank: map<Node, nat>, v: Node)
    requires v in rank
  {
    v in nodes && rank[v] < |levels| && v in levels[rank[v]]
  }

  predicate LevelOk(levels: seq<seq<Node>>, rank: map<Node, nat>, k: nat)
    requires k < |levels|
  {
    levels[k] != [] && Distinct(levels[k]) && forall v :: v in levels[k] ==> v in rank && rank[v] == k
  }

  /** Queued nodes have a predecessor in the level just placed. */
  ghost predicate Following(arcs: seq<Arc>, rank: map<Node, nat>, count: nat, queue: seq<Node>) {
    forall v {:trigger HasPredecessorAt(arcs, rank, count, v)} :: v in queue && count > 0 ==>
        HasPredecessorAt(arcs, rank, count, v)
  }

  ghost predicate HasPredecessorAt(arcs: seq<Arc>, rank: map<Node, nat>, count: nat, v: Node) {
    exists a :: a in arcs && a.target == v && a.source in rank && rank[a.source] + 1 == count
  }

  /** The ranking once the queue is placed as level `count`. */
  function Placed(rank: map<Node, nat>, queue: seq<Node>, count: nat): map<Node, nat> {
    rank + map v | v in queue :: count
  }

  lemma OpenIffUnplaced(arcs: seq<Arc>, placed: set<Node>, v: Node)
    ensures Open(arcs, Leaving(arcs, placed), v) == {} <==>
        forall a :: a in arcs && a.target == v ==> a.source in placed
  {
    if Open(arcs, Leaving(arcs, placed), v) == {} {
      forall a | a in arcs && a.target == v ensures a.source in placed {
        var i :| 0 <= i < |arcs| && arcs[i] == a;
        assert i !in Open(arcs, Leaving(arcs, placed), v);
      }
    }
  }

  /** Placing the queue as the next level keeps the layering. */
  lemma LayerAdded(nodes: seq<Node>, arcs: seq<Arc>, rank: map<Node, nat>, count: nat, queue: seq<Node>)
    requires Layered(arcs, rank) && QueueOk(nodes, arcs, rank.Keys, queue) && Following(arcs, rank, count, queue)
    requires forall v :: v in rank ==> rank[v] < count
    ensures Layered(arcs, Placed(rank, queue, count))
  {
    var next := Placed(rank, queue, count);
    QueueIsNew(nodes, arcs, rank.Keys, queue);
    forall a | a in arcs && a.target in next ensures a.source in next && next[a.source] < next[a.target] {
      OpenIffUnplaced(arcs, rank.Keys, a.target);
    }
    forall v | v in next && next[v] > 0 ensures HasParent(arcs, next, v) {
      if v in rank {
        assert HasParent(arcs, rank, v);
        var a :| a in arcs && a.target == v && a.source in rank && rank[a.source] + 1 == rank[v];
        assert a.source !in queue;
        assert next[a.source] == rank[a.source];
      } else {
        assert HasPredecessorAt(arcs, rank, count, v);
        var a :| a in arcs && a.target == v && a.source in rank && rank[a.source] + 1 == count;
        assert next[a.source] == rank[a.source];
      }
    }
  }

  /** The nodes freed by the level are exactly the next queue, each with a predecessor in the level. */
  lemma QueueNext(nodes: seq<Node>, arcs: seq<Arc>, rank: map<Node, nat>, count: nat, queue: seq<Node>, next: seq<Node>)
    requires Layered(arcs, rank) && QueueOk(nodes, arcs, rank.Keys, queue)
    requires forall a :: a in arcs ==> a.target in nodes
    requires Freed(arcs, Leaving(arcs, rank.Keys), Leaving(arcs, rank.Keys + Elements(queue)), next)
    ensures var rank' := Placed(rank, queue, count);
            QueueOk(nodes, arcs, rank'.Keys, next) && Following(arcs, rank', count + 1, next)
  {
    var rank' := Placed(rank, queue, count);
    assert rank'.Keys == rank.Keys + Elements(queue);
    forall v ensures Queued(nodes, arcs, rank'.Keys, next, v) {
      assert Queued(nodes, arcs, rank.Keys, queue, v);
      OpenIffUnplaced(arcs, rank.Keys, v);
      OpenIffUnplaced(arcs, rank'.Keys, v);
    }
    forall v | v in next ensures HasPredecessorAt(arcs, rank', count + 1, v) {
      OpenIffUnplaced(arcs, rank.Keys, v);
      OpenIffUnplaced(arcs, rank'.Keys, v);
      var a :| a in arcs && a.target == v && a.source !in rank;
      assert rank'[a.source] == count;
    }
  }

  lemma LevelAdded(nodes: seq<Node>, levels: seq<seq<Node>>, rank: map<Node, nat>, queue: seq<Node>)
    requires LevelsOk(nodes, levels, rank) && Distinct(queue) && queue != []
    requires forall v :: v in queue ==> v in nodes && v !in rank
    ensures LevelsOk(nodes, levels + [queue], Placed(rank, queue, |levels|))
  {
    var rank', levels' := Placed(rank, queue, |levels|), levels + [queue];
    forall v | v in rank' ensures IsPlaced(nodes, levels', rank', v) {
      if v !in queue {
        assert IsPlaced(nodes, levels, rank, v);
      }
    }
    forall k: nat | k < |levels'| ensures LevelOk(levels', rank', k) {
      if k < |levels| {
        assert LevelOk(levels, rank, k);
      }
    }
  }

  lemma PlacedSize(rank: map<Node, nat>, queue: seq<Node>, count: nat)
    requires Distinct(queue) && forall v :: v in queue ==> v !in rank
    ensures Placed(rank, queue, count).Keys == rank.Keys + Elements(queue)
    ensures |Placed(rank, queue, count)| == |rank| + |queue|
  {
    var rank' := Placed(rank, queue, count);
    assert rank'.Keys == rank.Keys + Elements(queue);
    DistinctSize(queue);
    assert |rank'.Keys| == |rank.Keys| + |Elements(queue)|;
  }

  lemma {:induction false} DistinctSize(s: seq<Node>)
    requires Distinct(s)
    ensures |Elements(s)| == |s|
  {
    if s != [] {
      var init, last := s[..|s| - 1], s[|s| - 1];
      DistinctSize(init);
      assert Elements(s) == Elements(init) + {last};
    }
  }

  /** Once every node is placed there is no cycle. */
  lemma AllPlaced(nodes: seq<Node>, edges: seq<Edge>, rank: map<Node, nat>)
    requires Layered(Arcs(nodes, edges), rank) && rank.Keys == Elements(nodes)
    ensures !Cyclic(Arcs(nodes, edges))
  {
    ArcsAreKnown(nodes, edges);
    LayeredIsAcyclic(Arcs(nodes, edges), rank);
  }

  /** When the queue runs dry early, the nodes not placed hold a cycle. */
  lemma RestIsCyclic(nodes: seq<Node>, edges: seq<Edge>, placed: set<Node>)
    requires QueueOk(nodes, Arcs(nodes, edges), placed, []) && placed < Elements(nodes)
    ensures Cyclic(Arcs(nodes, edges))
  {
    var arcs, stuck := Arcs(nodes, edges), Elements(nodes) - placed;
    ArcsAreKnown(nodes, edges);
    forall v | v in stuck ensures HasPredecessor(arcs, stuck, v) {
      OpenIffUnplaced(arcs, placed, v);
      assert Queued(nodes, arcs, placed, [], v);
      var a :| a in arcs && a.target == v && a.source !in placed;
      assert a.source in stuck;
    }
    assert placed + stuck == Elements(nodes);
    RootlessIsCyclic(arcs, stuck);
  }

  /** Each node once, at the level that is the length of the longest path into it. */
  ghost predicate LongestPathLevels(nodes: seq<Node>, arcs: seq<Arc>, levels: seq<seq<Node>>) {
    && (forall v :: v in nodes ==> exists k: nat :: k < |levels| && v in levels[k])
    && (forall k: nat, v :: k < |levels| && v in levels[k] ==> v in nodes && LongestPathInto(arcs, v, k))
    && (forall j: nat, k: nat, v :: j < |levels| && k < |levels| && v in levels[j] && v in levels[k] ==> j == k)
    && (forall k: nat :: k < |levels| ==> levels[k] != [] && Distinct(levels[k]))
  }

  lemma LevelsAreLongestPaths(nodes: seq<Node>, arcs: seq<Arc>, levels: seq<seq<Node>>, rank: map<Node, nat>)
    requires LevelsOk(nodes, levels, rank) && Layered(arcs, rank) && rank.Keys == Elements(nodes)
    ensures LongestPathLevels(nodes, arcs, levels)
  {
    forall v | v in nodes ensures exists k: nat :: k < |levels| && v in levels[k] {
      assert IsPlaced(nodes, levels, rank, v);
    }
    forall k: nat, v | k < |levels| && v in levels[k] ensures v in nodes && LongestPathInto(arcs, v, k) {
      assert LevelOk(levels, rank, k);
      RankIsLongestPath(arcs, rank, v);
    }
    forall j: nat, k: nat, v | j < |levels| && k < |levels| && v in levels[j] && v in levels[k] ensures j == k {
      assert LevelOk(levels, rank, j) && LevelOk(levels, rank, k);
    }
    forall k: nat | k < |levels| ensures levels[k] != [] && Distinct(levels[k]) {
      assert LevelOk(levels, rank, k);
    }
  }

  /** What holds whenever a level is complete. */
  ghost predicate SortOk(nodes: seq<Node>, arcs: seq<Arc>, levels: seq<seq<Node>>, queue: seq<Node>,
                         rank: map<Node, nat>) {
    && QueueOk(nodes, arcs, rank.Keys, queue) && Following(arcs, rank, |levels|, queue)
    && LevelsOk(nodes, levels, rank) && Layered(arcs, rank)
  }

  lemma SortStep(nodes: seq<Node>, arcs: seq<Arc>, levels: seq<seq<Node>>, queue: seq<Node>, rank: map<Node, nat>,
                 next: seq<Node>)
    requires SortOk(nodes, arcs, levels, queue, rank) && queue != [] && forall a :: a in arcs ==> a.target in nodes
    requires Freed(arcs, Leaving(arcs, rank.Keys), Leaving(arcs, rank.Keys + Elements(queue)), next)
    ensures SortOk(nodes, arcs, levels + [queue], next, Placed(rank, queue, |levels|))
  {
    QueueIsNew(nodes, arcs, rank.Keys, queue);
    LevelAdded(nodes, levels, rank, queue);
    forall v | v in rank ensures rank[v] < |levels| {
      assert IsPlaced(nodes, levels, rank, v);
    }
    LayerAdded(nodes, arcs, rank, |levels|, queue);
    QueueNext(nodes, arcs, rank, |levels|, queue, next);
  }

  lemma SortStart(nodes: seq<Node>, arcs: seq<Arc>, queue: seq<Node>, inDegree: map<Node, int>)
    requires QueueOk(nodes, arcs, {}, queue) && DegreesOk(nodes, arcs, {}, inDegree)
    ensures SortState(nodes, arcs, [], queue, inDegree, 0)
  {
    var none: map<Node, nat> := map[];
    assert none.Keys == {} && Leaving(arcs, {}) == {};
    assert Sorting(nodes, arcs, [], queue, inDegree, 0, none);
  }

  lemma SortDone(nodes: seq<Node>, edges: seq<Edge>, levels: seq<seq<Node>>, rank: map<Node, nat>)
    requires Distinct(nodes) && SortOk(nodes, Arcs(nodes, edges), levels, [], rank) && rank.Keys <= Elements(nodes)
    ensures |rank| != |nodes| ==> Cyclic(Arcs(nodes, edges))
    ensures |rank| == |nodes| ==> !Cyclic(Arcs(nodes, edges)) && LongestPathLevels(nodes, Arcs(nodes, edges), levels)
  {
    DistinctSize(nodes);
    if rank.Keys == Elements(nodes) {
      AllPlaced(nodes, edges, rank);
      LevelsAreLongestPaths(nodes, Arcs(nodes, edges), levels, rank);
    } else {
      Smaller(rank.Keys, Elements(nodes));
      RestIsCyclic(nodes, edges, rank.Keys);
    }
  }

  lemma SubsetSize(a: set<Node>, b: set<Node>)
    requires a <= b
    ensures |a| <= |b|
  {
    assert b == a + (b - a);
    assert |b| == |a| + |b - a|;
  }

  lemma Smaller(a: set<Node>, b: set<Node>)
    requires a < b
    ensures |a| < |b|
  {
    assert b == a + (b - a);
    assert |b| == |a| + |b - a|;
  }

  /** The sort under way: some ranking explains the levels, the queue and the in-degrees. */
  ghost predicate SortState(nodes: seq<Node>, arcs: seq<Arc>, levels: seq<seq<Node>>, queue: seq<Node>,
                            inDegree: map<Node, int>, visited: nat) {
    exists rank :: Sorting(nodes, arcs, levels, queue, inDegree, visited, rank)
  }

  ghost predicate Sorting(nodes: seq<Node>, arcs: seq<Arc>, levels: seq<seq<Node>>, queue: seq<Node>,
                          inDegree: map<Node, int>, visited: nat, rank: map<Node, nat>) {
    && DegreesOk(nodes, arcs, Leaving(arcs, rank.Keys), inDegree)
    && SortOk(nodes, arcs, levels, queue, rank) && visited == |rank| && rank.Keys <= Elements(nodes)
  }

  /** The adjacency list holds exactly the arcs, all of them between known nodes. */
  ghost predicate Listed(nodes: seq<Node>, arcs: seq<Arc>, adjacency: map<Node, seq<Node>>) {
    (exists index :: AdjacencyOk(arcs, adjacency, index)) && forall a :: a in arcs ==> a.target in nodes
  }

  method PrepareGraph(nodes: seq<Node>, edges: seq<Edge>)
    returns (inDegree: map<Node, int>, adjacency: map<Node, seq<Node>>)
    ensures DegreesOk(nodes, Arcs(nodes, edges), {}, inDegree) && Listed(nodes, Arcs(nodes, edges), adjacency)
  {
    ghost var index;
    inDegree, adjacency, index := BuildGraph(nodes, edges);
    ArcsAreKnown(nodes, edges);
    assert AdjacencyOk(Arcs(nodes, edges), adjacency, index);
  }

  /** The queue becomes the next level; crossing off its arcs frees the queue after it. */
  method PlaceLevel(nodes: seq<Node>, ghost arcs: seq<Arc>, ghost levels: seq<seq<Node>>, queue: seq<Node>,
                    inDegree: map<Node, int>, ghost visited: nat, adjacency: map<Node, seq<Node>>)
    returns (inDegree': map<Node, int>, nextQueue: seq<Node>)
    requires SortState(nodes, arcs, levels, queue, inDegree, visited) && queue != [] && Listed(nodes, arcs, adjacency)
    ensures SortState(nodes, arcs, levels + [queue], nextQueue, inDegree', visited + |queue|)
    ensures visited + |queue| <= |Elements(nodes)|
  {
    ghost var rank: map<Node, nat> :| Sorting(nodes, arcs, levels, queue, inDegree, visited, rank);
    ghost var index: map<Node, seq<nat>> :| AdjacencyOk(arcs, adjacency, index);
    ghost var placed := Placed(rank, queue, |levels|);
    QueueIsNew(nodes, arcs, rank.Keys, queue);
    inDegree', nextQueue := ReleaseLevel(nodes, arcs, rank.Keys, queue, inDegree, adjacency, index);
    SortStep(nodes, arcs, levels, queue, rank, nextQueue);
    PlacedSize(rank, queue, |levels|);
    SubsetSize(placed.Keys, Elements(nodes));
    assert Sorting(nodes, arcs, levels + [queue], nextQueue, inDegree', visited + |queue|, placed);
  }

  /** The levels of the graph on known nodes, or the error when it has a cycle. */
  method TopologicalSort(nodes: seq<Node>, edges: seq<Edge>) returns (result: Option<seq<seq<Node>>>)
    requires Distinct(nodes)
    ensures result.None? <==> Cyclic(Arcs(nodes, edges))
    ensures result.Some? ==> LongestPathLevels(nodes, Arcs(nodes, edges), result.value)
  {
    ghost var arcs := Arcs(nodes, edges);
    var inDegree, adjacency := PrepareGraph(nodes, edges);
    var queue := Roots(nodes, arcs, inDegree);
    var levels: seq<seq<Node>>, visitedCount := [], 0;
    SortStart(nodes, arcs, queue, inDegree);
    while queue != []
      invariant SortState(nodes, arcs, levels, queue, inDegree, visitedCount)
      decreases |Elements(nodes)| - visitedCount
    {
      var level := queue;
      inDegree, queue := PlaceLevel(nodes, arcs, levels, level, inDegree, visitedCount, adjacency);
      levels, visitedCount := levels + [level], visitedCount + |level|;
    }
    ghost var rank: map<Node, nat> :| Sorting(nodes, arcs, levels, queue, inDegree, visitedCount, rank);
    SortDone(nodes, edges, levels, rank);
    if visitedCount != |nodes| {
      return None;
    }
    result := Some(levels);
  }

  /** The nodes without incoming arcs, in the nodes' order. */
  method Roots(nodes: seq<Node>, ghost arcs: seq<Arc>, inDegree: map<Node, int>) returns (queue: seq<Node>)
    requires Distinct(nodes) && DegreesOk(nodes, arcs, {}, inDegree)
    ensures QueueOk(nodes, arcs, {}, queue)
  {
    queue := [];
    for n := 0 to |nodes|
      invariant Distinct(queue) && forall v :: v in queue <==> v in nodes[..n] && inDegree[v] == 0
    {
      assert nodes[..n + 1] == nodes[..n] + [nodes[n]];
      assert nodes[n] in nodes && nodes[n] !in nodes[..n];
      assert DegreeAt(arcs, {}, inDegree, nodes[n]);
      if inDegree[nodes[n]] == 0 {
        queue := queue + [nodes[n]];
      }
    }
    assert nodes[..|nodes|] == nodes && Leaving(arcs, {}) == {};
    forall v ensures Queued(nodes, arcs, {}, queue, v) {
      if v in nodes {
        assert DegreeAt(arcs, {}, inDegree, v);
      }
    }
  }

  datatype DagError = SourceMissing(edge: nat) | TargetMissing(edge: nat) | HasCycle

  /** Whether an edge end names a node. */
  predicate Found(nodes: seq<Node>, end: Option<Node>) {
    end.Some? && end.value in nodes
  }

  /** Every dangling end is reported, in edge order, and a cycle last. */
  function EdgeErrors(nodes: seq<Node>, edges: seq<Edge>): seq<DagError> {
    if edges == [] then []
    else
      var e := |edges| - 1;
      EdgeErrors(nodes, edges[..e]) +
      (if Found(nodes, Source(edges[e])) then [] else [SourceMissing(e)]) +
      (if Found(nodes, Target(edges[e])) then [] else [TargetMissing(e)])
  }

  /** No node of the graph is the edge's source. */
  predicate NoSource(nodes: seq<Node>, e: Edge) {
    forall u :: u in nodes ==> !LeavesFrom(e, u)
  }

  predicate NoTarget(nodes: seq<Node>, e: Edge) {
    forall v :: v in nodes ==> !LeadsTo(e, v)
  }

  /** The place of an error in the report. */
  function ErrorPlace(error: DagError): int {
    match error
    case SourceMissing(i) => 2 * i
    case TargetMissing(i) => 2 * i + 1
    case HasCycle => -1
  }

  /** The report lists exactly the ends that name no node of the graph. */
  lemma {:induction false} EdgeErrorsAre(nodes: seq<Node>, edges: seq<Edge>, i: nat)
    ensures SourceMissing(i) in EdgeErrors(nodes, edges) <==> i < |edges| && NoSource(nodes, edges[i])
    ensures TargetMissing(i) in EdgeErrors(nodes, edges) <==> i < |edges| && NoTarget(nodes, edges[i])
    ensures HasCycle !in EdgeErrors(nodes, edges)
  {
    if edges != [] {
      var e := |edges| - 1;
      EdgeErrorsAre(nodes, edges[..e], i);
      EndsFound(nodes, edges[e]);
    }
  }

  predicate InOrder(errors: seq<DagError>, limit: int) {
    && (forall i :: 0 <= i < |errors| ==> 0 <= ErrorPlace(errors[i]) < limit)
    && (forall i, j :: 0 <= i < j < |errors| ==> ErrorPlace(errors[i]) < ErrorPlace(errors[j]))
  }

  /** Each once, edge by edge and sources first. */
  lemma {:induction false} EdgeErrorsInOrder(nodes: seq<Node>, edges: seq<Edge>)
    ensures InOrder(EdgeErrors(nodes, edges), 2 * |edges|)
  {
    if edges != [] {
      var e := |edges| - 1;
      EdgeErrorsInOrder(nodes, edges[..e]);
      var before := EdgeErrors(nodes, edges[..e]);
      var source := if Found(nodes, Source(edges[e])) then [] else [SourceMissing(e)];
      var target := if Found(nodes, Target(edges[e])) then [] else [TargetMissing(e)];
      MoreInOrder(before, source, 2 * e);
      MoreInOrder(before + source, target, 2 * e + 1);
    }
  }

  lemma MoreInOrder(errors: seq<DagError>, more: seq<DagError>, place: int)
    requires InOrder(errors, place) && 0 <= place && |more| <= 1 && (more != [] ==> ErrorPlace(more[0]) == place)
    ensures InOrder(errors + more, place + 1)
  {
  }

  lemma EndsFound(nodes: seq<Node>, e: Edge)
    ensures Found(nodes, Source(e)) <==> !NoSource(nodes, e)
    ensures Found(nodes, Target(e)) <==> !NoTarget(nodes, e)
  {
    if Found(nodes, Source(e)) {
      assert LeavesFrom(e, Source(e).value);
    }
    if Found(nodes, Target(e)) {
      assert LeadsTo(e, Target(e).value);
    }
  }

  /** Every edge joins known nodes, and no cycle exists. */
  ghost predicate ValidDag(nodes: seq<Node>, edges: seq<Edge>) {
    (forall e :: 0 <= e < |edges| ==> Known(nodes, edges[e])) && !Cyclic(Arcs(nodes, edges))
  }

  method ValidateDag(nodes: seq<Node>, edges: seq<Edge>) returns (errors: seq<DagError>)
    requires Distinct(nodes)
    ensures Cyclic(Arcs(nodes, edges)) ==> errors == EdgeErrors(nodes, edges) + [HasCycle]
    ensures !Cyclic(Arcs(nodes, edges)) ==> errors == EdgeErrors(nodes, edges)
    ensures errors == [] <==> ValidDag(nodes, edges)
  {
    errors := [];
    for i := 0 to |edges|
      invariant errors == EdgeErrors(nodes, edges[..i])
    {
      assert edges[..i + 1][..i] == edges[..i];
      if !Found(nodes, Source(edges[i])) {
        errors := errors + [SourceMissing(i)];
      }
      if !Found(nodes, Target(edges[i])) {
        errors := errors + [TargetMissing(i)];
      }
    }
    assert edges[..|edges|] == edges;
    EdgeErrorsMean(nodes, edges);
    var levels := TopologicalSort(nodes, edges);
    if levels.None? {
      errors := errors + [HasCycle];
    }
  }

  lemma {:induction false} EdgeErrorsMean(nodes: seq<Node>, edges: seq<Edge>)
    ensures EdgeErrors(nodes, edges) == [] <==> forall e :: 0 <= e < |edges| ==> Known(nodes, edges[e])
  {
    if edges != [] {
      var e := |edges| - 1;
      EdgeErrorsMean(nodes, edges[..e]);
      assert edges == edges[..e] + [edges[e]];
    }
  }
}
