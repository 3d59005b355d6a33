/** Executing a graph level by level, alone or in parallel, stores exactly its recursive evaluation. */
module Executor {
  import opened Wrappers
  import opened Dag
  import opened Scheduler
  import opened Dataflow
  import opened Journals

  const PARALLEL_THRESHOLD := 2

  /** A failed run names the node the error reports; a paused or cancelled one the level it did not begin. */
  datatype RunResult = Finished | InvalidDag(errors: seq<DagError>) | FailedAt(node: Node) | StoppedBefore(level: nat)

  /** The level a node is at. */
  function RankOf(nodes: seq<Node>, levels: seq<seq<Node>>): map<Node, nat> {
    map v | v in nodes :: LevelIndex(levels, v)
  }

  function LevelIndex(levels: seq<seq<Node>>, v: Node): (k: nat)
    ensures k < |levels| ==> v in levels[k]
    ensures k >= |levels| ==> forall j :: 0 <= j < |levels| ==> v !in levels[j]
  {
    if levels == [] then 0
    else
      var k := LevelIndex(levels[..|levels| - 1], v);
      if k < |levels| - 1 then k
      else if v in levels[|levels| - 1] then |levels| - 1 else |levels|
  }

  lemma LevelIndexAt(nodes: seq<Node>, arcs: seq<Arc>, levels: seq<seq<Node>>, k: nat, v: Node)
    requires LongestPathLevels(nodes, arcs, levels) && k < |levels| && v in levels[k]
    ensures LevelIndex(levels, v) == k
  {
  }

  /** An edge that carries data between nodes is one of the scheduler's arcs. */
  lemma {:induction false} FeedsAreArcs(nodes: seq<Node>, edges: seq<Edge>, u: Node, v: Node)
    requires u in Feeds(edges, v) && u in nodes && v in nodes
    ensures Arc(u, v) in Arcs(nodes, edges)
  {
    if edges != [] {
      var init, last := edges[..|edges| - 1], edges[|edges| - 1];
      var e :| e in edges && DataTarget(e) == Some(v) && DataSource(e).Some? && DataSource(e).value == u;
      if e != last {
        assert e in init;
        FeedsAreArcs(nodes, init, u, v);
      }
    }
  }

  lemma ArcsRise(nodes: seq<Node>, arcs: seq<Arc>, levels: seq<seq<Node>>, j: nat, k: nat, u: Node, v: Node)
    requires LongestPathLevels(nodes, arcs, levels) && Arc(u, v) in arcs
    requires j < |levels| && u in levels[j] && k < |levels| && v in levels[k]
    ensures j < k
  {
    assert LongestPathInto(arcs, u, j) && LongestPathInto(arcs, v, k);
    var p :| IsPath(arcs, p) && p[|p| - 1] == u && |p| == j + 1;
    JoinPaths(arcs, p, [v]);
    assert IsPath(arcs, p + [v]) && (p + [v])[|p + [v]| - 1] == v;
  }

  /** The levels rank every node above what feeds it. */
  lemma LevelsOrder(g: Graph, levels: seq<seq<Node>>)
    requires LongestPathLevels(g.nodes, Arcs(g.nodes, g.edges), levels)
    ensures Ordered(g, RankOf(g.nodes, levels)) && LevelsRank(levels, RankOf(g.nodes, levels))
    ensures Ranks(g, RankOf(g.nodes, levels))
  {
    var rank, arcs := RankOf(g.nodes, levels), Arcs(g.nodes, g.edges);
    forall k: nat, v | k < |levels| && v in levels[k] ensures v in g.nodes && rank[v] == k {
      LevelIndexAt(g.nodes, arcs, levels, k, v);
    }
    forall v | v in rank ensures FedFromBelow(g, rank, v) {
      forall u | u in Feeds(g.edges, v) && u in rank ensures rank[u] < rank[v] {
        FeedsAreArcs(g.nodes, g.edges, u, v);
        ArcsRise(g.nodes, arcs, levels, rank[u], rank[v], u, v);
      }
    }
  }

  /** The nodes below a level. */
  ghost function Below(rank: map<Node, nat>, k: nat): set<Node> {
    set v | v in rank && rank[v] < k
  }

  /** The stored outputs are those of the nodes done so far, each with its evaluation. */
  ghost predicate StoredExactly(evals: map<Node, Outcome>, done: set<Node>, outputs: map<Node, Value>) {
    forall u {:trigger StoredAt(evals, done, outputs, u)} :: StoredAt(evals, done, outputs, u)
  }

  predicate StoredAt(evals: map<Node, Outcome>, done: set<Node>, outputs: map<Node, Value>, u: Node) {
    && (u in outputs <==> u in done && u in evals && Stored(evals[u]))
    && (u in outputs ==> outputs[u] == evals[u].output)
  }

  /** The outputs a failed run holds: of all completed nodes so far, and perhaps of failed ones. */
  ghost predicate StoredUpTo(evals: map<Node, Outcome>, done: set<Node>, outputs: map<Node, Value>) {
    && (forall u :: u in outputs ==>
          u in done && u in evals && Truthy(evals[u].output) && outputs[u] == evals[u].output)
    && (forall u :: u in done && u in evals && Stored(evals[u]) ==> u in outputs)
  }

  lemma StoredIsUpTo(evals: map<Node, Outcome>, done: set<Node>, outputs: map<Node, Value>)
    requires StoredExactly(evals, done, outputs)
    ensures StoredUpTo(evals, done, outputs)
    ensures forall v :: v in done && v in evals && Truthy(evals[v].output) ==>
        StoredUpTo(evals, done, outputs[v := evals[v].output])
  {
    forall u | u in outputs || (u in done && u in evals) ensures StoredAt(evals, done, outputs, u) {
    }
  }

  /** Everything below a level completes. */
  ghost predicate CompletesBelow(rank: map<Node, nat>, evals: map<Node, Outcome>, k: nat) {
    forall v :: v in rank && rank[v] < k ==> v in evals && evals[v].Completed?
  }

  /** Every node at the length of the longest path into it. */
  ghost predicate Ranks(g: Graph, rank: map<Node, nat>) {
    && rank.Keys == Elements(g.nodes)
    && forall v :: v in rank ==> LongestPathInto(Arcs(g.nodes, g.edges), v, rank[v])
  }

  lemma RanksUnique(g: Graph, a: map<Node, nat>, b: map<Node, nat>)
    requires Ranks(g, a) && Ranks(g, b)
    ensures a == b
  {
    var arcs := Arcs(g.nodes, g.edges);
    forall v | v in a ensures a[v] == b[v] {
      assert LongestPathInto(arcs, v, a[v]) && LongestPathInto(arcs, v, b[v]);
    }
  }

  /** The evaluations of some nodes only. */
  function Restricted(evals: map<Node, Outcome>, done: set<Node>): map<Node, Outcome> {
    map v | v in evals && v in done :: evals[v]
  }

  lemma StoredOutputs(evals: map<Node, Outcome>, done: set<Node>, outputs: map<Node, Value>)
    requires StoredExactly(evals, done, outputs)
    ensures outputs == OutputsOf(Restricted(evals, done))
    ensures evals.Keys <= done ==> Restricted(evals, done) == evals
  {
    var stored := OutputsOf(Restricted(evals, done));
    forall u ensures u in outputs <==> u in stored {
      assert StoredAt(evals, done, outputs, u);
    }
    forall u | u in outputs ensures outputs[u] == stored[u] {
      assert StoredAt(evals, done, outputs, u);
    }
  }

  /** Everything that feeds the node is done. */
  ghost predicate Ready(g: Graph, evals: map<Node, Outcome>, done: set<Node>, v: Node) {
    v in evals && forall u :: u in Feeds(g.edges, v) && u in evals ==> u in done
  }

  /** The level's nodes are all still to do, and all ready. */
  ghost predicate AllReady(g: Graph, evals: map<Node, Outcome>, done: set<Node>, level: seq<Node>) {
    && (forall v :: v in level ==> v in evals && v !in done)
    && (forall v {:trigger Ready(g, evals, done, v)} :: v in level ==> Ready(g, evals, done, v))
  }

  lemma StillReady(g: Graph, evals: map<Node, Outcome>, done: set<Node>, level: seq<Node>, more: set<Node>, v: Node)
    requires AllReady(g, evals, done, level) && v in level && done <= more
    ensures Ready(g, evals, more, v)
  {
    assert Ready(g, evals, done, v);
  }

  lemma LevelReady(g: Graph, rank: map<Node, nat>, level: seq<Node>, k: nat)
    requires Ordered(g, rank) && forall v :: v in level ==> v in rank && rank[v] == k
    ensures AllReady(g, Evaluation(g, rank), Below(rank, k), level)
  {
    forall v | v in level ensures Ready(g, Evaluation(g, rank), Below(rank, k), v) {
      assert FedFromBelow(g, rank, v);
    }
  }

  lemma NothingStored(evals: map<Node, Outcome>)
    ensures StoredExactly(evals, {}, map[])
  {
    forall u ensures StoredAt(evals, {}, map[], u) {
    }
  }

  lemma StoredNext(evals: map<Node, Outcome>, done: set<Node>, outputs: map<Node, Value>, v: Node)
    requires StoredExactly(evals, done, outputs) && v in evals && v !in done
    ensures StoredExactly(evals, done + {v}, if Stored(evals[v]) then outputs[v := evals[v].output] else outputs)
  {
    var next := if Stored(evals[v]) then outputs[v := evals[v].output] else outputs;
    forall u ensures StoredAt(evals, done + {v}, next, u) {
      assert StoredAt(evals, done, outputs, u);
    }
  }

  /** `evals` is the graph's evaluation under some ranking. */
  ghost predicate Evaluates(g: Graph, rank: map<Node, nat>, evals: map<Node, Outcome>) {
    Ordered(g, rank) && evals == Evaluation(g, rank)
  }

  lemma ReadyRuns(g: Graph, rank: map<Node, nat>, evals: map<Node, Outcome>, done: set<Node>, outputs: map<Node, Value>,
                  v: Node)
    requires Evaluates(g, rank, evals) && StoredExactly(evals, done, outputs) && Ready(g, evals, done, v)
    ensures g.run(v, InputsOf(g, v, outputs)) == evals[v]
  {
    forall u | u in Feeds(g.edges, v)
      ensures (u in outputs <==> u in OutputsOf(evals)) && (u in outputs ==> outputs[u] == OutputsOf(evals)[u])
    {
      assert StoredAt(evals, done, outputs, u);
    }
    NodeStep(g, rank, outputs, v);
  }

  predicate AllCompleted(evals: map<Node, Outcome>, nodes: seq<Node>) {
    forall v :: v in nodes ==> v in evals && evals[v].Completed?
  }

  /** The first failing node of the level, if any node fails. */
  predicate FirstFailure(evals: map<Node, Outcome>, level: seq<Node>, failed: Option<Node>) {
    match failed
    case None => AllCompleted(evals, level)
    case Some(f) =>
      exists n :: 0 <= n < |level| && level[n] == f && f in evals && evals[f].Failed? && AllCompleted(evals, level[..n])
  }

  /** One node of a level that runs in parallel. */
  datatype Task = Waiting | Running(inputs: Inputs) | Ended(outcome: Outcome)

  function EndedNodes(tasks: map<Node, Task>): set<Node> {
    set v | v in tasks && tasks[v].Ended?
  }

  function NotStarted(tasks: map<Node, Task>): set<Node> {
    set v | v in tasks && tasks[v].Waiting?
  }

  function ToEnd(tasks: map<Node, Task>): set<Node> {
    set v | v in tasks && !tasks[v].Ended?
  }

  /** Started nodes hold inputs that give their evaluation; ended ones have it. */
  predicate TaskOk(g: Graph, evals: map<Node, Outcome>, tasks: map<Node, Task>, v: Node)
    requires v in tasks
  {
    && v in evals
    && (tasks[v].Running? ==> g.run(v, tasks[v].inputs) == evals[v])
    && (tasks[v].Ended? ==> tasks[v].outcome == evals[v])
  }

  predicate TasksOk(g: Graph, evals: map<Node, Outcome>, level: seq<Node>, tasks: map<Node, Task>) {
    && tasks.Keys == Elements(level)
    && forall v {:trigger TaskOk(g, evals, tasks, v)} :: v in tasks ==> TaskOk(g, evals, tasks, v)
  }

  lemma TaskAdvanced(g: Graph, evals: map<Node, Outcome>, level: seq<Node>, tasks: map<Node, Task>, v: Node, task: Task)
    requires TasksOk(g, evals, level, tasks) && v in tasks && !tasks[v].Ended?
    requires TaskOk(g, evals, tasks[v := task], v) && !task.Waiting? && (tasks[v].Running? ==> task.Ended?)
    ensures var tasks' := tasks[v := task];
            && TasksOk(g, evals, level, tasks')
            && EndedNodes(tasks') == EndedNodes(tasks) + (if task.Ended? then {v} else {})
            && (ToEnd(tasks') < ToEnd(tasks) || (ToEnd(tasks') == ToEnd(tasks)
                && NotStarted(tasks') < NotStarted(tasks)))
  {
    var tasks' := tasks[v := task];
    forall u | u in tasks' ensures TaskOk(g, evals, tasks', u) {
      if u != v {
        assert TaskOk(g, evals, tasks, u);
      }
    }
    assert v in ToEnd(tasks);
    if task.Ended? {
      assert v !in ToEnd(tasks');
    } else {
      assert ToEnd(tasks') == ToEnd(tasks);
      assert v in NotStarted(tasks) && v !in NotStarted(tasks');
    }
  }

  class DagExecutor {
    const graph: Graph
    var outputs: map<Node, Value>
    var journal: Journal
    ghost const before: Journal

    constructor (graph: Graph, journal: Journal)
      ensures this.graph == graph && before == journal && Fresh()
    {
      this.graph := graph;
      outputs, this.journal, before := map[], journal, journal;
    }

    ghost predicate Fresh()
      reads this
    {
      outputs == map[] && journal == before
    }

    /** The nodes done so far are stored and journaled with their evaluations. */
    ghost predicate Progress(evals: map<Node, Outcome>, done: set<Node>)
      reads this
    {
      StoredExactly(evals, done, outputs) && Journaled(before, evals, done, journal)
    }

    method CollectInputs(v: Node) returns (inputs: Inputs)
      ensures inputs == Collected(graph.edges, v, outputs) && LastEdgesWin(graph.edges, v, outputs, inputs)
    {
      inputs := map[];
      for e := 0 to |graph.edges|
        invariant inputs == Collected(graph.edges[..e], v, outputs)
      {
        var edge := graph.edges[e];
        assert graph.edges[..e + 1][..e] == graph.edges[..e];
        var source := DataSource(edge);
        if DataTarget(edge) == Some(v) && source.Some? && source.value in outputs {
          inputs := inputs[TargetPort(edge) := AtPort(outputs[source.value], SourcePort(edge))];
        }
      }
      assert graph.edges[..|graph.edges|] == graph.edges;
      CollectedMeans(graph.edges, v, outputs);
    }

    method PrepareInputs(v: Node) returns (inputs: Inputs)
      ensures inputs == InputsOf(graph, v, outputs) && InputsAre(graph, v, outputs, inputs)
    {
      inputs := CollectInputs(v);
      inputs := WithPayload(graph, v, inputs);
      InputsMean(graph, v, outputs);
    }

    /** What a failed run leaves: every executed node is journaled, and the completed ones are stored. */
    ghost predicate ReachedLevel(evals: map<Node, Outcome>, done: set<Node>)
      reads this
    {
      StoredUpTo(evals, done, outputs) && Journaled(before, evals, done, journal)
    }

    ghost predicate ReachedNode(evals: map<Node, Outcome>, done: set<Node>, level: seq<Node>, n: nat)
      reads this
    {
      n < |level| && ReachedLevel(evals, done + Elements(level[..n + 1]))
    }

    /** Collects a ready node's inputs; they make it compute its evaluation. */
    method Start(v: Node, ghost rank: map<Node, nat>, ghost evals: map<Node, Outcome>, ghost done: set<Node>)
      returns (inputs: Inputs)
      requires Evaluates(graph, rank, evals) && StoredExactly(evals, done, outputs) && Ready(graph, evals, done, v)
      ensures graph.run(v, inputs) == evals[v]
    {
      inputs := PrepareInputs(v);
      ReadyRuns(graph, rank, evals, done, outputs, v);
    }

    /** Runs a node on its inputs, stores a completed node's output unless that is empty, and journals it. */
    method Finish(v: Node, inputs: Inputs, ghost evals: map<Node, Outcome>, ghost done: set<Node>)
      returns (outcome: Outcome)
      requires Progress(evals, done) && v in evals && v !in done && graph.run(v, inputs) == evals[v]
      modifies this
      ensures outcome == evals[v] && Progress(evals, done + {v})
    {
      outcome := graph.run(v, inputs);
      StoredNext(evals, done, outputs, v);
      JournaledNext(before, evals, done, journal, v);
      if Stored(outcome) {
        outputs := outputs[v := outcome.output];
      }
      journal := Saved(journal, v, outcome);
    }

    /** A failed node's output is stored all the same when its level runs sequentially. */
    method KeepFailedOutput(v: Node, outcome: Outcome, ghost evals: map<Node, Outcome>, ghost done: set<Node>)
      requires Progress(evals, done) && v in done && v in evals && outcome == evals[v]
      modifies this
      ensures ReachedLevel(evals, done)
      ensures Truthy(outcome.output) ==> v in outputs
    {
      StoredIsUpTo(evals, done, outputs);
      if Truthy(outcome.output) {
        outputs := outputs[v := outcome.output];
      }
    }

    /**
     Runs the level's nodes one after another and stops at the first failure,
     whose output it stores all the same.
     */
    method ExecuteLevelSequential(level: seq<Node>, ghost rank: map<Node, nat>, ghost evals: map<Node, Outcome>,
                                  ghost done: set<Node>)
      returns (failed: Option<Node>)
      requires Evaluates(graph, rank, evals) && Progress(evals, done)
      requires Distinct(level) && AllReady(graph, evals, done, level)
      modifies this
      ensures failed.None? ==> Progress(evals, done + Elements(level))
      ensures failed.Some? ==> exists n: nat :: ReachedNode(evals, done, level, n)
      ensures FirstFailure(evals, level, failed)
    {
      ghost var sofar := done;
      for n := 0 to |level|
        invariant sofar == done + Elements(level[..n]) && Progress(evals, sofar)
        invariant AllCompleted(evals, level[..n])
      {
        StillReady(graph, evals, done, level, sofar, level[n]);
        var inputs := Start(level[n], rank, evals, sofar);
        var outcome := Finish(level[n], inputs, evals, sofar);
        assert level[..n + 1] == level[..n] + [level[n]];
        sofar := sofar + {level[n]};
        if outcome.Failed? {
          KeepFailedOutput(level[n], outcome, evals, sofar);
          assert sofar == done + Elements(level[..n + 1]) && ReachedNode(evals, done, level, n);
          return Some(level[n]);
        }
      }
      assert level[..|level|] == level;
      failed := None;
    }

    /** One node of the level starts, or finishes. */
    method Advance(v: Node, tasks: map<Node, Task>, ghost level: seq<Node>, ghost rank: map<Node, nat>,
                   ghost evals: map<Node, Outcome>, ghost done: set<Node>)
      returns (tasks': map<Node, Task>)
      requires Evaluates(graph, rank, evals) && AllReady(graph, evals, done, level)
      requires TasksOk(graph, evals, level, tasks) && Progress(evals, done + EndedNodes(tasks))
      requires v in tasks && !tasks[v].Ended?
      modifies this
      ensures TasksOk(graph, evals, level, tasks') && Progress(evals, done + EndedNodes(tasks'))
      ensures ToEnd(tasks') < ToEnd(tasks) || (ToEnd(tasks') == ToEnd(tasks) && NotStarted(tasks') < NotStarted(tasks))
    {
      assert TaskOk(graph, evals, tasks, v);
      ghost var sofar := done + EndedNodes(tasks);
      if tasks[v].Waiting? {
        StillReady(graph, evals, done, level, sofar, v);
        var inputs := Start(v, rank, evals, sofar);
        tasks' := tasks[v := Running(inputs)];
      } else {
        var outcome := Finish(v, tasks[v].inputs, evals, sofar);
        tasks' := tasks[v := Ended(outcome)];
      }
      TaskAdvanced(graph, evals, level, tasks, v, tasks'[v]);
      assert done + EndedNodes(tasks') == if tasks[v].Waiting? then sofar else sofar + {v};
    }

    /**
     Starts and finishes the level's nodes in any interleaving. A started node
     holds the inputs it collected then, while others store their outputs.
     */
    method Gather(level: seq<Node>, ghost rank: map<Node, nat>, ghost evals: map<Node, Outcome>, ghost done: set<Node>)
      returns (results: map<Node, Outcome>)
      requires Evaluates(graph, rank, evals) && Progress(evals, done) && AllReady(graph, evals, done, level)
      modifies this
      ensures Progress(evals, done + Elements(level))
      ensures results.Keys == Elements(level) && forall v :: v in results ==> v in evals && results[v] == evals[v]
    {
      var tasks := map v | v in level :: Waiting;
      assert EndedNodes(tasks) == {} && done + {} == done;
      while exists v :: v in tasks && !tasks[v].Ended?
        invariant TasksOk(graph, evals, level, tasks) && Progress(evals, done + EndedNodes(tasks))
        decreases ToEnd(tasks), NotStarted(tasks)
      {
        var v :| v in tasks && !tasks[v].Ended?;
        tasks := Advance(v, tasks, level, rank, evals, done);
      }
      assert EndedNodes(tasks) == Elements(level);
      results := map v | v in tasks :: tasks[v].outcome;
      forall v | v in results ensures v in evals && results[v] == evals[v] {
        assert TaskOk(graph, evals, tasks, v);
      }
    }

    /** Runs the whole level in parallel and then looks for a failure, in level order. */
    method ExecuteLevelParallel(level: seq<Node>, ghost rank: map<Node, nat>, ghost evals: map<Node, Outcome>,
                                ghost done: set<Node>)
      returns (failed: Option<Node>)
      requires Evaluates(graph, rank, evals) && Progress(evals, done) && AllReady(graph, evals, done, level)
      modifies this
      ensures Progress(evals, done + Elements(level))
      ensures FirstFailure(evals, level, failed)
    {
      var results := Gather(level, rank, evals, done);
      for n := 0 to |level|
        invariant AllCompleted(evals, level[..n])
      {
        assert level[..n + 1] == level[..n] + [level[n]];
        assert level[n] in Elements(level);
        if results[level[n]].Failed? {
          return Some(level[n]);
        }
      }
      assert level[..|level|] == level;
      failed := None;
    }

    /**
     Runs one level, in parallel or not. A pause or cancellation seen after a
     parallel level hides a failure in it.
     */
    method ExecuteLevel(level: seq<Node>, stoppedAfter: bool, ghost rank: map<Node, nat>,
                        ghost evals: map<Node, Outcome>, ghost done: set<Node>)
      returns (failed: Option<Node>)
      requires Evaluates(graph, rank, evals) && Progress(evals, done)
      requires Distinct(level) && AllReady(graph, evals, done, level)
      modifies this
      ensures failed.None? ==> Progress(evals, done + Elements(level))
      ensures failed.None? && !stoppedAfter ==> AllCompleted(evals, level)
      ensures failed.Some? ==> ReachedLevel(evals, done + Elements(level)) && FirstFailure(evals, level, failed)
    {
      if |level| >= PARALLEL_THRESHOLD {
        failed := ExecuteLevelParallel(level, rank, evals, done);
        StoredIsUpTo(evals, done + Elements(level), outputs);
        if stoppedAfter {
          failed := None;
        }
      } else {
        failed := ExecuteLevelSequential(level, rank, evals, done);
        if failed.Some? {
          ghost var n: nat :| ReachedNode(evals, done, level, n);
          assert level[..n + 1] == level;
        }
      }
    }

    lemma FreshProgress(evals: map<Node, Outcome>)
      requires Fresh()
      ensures Progress(evals, {})
    {
      NothingStored(evals);
      NothingJournaled(journal, evals);
    }

    lemma PlannedLevel(levels: seq<seq<Node>>, rank: map<Node, nat>, evals: map<Node, Outcome>, k: nat)
      requires Evaluates(graph, rank, evals) && LevelsRank(levels, rank) && k < |levels|
      ensures Distinct(levels[k]) && AllReady(graph, evals, Below(rank, k), levels[k])
      ensures Below(rank, k) + Elements(levels[k]) == Below(rank, k + 1)
      ensures CompletesBelow(rank, evals, k) && AllCompleted(evals, levels[k]) ==> CompletesBelow(rank, evals, k + 1)
    {
      LevelReady(graph, rank, levels[k], k);
      LevelDone(levels, rank, k);
    }

    lemma LevelFailed(levels: seq<seq<Node>>, stopped: nat -> bool, rank: map<Node, nat>, evals: map<Node, Outcome>,
                      k: nat, failed: Node)
      requires LevelsRank(levels, rank) && evals.Keys == rank.Keys && k < |levels|
      requires CompletesBelow(rank, evals, k) && ReachedLevel(evals, Below(rank, k + 1))
      requires FirstFailure(evals, levels[k], Some(failed))
      ensures Outcomes(rank, evals, stopped, FailedAt(failed))
    {
    }

    lemma LevelsThrough(levels: seq<seq<Node>>, stopped: nat -> bool, rank: map<Node, nat>, evals: map<Node, Outcome>,
                        k: nat)
      requires LevelsRank(levels, rank) && evals.Keys == rank.Keys && k <= |levels| && (k == |levels| || stopped(k))
      requires Progress(evals, Below(rank, k)) && (0 < k ==> CompletesBelow(rank, evals, k - 1))
      requires !stopped(k) ==> CompletesBelow(rank, evals, k)
      ensures Outcomes(rank, evals, stopped, if stopped(k) then StoppedBefore(k) else Finished)
    {
      StoredOutputs(evals, Below(rank, k), outputs);
      if k == |levels| {
        assert Below(rank, k) == rank.Keys;
      }
    }

    /**
     Executes every level in turn; a failure ends the run after its level.
     `stopped(k)` is what the run's status shows once `k` levels are through.
     */
    method ExecuteLevels(levels: seq<seq<Node>>, stopped: nat -> bool, ghost rank: map<Node, nat>,
                         ghost evals: map<Node, Outcome>)
      returns (result: RunResult)
      requires Evaluates(graph, rank, evals) && Fresh() && LevelsRank(levels, rank)
      modifies this
      ensures !result.InvalidDag? && Outcomes(rank, evals, stopped, result)
    {
      FreshProgress(evals);
      assert Below(rank, 0) == {};
      var k := 0;
      while k < |levels| && !stopped(k)
        invariant k <= |levels| && (0 < k ==> CompletesBelow(rank, evals, k - 1))
        invariant Progress(evals, Below(rank, k))
        invariant !stopped(k) ==> CompletesBelow(rank, evals, k)
      {
        PlannedLevel(levels, rank, evals, k);
        var failed := ExecuteLevel(levels[k], stopped(k + 1), rank, evals, Below(rank, k));
        if failed.Some? {
          LevelFailed(levels, stopped, rank, evals, k, failed.value);
          return FailedAt(failed.value);
        }
        k := k + 1;
      }
      LevelsThrough(levels, stopped, rank, evals, k);
      result := if stopped(k) then StoppedBefore(k) else Finished;
    }

    /** What each result of a run means for the outputs it holds and the journal it leaves. */
    ghost predicate Outcomes(rank: map<Node, nat>, evals: map<Node, Outcome>, stopped: nat -> bool, result: RunResult)
      reads this
    {
      match result
      case Finished =>
        && outputs == OutputsOf(evals) && Journaled(before, evals, rank.Keys, journal)
        && forall v :: v in rank ==> v in evals && evals[v].Completed?
      case FailedAt(node) =>
        && node in rank && node in evals && evals[node].Failed? && CompletesBelow(rank, evals, rank[node])
        && ReachedLevel(evals, Below(rank, rank[node] + 1))
      case StoppedBefore(k) =>
        && stopped(k) && (0 < k ==> CompletesBelow(rank, evals, k - 1))
        && outputs == OutputsOf(Restricted(evals, Below(rank, k)))
        && Journaled(before, evals, Below(rank, k), journal)
      case InvalidDag(_) => Fresh()
    }

    /** The execution levels of a valid graph, with the evaluation they rank. */
    method PlanLevels() returns (levels: seq<seq<Node>>, ghost rank: map<Node, nat>, ghost evals: map<Node, Outcome>)
      requires Distinct(graph.nodes) && ValidDag(graph.nodes, graph.edges)
      ensures LevelsRank(levels, rank) && Ranks(graph, rank) && Evaluates(graph, rank, evals)
    {
      var sorted := TopologicalSort(graph.nodes, graph.edges);
      levels := sorted.value;
      LevelsOrder(graph, levels);
      rank := RankOf(graph.nodes, levels);
      evals := Evaluation(graph, rank);
    }

    /**
     Validates, levels and executes the graph. A finished run stores exactly the
     outputs of the recursive evaluation; a failed one reports a node whose
     evaluation fails while everything below its level completes, and leaves the
     journal with exactly the evaluations up to that level; one stopped by a pause
     or cancellation has stored exactly the levels it went through.
     */
    method Execute(stopped: nat -> bool)
      returns (result: RunResult, ghost rank: map<Node, nat>, ghost evals: map<Node, Outcome>)
      requires Distinct(graph.nodes) && Fresh()
      modifies this
      ensures result.InvalidDag? <==> !ValidDag(graph.nodes, graph.edges)
      ensures !result.InvalidDag? ==> Ranks(graph, rank) && Evaluates(graph, rank, evals)
      ensures Outcomes(rank, evals, stopped, result)
    {
      rank, evals := map[], map[];
      var errors := ValidateDag(graph.nodes, graph.edges);
      if errors != [] {
        result := InvalidDag(errors);
        return;
      }
      var levels;
      levels, rank, evals := PlanLevels();
      result := ExecuteLevels(levels, stopped, rank, evals);
    }
  }

  /** The levels list exactly the ranked nodes, each once, at its rank. */
  ghost predicate LevelsRank(levels: seq<seq<Node>>, rank: map<Node, nat>) {
    && (forall k: nat :: k < |levels| ==> Distinct(levels[k]))
    && (forall v :: v in rank ==> rank[v] < |levels| && v in levels[rank[v]])
    && (forall k: nat, v :: k < |levels| && v in levels[k] ==> v in rank && rank[v] == k)
  }

  lemma LevelDone(levels: seq<seq<Node>>, rank: map<Node, nat>, k: nat)
    requires LevelsRank(levels, rank) && k < |levels|
    ensures Below(rank, k) + Elements(levels[k]) == Below(rank, k + 1)
    ensures forall v :: v in rank && rank[v] < k + 1 ==> rank[v] < k || v in levels[k]
  {
  }
}
