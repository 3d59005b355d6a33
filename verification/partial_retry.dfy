/** Retrying a failed run: restored checkpoints, the closure of the failed nodes, and when that equals a full run. */
module PartialRetry {
  import opened Wrappers
  import opened Dag
  import opened Scheduler
  import opened Dataflow
  import opened Journals
  import opened Executor

  /** `restored` holds each node's newest usable checkpoint. */
  ghost predicate RestoredFrom(checkpoints: seq<Checkpoint>, restored: map<Node, Value>) {
    forall v :: Newest(checkpoints, v) == Held(restored, v)
  }

  function Held(outputs: map<Node, Value>, v: Node): Option<Value> {
    if v in outputs then Some(outputs[v]) else None
  }

  method RestoreOutputs(checkpoints: seq<Checkpoint>) returns (restored: map<Node, Value>)
    ensures RestoredFrom(checkpoints, restored)
  {
    restored := map[];
    for c := 0 to |checkpoints|
      invariant forall v :: Newest(checkpoints, v) ==
                  if v in restored then Some(restored[v]) else Newest(checkpoints[c..], v)
    {
      var checkpoint := checkpoints[c];
      assert checkpoints[c..][0] == checkpoint && checkpoints[c..][1..] == checkpoints[c + 1..];
      if Usable(checkpoint) && checkpoint.node !in restored {
        restored := restored[checkpoint.node := checkpoint.output];
      }
    }
  }

  ghost predicate NoneFailed(records: seq<NodeRecord>) {
    forall v :: !LatestFailed(records, v)
  }

  lemma NoneFailedIff(records: seq<NodeRecord>, failed: set<Node>)
    requires forall v :: v in failed <==> LatestFailed(records, v)
    ensures failed == {} <==> NoneFailed(records)
  {
    if f :| f in failed {
      assert LatestFailed(records, f);
    } else {
      forall v ensures !LatestFailed(records, v) {
        assert v !in failed;
      }
    }
  }

  method FailedNodes(records: seq<NodeRecord>) returns (failed: set<Node>)
    ensures forall v :: v in failed <==> LatestFailed(records, v)
  {
    var latest: set<Node> := {};
    failed := {};
    for r := 0 to |records|
      invariant failed <= latest
      invariant forall v ::
                  LatestFailed(records, v) == if v in latest then v in failed else LatestFailed(records[r..], v)
    {
      assert records[r..][0] == records[r] && records[r..][1..] == records[r + 1..];
      if records[r].node !in latest {
        latest := latest + {records[r].node};
        if records[r].failed {
          failed := failed + {records[r].node};
        }
      }
    }
  }

  /** The arcs a retry follows: the data ends, a missing one read as the empty name. */
  function RetryArcs(edges: seq<Edge>): seq<Arc> {
    if edges == [] then []
    else
      var last := edges[|edges| - 1];
      RetryArcs(edges[..|edges| - 1]) +
      if NameOf(DataTarget(last)) != "" then [Arc(NameOf(DataSource(last)), NameOf(DataTarget(last)))] else []
  }

  function NameOf(end: Option<Node>): Node {
    if end.Some? then end.value else ""
  }

  /** Some path leads from a failed node to `v`. */
  ghost predicate ReachedFrom(arcs: seq<Arc>, failed: set<Node>, v: Node) {
    exists p :: IsPath(arcs, p) && p[0] in failed && p[|p| - 1] == v
  }

  lemma ReachedFromOne(arcs: seq<Arc>, failed: set<Node>, v: Node)
    ensures ReachedFrom(arcs, failed, v) <==> exists f :: f in failed && ReachedFrom(arcs, {f}, v)
  {
    if ReachedFrom(arcs, failed, v) {
      var p :| IsPath(arcs, p) && p[0] in failed && p[|p| - 1] == v;
      assert ReachedFrom(arcs, {p[0]}, v);
    }
  }

  function TargetsOf(arcs: seq<Arc>, u: Node): set<Node> {
    set a | a in arcs && a.source == u :: a.target
  }

  /** Everything in the closure is reachable from a failed node. */
  ghost predicate Justified(arcs: seq<Arc>, failed: set<Node>, closure: set<Node>) {
    forall v {:trigger ReachedFrom(arcs, failed, v)} :: v in closure ==> ReachedFrom(arcs, failed, v)
  }

  /** Only the frontier's arcs can still lead out of the closure. */
  predicate ClosedBeyond(arcs: seq<Arc>, closure: set<Node>, frontier: set<Node>) {
    frontier <= closure && forall a :: a in arcs && a.source in closure && a.source !in frontier ==> a.target in closure
  }

  lemma JustifiedNext(arcs: seq<Arc>, failed: set<Node>, closure: set<Node>, u: Node)
    requires Justified(arcs, failed, closure) && u in closure
    ensures Justified(arcs, failed, closure + TargetsOf(arcs, u))
  {
    assert ReachedFrom(arcs, failed, u);
    forall v | v in closure + TargetsOf(arcs, u) ensures ReachedFrom(arcs, failed, v) {
      if v in TargetsOf(arcs, u) {
        ReachOn(arcs, failed, u, v);
      }
    }
  }

  lemma ClosedNext(arcs: seq<Arc>, closure: set<Node>, frontier: set<Node>, u: Node, added: set<Node>)
    requires ClosedBeyond(arcs, closure, frontier) && u in frontier && added == TargetsOf(arcs, u) - closure
    ensures closure + added == closure + TargetsOf(arcs, u)
    ensures ClosedBeyond(arcs, closure + added, frontier - {u} + added)
    ensures added <= Targets(arcs)
  {
    forall a | a in arcs && a.source == u ensures a.target in closure + added {
      assert a.target in TargetsOf(arcs, u);
    }
  }

  lemma ClosureExact(arcs: seq<Arc>, failed: set<Node>, closure: set<Node>)
    requires Justified(arcs, failed, closure) && ClosedBeyond(arcs, closure, {}) && failed <= closure
    ensures forall v :: v in closure <==> ReachedFrom(arcs, failed, v)
  {
    forall v ensures v in closure <==> ReachedFrom(arcs, failed, v) {
      if ReachedFrom(arcs, failed, v) {
        var p :| IsPath(arcs, p) && p[0] in failed && p[|p| - 1] == v;
        ClosedPath(arcs, closure, p);
      }
    }
  }

  lemma FailedJustified(arcs: seq<Arc>, failed: set<Node>)
    ensures Justified(arcs, failed, failed) && ClosedBeyond(arcs, failed, failed)
  {
    forall v | v in failed ensures ReachedFrom(arcs, failed, v) {
      assert IsPath(arcs, [v]);
    }
  }

  /** The worklist: everything reachable from the failed nodes, and nothing else. */
  method FailedClosure(edges: seq<Edge>, failed: set<Node>) returns (closure: set<Node>)
    ensures forall v :: v in closure <==> ReachedFrom(RetryArcs(edges), failed, v)
  {
    var downstream := Downstream(edges);
    ghost var arcs := RetryArcs(edges);
    closure := failed;
    var frontier := failed;
    FailedJustified(arcs, failed);
    while frontier != {}
      invariant failed <= closure <= failed + Targets(arcs)
      invariant Justified(arcs, failed, closure) && ClosedBeyond(arcs, closure, frontier)
      decreases failed + Targets(arcs) - closure, frontier
    {
      var source :| source in frontier;
      var targets := if source in downstream then downstream[source] else {};
      var added := targets - closure;
      JustifiedNext(arcs, failed, closure, source);
      ClosedNext(arcs, closure, frontier, source, added);
      closure, frontier := closure + added, frontier - {source} + added;
    }
    ClosureExact(arcs, failed, closure);
  }

  function Targets(arcs: seq<Arc>): set<Node> {
    set a | a in arcs :: a.target
  }

  lemma ReachOn(arcs: seq<Arc>, failed: set<Node>, u: Node, v: Node)
    requires ReachedFrom(arcs, failed, u) && v in TargetsOf(arcs, u)
    ensures ReachedFrom(arcs, failed, v)
  {
    var p :| IsPath(arcs, p) && p[0] in failed && p[|p| - 1] == u;
    var a :| a in arcs && a.source == u && a.target == v;
    assert a == Arc(u, v);
    JoinPaths(arcs, p, [v]);
    assert IsPath(arcs, p + [v]);
  }

  lemma {:induction false} ClosedPath(arcs: seq<Arc>, closure: set<Node>, p: seq<Node>)
    requires IsPath(arcs, p) && p[0] in closure
    requires forall a :: a in arcs && a.source in closure ==> a.target in closure
    ensures p[|p| - 1] in closure
  {
    if |p| > 1 {
      SubPath(arcs, p, 0, |p| - 1);
      assert p[0..|p| - 1] == p[..|p| - 1];
      ClosedPath(arcs, closure, p[..|p| - 1]);
      assert Linked(arcs, p, |p| - 2);
    }
  }

  method Downstream(edges: seq<Edge>) returns (downstream: map<Node, set<Node>>)
    ensures forall u :: (if u in downstream then downstream[u] else {}) == TargetsOf(RetryArcs(edges), u)
  {
    downstream := map[];
    for e := 0 to |edges|
      invariant forall u :: (if u in downstream then downstream[u] else {}) == TargetsOf(RetryArcs(edges[..e]), u)
    {
      assert edges[..e + 1][..e] == edges[..e];
      var source, target := NameOf(DataSource(edges[e])), NameOf(DataTarget(edges[e]));
      ghost var before := RetryArcs(edges[..e]);
      if target != "" {
        forall u
          ensures TargetsOf(before + [Arc(source, target)], u) ==
                  TargetsOf(before, u) + if u == source then {target} else {}
        {
          TargetsWith(before, Arc(source, target), u);
        }
        downstream := downstream[source := (if source in downstream then downstream[source] else {}) + {target}];
      } else {
        assert RetryArcs(edges[..e + 1]) == before;
      }
    }
    assert edges[..|edges|] == edges;
  }

  lemma TargetsWith(arcs: seq<Arc>, a: Arc, u: Node)
    ensures TargetsOf(arcs + [a], u) == TargetsOf(arcs, u) + if u == a.source then {a.target} else {}
  {
    assert a in arcs + [a];
    forall t | t in TargetsOf(arcs, u) ensures t in TargetsOf(arcs + [a], u) {
      var b :| b in arcs && b.source == u && b.target == t;
      assert b in arcs + [a];
    }
  }

  /** A retry without any failed node is a full run. */
  datatype RetryResult =
    | RetryCompleted | CycleFound | RetryFailed(node: Node) | RetryStopped(level: nat)
    | FullRun(result: RunResult)

  /** Two output maps agree at a node. */
  predicate SameAt(a: map<Node, Value>, b: map<Node, Value>, u: Node) {
    (u in a <==> u in b) && (u in a ==> a[u] == b[u])
  }

  /**
   When a retry ends as a full run would: outside the closure the checkpoints
   are the full run's outputs, and no closure node that has a checkpoint
   evaluates to an empty output (which would leave the old one in place).
   */
  ghost predicate RetryMatches(restored: map<Node, Value>, closure: set<Node>, evals: map<Node, Outcome>) {
    && (forall u {:trigger SameAt(restored, OutputsOf(evals), u)} ::
          u !in closure && (u in restored || u in evals) ==> SameAt(restored, OutputsOf(evals), u))
    && (forall u :: u in closure && u in restored ==> u in evals && Stored(evals[u]))
  }

  /** How far a retry has come: `done` nodes were executed again. */
  ghost predicate Retried(restored: map<Node, Value>, closure: set<Node>, evals: map<Node, Outcome>, done: set<Node>,
                          outputs: map<Node, Value>) {
    forall u {:trigger RetriedAt(restored, closure, evals, done, outputs, u)} ::
      RetriedAt(restored, closure, evals, done, outputs, u)
  }

  ghost predicate RetriedAt(restored: map<Node, Value>, closure: set<Node>, evals: map<Node, Outcome>, done: set<Node>,
                            outputs: map<Node, Value>, u: Node) {
    && (u in restored ==> u in outputs)
    && (u !in done ==> SameAt(outputs, restored, u))
    && (RetryMatches(restored, closure, evals) && (u !in closure || u in done) ==> SameAt(outputs, OutputsOf(evals), u))
  }

  /** A closure node whose feeding closure nodes were all executed again computes its evaluation. */
  lemma RetryStep(g: Graph, rank: map<Node, nat>, evals: map<Node, Outcome>, restored: map<Node, Value>,
                  closure: set<Node>, done: set<Node>, outputs: map<Node, Value>, v: Node)
    requires Evaluates(g, rank, evals) && Retried(restored, closure, evals, done, outputs)
    requires RetryMatches(restored, closure, evals) && v in evals
    requires forall u :: u in Feeds(g.edges, v) && u in closure && u in evals ==> u in done
    ensures g.run(v, InputsOf(g, v, outputs)) == evals[v]
  {
    forall u | u in Feeds(g.edges, v)
      ensures (u in outputs <==> u in OutputsOf(evals)) && (u in outputs ==> outputs[u] == OutputsOf(evals)[u])
    {
      assert RetriedAt(restored, closure, evals, done, outputs, u);
      if u in closure && u !in evals {
        assert SameAt(outputs, restored, u) || u in done;
      }
    }
    NodeStep(g, rank, outputs, v);
  }

  lemma RetriedNext(restored: map<Node, Value>, closure: set<Node>, evals: map<Node, Outcome>, done: set<Node>,
                    outputs: map<Node, Value>, v: Node, o: Outcome)
    requires Retried(restored, closure, evals, done, outputs) && v in closure && v in evals && v !in done
    requires RetryMatches(restored, closure, evals) ==> o == evals[v]
    ensures Retried(restored, closure, evals, done + {v}, if Stored(o) then outputs[v := o.output] else outputs)
  {
    var next := if Stored(o) then outputs[v := o.output] else outputs;
    forall u ensures RetriedAt(restored, closure, evals, done + {v}, next, u) {
      assert RetriedAt(restored, closure, evals, done, outputs, u);
    }
  }

  lemma RetryStart(restored: map<Node, Value>, closure: set<Node>, evals: map<Node, Outcome>)
    ensures Retried(restored, closure, evals, {}, restored)
  {
    forall u ensures RetriedAt(restored, closure, evals, {}, restored, u) {
      if RetryMatches(restored, closure, evals) && u !in closure && (u in restored || u in evals) {
        assert SameAt(restored, OutputsOf(evals), u);
      }
    }
  }

  /** The retry ends with the outputs of a full run exactly when the checkpoints allow it. */
  lemma RetryEnds(restored: map<Node, Value>, closure: set<Node>, evals: map<Node, Outcome>, outputs: map<Node, Value>)
    requires Retried(restored, closure, evals, closure * evals.Keys, outputs)
    ensures outputs == OutputsOf(evals) <==> RetryMatches(restored, closure, evals)
  {
    forall u ensures RetriedAt(restored, closure, evals, closure * evals.Keys, outputs, u) {
    }
    if outputs == OutputsOf(evals) {
      forall u | u !in closure && (u in restored || u in evals) ensures SameAt(restored, OutputsOf(evals), u) {
        assert RetriedAt(restored, closure, evals, closure * evals.Keys, outputs, u);
      }
      forall u | u in closure && u in restored ensures u in evals && Stored(evals[u]) {
        assert RetriedAt(restored, closure, evals, closure * evals.Keys, outputs, u);
      }
    }
    if RetryMatches(restored, closure, evals) {
      forall u ensures SameAt(outputs, OutputsOf(evals), u) {
        assert RetriedAt(restored, closure, evals, closure * evals.Keys, outputs, u);
      }
      SameEverywhere(outputs, OutputsOf(evals));
    }
  }

  lemma SameEverywhere(a: map<Node, Value>, b: map<Node, Value>)
    requires forall u {:trigger SameAt(a, b, u)} :: SameAt(a, b, u)
    ensures a == b
  {
    forall u ensures (u in a <==> u in b) && (u in a ==> a[u] == b[u]) {
      assert SameAt(a, b, u);
    }
  }

  // ------------------------------------------------- what the journal must hold

  /** The nodes of `g` may fail where those of `good` do not, and otherwise do the same. */
  ghost predicate Transient(g: Graph, good: Graph) {
    && g == good.(run := g.run)
    && forall v, inputs :: FailsOrDoes(g, good, v, inputs)
  }

  predicate FailsOrDoes(g: Graph, good: Graph, v: Node, inputs: Inputs) {
    g.run(v, inputs).Failed? || g.run(v, inputs) == good.run(v, inputs)
  }

  /** The checkpoint of a node that is not failed is its evaluation. */
  ghost predicate Sound(j: Journal, evals: map<Node, Outcome>) {
    forall v {:trigger SoundAt(j, evals, v)} :: SoundAt(j, evals, v)
  }

  predicate SoundAt(j: Journal, evals: map<Node, Outcome>, v: Node) {
    Newest(j.checkpoints, v).Some? && !LatestFailed(j.records, v) ==>
      v in evals && Stored(evals[v]) && Newest(j.checkpoints, v).value == evals[v].output
  }

  /** What a retry executes again: whatever some failed node reaches. */
  ghost predicate Rerun(edges: seq<Edge>, j: Journal, v: Node) {
    exists f :: LatestFailed(j.records, f) && ReachedFrom(RetryArcs(edges), {f}, v)
  }

  ghost predicate IsClosure(edges: seq<Edge>, j: Journal, closure: set<Node>) {
    forall v :: v in closure <==> Rerun(edges, j, v)
  }

  ghost predicate HasFailed(j: Journal, closure: set<Node>) {
    forall v :: LatestFailed(j.records, v) ==> v in closure
  }

  lemma ClosureIsRerun(edges: seq<Edge>, j: Journal, failed: set<Node>, closure: set<Node>)
    requires forall v :: v in failed <==> LatestFailed(j.records, v)
    requires forall v :: v in closure <==> ReachedFrom(RetryArcs(edges), failed, v)
    ensures IsClosure(edges, j, closure) && HasFailed(j, closure)
  {
    forall v ensures v in closure <==> Rerun(edges, j, v) {
      ReachedFromOne(RetryArcs(edges), failed, v);
    }
    forall v | LatestFailed(j.records, v) ensures v in closure {
      FailedRerun(edges, j, v);
    }
  }

  /** Every node that is not executed again, and has something to output, has a checkpoint. */
  ghost predicate Gapless(edges: seq<Edge>, j: Journal, evals: map<Node, Outcome>) {
    forall u :: u in evals && !Rerun(edges, j, u) && Stored(evals[u]) ==> Newest(j.checkpoints, u).Some?
  }

  /** A failed node with a checkpoint, which is the output it failed with, has something to output instead. */
  ghost predicate ErrorsReplaced(j: Journal, evals: map<Node, Outcome>) {
    forall u :: LatestFailed(j.records, u) && Newest(j.checkpoints, u).Some? ==> u in evals && Stored(evals[u])
  }

  lemma FailedRerun(edges: seq<Edge>, j: Journal, v: Node)
    requires LatestFailed(j.records, v)
    ensures Rerun(edges, j, v)
  {
    assert IsPath(RetryArcs(edges), [v]);
    assert ReachedFrom(RetryArcs(edges), {v}, v);
  }

  /** Over a sound journal a retry matches a full run exactly without gaps and without surviving error outputs. */
  lemma RetryMatchesIff(edges: seq<Edge>, j: Journal, restored: map<Node, Value>, closure: set<Node>,
                        evals: map<Node, Outcome>)
    requires RestoredFrom(j.checkpoints, restored) && IsClosure(edges, j, closure)
    ensures Sound(j, evals) ==>
              (RetryMatches(restored, closure, evals) <==> Gapless(edges, j, evals) && ErrorsReplaced(j, evals))
  {
    forall u | LatestFailed(j.records, u) ensures u in closure {
      FailedRerun(edges, j, u);
    }
    if RetryMatches(restored, closure, evals) {
      MatchIsGapless(edges, j, restored, closure, evals);
    }
    if Sound(j, evals) && Gapless(edges, j, evals) && ErrorsReplaced(j, evals) {
      GaplessMatches(edges, j, restored, closure, evals);
    }
  }

  lemma MatchIsGapless(edges: seq<Edge>, j: Journal, restored: map<Node, Value>, closure: set<Node>,
                       evals: map<Node, Outcome>)
    requires RestoredFrom(j.checkpoints, restored) && RetryMatches(restored, closure, evals)
    requires IsClosure(edges, j, closure) && HasFailed(j, closure)
    ensures Gapless(edges, j, evals) && ErrorsReplaced(j, evals)
  {
    forall u | u in evals && !Rerun(edges, j, u) && Stored(evals[u]) ensures Newest(j.checkpoints, u).Some? {
      assert SameAt(restored, OutputsOf(evals), u) && Newest(j.checkpoints, u) == Held(restored, u);
    }
    forall u | LatestFailed(j.records, u) && Newest(j.checkpoints, u).Some? ensures u in evals && Stored(evals[u]) {
      assert Newest(j.checkpoints, u) == Held(restored, u);
    }
  }

  lemma GaplessMatches(edges: seq<Edge>, j: Journal, restored: map<Node, Value>, closure: set<Node>,
                       evals: map<Node, Outcome>)
    requires RestoredFrom(j.checkpoints, restored) && Sound(j, evals)
    requires IsClosure(edges, j, closure) && HasFailed(j, closure)
    requires Gapless(edges, j, evals) && ErrorsReplaced(j, evals)
    ensures RetryMatches(restored, closure, evals)
  {
    forall u | u !in closure && (u in restored || u in evals) ensures SameAt(restored, OutputsOf(evals), u) {
      assert SoundAt(j, evals, u) && Newest(j.checkpoints, u) == Held(restored, u);
    }
    forall u | u in closure && u in restored ensures u in evals && Stored(evals[u]) {
      assert SoundAt(j, evals, u) && Newest(j.checkpoints, u) == Held(restored, u);
    }
  }

  /** What a retry adds to the journal: its outputs, one completion of each `done` node, and perhaps a failure. */
  ghost predicate Logged(before: Journal, after: Journal, outputs: map<Node, Value>, done: set<Node>,
                         failed: Option<Node>) {
    forall v {:trigger LoggedAt(before, after, outputs, done, failed, v)} ::
      LoggedAt(before, after, outputs, done, failed, v)
  }

  predicate LoggedAt(before: Journal, after: Journal, outputs: map<Node, Value>, done: set<Node>, failed: Option<Node>,
                     v: Node) {
    && Newest(after.checkpoints, v) == Held(outputs, v)
    && (LatestFailed(after.records, v) <==> failed == Some(v) || (v !in done && LatestFailed(before.records, v)))
    && Runs(after.records, v) == Runs(before.records, v) + if v in done || failed == Some(v) then 1 else 0
  }

  lemma LoggedStart(j: Journal, restored: map<Node, Value>)
    requires RestoredFrom(j.checkpoints, restored)
    ensures Logged(j, j, restored, {}, None)
  {
    forall v ensures LoggedAt(j, j, restored, {}, None, v) {
      assert Newest(j.checkpoints, v) == Held(restored, v);
    }
  }

  lemma LoggedNext(before: Journal, after: Journal, outputs: map<Node, Value>, done: set<Node>, v: Node, o: Outcome)
    requires Logged(before, after, outputs, done, None) && v !in done
    ensures o.Completed? ==> Logged(before, Saved(after, v, o), if Stored(o) then outputs[v := o.output] else outputs,
                                    done + {v}, None)
    ensures o.Failed? ==> Logged(before, Recorded(after, v, o), outputs, done, Some(v))
  {
    var next := if Stored(o) then outputs[v := o.output] else outputs;
    forall u ensures o.Completed? ==> LoggedAt(before, Saved(after, v, o), next, done + {v}, None, u) {
      assert LoggedAt(before, after, outputs, done, None, u);
      SavedAt(after, v, o, u);
    }
    forall u ensures o.Failed? ==> LoggedAt(before, Recorded(after, v, o), outputs, done, Some(v), u) {
      assert LoggedAt(before, after, outputs, done, None, u);
      RecordedAt(after, v, o, u);
    }
  }

  /** A retry that matches a full run leaves a sound journal, wherever it ends. */
  lemma RetryKeepsSound(before: Journal, after: Journal, restored: map<Node, Value>, closure: set<Node>,
                        evals: map<Node, Outcome>, done: set<Node>, outputs: map<Node, Value>, failed: Option<Node>)
    requires Sound(before, evals) && RestoredFrom(before.checkpoints, restored)
    requires HasFailed(before, closure)
    requires RetryMatches(restored, closure, evals) && Retried(restored, closure, evals, done, outputs)
    requires Logged(before, after, outputs, done, failed)
    ensures Sound(after, evals)
  {
    forall v ensures SoundAt(after, evals, v) {
      assert SoundAt(before, evals, v) && Newest(before.checkpoints, v) == Held(restored, v);
      assert RetriedAt(restored, closure, evals, done, outputs, v);
      assert LoggedAt(before, after, outputs, done, failed, v);
    }
  }

  class RetryExecutor {
    const executor: DagExecutor

    constructor (executor: DagExecutor)
      ensures this.executor == executor
    {
      this.executor := executor;
    }

    /** How far the retry has come: `done` nodes were executed again, all of them completed. */
    ghost predicate Progress(restored: map<Node, Value>, closure: set<Node>, evals: map<Node, Outcome>, done: set<Node>)
      reads this, executor
    {
      && RestoredFrom(executor.before.checkpoints, restored)
      && HasFailed(executor.before, closure)
      && Retried(restored, closure, evals, done, executor.outputs)
      && Logged(executor.before, executor.journal, executor.outputs, done, None)
    }

    /** Over a sound journal, a retry whose checkpoints match a full run leaves a sound journal. */
    ghost predicate StaysSound(restored: map<Node, Value>, closure: set<Node>, evals: map<Node, Outcome>)
      reads this, executor
    {
      Sound(executor.before, evals) && RetryMatches(restored, closure, evals) ==> Sound(executor.journal, evals)
    }

    lemma ProgressStaysSound(restored: map<Node, Value>, closure: set<Node>, evals: map<Node, Outcome>, done: set<Node>)
      requires Progress(restored, closure, evals, done)
      ensures StaysSound(restored, closure, evals)
    {
      if Sound(executor.before, evals) && RetryMatches(restored, closure, evals) {
        RetryKeepsSound(executor.before, executor.journal, restored, closure, evals, done, executor.outputs, None);
      }
    }

    /** The retry stopped at a closure node, which fails in a full run too when the checkpoints match one. */
    ghost predicate StoppedAt(good: Graph, restored: map<Node, Value>, closure: set<Node>, evals: map<Node, Outcome>,
                              v: Node)
      reads this, executor
    {
      && v in closure && v in evals
      && (exists done ::
            done <= closure && Logged(executor.before, executor.journal, executor.outputs, done, Some(v)))
      && (executor.graph == good && RetryMatches(restored, closure, evals) ==> evals[v].Failed?)
      && StaysSound(restored, closure, evals)
    }

    /**
     Runs one closure node again. Completed, it is stored and journaled, though
     an empty output leaves what was restored; failed, it is recorded only.
     */
    method Reexecute(v: Node, ghost good: Graph, ghost rank: map<Node, nat>, ghost evals: map<Node, Outcome>,
                     ghost restored: map<Node, Value>, ghost closure: set<Node>, ghost done: set<Node>)
      returns (completed: bool)
      requires Transient(executor.graph, good) && Evaluates(good, rank, evals)
      requires v in closure && v in evals && v !in done && done <= closure
      requires Progress(restored, closure, evals, done)
      requires forall u :: u in Feeds(good.edges, v) && u in closure && u in evals ==> u in done
      modifies executor
      ensures completed ==> Progress(restored, closure, evals, done + {v})
      ensures !completed ==> StoppedAt(good, restored, closure, evals, v)
    {
      var inputs := executor.PrepareInputs(v);
      var outcome := executor.graph.run(v, inputs);
      assert FailsOrDoes(executor.graph, good, v, inputs);
      if RetryMatches(restored, closure, evals) {
        RetryStep(good, rank, evals, restored, closure, done, executor.outputs, v);
      }
      LoggedNext(executor.before, executor.journal, executor.outputs, done, v, outcome);
      completed := outcome.Completed?;
      if completed {
        RetriedNext(restored, closure, evals, done, executor.outputs, v, outcome);
        if Stored(outcome) {
          executor.outputs := executor.outputs[v := outcome.output];
        }
        executor.journal := Saved(executor.journal, v, outcome);
      } else {
        executor.journal := Recorded(executor.journal, v, outcome);
        assert LoggedAt(executor.before, executor.journal, executor.outputs, done, Some(v), v);
        if Sound(executor.before, evals) && RetryMatches(restored, closure, evals) {
          RetryKeepsSound(executor.before, executor.journal, restored, closure, evals, done, executor.outputs,
                          Some(v));
        }
      }
    }

    /** The closure nodes of one level, in order, up to the first failure. */
    method ReexecuteLevel(level: seq<Node>, k: nat, closure: set<Node>, ghost good: Graph, ghost rank: map<Node, nat>,
                          ghost evals: map<Node, Outcome>, ghost restored: map<Node, Value>)
      returns (failed: Option<Node>)
      requires Transient(executor.graph, good) && Evaluates(good, rank, evals) && Distinct(level)
      requires forall v :: v in level ==> v in rank && rank[v] == k
      requires Progress(restored, closure, evals, closure * Below(rank, k))
      modifies executor
      ensures failed.None? ==> Progress(restored, closure, evals, closure * (Below(rank, k) + Elements(level)))
      ensures failed.Some? ==> StoppedAt(good, restored, closure, evals, failed.value)
    {
      ghost var sofar := closure * Below(rank, k);
      for n := 0 to |level|
        invariant sofar == closure * (Below(rank, k) + Elements(level[..n]))
        invariant Progress(restored, closure, evals, sofar)
      {
        assert level[..n + 1] == level[..n] + [level[n]];
        if level[n] in closure {
          assert FedFromBelow(good, rank, level[n]);
          var completed := Reexecute(level[n], good, rank, evals, restored, closure, sofar);
          if !completed {
            return Some(level[n]);
          }
          sofar := sofar + {level[n]};
        }
      }
      assert level[..|level|] == level;
      failed := None;
    }

    method ReexecuteLevels(levels: seq<seq<Node>>, stopped: nat -> bool, closure: set<Node>, ghost good: Graph,
                           ghost rank: map<Node, nat>, ghost evals: map<Node, Outcome>,
                           ghost restored: map<Node, Value>)
      returns (result: RetryResult)
      requires Transient(executor.graph, good) && Evaluates(good, rank, evals) && LevelsRank(levels, rank)
      requires executor.outputs == restored && executor.journal == executor.before
      requires RestoredFrom(executor.before.checkpoints, restored)
      requires HasFailed(executor.before, closure)
      modifies executor
      ensures result.RetryCompleted? || result.RetryFailed? || (result.RetryStopped? && stopped(result.level))
      ensures result.RetryFailed? ==> StoppedAt(good, restored, closure, evals, result.node)
      ensures result.RetryCompleted? ==>
                (executor.outputs == OutputsOf(evals) <==> RetryMatches(restored, closure, evals))
      ensures result.RetryCompleted? ==>
                Logged(executor.before, executor.journal, executor.outputs, closure * rank.Keys, None)
      ensures StaysSound(restored, closure, evals)
    {
      RetryStart(restored, closure, evals);
      LoggedStart(executor.before, restored);
      assert closure * Below(rank, 0) == {};
      for k := 0 to |levels|
        invariant Progress(restored, closure, evals, closure * Below(rank, k))
      {
        if stopped(k) {
          ProgressStaysSound(restored, closure, evals, closure * Below(rank, k));
          return RetryStopped(k);
        }
        LevelDone(levels, rank, k);
        var failed := ReexecuteLevel(levels[k], k, closure, good, rank, evals, restored);
        if failed.Some? {
          return RetryFailed(failed.value);
        }
      }
      ProgressStaysSound(restored, closure, evals, closure * Below(rank, |levels|));
      assert closure * Below(rank, |levels|) == closure * rank.Keys && rank.Keys == evals.Keys;
      RetryEnds(restored, closure, evals, executor.outputs);
      result := RetryCompleted;
    }

    method NodesToReexecute(failed: set<Node>) returns (closure: set<Node>)
      requires forall v :: v in failed <==> LatestFailed(executor.before.records, v)
      ensures IsClosure(executor.graph.edges, executor.before, closure) && HasFailed(executor.before, closure)
    {
      closure := FailedClosure(executor.graph.edges, failed);
      ClosureIsRerun(executor.graph.edges, executor.before, failed, closure);
    }

    /**
     Retries a run with at least one failed node from its checkpoints. A retry
     that completes has a full run's outputs exactly under `RetryMatches`; over a
     sound journal that is, without gaps and with every error output replaced.
     */
    method ExecuteFailedNodes(failed: set<Node>, stopped: nat -> bool, ghost good: Graph)
      returns (result: RetryResult, ghost restored: map<Node, Value>, ghost closure: set<Node>,
               ghost rank: map<Node, nat>, ghost evals: map<Node, Outcome>)
      requires Distinct(executor.graph.nodes) && executor.Fresh() && Transient(executor.graph, good)
      requires failed != {} && forall v :: v in failed <==> LatestFailed(executor.before.records, v)
      modifies executor
      ensures !result.FullRun? && (result.RetryStopped? ==> stopped(result.level))
      ensures result.CycleFound? <==> Cyclic(Arcs(executor.graph.nodes, executor.graph.edges))
      ensures result.CycleFound? ==> executor.journal == executor.before
      ensures !result.CycleFound? ==> Ranks(good, rank) && Evaluates(good, rank, evals)
      ensures IsClosure(executor.graph.edges, executor.before, closure)
      ensures RestoredFrom(executor.before.checkpoints, restored)
      ensures result.RetryFailed? ==> StoppedAt(good, restored, closure, evals, result.node)
      ensures result.RetryCompleted? ==>
                (executor.outputs == OutputsOf(evals) <==> RetryMatches(restored, closure, evals))
      ensures result.RetryCompleted? ==>
                Logged(executor.before, executor.journal, executor.outputs, closure * rank.Keys, None)
      ensures Sound(executor.before, evals) ==>
                (RetryMatches(restored, closure, evals) <==>
                 Gapless(executor.graph.edges, executor.before, evals) && ErrorsReplaced(executor.before, evals))
      ensures !result.CycleFound? ==> StaysSound(restored, closure, evals)
    {
      rank, evals := map[], map[];
      var outputs := RestoreOutputs(executor.journal.checkpoints);
      restored := outputs;
      var nodesToReexecute := NodesToReexecute(failed);
      closure := nodesToReexecute;
      executor.outputs := outputs;
      var sorted := TopologicalSort(executor.graph.nodes, executor.graph.edges);
      if sorted.Some? {
        LevelsOrder(good, sorted.value);
        rank := RankOf(executor.graph.nodes, sorted.value);
        evals := Evaluation(good, rank);
        result := ReexecuteLevels(sorted.value, stopped, nodesToReexecute, good, rank, evals, restored);
      } else {
        result := CycleFound;
      }
      RetryMatchesIff(executor.graph.edges, executor.before, restored, closure, evals);
    }

    /**
     A retry job: the nodes whose newest record failed are executed again with
     what depends on them, and without such a node the whole graph is.
     */
    method ExecuteRetry(stopped: nat -> bool, ghost good: Graph)
      returns (result: RetryResult, ghost restored: map<Node, Value>, ghost closure: set<Node>,
               ghost rank: map<Node, nat>, ghost evals: map<Node, Outcome>)
      requires Distinct(executor.graph.nodes) && executor.Fresh() && Transient(executor.graph, good)
      modifies executor
      ensures result.FullRun? <==> NoneFailed(executor.before.records)
      ensures result.FullRun? && !result.result.InvalidDag? ==>
                Ranks(executor.graph, rank) && Evaluates(executor.graph, rank, evals)
      ensures result.FullRun? ==> executor.Outcomes(rank, evals, stopped, result.result)
      ensures !result.FullRun? ==> IsClosure(executor.graph.edges, executor.before, closure)
      ensures result.RetryStopped? ==> stopped(result.level)
      ensures result.CycleFound? ==> executor.journal == executor.before
      ensures !result.FullRun? ==> RestoredFrom(executor.before.checkpoints, restored)
      ensures !result.FullRun? && !result.CycleFound? ==>
                Ranks(good, rank) && Evaluates(good, rank, evals) && StaysSound(restored, closure, evals)
      ensures result.RetryCompleted? ==>
                (executor.outputs == OutputsOf(evals) <==> RetryMatches(restored, closure, evals))
      ensures result.RetryCompleted? ==>
                Logged(executor.before, executor.journal, executor.outputs, closure * rank.Keys, None)
      ensures !result.FullRun? && Sound(executor.before, evals) ==>
                (RetryMatches(restored, closure, evals) <==>
                 Gapless(executor.graph.edges, executor.before, evals) && ErrorsReplaced(executor.before, evals))
    {
      var failed := FailedNodes(executor.journal.records);
      NoneFailedIff(executor.journal.records, failed);
      restored, closure := map[], {};
      if failed == {} {
        var full;
        full, rank, evals := executor.Execute(stopped);
        result := FullRun(full);
      } else {
        result, restored, closure, rank, evals := ExecuteFailedNodes(failed, stopped, good);
      }
    }
  }

  // ------------------------------------------------- which edges are read alike

  /** Both ends are named in a spelling that the executor reads. */
  predicate Named(e: Edge) {
    DataSource(e).Some? && DataTarget(e).Some?
  }

  /** Data flows along an edge between known nodes exactly if both its ends are named. */
  lemma FedIffNamed(nodes: seq<Node>, e: Edge)
    requires Known(nodes, e)
    ensures Source(e).value in Feeds([e], Target(e).value) <==> Named(e)
  {
    if Named(e) {
      assert e in [e];
    }
  }

  /** A retry follows an edge between known nodes exactly if it reads the scheduler's ends, with a target. */
  predicate Followed(e: Edge) {
    && DataTarget(e).Some? && DataTarget(e).value != ""
    && NameOf(DataSource(e)) == NameOf(Source(e))
  }

  /** Over known nodes the retry's arcs are the scheduler's exactly if every edge is followed. */
  lemma {:induction false} RetryArcsIff(nodes: seq<Node>, edges: seq<Edge>)
    requires forall e :: e in edges ==> Known(nodes, e)
    ensures |RetryArcs(edges)| <= |edges| == |Arcs(nodes, edges)|
    ensures RetryArcs(edges) == Arcs(nodes, edges) <==> forall e :: e in edges ==> Followed(e)
  {
    if edges != [] {
      var init, last := edges[..|edges| - 1], edges[|edges| - 1];
      assert edges == init + [last];
      RetryArcsIff(nodes, init);
      assert last in edges;
      var arc := Arc(Source(last).value, Target(last).value);
      var mine := if NameOf(DataTarget(last)) != "" then [Arc(NameOf(DataSource(last)), NameOf(DataTarget(last)))]
                  else [];
      assert Arcs(nodes, edges) == Arcs(nodes, init) + [arc];
      assert RetryArcs(edges) == RetryArcs(init) + mine;
      if RetryArcs(edges) == Arcs(nodes, edges) {
        assert |mine| == 1 && |RetryArcs(init)| == |init|;
        assert RetryArcs(init) == RetryArcs(edges)[..|init|] && mine[0] == RetryArcs(edges)[|init|];
        assert Arcs(nodes, init) == Arcs(nodes, edges)[..|init|] && arc == Arcs(nodes, edges)[|init|];
      }
      if forall e :: e in edges ==> Followed(e) {
        assert forall e :: e in init ==> e in edges;
        assert mine == [arc];
      }
    }
  }

  /** What saving a graph version asks of an edge. */
  predicate Saveable(nodes: seq<Node>, e: Edge) {
    e.source.Some? && e.source.value in nodes && e.target.Some? && e.target.value in nodes
  }

  /**
   The edges of a saved graph are read alike everywhere: data flows exactly
   along the scheduler's arcs, and a retry follows exactly them, provided no
   edge leads to a node with the empty name.
   */
  lemma SavedGraphReadAlike(nodes: seq<Node>, edges: seq<Edge>)
    requires forall e :: e in edges ==> Saveable(nodes, e)
    ensures forall u, v :: u in Feeds(edges, v) <==> Arc(u, v) in Arcs(nodes, edges)
    ensures RetryArcs(edges) == Arcs(nodes, edges) <==> forall e :: e in edges ==> e.target != Some("")
  {
    forall u, v ensures u in Feeds(edges, v) <==> Arc(u, v) in Arcs(nodes, edges) {
      FeedsIffArc(nodes, edges, u, v);
    }
    forall e | e in edges ensures Known(nodes, e) {
      assert Saveable(nodes, e);
    }
    RetryArcsIff(nodes, edges);
    assert forall e :: e in edges && Saveable(nodes, e) ==> (Followed(e) <==> e.target != Some(""));
  }

  lemma {:induction false} FeedsIffArc(nodes: seq<Node>, edges: seq<Edge>, u: Node, v: Node)
    requires forall e :: e in edges ==> Saveable(nodes, e)
    ensures u in Feeds(edges, v) <==> Arc(u, v) in Arcs(nodes, edges)
  {
    if edges != [] {
      var init, last := edges[..|edges| - 1], edges[|edges| - 1];
      assert edges == init + [last];
      assert last in edges && Saveable(nodes, last);
      FeedsIffArc(nodes, init, u, v);
      assert Feeds(edges, v) == Feeds(init, v) + Feeds([last], v);
      assert last in [last];
    }
  }

  /** An edge that names its ends only as `from` and `to` orders nodes, but carries no data and is not followed. */
  lemma FromToOnlyOrders(u: Node, v: Node)
    ensures var edge := Edge(None, None, Some(u), None, None, Some(v), None, None);
            && Arcs([u, v], [edge]) == [Arc(u, v)]
            && RetryArcs([edge]) == []
            && forall w :: Feeds([edge], w) == {}
  {
    var edge := Edge(None, None, Some(u), None, None, Some(v), None, None);
    assert [edge][..0] == [];
    forall w ensures Feeds([edge], w) == {} {
    }
  }
}
