/** The attempts of a run, full ones and retries: what their journals hold, and when the last one equals a full run. */
module Attempts {
  import opened Wrappers
  import opened Dag
  import opened Scheduler
  import opened Dataflow
  import opened Journals
  import opened Executor
  import opened PartialRetry

  /** The level of every node, when the graph has levels. */
  ghost predicate Levelled(g: Graph, rank: map<Node, nat>) {
    Ranks(g, rank) && Ordered(g, rank)
  }

  /** What a full run computes in which no node fails but those that always do. */
  ghost function FullEvaluation(good: Graph): map<Node, Outcome> {
    if exists rank :: Levelled(good, rank) then
      var rank :| Levelled(good, rank);
      Evaluation(good, rank)
    else map[]
  }

  lemma FullEvaluationIs(good: Graph, rank: map<Node, nat>, evals: map<Node, Outcome>)
    requires Ranks(good, rank) && Evaluates(good, rank, evals)
    ensures FullEvaluation(good) == evals
  {
    assert Levelled(good, rank);
    forall other | Levelled(good, other) ensures other == rank {
      RanksUnique(good, other, rank);
    }
  }

  /** Up to its first failing level an attempt computes what a full run does, but for the nodes that fail in it. */
  lemma {:induction false} AttemptAgrees(g: Graph, good: Graph, rank: map<Node, nat>, attempt: map<Node, Outcome>,
                                         evals: map<Node, Outcome>, v: Node)
    requires Transient(g, good) && Evaluates(g, rank, attempt) && Evaluates(good, rank, evals)
    requires v in rank && CompletesBelow(rank, attempt, rank[v])
    ensures attempt[v].Failed? || attempt[v] == evals[v]
    decreases rank[v]
  {
    assert FedFromBelow(g, rank, v);
    forall u | u in Feeds(g.edges, v) && u in rank ensures attempt[u] == evals[u] {
      AttemptAgrees(g, good, rank, attempt, evals, u);
    }
    FedAlike(g, good, rank, attempt, evals, v);
  }

  /** A node fed with the outputs of a full run fails, or does what it does there. */
  lemma FedAlike(g: Graph, good: Graph, rank: map<Node, nat>, attempt: map<Node, Outcome>, evals: map<Node, Outcome>,
                 v: Node)
    requires Transient(g, good) && Evaluates(g, rank, attempt) && Evaluates(good, rank, evals) && v in rank
    requires forall u :: u in Feeds(g.edges, v) && u in rank ==> attempt[u] == evals[u]
    ensures attempt[v].Failed? || attempt[v] == evals[v]
  {
    var outputs := OutputsOf(evals);
    NodeStep(g, rank, outputs, v);
    NodeStep(good, rank, outputs, v);
    assert FailsOrDoes(g, good, v, InputsOf(g, v, outputs));
  }

  /** The executed nodes had nothing but completed nodes below them. */
  ghost predicate Undisturbed(rank: map<Node, nat>, attempt: map<Node, Outcome>, done: set<Node>) {
    forall v {:trigger CompletesBelow(rank, attempt, rank[v])} ::
      v in done && v in rank ==> CompletesBelow(rank, attempt, rank[v])
  }

  /** A full attempt keeps the journal sound, provided what it executes replaces earlier error outputs. */
  lemma FullKeepsSound(g: Graph, good: Graph, rank: map<Node, nat>, attempt: map<Node, Outcome>,
                       evals: map<Node, Outcome>, done: set<Node>, before: Journal, after: Journal)
    requires Transient(g, good) && Evaluates(g, rank, attempt) && Evaluates(good, rank, evals)
    requires Undisturbed(rank, attempt, done) && Journaled(before, attempt, done, after)
    requires Sound(before, evals) && ErrorsReplaced(before, evals)
    ensures Sound(after, evals)
  {
    forall v ensures SoundAt(after, evals, v) {
      assert SoundAt(before, evals, v) && JournaledAt(before, attempt, done, after, v);
      if v in done && v in rank {
        assert CompletesBelow(rank, attempt, rank[v]);
        AttemptAgrees(g, good, rank, attempt, evals, v);
      }
    }
  }

  const EMPTY := Journal([], [])

  /**
   After a first run that failed at a level, the journal is sound; a retry has a
   gap exactly at the nodes above that level that no failed node reaches, and an
   error output survives exactly at the nodes that failed with one and have
   nothing to output now.
   */
  lemma FirstFailureIff(g: Graph, good: Graph, rank: map<Node, nat>, attempt: map<Node, Outcome>,
                        evals: map<Node, Outcome>, k: nat, j: Journal)
    requires Transient(g, good) && Evaluates(g, rank, attempt) && Evaluates(good, rank, evals)
    requires CompletesBelow(rank, attempt, k) && Journaled(EMPTY, attempt, Below(rank, k + 1), j)
    ensures Sound(j, evals)
    ensures Gapless(g.edges, j, evals) <==>
            forall u :: u in rank && rank[u] > k && !Rerun(g.edges, j, u) ==> !Stored(evals[u])
    ensures ErrorsReplaced(j, evals) <==>
            forall u :: u in rank && rank[u] == k && attempt[u].Failed? && Truthy(attempt[u].output) ==>
              Stored(evals[u])
  {
    FirstFailureSound(g, good, rank, attempt, evals, k, j);
    forall u | u in rank && rank[u] <= k ensures attempt[u].Failed? || attempt[u] == evals[u] {
      AttemptAgrees(g, good, rank, attempt, evals, u);
    }
    GapsLeft(g.edges, rank, attempt, evals, k, j);
    ErrorsLeft(rank, attempt, evals, k, j);
  }

  lemma FirstFailureSound(g: Graph, good: Graph, rank: map<Node, nat>, attempt: map<Node, Outcome>,
                          evals: map<Node, Outcome>, k: nat, j: Journal)
    requires Transient(g, good) && Evaluates(g, rank, attempt) && Evaluates(good, rank, evals)
    requires CompletesBelow(rank, attempt, k) && Journaled(EMPTY, attempt, Below(rank, k + 1), j)
    ensures Sound(j, evals)
  {
    EmptyIsSound(evals);
    assert Undisturbed(rank, attempt, Below(rank, k + 1));
    FullKeepsSound(g, good, rank, attempt, evals, Below(rank, k + 1), EMPTY, j);
  }

  lemma EmptyIsSound(evals: map<Node, Outcome>)
    ensures Sound(EMPTY, evals) && ErrorsReplaced(EMPTY, evals)
  {
    forall v ensures SoundAt(EMPTY, evals, v) {
    }
  }

  lemma LeftAt(rank: map<Node, nat>, attempt: map<Node, Outcome>, k: nat, j: Journal, u: Node)
    requires attempt.Keys == rank.Keys && CompletesBelow(rank, attempt, k)
    requires Journaled(EMPTY, attempt, Below(rank, k + 1), j)
    ensures Newest(j.checkpoints, u).Some? <==> u in rank && rank[u] <= k && Truthy(attempt[u].output)
    ensures LatestFailed(j.records, u) <==> u in rank && rank[u] == k && attempt[u].Failed?
  {
    assert JournaledAt(EMPTY, attempt, Below(rank, k + 1), j, u);
  }

  lemma GapsLeft(edges: seq<Edge>, rank: map<Node, nat>, attempt: map<Node, Outcome>, evals: map<Node, Outcome>, k: nat,
                 j: Journal)
    requires attempt.Keys == rank.Keys == evals.Keys && CompletesBelow(rank, attempt, k)
    requires Journaled(EMPTY, attempt, Below(rank, k + 1), j)
    requires forall u :: u in rank && rank[u] <= k ==> attempt[u].Failed? || attempt[u] == evals[u]
    ensures Gapless(edges, j, evals) <==>
            forall u :: u in rank && rank[u] > k && !Rerun(edges, j, u) ==> !Stored(evals[u])
  {
    forall u | u in rank && !Rerun(edges, j, u) && Stored(evals[u])
      ensures Newest(j.checkpoints, u).Some? <==> rank[u] <= k
    {
      LeftAt(rank, attempt, k, j, u);
      if LatestFailed(j.records, u) {
        FailedRerun(edges, j, u);
      }
    }
  }

  lemma ErrorsLeft(rank: map<Node, nat>, attempt: map<Node, Outcome>, evals: map<Node, Outcome>, k: nat, j: Journal)
    requires attempt.Keys == rank.Keys == evals.Keys && CompletesBelow(rank, attempt, k)
    requires Journaled(EMPTY, attempt, Below(rank, k + 1), j)
    ensures ErrorsReplaced(j, evals) <==>
            forall u :: u in rank && rank[u] == k && attempt[u].Failed? && Truthy(attempt[u].output) ==>
              Stored(evals[u])
  {
    forall u ensures LatestFailed(j.records, u) && Newest(j.checkpoints, u).Some? <==>
        u in rank && rank[u] == k && attempt[u].Failed? && Truthy(attempt[u].output) {
      LeftAt(rank, attempt, k, j, u);
    }
  }

  /** One job of a run: a full one or a retry, and what its status shows between levels. */
  datatype Attempt = Attempt(retry: bool, graph: Graph, stopped: nat -> bool)

  /** What an attempt needs of the journal to compute what a full run does. */
  ghost predicate Fits(retry: bool, j: Journal, good: Graph) {
    && ErrorsReplaced(j, FullEvaluation(good))
    && (retry && !NoneFailed(j.records) ==> Gapless(good.edges, j, FullEvaluation(good)))
  }

  lemma SameLevels(g: Graph, good: Graph, rank: map<Node, nat>)
    requires Transient(g, good) && Ranks(g, rank) && Ordered(g, rank)
    ensures Ranks(good, rank) && Ordered(good, rank) && FullEvaluation(good) == Evaluation(good, rank)
  {
    forall v | v in rank ensures FedFromBelow(good, rank, v) {
      assert FedFromBelow(g, rank, v);
    }
    FullEvaluationIs(good, rank, Evaluation(good, rank));
  }

  /** The nodes a full run has executed when it ends, with nothing but completed nodes below them. */
  lemma Executed(executor: DagExecutor, rank: map<Node, nat>, attempt: map<Node, Outcome>, stopped: nat -> bool,
                 result: RunResult)
    returns (done: set<Node>)
    requires attempt.Keys == rank.Keys
    requires executor.Outcomes(rank, attempt, stopped, result) && !result.InvalidDag?
    ensures Undisturbed(rank, attempt, done) && Journaled(executor.before, attempt, done, executor.journal)
  {
    match result
    case Finished => done := rank.Keys;
    case FailedAt(node) => done := Below(rank, rank[node] + 1);
    case StoppedBefore(k) => done := Below(rank, k);
  }

  lemma FullRunEnds(executor: DagExecutor, good: Graph, rank: map<Node, nat>, attempt: map<Node, Outcome>,
                    stopped: nat -> bool, result: RunResult)
    requires Transient(executor.graph, good) && Ranks(executor.graph, rank)
    requires Evaluates(executor.graph, rank, attempt)
    requires executor.Outcomes(rank, attempt, stopped, result) && !result.InvalidDag?
    ensures Sound(executor.before, FullEvaluation(good)) && ErrorsReplaced(executor.before, FullEvaluation(good)) ==>
              Sound(executor.journal, FullEvaluation(good))
    ensures result.Finished? ==> executor.outputs == OutputsOf(FullEvaluation(good))
  {
    SameLevels(executor.graph, good, rank);
    var g, evals := executor.graph, FullEvaluation(good);
    var done := Executed(executor, rank, attempt, stopped, result);
    if Sound(executor.before, evals) && ErrorsReplaced(executor.before, evals) {
      FullKeepsSound(g, good, rank, attempt, evals, done, executor.before, executor.journal);
    }
    if result.Finished? {
      AllCompletedIsFull(g, good, rank, attempt, evals);
    }
  }

  lemma AllCompletedIsFull(g: Graph, good: Graph, rank: map<Node, nat>, attempt: map<Node, Outcome>,
                           evals: map<Node, Outcome>)
    requires Transient(g, good) && Evaluates(g, rank, attempt) && Evaluates(good, rank, evals)
    requires forall v :: v in rank ==> attempt[v].Completed?
    ensures attempt == evals
  {
    forall v | v in rank ensures attempt[v] == evals[v] {
      AttemptAgrees(g, good, rank, attempt, evals, v);
    }
  }

  /**
   One job of a run. It keeps a sound journal sound if the journal fits it; a
   full run that finishes computes the full evaluation in any case, and a retry
   that completes over a sound journal exactly if the journal fits it.
   */
  method ExecuteRunJob(attempt: Attempt, journal: Journal, ghost good: Graph)
    returns (completed: Option<map<Node, Value>>, after: Journal)
    requires Distinct(attempt.graph.nodes) && Transient(attempt.graph, good)
    ensures Sound(journal, FullEvaluation(good)) && Fits(attempt.retry, journal, good) ==>
              Sound(after, FullEvaluation(good))
    ensures completed.Some? && !attempt.retry ==> completed.value == OutputsOf(FullEvaluation(good))
    ensures completed.Some? && attempt.retry && Sound(journal, FullEvaluation(good)) ==>
              (completed.value == OutputsOf(FullEvaluation(good)) <==> Fits(true, journal, good))
  {
    var executor := new DagExecutor(attempt.graph, journal);
    ghost var rank, evals;
    if attempt.retry {
      var retry := new RetryExecutor(executor);
      ghost var restored, closure;
      var result;
      result, restored, closure, rank, evals := retry.ExecuteRetry(attempt.stopped, good);
      var ended := result.RetryCompleted? || (result.FullRun? && result.result.Finished?);
      completed, after := if ended then Some(executor.outputs) else None, executor.journal;
      if result.FullRun? && !result.result.InvalidDag? {
        FullRunEnds(executor, good, rank, evals, attempt.stopped, result.result);
      } else if !result.FullRun? && !result.CycleFound? {
        FullEvaluationIs(good, rank, evals);
      }
    } else {
      var result;
      result, rank, evals := executor.Execute(attempt.stopped);
      completed, after := if result.Finished? then Some(executor.outputs) else None, executor.journal;
      if !result.InvalidDag? {
        FullRunEnds(executor, good, rank, evals, attempt.stopped, result);
      }
    }
  }

  ghost predicate AllFit(attempts: seq<Attempt>, journals: seq<Journal>, good: Graph, n: nat)
    requires n <= |journals| <= |attempts|
  {
    forall i :: 0 <= i < n ==> Fits(attempts[i].retry, journals[i], good)
  }

  /**
   The jobs of one run until one completes. If each found a journal that fits
   it, the run ends with a full run's outputs; if all but the last did, exactly
   when a retry at the end did too.
   */
  method ExecuteRunJobs(attempts: seq<Attempt>, ghost good: Graph)
    returns (completed: Option<map<Node, Value>>, journals: seq<Journal>, after: Journal)
    requires forall i :: 0 <= i < |attempts| ==> Distinct(attempts[i].graph.nodes) && Transient(attempts[i].graph, good)
    ensures |journals| <= |attempts| && (journals != [] ==> journals[0] == EMPTY)
    ensures completed.Some? ==> journals != []
    ensures AllFit(attempts, journals, good, |journals|) ==> Sound(after, FullEvaluation(good))
    ensures completed.Some? && AllFit(attempts, journals, good, |journals| - 1) ==>
              var last := |journals| - 1;
              (completed.value == OutputsOf(FullEvaluation(good)) <==>
               (attempts[last].retry ==> Fits(true, journals[last], good)))
  {
    completed, journals, after := None, [], EMPTY;
    EmptyIsSound(FullEvaluation(good));
    while |journals| < |attempts| && completed.None?
      invariant |journals| <= |attempts| && (journals != [] ==> journals[0] == EMPTY)
      invariant journals == [] ==> after == EMPTY && completed.None?
      invariant AllFit(attempts, journals, good, |journals|) ==> Sound(after, FullEvaluation(good))
      invariant completed.Some? && AllFit(attempts, journals, good, |journals| - 1) ==>
                  var last := |journals| - 1;
                  (completed.value == OutputsOf(FullEvaluation(good)) <==>
                   (attempts[last].retry ==> Fits(true, journals[last], good)))
      decreases |attempts| - |journals|
    {
      var attempt := attempts[|journals|];
      assert AllFit(attempts, journals + [after], good, |journals|) ==> AllFit(attempts, journals, good, |journals|);
      journals := journals + [after];
      completed, after := ExecuteRunJob(attempt, after, good);
    }
  }

  // ------------------------------------------------- retries that differ

  const BRANCHES := Graph(["f", "a", "b"], [LinkTo("a", "b")], LaterRun, {}, None)
  const FIRST := BRANCHES.(run := FirstRun)
  const LEVEL: map<Node, nat> := map["f" := 0, "a" := 0, "b" := 1]
  const DONE := Scalar("done")
  const ERROR := Scalar("error")

  function LinkTo(source: Node, target: Node): Edge {
    Edge(Some(source), None, None, Some(target), None, None, None, None)
  }

  /** Later every node completes, the first with nothing to output. */
  function LaterRun(v: Node, inputs: Inputs): Outcome {
    Completed(if v == "f" then Nothing else DONE)
  }

  /** At first that node fails and reports an error output. */
  function FirstRun(v: Node, inputs: Inputs): Outcome {
    if v == "f" then Failed(ERROR) else LaterRun(v, inputs)
  }

  /** What the first run leaves when it fails at its first level. */
  const LEFT := Journal([Checkpoint("a", true, DONE), Checkpoint("f", true, ERROR)],
                        [NodeRecord("a", false), NodeRecord("f", true)])
  const ATTEMPT := map["f" := Failed(ERROR), "a" := Completed(DONE), "b" := Completed(DONE)]
  const FULL := map["f" := Completed(Nothing), "a" := Completed(DONE), "b" := Completed(DONE)]

  /** Nodes that ignore their inputs evaluate to what they run to. */
  lemma EvaluatesTo(g: Graph, evals: map<Node, Outcome>)
    requires g.edges == [LinkTo("a", "b")] && evals.Keys == LEVEL.Keys
    requires forall v, inputs :: v in LEVEL ==> g.run(v, inputs) == evals[v]
    ensures Evaluates(g, LEVEL, evals)
  {
    BranchesOrdered(g);
    forall v | v in LEVEL ensures Evaluation(g, LEVEL)[v] == evals[v] {
      EvalRuns(g, v, evals[v]);
    }
  }

  lemma EvalRuns(g: Graph, v: Node, o: Outcome)
    requires Ordered(g, LEVEL) && v in LEVEL && forall inputs :: g.run(v, inputs) == o
    ensures Eval(g, LEVEL, v) == o
  {
  }

  lemma FirstEvaluates()
    ensures Evaluates(FIRST, LEVEL, ATTEMPT)
  {
    forall v, inputs | v in LEVEL ensures FIRST.run(v, inputs) == ATTEMPT[v] {
    }
    EvaluatesTo(FIRST, ATTEMPT);
  }

  lemma LaterEvaluates()
    ensures Evaluates(BRANCHES, LEVEL, FULL)
  {
    forall v, inputs | v in LEVEL ensures BRANCHES.run(v, inputs) == FULL[v] {
    }
    EvaluatesTo(BRANCHES, FULL);
  }

  lemma FailureIsTransient()
    ensures Transient(FIRST, BRANCHES)
  {
    forall v, inputs ensures FailsOrDoes(FIRST, BRANCHES, v, inputs) {
    }
  }

  lemma BranchesOrdered(g: Graph)
    requires g.edges == [LinkTo("a", "b")]
    ensures Ordered(g, LEVEL)
  {
    forall v | v in LEVEL ensures FedFromBelow(g, LEVEL, v) {
      forall u | u in Feeds(g.edges, v) && u in LEVEL ensures LEVEL[u] < LEVEL[v] {
        var e :| e in g.edges && DataTarget(e) == Some(v) && DataSource(e) == Some(u);
        assert e == LinkTo("a", "b");
      }
    }
  }

  lemma FirstLeaves()
    ensures Journaled(EMPTY, ATTEMPT, Below(LEVEL, 1), LEFT)
  {
    var first := Saved(EMPTY, "f", ATTEMPT["f"]);
    NothingJournaled(EMPTY, ATTEMPT);
    JournaledNext(EMPTY, ATTEMPT, {}, EMPTY, "f");
    JournaledNext(EMPTY, ATTEMPT, {} + {"f"}, first, "a");
    assert LEFT == Saved(first, "a", ATTEMPT["a"]) && Below(LEVEL, 1) == {} + {"f"} + {"a"};
  }

  lemma OnlyFailedReruns()
    ensures forall v :: Rerun(BRANCHES.edges, LEFT, v) ==> v == "f"
  {
    var arcs := RetryArcs(BRANCHES.edges);
    assert BRANCHES.edges[..0] == [] && arcs == [Arc("a", "b")];
    forall v | Rerun(BRANCHES.edges, LEFT, v) ensures v == "f" {
      var f :| LatestFailed(LEFT.records, f) && ReachedFrom(arcs, {f}, v);
      SavedAt(EMPTY, "f", ATTEMPT["f"], f);
      SavedAt(Saved(EMPTY, "f", ATTEMPT["f"]), "a", ATTEMPT["a"], f);
      assert LEFT == Saved(Saved(EMPTY, "f", ATTEMPT["f"]), "a", ATTEMPT["a"]);
      var p :| IsPath(arcs, p) && p[0] in {f} && p[|p| - 1] == v;
      ClosedPath(arcs, {"f"}, p);
    }
  }

  lemma LeftIsSound()
    ensures Sound(LEFT, FULL)
  {
    FirstLeaves();
    forall v ensures SoundAt(LEFT, FULL, v) {
      assert JournaledAt(EMPTY, ATTEMPT, Below(LEVEL, 1), LEFT, v);
    }
  }

  lemma HasGap(edges: seq<Edge>, j: Journal, evals: map<Node, Outcome>, u: Node)
    requires u in evals && Stored(evals[u]) && !Rerun(edges, j, u) && Newest(j.checkpoints, u).None?
    ensures !Gapless(edges, j, evals)
  {
  }

  lemma KeepsError(j: Journal, evals: map<Node, Outcome>, u: Node)
    requires LatestFailed(j.records, u) && Newest(j.checkpoints, u).Some? && u in evals && !Stored(evals[u])
    ensures !ErrorsReplaced(j, evals)
  {
  }

  lemma SkippedIsGap()
    ensures !Gapless(BRANCHES.edges, LEFT, FULL)
  {
    FirstLeaves();
    OnlyFailedReruns();
    assert JournaledAt(EMPTY, ATTEMPT, Below(LEVEL, 1), LEFT, "b") && Newest(LEFT.checkpoints, "b").None?;
    HasGap(BRANCHES.edges, LEFT, FULL, "b");
  }

  lemma ErrorIsKept()
    ensures !ErrorsReplaced(LEFT, FULL)
  {
    FirstLeaves();
    assert JournaledAt(EMPTY, ATTEMPT, Below(LEVEL, 1), LEFT, "f") && LatestFailed(LEFT.records, "f");
    KeepsError(LEFT, FULL, "f");
  }

  const RESTORED := map["f" := ERROR, "a" := DONE]

  lemma BranchesRetried(outputs: map<Node, Value>)
    requires Retried(RESTORED, {"f"}, FULL, {"f"}, outputs)
    ensures "b" !in outputs && "f" in outputs
  {
    assert RetriedAt(RESTORED, {"f"}, FULL, {"f"}, outputs, "b");
    assert RetriedAt(RESTORED, {"f"}, FULL, {"f"}, outputs, "f");
  }

  /**
   A retry completes although a node of another branch, above the level the
   first run failed at, never ran: in a full run that node has an output.
   */
  lemma LaterBranchIsSkipped()
    ensures Transient(FIRST, BRANCHES)
    ensures Evaluates(FIRST, LEVEL, ATTEMPT) && Journaled(EMPTY, ATTEMPT, Below(LEVEL, 1), LEFT)
    ensures Evaluates(BRANCHES, LEVEL, FULL) && Sound(LEFT, FULL) && !Gapless(BRANCHES.edges, LEFT, FULL)
    ensures forall outputs :: Retried(RESTORED, {"f"}, FULL, {"f"}, outputs) ==>
              "b" !in outputs && "b" in OutputsOf(FULL)
  {
    FailureIsTransient();
    FirstEvaluates();
    LaterEvaluates();
    FirstLeaves();
    LeftIsSound();
    SkippedIsGap();
    forall outputs | Retried(RESTORED, {"f"}, FULL, {"f"}, outputs) ensures "b" !in outputs {
      BranchesRetried(outputs);
    }
  }

  /** The output a node failed with survives a retry in which that node completes with nothing to output. */
  lemma ErrorOutputSurvives()
    ensures Evaluates(BRANCHES, LEVEL, FULL) && FULL["f"].Completed? && !ErrorsReplaced(LEFT, FULL)
    ensures forall outputs :: Retried(RESTORED, {"f"}, FULL, {"f"}, outputs) ==>
              "f" in outputs && "f" !in OutputsOf(FULL)
  {
    LaterEvaluates();
    ErrorIsKept();
    forall outputs | Retried(RESTORED, {"f"}, FULL, {"f"}, outputs) ensures "f" in outputs {
      BranchesRetried(outputs);
    }
  }
}
