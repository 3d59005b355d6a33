/** When a completion succeeds, and that transactions nobody hinders do go through. */
module Unhindered {
  import opened Wrappers
  import opened RunStates
  import opened DurableRuns
  import opened Protocol
  import opened Acknowledgement
  import OperatorEffects
  import SourceLedger
  import FenceStability
  import Guarantees

  /** A direct execution, or a worker whose lease has not run out. */
  predicate Entitled(s: State, run: RunId, actor: Option<WorkerId>) {
    actor.None? || OperatorEffects.LeasedBeyond(s.queue, run, actor.value, s.now)
  }

  /** Every candidate of the run was staged on the revision its scope still has. */
  ghost predicate BasesCurrent(src: Sources, run: RunId) {
    forall key :: key in src.candidates && key.run == run ==>
      src.candidates[key].baseRevision == if key.scope in src.committed then src.committed[key.scope].revision else 0
  }

  ghost predicate Completes(s: State, run: RunId, actor: Option<WorkerId>) {
    Entitled(s, run, actor) && StatusOf(s.queue, run) == Some(Running) && BasesCurrent(s.sources, run)
  }

  /** A scope shows these data at this revision. */
  predicate Shows(src: Sources, scope: Scope, data: Option<StateData>, revision: nat) {
    if scope in src.committed then
      && src.committed[scope].revision == revision
      && (if src.committed[scope].deleted then data.None? else data == Some(src.committed[scope].data))
    else revision == 0 && data.None?
  }

  /**
   In every reachable state a completion that holds its fences completes its run
   exactly if its actor is entitled, the run RUNNING and every base current; it
   then shows every candidate's data, one revision on, and otherwise changes no row.
   */
  lemma CompletionIff(now: int, owners: map<GraphId, UserId>, actions: seq<Action>, id: SessionId)
    requires ReadyToComplete(After(Initial(now, owners), actions), id)
    ensures var s := After(Initial(now, owners), actions); var s' := Apply(s, DoComplete(id));
            var run, actor := s.fences.sessions[id].run, s.fences.sessions[id].actor;
            if Completes(s, run, actor) then
              s'.queue == s.queue.(runs := s.queue.runs[run := s.queue.runs[run].(status := Completed, error := None)])
            else s'.queue == s.queue && s'.sources == s.sources
  {
    Guarantees.ReachableInvariant(now, owners, actions);
    CompletesWhen(After(Initial(now, owners), actions), id);
  }

  lemma CompletesWhen(s: State, id: SessionId)
    requires Guarantees.Invariant(s) && ReadyToComplete(s, id)
    ensures var s', run, actor := Apply(s, DoComplete(id)), s.fences.sessions[id].run, s.fences.sessions[id].actor;
            if Completes(s, run, actor) then
              s'.queue == s.queue.(runs := s.queue.runs[run := s.queue.runs[run].(status := Completed, error := None)])
            else s'.queue == s.queue && s'.sources == s.sources
  {
    FenceStability.SnapshotNeverOutgrown(s, id);
    BasesDecide(s.sources, s.fences.sessions[id].run);
    AcknowledgesWhen(s, id);
    CompleteQueue(s, id);
  }

  lemma AcknowledgesWhen(s: State, id: SessionId)
    requires ReadyToComplete(s, id) && OutcomeAt(s, id) != CandidatesChanged
    requires var run := s.fences.sessions[id].run; Promotable(s.sources, run) <==> BasesCurrent(s.sources, run)
    ensures Acknowledges(s, id) <==> Completes(s, s.fences.sessions[id].run, s.fences.sessions[id].actor)
  {
  }

  lemma BasesDecide(src: Sources, run: RunId)
    requires SourceLedger.LedgerOk(src)
    ensures Promotable(src, run) <==> BasesCurrent(src, run)
  {
    forall key | key in src.candidates && key.run == run
      ensures var c := src.candidates[key];
              BaseUnchanged(src, key.scope, c) && IntentValid(src, key.scope, c) <==>
              c.baseRevision == Revision(src.committed, key.scope)
    {
      SourceLedger.RevisionDecides(src, key);
    }
  }

  /** What a completed run leaves visible. */
  lemma CompletionShows(s: State, id: SessionId, scope: Scope, data: Option<StateData>, revision: nat)
    requires Acknowledges(s, id) && Shows(s.sources, scope, data, revision)
    ensures var next, key := ApplyComplete(s, id).sources, CandidateKey(s.fences.sessions[id].run, scope);
            && key !in next.candidates
            && (if key in s.sources.candidates then
                  Shows(next, scope, if s.sources.candidates[key].operation == Save then s.sources.candidates[key].data
                                     else None, revision + 1)
                else Shows(next, scope, data, revision))
  {
    Guarantees.CompleteSources(s, id);
    PromotedShows(s.sources, s.fences.sessions[id].run, scope, data, revision);
  }

  lemma PromotedShows(src: Sources, run: RunId, scope: Scope, data: Option<StateData>, revision: nat)
    requires Promotable(src, run) && Shows(src, scope, data, revision)
    ensures var next, key := Promoted(src, run), CandidateKey(run, scope);
            && key !in next.candidates
            && (if key in src.candidates then
                  Shows(next, scope, if src.candidates[key].operation == Save then src.candidates[key].data else None,
                        revision + 1)
                else Shows(next, scope, data, revision))
  {
  }

  // -------------------------------------------- a completion from the start

  /** The steps that take the fences of these pipelines. */
  function Takes(id: SessionId, pipelines: seq<Pipeline>): seq<Action> {
    seq(|pipelines|, i requires 0 <= i < |pipelines| => TakePipelineFence(id, pipelines[i]))
  }

  function CompletionSteps(id: SessionId, actor: Option<WorkerId>, run: RunId, pipelines: seq<Pipeline>): seq<Action> {
    [OpenCompletion(id, actor, run), TakeRunFence(id), Snapshot(id)] + Takes(id, pipelines) + [DoComplete(id)]
  }

  /** A completion session that holds its run fence and the first `n` pipeline fences. */
  predicate Holding(s: State, id: SessionId, actor: Option<WorkerId>, run: RunId, pipelines: seq<Pipeline>, n: nat)
    requires n <= |pipelines|
  {
    && id in s.fences.sessions && s.fences.sessions[id] == CompletionSession(actor, run, Some(set p | p in pipelines))
    && Holds(s.fences, RunFence(run), id)
    && (forall i :: 0 <= i < n ==> Holds(s.fences, PipelineFence(pipelines[i]), id))
    && (forall i :: n <= i < |pipelines| ==> PipelineFence(pipelines[i]) !in s.fences.holder)
  }

  lemma After1(s: State, actions: seq<Action>, a: Action)
    ensures After(s, actions + [a]) == Apply(After(s, actions), a)
  {
    assert (actions + [a])[..|actions|] == actions;
  }

  lemma {:induction false} TakesHold(s: State, id: SessionId, actor: Option<WorkerId>, run: RunId,
                                     pipelines: seq<Pipeline>, n: nat)
    requires n <= |pipelines| && Distinct(pipelines)
    requires Holding(s, id, actor, run, pipelines, 0)
    ensures var t := After(s, Takes(id, pipelines)[..n]);
            Holding(t, id, actor, run, pipelines, n) && t == s.(fences := t.fences)
  {
    if n > 0 {
      TakesHold(s, id, actor, run, pipelines, n - 1);
      var steps := Takes(id, pipelines);
      assert steps[..n] == steps[..n - 1] + [TakePipelineFence(id, pipelines[n - 1])];
      After1(s, steps[..n - 1], TakePipelineFence(id, pipelines[n - 1]));
      OneTake(After(s, steps[..n - 1]), id, actor, run, pipelines, n - 1);
    }
  }

  lemma OneTake(s: State, id: SessionId, actor: Option<WorkerId>, run: RunId, pipelines: seq<Pipeline>, n: nat)
    requires n < |pipelines| && Distinct(pipelines)
    requires Holding(s, id, actor, run, pipelines, n)
    ensures var t := Apply(s, TakePipelineFence(id, pipelines[n]));
            Holding(t, id, actor, run, pipelines, n + 1) && t == s.(fences := t.fences)
  {
  }

  /** The fences the completion needs are free, and its session id is new. */
  predicate FencesFree(s: State, id: SessionId, run: RunId, pipelines: seq<Pipeline>) {
    && id !in s.fences.sessions && RunFence(run) !in s.fences.holder
    && forall i :: 0 <= i < |pipelines| ==> PipelineFence(pipelines[i]) !in s.fences.holder
  }

  lemma FirstSteps(s: State, id: SessionId, actor: Option<WorkerId>, run: RunId, pipelines: seq<Pipeline>)
    requires FencesFree(s, id, run, pipelines)
    requires CandidatePipelines(s.sources, run) == set p | p in pipelines
    ensures var t := After(s, [OpenCompletion(id, actor, run), TakeRunFence(id), Snapshot(id)]);
            Holding(t, id, actor, run, pipelines, 0) && t == s.(fences := t.fences)
  {
    var open, take, snap := OpenCompletion(id, actor, run), TakeRunFence(id), Snapshot(id);
    assert [open, take, snap] == [open] + [take] + [snap] && [] + [open] == [open];
    After1(s, [], open);
    Opened(s, id, actor, run, pipelines);
    After1(s, [open], take);
    Fenced(After(s, [open]), id, actor, run, pipelines);
    After1(s, [open] + [take], snap);
    Snapped(After(s, [open] + [take]), id, actor, run, pipelines);
  }

  /** The session is open without a snapshot, and no pipeline fence it needs is taken. */
  predicate Waiting(s: State, id: SessionId, actor: Option<WorkerId>, run: RunId, pipelines: seq<Pipeline>) {
    && id in s.fences.sessions && s.fences.sessions[id] == CompletionSession(actor, run, None)
    && forall i :: 0 <= i < |pipelines| ==> PipelineFence(pipelines[i]) !in s.fences.holder
  }

  lemma Opened(s: State, id: SessionId, actor: Option<WorkerId>, run: RunId, pipelines: seq<Pipeline>)
    requires FencesFree(s, id, run, pipelines)
    ensures var t := Apply(s, OpenCompletion(id, actor, run));
            Waiting(t, id, actor, run, pipelines) && RunFence(run) !in t.fences.holder && t == s.(fences := t.fences)
  {
  }

  lemma Fenced(s: State, id: SessionId, actor: Option<WorkerId>, run: RunId, pipelines: seq<Pipeline>)
    requires Waiting(s, id, actor, run, pipelines) && RunFence(run) !in s.fences.holder
    ensures var t := Apply(s, TakeRunFence(id));
            && Waiting(t, id, actor, run, pipelines) && Holds(t.fences, RunFence(run), id)
            && t == s.(fences := t.fences)
  {
  }

  lemma Snapped(s: State, id: SessionId, actor: Option<WorkerId>, run: RunId, pipelines: seq<Pipeline>)
    requires Waiting(s, id, actor, run, pipelines) && Holds(s.fences, RunFence(run), id)
    requires CandidatePipelines(s.sources, run) == set p | p in pipelines
    ensures var t := Apply(s, Snapshot(id));
            Holding(t, id, actor, run, pipelines, 0) && t == s.(fences := t.fences)
  {
  }

  /**
   A completion that finds its fences free goes through: its steps, one after
   another, complete the run if its actor is entitled and its bases are current.
   */
  lemma UnhinderedCompletion(now: int, owners: map<GraphId, UserId>, actions: seq<Action>, id: SessionId,
                             actor: Option<WorkerId>, run: RunId, pipelines: seq<Pipeline>)
    requires var s := After(Initial(now, owners), actions);
             && FencesFree(s, id, run, pipelines) && Distinct(pipelines)
             && (forall p :: p in pipelines <==> exists key :: key in s.sources.candidates && key.run == run &&
                                                   key.scope.pipeline == p)
    ensures var s := After(Initial(now, owners), actions);
            var t := After(s, CompletionSteps(id, actor, run, pipelines));
            StatusOf(t.queue, run) == if Completes(s, run, actor) then Some(Completed) else StatusOf(s.queue, run)
  {
    var s := After(Initial(now, owners), actions);
    var first, takes := [OpenCompletion(id, actor, run), TakeRunFence(id), Snapshot(id)], Takes(id, pipelines);
    assert CandidatePipelines(s.sources, run) == set p | p in pipelines;
    FirstSteps(s, id, actor, run, pipelines);
    var held := After(s, first);
    TakesHold(held, id, actor, run, pipelines, |pipelines|);
    assert takes[..|pipelines|] == takes;
    Guarantees.AfterConcat(s, first, takes);
    Guarantees.AfterConcat(Initial(now, owners), actions, first + takes);
    After1(s, first + takes, DoComplete(id));
    var ready := After(s, first + takes);
    assert ReadyToComplete(ready, id);
    CompletionIff(now, owners, actions + (first + takes), id);
  }

  // ------------------------------------------------- a node from the start

  /** The node's pipeline belongs to its graph's owner, its run is RUNNING on that graph, its writes are its own. */
  predicate MayStage(s: State, actor: Option<WorkerId>, run: RunId, pipeline: Pipeline, writes: seq<Write>) {
    && Entitled(s, run, actor)
    && run in s.queue.runs && s.queue.runs[run].status == Running && s.queue.runs[run].graph == pipeline.graph
    && (forall w :: w in writes ==> w.scope.pipeline == pipeline)
  }

  /** The data the last write of a scope leaves staged: None for a delete. */
  function LastWrite(writes: seq<Write>, scope: Scope): Option<Option<StateData>> {
    if writes == [] then None
    else
      var last := writes[|writes| - 1];
      if last.scope != scope then LastWrite(writes[..|writes| - 1], scope)
      else Some(if last.SaveState? then Some(last.data) else None)
  }

  /**
   What the writes of one node leave staged: for each scope its last write over
   the committed base, unless that deletes what is not there; nothing else moves.
   */
  ghost predicate StagedBy(src: Sources, src': Sources, run: RunId, writes: seq<Write>) {
    && src'.committed == src.committed && src'.history == src.history
    && forall key {:trigger StagedAt(src, src', run, writes, key)} :: StagedAt(src, src', run, writes, key)
  }

  predicate StagedAt(src: Sources, src': Sources, run: RunId, writes: seq<Write>, key: CandidateKey) {
    if key.run == run && LastWrite(writes, key.scope).Some? then
      StagedFor(src', key, LastWrite(writes, key.scope).value)
    else
      && (key in src'.candidates <==> key in src.candidates)
      && (key in src.candidates ==> src'.candidates[key] == src.candidates[key])
  }

  predicate StagedFor(src: Sources, key: CandidateKey, data: Option<StateData>) {
    var base := if key.scope !in src.committed || src.committed[key.scope].deleted then None
                else Some(src.committed[key.scope].data);
    var revision := if key.scope in src.committed then src.committed[key.scope].revision else 0;
    if data.None? && base.None? then key !in src.candidates
    else
      && key in src.candidates
      && src.candidates[key] == Candidate(if data.Some? then Save else Delete, data, base, revision)
  }

  lemma {:induction false} StageAllStages(src: Sources, run: RunId, writes: seq<Write>)
    ensures StagedBy(src, StageAll(src, run, writes), run, writes)
  {
    if writes == [] {
      forall key ensures StagedAt(src, src, run, writes, key) {
      }
    }
    if writes != [] {
      StageAllStages(src, run, writes[..|writes| - 1]);
      OneMoreWrite(src, StageAll(src, run, writes[..|writes| - 1]), run, writes);
    }
  }

  lemma OneMoreWrite(src: Sources, mid: Sources, run: RunId, writes: seq<Write>)
    requires writes != [] && StagedBy(src, mid, run, writes[..|writes| - 1])
    ensures StagedBy(src, StageOne(mid, run, writes[|writes| - 1]), run, writes)
  {
    var next := StageOne(mid, run, writes[|writes| - 1]);
    forall key ensures StagedAt(src, next, run, writes, key) {
      assert StagedAt(src, mid, run, writes[..|writes| - 1], key);
    }
  }

  function NodeSteps(id: SessionId, actor: Option<WorkerId>, run: RunId, pipeline: Pipeline, writes: seq<Write>)
    : seq<Action>
  {
    [OpenNode(id, actor, run, pipeline), TakeRunFence(id), TakePipelineFence(id, pipeline), DoStage(id, writes)]
  }

  /**
   A node transaction that finds its two fences free stages its writes exactly
   if it may, and ends its session; otherwise no row has moved.
   */
  lemma UnhinderedNode(s: State, id: SessionId, actor: Option<WorkerId>, run: RunId, pipeline: Pipeline,
                       writes: seq<Write>)
    requires FencesFree(s, id, run, [pipeline])
    requires pipeline.graph in s.owners && s.owners[pipeline.graph] == pipeline.owner
    ensures var t := After(s, NodeSteps(id, actor, run, pipeline, writes));
            && id !in t.fences.sessions && t.queue == s.queue
            && if MayStage(s, actor, run, pipeline, writes) then StagedBy(s.sources, t.sources, run, writes)
               else t.sources == s.sources
  {
    var open, take, own := OpenNode(id, actor, run, pipeline), TakeRunFence(id), TakePipelineFence(id, pipeline);
    var stage := DoStage(id, writes);
    assert [pipeline][0] == pipeline;
    After4(s, open, take, own, stage);
    NodeOpened(s, id, actor, run, pipeline);
    NodeRuns(Apply(s, open), id, actor, run, pipeline, writes);
  }

  lemma NodeRuns(s: State, id: SessionId, actor: Option<WorkerId>, run: RunId, pipeline: Pipeline, writes: seq<Write>)
    requires NodeOpen(s, id, actor, run, pipeline)
    requires RunFence(run) !in s.fences.holder && PipelineFence(pipeline) !in s.fences.holder
    ensures var held := Apply(Apply(s, TakeRunFence(id)), TakePipelineFence(id, pipeline));
            var t := Apply(held, DoStage(id, writes));
            && id !in t.fences.sessions && t.queue == s.queue
            && if MayStage(s, actor, run, pipeline, writes) then StagedBy(s.sources, t.sources, run, writes)
               else t.sources == s.sources
  {
    NodeFenced(s, id, actor, run, pipeline);
    var fenced := Apply(s, TakeRunFence(id));
    if Entitled(s, run, actor) {
      NodeOwns(fenced, id, actor, run, pipeline);
      NodeStages(Apply(fenced, TakePipelineFence(id, pipeline)), id, actor, run, pipeline, writes);
    }
  }

  lemma After2(s: State, a: Action, b: Action)
    ensures After(s, [a, b]) == Apply(Apply(s, a), b)
  {
    After1(s, [], a);
    After1(s, [a], b);
    assert [a, b] == [a] + [b] && [a] == [] + [a];
  }

  lemma After4(s: State, a: Action, b: Action, c: Action, d: Action)
    ensures After(s, [a, b, c, d]) == Apply(Apply(Apply(Apply(s, a), b), c), d)
  {
    assert [a, b, c, d] == [a, b] + [c, d];
    Guarantees.AfterConcat(s, [a, b], [c, d]);
    After2(s, a, b);
    After2(After(s, [a, b]), c, d);
  }

  predicate NodeOpen(s: State, id: SessionId, actor: Option<WorkerId>, run: RunId, pipeline: Pipeline) {
    id in s.fences.sessions && s.fences.sessions[id] == NodeSession(actor, run, pipeline, map[])
  }

  lemma NodeOpened(s: State, id: SessionId, actor: Option<WorkerId>, run: RunId, pipeline: Pipeline)
    requires FencesFree(s, id, run, [pipeline])
    requires pipeline.graph in s.owners && s.owners[pipeline.graph] == pipeline.owner
    ensures var t := Apply(s, OpenNode(id, actor, run, pipeline));
            && NodeOpen(t, id, actor, run, pipeline) && t == s.(fences := t.fences)
            && RunFence(run) !in t.fences.holder && PipelineFence(pipeline) !in t.fences.holder
  {
    assert [pipeline][0] == pipeline;
  }

  /** Without entitlement the transaction ends at its first fence. */
  lemma NodeFenced(s: State, id: SessionId, actor: Option<WorkerId>, run: RunId, pipeline: Pipeline)
    requires NodeOpen(s, id, actor, run, pipeline)
    requires RunFence(run) !in s.fences.holder && PipelineFence(pipeline) !in s.fences.holder
    ensures var t := Apply(s, TakeRunFence(id));
            && t == s.(fences := t.fences)
            && if Entitled(s, run, actor) then
                 && NodeOpen(t, id, actor, run, pipeline) && Holds(t.fences, RunFence(run), id)
                 && PipelineFence(pipeline) !in t.fences.holder
               else id !in t.fences.sessions
  {
  }

  lemma NodeOwns(s: State, id: SessionId, actor: Option<WorkerId>, run: RunId, pipeline: Pipeline)
    requires NodeOpen(s, id, actor, run, pipeline) && Holds(s.fences, RunFence(run), id)
    requires PipelineFence(pipeline) !in s.fences.holder && Entitled(s, run, actor)
    ensures var t := Apply(s, TakePipelineFence(id, pipeline));
            && NodeOpen(t, id, actor, run, pipeline) && t == s.(fences := t.fences)
            && Holds(t.fences, RunFence(run), id) && Holds(t.fences, PipelineFence(pipeline), id)
  {
  }

  lemma NodeStages(s: State, id: SessionId, actor: Option<WorkerId>, run: RunId, pipeline: Pipeline, writes: seq<Write>)
    requires NodeOpen(s, id, actor, run, pipeline)
    requires Holds(s.fences, RunFence(run), id) && Holds(s.fences, PipelineFence(pipeline), id)
    ensures var t := Apply(s, DoStage(id, writes));
            && id !in t.fences.sessions && t.queue == s.queue
            && if MayStage(s, actor, run, pipeline, writes) then StagedBy(s.sources, t.sources, run, writes)
               else t.sources == s.sources
  {
    StageAllStages(s.sources, run, writes);
  }
}
