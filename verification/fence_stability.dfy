/** What the two advisory fences protect while a transaction spans several steps. */
module FenceStability {
  import opened Wrappers
  import opened DurableRuns
  import opened Protocol
  import Acknowledgement
  import SourceLedger

  predicate HolderOk(f: Fences, fence: Fence) {
    fence in f.holder ==>
      && f.holder[fence] in f.sessions
      && var id := f.holder[fence];
         match fence
         case RunFence(run) => f.sessions[id].run == run
         case PipelineFence(p) => Holds(f, RunFence(f.sessions[id].run), id) && MayTakePipeline(f, id, p)
  }

  /** A node session's loaded states are still the committed ones. */
  predicate LoadedCurrent(f: Fences, committed: map<Scope, Committed>, id: SessionId)
    requires id in f.sessions && f.sessions[id].NodeSession?
  {
    var session := f.sessions[id];
    forall scope :: scope in session.loaded ==>
      && scope.pipeline == session.pipeline
      && Holds(f, PipelineFence(session.pipeline), id)
      && session.loaded[scope] == Visible(committed, scope)
  }

  /** A completion's snapshot still covers every candidate of its run. */
  predicate SnapshotCovers(f: Fences, src: Sources, id: SessionId)
    requires id in f.sessions && f.sessions[id].CompletionSession?
  {
    var session := f.sessions[id];
    session.keys.Some? ==>
      Holds(f, RunFence(session.run), id) && CandidatePipelines(src, session.run) <= session.keys.value
  }

  predicate SessionOk(f: Fences, src: Sources, id: SessionId)
    requires id in f.sessions
  {
    if f.sessions[id].NodeSession? then LoadedCurrent(f, src.committed, id) else SnapshotCovers(f, src, id)
  }

  ghost predicate FencesOk(f: Fences, src: Sources) {
    && (forall fence :: HolderOk(f, fence))
    && (forall id :: id in f.sessions ==> SessionOk(f, src, id))
  }

  /** Ending a transaction gives its fences back and keeps everybody else's. */
  lemma CloseKeepsFences(f: Fences, src: Sources, id: SessionId)
    requires FencesOk(f, src)
    ensures FencesOk(Close(f, id), src)
  {
    var g := Close(f, id);
    forall fence ensures HolderOk(g, fence) {
      assert HolderOk(f, fence);
    }
    forall other | other in g.sessions ensures SessionOk(g, src, other) {
      assert SessionOk(f, src, other);
    }
  }

  lemma TakeKeepsFences(f: Fences, src: Sources, id: SessionId, fence: Fence)
    requires FencesOk(f, src) && id in f.sessions && fence !in f.holder
    requires match fence
             case RunFence(run) => f.sessions[id].run == run
             case PipelineFence(p) => Holds(f, RunFence(f.sessions[id].run), id) && MayTakePipeline(f, id, p)
    ensures FencesOk(f.(holder := f.holder[fence := id]), src)
  {
    var g := f.(holder := f.holder[fence := id]);
    forall other: Fence ensures HolderOk(g, other) {
      assert HolderOk(f, other);
    }
    forall other | other in g.sessions ensures SessionOk(g, src, other) {
      assert SessionOk(f, src, other);
    }
  }

  lemma UpdateKeepsFences(f: Fences, src: Sources, id: SessionId, session: Session)
    requires FencesOk(f, src)
    requires id in f.sessions ==> f.sessions[id].run == session.run
    requires forall p :: PipelineFence(p) in f.holder && f.holder[PipelineFence(p)] == id ==>
               MayTakePipeline(f.(sessions := f.sessions[id := session]), id, p)
    requires SessionOk(f.(sessions := f.sessions[id := session]), src, id)
    ensures FencesOk(f.(sessions := f.sessions[id := session]), src)
  {
    var g := f.(sessions := f.sessions[id := session]);
    forall other ensures HolderOk(g, other) {
      assert HolderOk(f, other);
    }
    forall other | other in g.sessions ensures SessionOk(g, src, other) {
      if other != id {
        assert SessionOk(f, src, other);
      }
    }
  }

  lemma FencingKeepsFences(s: State, a: Action)
    requires FencesOk(s.fences, s.sources) && a.Fencing()
    ensures FencesOk(ApplyFence(s, a).fences, s.sources)
  {
    var f := s.fences;
    if ApplyFence(s, a) != s {
      match a
      case OpenNode(id, actor, run, pipeline) =>
        UnknownHoldsNothing(f, s.sources, id);
        UpdateKeepsFences(f, s.sources, id, NodeSession(actor, run, pipeline, map[]));
      case OpenCompletion(id, actor, run) =>
        UnknownHoldsNothing(f, s.sources, id);
        UpdateKeepsFences(f, s.sources, id, CompletionSession(actor, run, None));
      case TakeRunFence(id) =>
        if ApplyFence(s, a).fences == Close(f, id) { CloseKeepsFences(f, s.sources, id); }
        else { TakeKeepsFences(f, s.sources, id, RunFence(f.sessions[id].run)); }
      case Snapshot(id) =>
        SnapshotKeepsFences(s, id);
      case TakePipelineFence(id, pipeline) =>
        if ApplyFence(s, a).fences == Close(f, id) { CloseKeepsFences(f, s.sources, id); }
        else { TakeKeepsFences(f, s.sources, id, PipelineFence(pipeline)); }
      case DoLoad(id, scope) =>
        LoadKeepsFences(s, id, scope);
      case Abort(id) => CloseKeepsFences(f, s.sources, id);
    }
  }

  lemma UnknownHoldsNothing(f: Fences, src: Sources, id: SessionId)
    requires FencesOk(f, src) && id !in f.sessions
    ensures forall fence :: fence in f.holder ==> f.holder[fence] != id
  {
    forall fence | fence in f.holder ensures f.holder[fence] != id {
      assert HolderOk(f, fence);
    }
  }

  lemma SnapshotKeepsFences(s: State, id: SessionId)
    requires FencesOk(s.fences, s.sources) && ApplyFence(s, Snapshot(id)) != s
    ensures FencesOk(ApplyFence(s, Snapshot(id)).fences, s.sources)
  {
    var f := s.fences;
    var session := f.sessions[id].(keys := Some(CandidatePipelines(s.sources, f.sessions[id].run)));
    forall p ensures !Holds(f, PipelineFence(p), id) {
      assert HolderOk(f, PipelineFence(p));
    }
    UpdateKeepsFences(f, s.sources, id, session);
  }

  lemma LoadKeepsFences(s: State, id: SessionId, scope: Scope)
    requires FencesOk(s.fences, s.sources) && ApplyFence(s, DoLoad(id, scope)) != s
    ensures FencesOk(ApplyFence(s, DoLoad(id, scope)).fences, s.sources)
  {
    var f := s.fences;
    var session := f.sessions[id];
    var visible := Visible(s.sources.committed, scope);
    assert SessionOk(f, s.sources, id);
    forall p | PipelineFence(p) in f.holder && f.holder[PipelineFence(p)] == id
      ensures p == session.pipeline
    {
      assert HolderOk(f, PipelineFence(p));
    }
    UpdateKeepsFences(f, s.sources, id, session.(loaded := session.loaded[scope := visible]));
  }

  /** Rows may change under open transactions as long as their fences are respected. */
  lemma RowsKeepFences(f: Fences, src: Sources, src': Sources)
    requires FencesOk(f, src)
    requires forall id, scope :: id in f.sessions && f.sessions[id].NodeSession? && scope in f.sessions[id].loaded ==>
               Visible(src'.committed, scope) == Visible(src.committed, scope)
    requires forall id :: id in f.sessions && f.sessions[id].CompletionSession? && f.sessions[id].keys.Some? ==>
               CandidatePipelines(src', f.sessions[id].run) <= CandidatePipelines(src, f.sessions[id].run)
    ensures FencesOk(f, src')
  {
    forall id | id in f.sessions ensures SessionOk(f, src', id) {
      assert SessionOk(f, src, id);
    }
  }

  lemma StageKeepsFences(s: State, id: SessionId, writes: seq<Write>)
    requires FencesOk(s.fences, s.sources)
    ensures FencesOk(ApplyStage(s, id, writes).fences, ApplyStage(s, id, writes).sources)
  {
    var next := ApplyStage(s, id, writes);
    CloseKeepsFences(s.fences, s.sources, id);
    if StageAccepted(s, id, writes) {
      var f, run := next.fences, s.fences.sessions[id].run;
      Acknowledgement.StageAllFrame(s.sources, run, writes);
      forall other | other in f.sessions && f.sessions[other].CompletionSession? && f.sessions[other].keys.Some?
        ensures CandidatePipelines(next.sources, f.sessions[other].run) <=
                CandidatePipelines(s.sources, f.sessions[other].run)
      {
        assert SessionOk(s.fences, s.sources, other);
        assert f.sessions[other].run != run;
        StagingIsPrivate(s.sources, run, writes, f.sessions[other].run);
      }
      RowsKeepFences(f, s.sources, next.sources);
    }
  }

  lemma StagingIsPrivate(src: Sources, run: RunId, writes: seq<Write>, other: RunId)
    requires run != other
    ensures CandidatePipelines(StageAll(src, run, writes), other) <= CandidatePipelines(src, other)
  {
    var next := StageAll(src, run, writes);
    forall p | p in CandidatePipelines(next, other) ensures p in CandidatePipelines(src, other) {
      var key :| key in next.candidates && key.run == other && key.scope.pipeline == p;
      Acknowledgement.StageAllTouches(src, run, writes, key);
    }
  }

  /** A promotion moves no scope that another open transaction has loaded. */
  lemma PromotionRespectsFences(s: State, id: SessionId, other: SessionId, scope: Scope)
    requires FencesOk(s.fences, s.sources) && Acknowledges(s, id)
    requires other in s.fences.sessions && other != id && s.fences.sessions[other].NodeSession?
    requires scope in s.fences.sessions[other].loaded
    ensures Visible(Promoted(s.sources, s.fences.sessions[id].run).committed, scope) ==
            Visible(s.sources.committed, scope)
  {
    var run := s.fences.sessions[id].run;
    assert SessionOk(s.fences, s.sources, other);
    assert scope.pipeline !in CandidatePipelines(s.sources, run);
    assert CandidateKey(run, scope) !in s.sources.candidates;
    SourceLedger.PromotedScope(s.sources, run, scope);
  }

  lemma CompleteKeepsFences(s: State, id: SessionId)
    requires FencesOk(s.fences, s.sources)
    ensures FencesOk(ApplyComplete(s, id).fences, ApplyComplete(s, id).sources)
  {
    var next := ApplyComplete(s, id);
    Acknowledgement.CompleteQueue(s, id);
    CloseKeepsFences(s.fences, s.sources, id);
    if Acknowledges(s, id) {
      var f := next.fences;
      assert f == Close(s.fences, id);
      forall other, scope | other in f.sessions && f.sessions[other].NodeSession? && scope in f.sessions[other].loaded
        ensures Visible(next.sources.committed, scope) == Visible(s.sources.committed, scope)
      {
        PromotionRespectsFences(s, id, other, scope);
      }
      RowsKeepFences(f, s.sources, next.sources);
    }
  }

  lemma DropKeepsFences(s: State, dropped: set<RunId>, graph: GraphId)
    requires FencesOk(s.fences, s.sources)
    ensures FencesOk(s.fences, DropCandidates(s.sources, dropped, graph, s.owners))
  {
    RowsKeepFences(s.fences, s.sources, DropCandidates(s.sources, dropped, graph, s.owners));
  }

  lemma OperatorKeepsFences(s: State, a: Action)
    requires FencesOk(s.fences, s.sources) && (a.DoCreate? || a.DoCancel?)
    ensures FencesOk(s.fences, ApplyOperator(s, a).sources)
    ensures ApplyOperator(s, a).fences == s.fences
  {
    if a.DoCreate? {
      DropKeepsFences(s, SupersededRuns(s.queue, a.graph), a.graph);
    } else if Cancellable(s.queue, a.run) {
      DropKeepsFences(s, {a.run}, s.queue.runs[a.run].graph);
    }
  }

  /** The fence invariant is kept by every action. */
  lemma StepKeepsFences(s: State, a: Action)
    requires FencesOk(s.fences, s.sources)
    ensures FencesOk(Apply(s, a).fences, Apply(s, a).sources)
  {
    if a.Fencing() {
      FencingKeepsFences(s, a);
      Acknowledgement.FencingKeepsRows(s, a);
    } else if a.DoStage? {
      StageKeepsFences(s, a.session, a.writes);
    } else if a.DoComplete? {
      CompleteKeepsFences(s, a.session);
    } else if a.DoCreate? || a.DoCancel? {
      OperatorKeepsFences(s, a);
    } else {
      Acknowledgement.QuietFrame(s, a);
    }
  }

  /** Every candidate a staging leaves on a scope it wrote records that scope's current base. */
  lemma {:induction false} StagedOnCurrentBase(src: Sources, run: RunId, writes: seq<Write>, scope: Scope)
    requires exists w :: w in writes && w.scope == scope
    ensures var next := StageAll(src, run, writes); var key := CandidateKey(run, scope);
            key in next.candidates ==>
              && next.candidates[key].baseData == Visible(src.committed, scope)
              && next.candidates[key].baseRevision == Revision(src.committed, scope)
  {
    var prefix, last := writes[..|writes| - 1], writes[|writes| - 1];
    Acknowledgement.StageAllFrame(src, run, prefix);
    if last.scope != scope {
      assert exists w :: w in prefix && w.scope == scope;
      StagedOnCurrentBase(src, run, prefix, scope);
    }
  }

  /**
   The state a node loads is the base its candidate records: nothing can be
   promoted into a loaded scope while the loading transaction is open.
   */
  lemma LoadedStateIsRecordedBase(s: State, id: SessionId, writes: seq<Write>, scope: Scope)
    requires FencesOk(s.fences, s.sources) && StageAccepted(s, id, writes)
    requires scope in s.fences.sessions[id].loaded && exists w :: w in writes && w.scope == scope
    ensures var key := CandidateKey(s.fences.sessions[id].run, scope);
            var next := ApplyStage(s, id, writes).sources;
            key in next.candidates ==> next.candidates[key].baseData == s.fences.sessions[id].loaded[scope]
  {
    assert SessionOk(s.fences, s.sources, id);
    StagedOnCurrentBase(s.sources, s.fences.sessions[id].run, writes, scope);
  }

  /** Under the run fence the candidate snapshot cannot have grown: that error is unreachable. */
  lemma SnapshotNeverOutgrown(s: State, id: SessionId)
    requires FencesOk(s.fences, s.sources) && ReadyToComplete(s, id)
    ensures OutcomeAt(s, id) != CandidatesChanged
  {
    assert SessionOk(s.fences, s.sources, id);
  }

  /** While a session holds a pipeline's fence, only its own completion changes what is visible there. */
  lemma FencedPipelineStays(s: State, a: Action, id: SessionId, scope: Scope)
    requires FencesOk(s.fences, s.sources) && Holds(s.fences, PipelineFence(scope.pipeline), id)
    requires a != DoComplete(id)
    ensures Visible(Apply(s, a).sources.committed, scope) == Visible(s.sources.committed, scope)
    ensures Revision(Apply(s, a).sources.committed, scope) == Revision(s.sources.committed, scope)
  {
    if a.DoComplete? {
      CompletionElsewhere(s, a.session, id, scope);
    } else if a.DoStage? {
      StagingCommitsNothing(s, a.session, a.writes);
    } else if a.DoCreate? || a.DoCancel? {
      assert Apply(s, a).sources.committed == s.sources.committed;
    } else {
      Acknowledgement.QuietFrame(s, a);
    }
  }

  lemma StagingCommitsNothing(s: State, id: SessionId, writes: seq<Write>)
    ensures ApplyStage(s, id, writes).sources.committed == s.sources.committed
  {
    if StageAccepted(s, id, writes) {
      Acknowledgement.StageAllFrame(s.sources, s.fences.sessions[id].run, writes);
    }
  }

  /** A completion holds the fence of every pipeline it promotes into. */
  lemma CompletionElsewhere(s: State, completing: SessionId, id: SessionId, scope: Scope)
    requires FencesOk(s.fences, s.sources) && Holds(s.fences, PipelineFence(scope.pipeline), id) && completing != id
    ensures Visible(ApplyComplete(s, completing).sources.committed, scope) == Visible(s.sources.committed, scope)
    ensures Revision(ApplyComplete(s, completing).sources.committed, scope) == Revision(s.sources.committed, scope)
  {
    Acknowledgement.CompleteQueue(s, completing);
    if Acknowledges(s, completing) {
      var run := s.fences.sessions[completing].run;
      assert SessionOk(s.fences, s.sources, completing);
      assert scope.pipeline !in CandidatePipelines(s.sources, run);
      assert CandidateKey(run, scope) !in s.sources.candidates;
      SourceLedger.PromotedScope(s.sources, run, scope);
    }
  }

  /** While a loading transaction stays open, no step changes what is committed in a scope it loaded. */
  lemma LoadedStaysCommitted(s: State, a: Action, id: SessionId, scope: Scope)
    requires FencesOk(s.fences, s.sources)
    requires id in s.fences.sessions && s.fences.sessions[id].NodeSession? && scope in s.fences.sessions[id].loaded
    requires id in Apply(s, a).fences.sessions
    ensures s.fences.sessions[id].loaded[scope] == Visible(s.sources.committed, scope)
    ensures Visible(Apply(s, a).sources.committed, scope) == Visible(s.sources.committed, scope)
    ensures Revision(Apply(s, a).sources.committed, scope) == Revision(s.sources.committed, scope)
  {
    assert SessionOk(s.fences, s.sources, id);
    if a == DoComplete(id) {
      Acknowledgement.CompleteQueue(s, id);
    } else {
      FencedPipelineStays(s, a, id, scope);
    }
  }
}
