/** What holds over whole runs of the protocol, from an empty database on. */
module Guarantees {
  import opened Wrappers
  import opened RunStates
  import opened DurableRuns
  import opened Protocol
  import opened SourceLedger
  import opened Acknowledgement
  import opened FenceStability
  import L = Leases

  ghost predicate Invariant(s: State) {
    LedgerOk(s.sources) && AckOk(s) && FencesOk(s.fences, s.sources)
  }

  lemma OperatorKeepsLedger(s: State, a: Action)
    requires LedgerOk(s.sources) && (a.DoCreate? || a.DoCancel?)
    ensures LedgerOk(ApplyOperator(s, a).sources)
  {
    if a.DoCreate? {
      DropKeepsLedger(s.sources, SupersededRuns(s.queue, a.graph), a.graph, s.owners);
    } else if Cancellable(s.queue, a.run) {
      DropKeepsLedger(s.sources, {a.run}, s.queue.runs[a.run].graph, s.owners);
    }
  }

  lemma StageKeepsLedger(s: State, id: SessionId, writes: seq<Write>)
    requires LedgerOk(s.sources)
    ensures LedgerOk(ApplyStage(s, id, writes).sources)
  {
    if StageAccepted(s, id, writes) {
      StageAllKeepsLedger(s.sources, s.fences.sessions[id].run, writes);
    }
  }

  lemma CompleteKeepsLedger(s: State, id: SessionId)
    requires LedgerOk(s.sources)
    ensures LedgerOk(ApplyComplete(s, id).sources)
  {
    CompleteSources(s, id);
    if Acknowledges(s, id) {
      PromotionKeepsLedger(s.sources, s.fences.sessions[id].run);
    }
  }

  lemma CompleteSources(s: State, id: SessionId)
    ensures ApplyComplete(s, id).sources ==
            if Acknowledges(s, id) then Promoted(s.sources, s.fences.sessions[id].run) else s.sources
  {
    CompleteQueue(s, id);
  }

  lemma StepKeepsLedger(s: State, a: Action)
    requires LedgerOk(s.sources)
    ensures LedgerOk(Apply(s, a).sources)
  {
    if a.DoStage? {
      StageKeepsLedger(s, a.session, a.writes);
    } else if a.DoComplete? {
      CompleteKeepsLedger(s, a.session);
    } else if a.DoCreate? || a.DoCancel? {
      OperatorKeepsLedger(s, a);
    } else {
      QuietFrame(s, a);
    }
  }

  /** Every reachable state, whatever the workers, operators and sessions do, keeps the invariant. */
  lemma {:induction false} ReachableInvariant(now: int, owners: map<GraphId, UserId>, actions: seq<Action>)
    ensures Invariant(After(Initial(now, owners), actions))
  {
    if actions != [] {
      var prefix := actions[..|actions| - 1];
      var s, a := After(Initial(now, owners), prefix), actions[|actions| - 1];
      ReachableInvariant(now, owners, prefix);
      StepKeepsLedger(s, a);
      StepKeepsAck(s, a);
      StepKeepsFences(s, a);
    }
  }

  // ---------------------------------------------------------- no lost update

  /** In every reachable state the promotions of a scope are one chain counted by its revision. */
  lemma NoLostUpdate(now: int, owners: map<GraphId, UserId>, actions: seq<Action>, scope: Scope)
    ensures var src := After(Initial(now, owners), actions).sources; var h := HistoryOf(src, scope);
            && Revision(src.committed, scope) == |h|
            && Visible(src.committed, scope) == VisibleAt(h, |h|)
            && (forall i :: 0 <= i < |h| ==>
                  h[i].candidate.baseRevision == i && h[i].candidate.baseData == VisibleAt(h, i)
                  && h[i].after == VisibleAfter(h[i].candidate))
            && (forall i, j :: 0 <= i < j < |h| ==> h[i].run != h[j].run)
  {
    ReachableInvariant(now, owners, actions);
    var s := After(Initial(now, owners), actions);
    assert ScopeOk(s.sources, scope) && Acked(s, HistoryOf(s.sources, scope));
  }

  // ------------------------------------------- atomic, at-most-once promotion

  /** The history moves only in the one step that completes a run. */
  lemma PromotionIsAcknowledgement(s: State, a: Action)
    requires Apply(s, a).sources.history != s.sources.history
    ensures a.DoComplete? && Acknowledges(s, a.session)
    ensures StatusOf(s.queue, s.fences.sessions[a.session].run) == Some(Running)
    ensures StatusOf(Apply(s, a).queue, s.fences.sessions[a.session].run) == Some(Completed)
  {
    if a.DoStage? {
      HistoryKeptByStage(s, a.session, a.writes);
    } else if a.DoComplete? {
      CompleteQueue(s, a.session);
    } else if !a.DoCreate? && !a.DoCancel? {
      QuietFrame(s, a);
    }
  }

  lemma HistoryKeptByStage(s: State, id: SessionId, writes: seq<Write>)
    ensures ApplyStage(s, id, writes).sources.history == s.sources.history
  {
    if StageAccepted(s, id, writes) {
      StageAllFrame(s.sources, s.fences.sessions[id].run, writes);
    }
  }

  /**
   That step promotes every candidate of the run, once and with its own data, and nothing else; the
   others keep theirs.
   */
  lemma AcknowledgementPromotesAll(s: State, id: SessionId, scope: Scope)
    requires Acknowledges(s, id)
    ensures var run := s.fences.sessions[id].run; var next := ApplyComplete(s, id).sources;
            && HistoryOf(next, scope) ==
               (if CandidateKey(run, scope) in s.sources.candidates then
                  var c := s.sources.candidates[CandidateKey(run, scope)];
                  HistoryOf(s.sources, scope) + [Promotion(run, c, VisibleAfter(c))]
                else HistoryOf(s.sources, scope))
            && CandidateScopes(next, run) == {}
  {
    CompleteQueue(s, id);
    PromotedScope(s.sources, s.fences.sessions[id].run, scope);
  }

  /** A run becomes COMPLETED in no other way. */
  lemma CompletedOnlyByAcknowledgement(s: State, a: Action, run: RunId)
    requires StatusOf(s.queue, run) != Some(Completed) && StatusOf(Apply(s, a).queue, run) == Some(Completed)
    ensures a.DoComplete? && Acknowledges(s, a.session) && s.fences.sessions[a.session].run == run
  {
    if run in s.queue.runs {
      StepsFollowTable(s, a, run);
    }
    if a.DoComplete? {
      CompleteQueue(s, a.session);
    } else {
      CompletionNeedsComplete(s, a, run);
    }
  }

  lemma CompletionNeedsComplete(s: State, a: Action, run: RunId)
    requires !a.DoComplete?
    ensures StatusOf(Apply(s, a).queue, run) == Some(Completed) ==> StatusOf(s.queue, run) == Some(Completed)
  {
    if a.Fencing() {
      FencingKeepsRows(s, a);
    } else if a.DoStage? {
      StageKeepsQueue(s, a.session, a.writes);
    } else if a.Operator() {
      OperatorCompletesNothing(s, a, run);
    } else {
    }
  }

  lemma OperatorCompletesNothing(s: State, a: Action, run: RunId)
    requires a.Operator()
    ensures StatusOf(ApplyOperator(s, a).queue, run) == Some(Completed) ==> StatusOf(s.queue, run) == Some(Completed)
  {
  }

  /** A terminal run keeps its status under every further run of actions. */
  lemma {:induction false} TerminalStatusStays(s: State, later: seq<Action>, run: RunId)
    requires run in s.queue.runs && Terminal(s.queue.runs[run].status)
    ensures StatusOf(After(s, later).queue, run) == StatusOf(s.queue, run)
  {
    if later != [] {
      var prefix := later[..|later| - 1];
      TerminalStatusStays(s, prefix, run);
      StepsFollowTable(After(s, prefix), later[|later| - 1], run);
    }
  }

  lemma {:induction false} AfterConcat(s: State, first: seq<Action>, second: seq<Action>)
    ensures After(s, first + second) == After(After(s, first), second)
  {
    if second == [] {
      assert first + second == first;
    } else {
      var prefix := second[..|second| - 1];
      assert (first + second)[..|first + second| - 1] == first + prefix;
      AfterConcat(s, first, prefix);
    }
  }

  /** Terminal runs keep their status for ever and hold no candidates. */
  lemma TerminalForever(now: int, owners: map<GraphId, UserId>, before: seq<Action>, later: seq<Action>, run: RunId)
    requires var s := After(Initial(now, owners), before);
             run in s.queue.runs && Terminal(s.queue.runs[run].status)
    ensures var s := After(Initial(now, owners), before); var t := After(s, later);
            && StatusOf(t.queue, run) == StatusOf(s.queue, run)
            && CandidateScopes(t.sources, run) == {}
  {
    var s := After(Initial(now, owners), before);
    var t := After(s, later);
    TerminalStatusStays(s, later, run);
    AfterConcat(Initial(now, owners), before, later);
    ReachableInvariant(now, owners, before + later);
    forall key | key in t.sources.candidates ensures key.run != run {
      assert Homed(t, key);
    }
  }

  /** A FAILED run keeps its candidates in every step that does not supersede it. */
  lemma FailedKeepsCandidates(s: State, a: Action, key: CandidateKey)
    requires StatusOf(s.queue, key.run) == Some(Failed)
    requires StatusOf(Apply(s, a).queue, key.run) != Some(Superseded)
    ensures key in Apply(s, a).sources.candidates <==> key in s.sources.candidates
    ensures key in s.sources.candidates ==>
              Apply(s, a).sources.candidates[key] == s.sources.candidates[key]
  {
    if Quiet(a) {
      QuietFrame(s, a);
    } else if a.DoStage? {
      if StageAccepted(s, a.session, a.writes) {
        StagingKeepsOthers(s.sources, s.fences.sessions[a.session].run, a.writes, key);
      }
    } else if a.DoComplete? {
      CompleteQueue(s, a.session);
    } else if a.DoCreate? {
      OperatorKeepsRun(s, a, key.run);
    }
  }

  lemma {:induction false} StagingKeepsOthers(src: Sources, run: RunId, writes: seq<Write>, key: CandidateKey)
    requires key.run != run
    ensures key in StageAll(src, run, writes).candidates <==> key in src.candidates
    ensures key in src.candidates ==> StageAll(src, run, writes).candidates[key] == src.candidates[key]
  {
    if writes != [] {
      StagingKeepsOthers(src, run, writes[..|writes| - 1], key);
    }
  }

  // ----------------------------------------------------------------- fences

  /** In every reachable state a completion never finds its candidate snapshot outgrown. */
  lemma CandidatesNeverChangeWhileFenced(now: int, owners: map<GraphId, UserId>, actions: seq<Action>, id: SessionId)
    requires ReadyToComplete(After(Initial(now, owners), actions), id)
    ensures OutcomeAt(After(Initial(now, owners), actions), id) != CandidatesChanged
  {
    ReachableInvariant(now, owners, actions);
    SnapshotNeverOutgrown(After(Initial(now, owners), actions), id);
  }

  /** In every reachable state staging records as base exactly what the node loaded. */
  lemma LoadedBaseIsRecorded(now: int, owners: map<GraphId, UserId>, actions: seq<Action>, id: SessionId,
                             writes: seq<Write>, scope: Scope)
    requires var s := After(Initial(now, owners), actions);
             StageAccepted(s, id, writes) && scope in s.fences.sessions[id].loaded
    requires exists w :: w in writes && w.scope == scope
    ensures var s := After(Initial(now, owners), actions);
            var key := CandidateKey(s.fences.sessions[id].run, scope);
            var next := ApplyStage(s, id, writes).sources;
            key in next.candidates ==> next.candidates[key].baseData == s.fences.sessions[id].loaded[scope]
  {
    ReachableInvariant(now, owners, actions);
    LoadedStateIsRecordedBase(After(Initial(now, owners), actions), id, writes, scope);
  }

  /** In every reachable state only a completion that holds a pipeline's fence can move what is visible there. */
  lemma FencedPipelineNeverMoves(now: int, owners: map<GraphId, UserId>, actions: seq<Action>, a: Action, id: SessionId,
                                 scope: Scope)
    requires Holds(After(Initial(now, owners), actions).fences, PipelineFence(scope.pipeline), id)
        && a != DoComplete(id)
    ensures var s := After(Initial(now, owners), actions);
            Visible(Apply(s, a).sources.committed, scope) == Visible(s.sources.committed, scope)
  {
    ReachableInvariant(now, owners, actions);
    FencedPipelineStays(After(Initial(now, owners), actions), a, id, scope);
  }

  // ------------------------------------------------------ leases and fencing

  ghost predicate GuardedRun(s: State, actions: seq<Action>) {
    forall i :: 0 <= i < |actions| ==> L.Guarded(After(s, actions[..i]), actions[i])
  }

  lemma {:induction false} GuardedRunKeepsWork(now: int, owners: map<GraphId, UserId>, actions: seq<Action>)
    requires GuardedRun(Initial(now, owners), actions)
    ensures L.WorkOk(After(Initial(now, owners), actions))
  {
    if actions != [] {
      var prefix := actions[..|actions| - 1];
      forall i | 0 <= i < |prefix| ensures L.Guarded(After(Initial(now, owners), prefix[..i]), prefix[i]) {
        assert prefix[..i] == actions[..i];
      }
      GuardedRunKeepsWork(now, owners, prefix);
      assert L.Guarded(After(Initial(now, owners), actions[..|actions| - 1]), actions[|actions| - 1]);
      L.StepKeepsWork(After(Initial(now, owners), prefix), actions[|actions| - 1]);
    }
  }

  /** Under the two guards no run with a job is ever stranded, and its work can be claimed after some wait. */
  lemma NoStrandedRun(now: int, owners: map<GraphId, UserId>, actions: seq<Action>, run: RunId)
    requires GuardedRun(Initial(now, owners), actions)
    ensures var s := After(Initial(now, owners), actions);
            && L.NotStranded(s.queue, run)
            && (run in s.queue.jobs && StatusOf(s.queue, run) in {Some(Pending), Some(Running)} ==>
                  exists wait: nat :: L.ClaimableAfter(s, run, wait))
  {
    GuardedRunKeepsWork(now, owners, actions);
    var s := After(Initial(now, owners), actions);
    assert L.RunOk(s, run, 0);
    if run in s.queue.jobs && StatusOf(s.queue, run) in {Some(Pending), Some(Running)} {
      var wait := L.UnfinishedWorkIsClaimable(s, run);
    }
  }

  /**
   Once a worker does not own a run's lease, and until it claims the run anew, it
   never owns it, and none of its attempts changes a row.
   */
  lemma {:induction false} FencedForever(s: State, actions: seq<Action>, worker: WorkerId, run: RunId, a: Action)
    requires L.Disowned(s, worker, run)
    requires forall x :: x in actions ==> !L.Reclaims(x, worker, run)
    ensures L.Disowned(After(s, actions), worker, run)
    ensures L.Attempt(After(s, actions), a, worker, run) ==>
              && Apply(After(s, actions), a).queue == After(s, actions).queue
              && Apply(After(s, actions), a).sources == After(s, actions).sources
  {
    if actions != [] {
      FencedForever(s, actions[..|actions| - 1], worker, run, a);
      L.StepKeepsDisowned(After(s, actions[..|actions| - 1]), actions[|actions| - 1], worker, run);
    }
    if L.Attempt(After(s, actions), a, worker, run) {
      L.AttemptWithoutLease(After(s, actions), a, worker, run);
    }
  }

  /**
   A lease is exclusive for its whole time: unless its holder gives it up, or an
   operator resumes or retries the run, every state before its end finds it live,
   so that the holder's transactions are accepted and nobody can claim the run.
   */
  lemma {:induction false} LeaseIsExclusive(s: State, actions: seq<Action>, worker: WorkerId, run: RunId, lease: nat)
    requires L.HeldUntil(s, worker, run, s.now + lease)
    requires forall x :: x in actions ==> !L.Yields(x, worker, run, lease)
    requires After(s, actions).now < s.now + lease
    ensures var t := After(s, actions);
            && L.HeldUntil(t, worker, run, s.now + lease) && t.now >= s.now
            && LeaseLive(t.queue, t.now, run, worker) && !Claimable(t.queue, t.now, run)
  {
    if actions != [] {
      var prefix, last := actions[..|actions| - 1], actions[|actions| - 1];
      ClockNeverBack(After(s, prefix), last);
      LeaseIsExclusive(s, prefix, worker, run, lease);
      L.StepKeepsHold(After(s, prefix), last, worker, run, s.now + lease, lease);
    }
  }

  lemma ClockNeverBack(s: State, a: Action)
    ensures Apply(s, a).now >= s.now
  {
    if a.DoComplete? {
      CompleteQueue(s, a.session);
    }
  }
}
