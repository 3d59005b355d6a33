/** Status legality, terminal runs and atomic, at-most-once acknowledgement. */
module Acknowledgement {
  import opened Wrappers
  import opened RunStates
  import opened DurableRuns
  import opened Protocol
  import SourceLedger

  /** The table, plus the two edges taken outside it: a retry and the recovery of a jobless run. */
  predicate LegalStep(s: State, a: Action, run: RunId, before: Status, after: Status) {
    || before == after
    || CanTransition(before, after)
    || (a == DoRetry(run) && before == Failed && after == Pending)
    || (a.DoRecover? && before == Running && after == Pending && run !in s.queue.jobs)
  }

  /** Fences move no row. */
  lemma FencingKeepsRows(s: State, a: Action)
    requires a.Fencing()
    ensures var next := ApplyFence(s, a);
            next == s.(fences := next.fences)
  {
  }

  lemma StageKeepsQueue(s: State, id: SessionId, writes: seq<Write>)
    ensures var next := ApplyStage(s, id, writes);
            next == s.(fences := next.fences, sources := next.sources)
  {
  }

  lemma CompleteQueue(s: State, id: SessionId)
    ensures var next := ApplyComplete(s, id);
            && next.now == s.now && next.owners == s.owners
            && (Acknowledges(s, id) ==>
                  var run := s.fences.sessions[id].run;
                  && StatusOf(s.queue, run) == Some(Running)
                  && next.queue == SetCompleted(s.queue, run)
                  && next.sources == Promoted(s.sources, run))
            && (!Acknowledges(s, id) ==> next.queue == s.queue && next.sources == s.sources)
  {
  }

  predicate KeepsRun(s: State, a: Action, run: RunId, q: Queue)
    requires run in s.queue.runs
  {
    && run in q.runs
    && q.runs[run].graph == s.queue.runs[run].graph
    && LegalStep(s, a, run, s.queue.runs[run].status, q.runs[run].status)
    && (Terminal(q.runs[run].status) ==>
          Terminal(s.queue.runs[run].status) || a == DoCancel(run) || a.DoCreate? || a.DoComplete?)
  }

  lemma OperatorKeepsRun(s: State, a: Action, run: RunId)
    requires run in s.queue.runs
    requires a.Operator()
    ensures KeepsRun(s, a, run, ApplyOperator(s, a).queue)
  {
    match a
    case DoCreate(r, graph, hasVersion, jobType) =>
      if r !in s.queue.runs && r !in s.queue.jobs {
        var q := CreateQueue(s.queue, s.now, r, graph, hasVersion, jobType);
        assert run in q.runs;
      }
    case _ =>
  }

  lemma WorkerKeepsRun(s: State, a: Action, run: RunId)
    requires run in s.queue.runs
    requires a.Worker()
    ensures KeepsRun(s, a, run, ApplyWorker(s, a).queue)
  {
  }

  /** Every action moves every run along a legal edge or not at all, and runs never disappear. */
  lemma StepsFollowTable(s: State, a: Action, run: RunId)
    requires run in s.queue.runs
    ensures KeepsRun(s, a, run, Apply(s, a).queue)
  {
    if a.Operator() {
      OperatorKeepsRun(s, a, run);
    } else if a.Worker() {
      WorkerKeepsRun(s, a, run);
    } else if a.Fencing() {
      FencingKeepsRows(s, a);
    } else {
      RemainingKeepsRun(s, a, run);
    }
  }

  lemma RemainingKeepsRun(s: State, a: Action, run: RunId)
    requires run in s.queue.runs && !a.Operator() && !a.Worker() && !a.Fencing()
    ensures KeepsRun(s, a, run, Apply(s, a).queue)
  {
    match a
    case DoStage(id, writes) => StageKeepsQueue(s, id, writes);
    case DoComplete(id) => CompleteQueue(s, id);
    case _ =>
  }

  predicate Homed(s: State, key: CandidateKey) {
    && key.run in s.queue.runs
    && s.queue.runs[key.run].graph == key.scope.pipeline.graph
    && key.scope.pipeline.graph in s.owners
    && s.owners[key.scope.pipeline.graph] == key.scope.pipeline.owner
    && !Terminal(s.queue.runs[key.run].status)
  }

  ghost predicate Acked(s: State, h: seq<Promotion>) {
    && (forall i :: 0 <= i < |h| ==> StatusOf(s.queue, h[i].run) == Some(Completed))
    && (forall i, j :: 0 <= i < j < |h| ==> h[i].run != h[j].run)
  }

  ghost predicate AckOk(s: State) {
    && (forall key :: key in s.sources.candidates ==> Homed(s, key))
    && (forall id :: id in s.fences.sessions && s.fences.sessions[id].NodeSession? ==>
          var p := s.fences.sessions[id].pipeline;
          p.graph in s.owners && s.owners[p.graph] == p.owner)
    && (forall scope :: Acked(s, HistoryOf(s.sources, scope)))
  }

  ghost predicate CompletedStays(q: Queue, q': Queue) {
    forall run :: StatusOf(q, run) == Some(Completed) ==> StatusOf(q', run) == Some(Completed)
  }

  lemma StepKeepsCompleted(s: State, a: Action)
    ensures CompletedStays(s.queue, Apply(s, a).queue)
  {
    forall run | StatusOf(s.queue, run) == Some(Completed)
      ensures StatusOf(Apply(s, a).queue, run) == Some(Completed)
    {
      StepsFollowTable(s, a, run);
    }
  }

  /** A step that moves no history and keeps surviving candidates at home keeps the invariant. */
  lemma FrameKeepsAck(s: State, next: State)
    requires AckOk(s)
    requires next.owners == s.owners && next.sources.history == s.sources.history
    requires CompletedStays(s.queue, next.queue)
    requires forall id :: id in next.fences.sessions && next.fences.sessions[id].NodeSession? ==>
               var p := next.fences.sessions[id].pipeline;
               p.graph in next.owners && next.owners[p.graph] == p.owner
    requires forall key :: key in next.sources.candidates ==> Homed(next, key)
    ensures AckOk(next)
  {
    forall scope ensures Acked(next, HistoryOf(next.sources, scope)) {
      assert Acked(s, HistoryOf(s.sources, scope));
    }
  }

  /** An action other than creation, cancellation, staging and completion leaves the sources alone. */
  predicate Quiet(a: Action) {
    !a.DoCreate? && !a.DoCancel? && !a.DoStage? && !a.DoComplete?
  }

  lemma QuietFrame(s: State, a: Action)
    requires Quiet(a)
    ensures Apply(s, a).sources == s.sources && Apply(s, a).owners == s.owners
    ensures a.Fencing() || Apply(s, a).fences == s.fences
  {
    if a.Operator() {
      QuietOperatorFrame(s, a);
    } else if a.Worker() {
      QuietWorkerFrame(s, a);
    } else if a.Fencing() {
      FencingKeepsRows(s, a);
      QuietFencingFrame(s, a);
    }
  }

  lemma QuietOperatorFrame(s: State, a: Action)
    requires Quiet(a) && a.Operator()
    ensures Apply(s, a).sources == s.sources && Apply(s, a).owners == s.owners && Apply(s, a).fences == s.fences
  {
  }

  lemma QuietWorkerFrame(s: State, a: Action)
    requires a.Worker()
    ensures Apply(s, a).sources == s.sources && Apply(s, a).owners == s.owners && Apply(s, a).fences == s.fences
  {
  }

  lemma QuietFencingFrame(s: State, a: Action)
    requires a.Fencing()
    ensures Apply(s, a).owners == s.owners
  {
  }

  lemma FencingOpensOwned(s: State, a: Action, id: SessionId)
    requires AckOk(s) && a.Fencing()
    requires id in ApplyFence(s, a).fences.sessions && ApplyFence(s, a).fences.sessions[id].NodeSession?
    ensures var p := ApplyFence(s, a).fences.sessions[id].pipeline;
            p.graph in s.owners && s.owners[p.graph] == p.owner
  {
  }

  lemma QuietStepKeepsAck(s: State, a: Action)
    requires AckOk(s) && Quiet(a)
    ensures AckOk(Apply(s, a))
  {
    var next := Apply(s, a);
    QuietFrame(s, a);
    StepKeepsCompleted(s, a);
    forall key | key in next.sources.candidates ensures Homed(next, key) {
      assert Homed(s, key);
      StepsFollowTable(s, a, key.run);
    }
    forall id | id in next.fences.sessions && next.fences.sessions[id].NodeSession?
      ensures var p := next.fences.sessions[id].pipeline; p.graph in s.owners && s.owners[p.graph] == p.owner
    {
      if a.Fencing() { FencingOpensOwned(s, a, id); }
    }
    FrameKeepsAck(s, next);
  }

  lemma OperatorStepKeepsAck(s: State, a: Action)
    requires AckOk(s) && (a.DoCreate? || a.DoCancel?)
    ensures AckOk(ApplyOperator(s, a))
  {
    var next := ApplyOperator(s, a);
    forall key | key in next.sources.candidates ensures Homed(next, key) {
      assert Homed(s, key);
      OperatorKeepsRun(s, a, key.run);
    }
    forall run | StatusOf(s.queue, run) == Some(Completed) ensures StatusOf(next.queue, run) == Some(Completed) {
      OperatorKeepsRun(s, a, run);
    }
    FrameKeepsAck(s, next);
  }

  /** Staging touches only its run and the scopes it was given. */
  lemma {:induction false} StageAllTouches(src: Sources, run: RunId, writes: seq<Write>, key: CandidateKey)
    requires key in StageAll(src, run, writes).candidates
    ensures key in src.candidates || (key.run == run && exists w :: w in writes && w.scope == key.scope)
  {
    if writes != [] {
      var last := writes[|writes| - 1];
      if key != CandidateKey(run, last.scope) {
        StageAllTouches(src, run, writes[..|writes| - 1], key);
      } else {
        assert last in writes && last.scope == key.scope;
      }
    }
  }

  lemma {:induction false} StageAllFrame(src: Sources, run: RunId, writes: seq<Write>)
    ensures StageAll(src, run, writes).history == src.history
    ensures StageAll(src, run, writes).committed == src.committed
  {
    if writes != [] {
      StageAllFrame(src, run, writes[..|writes| - 1]);
    }
  }

  lemma StageKeepsAck(s: State, id: SessionId, writes: seq<Write>)
    requires AckOk(s)
    ensures AckOk(ApplyStage(s, id, writes))
  {
    var next := ApplyStage(s, id, writes);
    StageKeepsQueue(s, id, writes);
    if StageAccepted(s, id, writes) {
      StageAllFrame(s.sources, s.fences.sessions[id].run, writes);
    }
    forall key | key in next.sources.candidates ensures Homed(next, key) {
      if StageAccepted(s, id, writes) {
        StageAllTouches(s.sources, s.fences.sessions[id].run, writes, key);
      }
      assert key in s.sources.candidates ==> Homed(s, key);
    }
    FrameKeepsAck(s, next);
  }

  lemma PromotionKeepsAcked(s: State, run: RunId, next: State, scope: Scope)
    requires Acked(s, HistoryOf(s.sources, scope))
    requires StatusOf(s.queue, run) == Some(Running) && Promotable(s.sources, run)
    requires next.queue == SetCompleted(s.queue, run) && next.sources == Promoted(s.sources, run)
    ensures Acked(next, HistoryOf(next.sources, scope))
  {
    SourceLedger.PromotedScope(s.sources, run, scope);
    var h, h' := HistoryOf(s.sources, scope), HistoryOf(next.sources, scope);
    forall i | 0 <= i < |h'| ensures StatusOf(next.queue, h'[i].run) == Some(Completed) {
      if i < |h| {
        assert h'[i] == h[i];
      }
    }
  }

  lemma CompleteKeepsAck(s: State, id: SessionId)
    requires AckOk(s)
    ensures AckOk(ApplyComplete(s, id))
  {
    var next := ApplyComplete(s, id);
    CompleteQueue(s, id);
    if Acknowledges(s, id) {
      var run := s.fences.sessions[id].run;
      forall key | key in next.sources.candidates ensures Homed(next, key) {
        assert key.run != run && Homed(s, key);
      }
      forall scope ensures Acked(next, HistoryOf(next.sources, scope)) {
        PromotionKeepsAcked(s, run, next, scope);
      }
    } else {
      forall key | key in next.sources.candidates ensures Homed(next, key) {
        assert Homed(s, key);
      }
      FrameKeepsAck(s, next);
    }
  }

  /** The acknowledgement invariant is kept by every action. */
  lemma StepKeepsAck(s: State, a: Action)
    requires AckOk(s)
    ensures AckOk(Apply(s, a))
  {
    if Quiet(a) {
      QuietStepKeepsAck(s, a);
    } else if a.DoStage? {
      StageKeepsAck(s, a.session, a.writes);
    } else if a.DoComplete? {
      CompleteKeepsAck(s, a.session);
    } else {
      OperatorStepKeepsAck(s, a);
    }
  }
}
