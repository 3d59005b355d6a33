/** No run is stranded, and a worker that lost its lease can do nothing. */
module Leases {
  import opened Wrappers
  import opened RunStates
  import opened DurableRuns
  import opened Protocol
  import Acknowledgement

  /** A run that still has work to do has a job some worker holds or can claim. */
  predicate NotStranded(q: Queue, run: RunId) {
    run in q.runs && run in q.jobs && q.runs[run].status in {Pending, Running, Paused} ==> Active(q.jobs[run])
  }

  predicate JobOk(q: Queue, run: RunId) {
    run in q.jobs ==>
      && run in q.runs
      && (q.jobs[run].status == JobLeased ==> q.jobs[run].leaseOwner.Some? && q.jobs[run].leaseExpiresAt.Some?)
  }

  /** How far a lease holder has got says what the run's status can be. */
  predicate HolderOk(s: State, run: RunId, worker: WorkerId) {
    LeaseLive(s.queue, s.now, run, worker) ==>
      var phase := PhaseOf(s, worker);
      && (phase.Dead? || phase.On(run))
      && (phase.Executing? || phase.Raised? ==> StatusOf(s.queue, run) != Some(Pending))
      && (phase.Returned? ==> StatusOf(s.queue, run) !in {Some(Pending), Some(Running)})
  }

  predicate RunOk(s: State, run: RunId, worker: WorkerId) {
    JobOk(s.queue, run) && HolderOk(s, run, worker) && NotStranded(s.queue, run)
  }

  ghost predicate WorkOk(s: State) {
    forall run, worker :: RunOk(s, run, worker)
  }

  /** A start is safe while the job is open and no live holder is about to close it. */
  predicate SafeStart(s: State, run: RunId) {
    run in s.queue.jobs ==>
      var job := s.queue.jobs[run];
      && Active(job)
      && (job.leaseOwner.Some? && LeaseLive(s.queue, s.now, run, job.leaseOwner.value) ==>
            !PhaseOf(s, job.leaseOwner.value).Returned?)
  }

  /**
   What the code must be trusted for: a start that leaves FAILED is safe, and a
   lease holder does not raise while its run is still PENDING.
   */
  predicate Guarded(s: State, a: Action) {
    && (a.DoStart? && a.retryBranch && MayStart(s, a.actor, a.run, a.retryBranch)
        && StatusOf(s.queue, a.run) == Some(Failed) ==>
          SafeStart(s, a.run))
    && (a.DoRaise? && PhaseOf(s, a.worker) !in {Idle, Dead} ==>
          var run := PhaseOf(s, a.worker).run;
          !(StatusOf(s.queue, run) == Some(Pending) && LeaseLive(s.queue, s.now, run, a.worker)))
  }

  lemma CreateKeepsWork(s: State, a: Action, run: RunId, worker: WorkerId)
    requires RunOk(s, run, worker) && a.DoCreate?
    ensures RunOk(ApplyOperator(s, a), run, worker)
  {
    if a.run !in s.queue.runs && a.run !in s.queue.jobs && run != a.run && run in s.queue.runs {
      var q := CreateQueue(s.queue, s.now, a.run, a.graph, a.hasVersion, a.enqueue);
      assert run in q.runs && (run in q.jobs <==> run in s.queue.jobs);
    }
  }

  lemma OperatorKeepsWork(s: State, a: Action, run: RunId, worker: WorkerId)
    requires RunOk(s, run, worker) && a.Operator()
    ensures RunOk(ApplyOperator(s, a), run, worker)
  {
    if a.DoCreate? {
      CreateKeepsWork(s, a, run, worker);
    }
  }

  lemma WorkerKeepsWork(s: State, a: Action, run: RunId, worker: WorkerId)
    requires RunOk(s, run, worker) && a.Worker() && Guarded(s, a)
    requires RunOk(s, run, a.worker)
    ensures RunOk(ApplyWorker(s, a), run, worker)
  {
  }

  lemma StartKeepsWork(s: State, a: Action, run: RunId, worker: WorkerId)
    requires RunOk(s, run, worker) && a.DoStart? && Guarded(s, a)
    ensures RunOk(ApplyStart(s, a.actor, a.run, a.retryBranch), run, worker)
  {
  }

  lemma FailKeepsWork(s: State, a: Action, run: RunId, worker: WorkerId)
    requires RunOk(s, run, worker) && a.DoFail?
    ensures RunOk(ApplyFail(s, a.actor, a.run, a.error), run, worker)
  {
  }

  lemma CompleteKeepsWork(s: State, id: SessionId, run: RunId, worker: WorkerId)
    requires RunOk(s, run, worker)
    ensures RunOk(ApplyComplete(s, id), run, worker)
  {
    Acknowledgement.CompleteQueue(s, id);
  }

  /** The lease invariant is kept by every guarded action. */
  lemma StepKeepsWork(s: State, a: Action)
    requires WorkOk(s) && Guarded(s, a)
    ensures WorkOk(Apply(s, a))
  {
    forall run, worker ensures RunOk(Apply(s, a), run, worker) {
      assert RunOk(s, run, worker);
      if a.Operator() {
        OperatorKeepsWork(s, a, run, worker);
      } else if a.Worker() {
        assert RunOk(s, run, a.worker);
        WorkerKeepsWork(s, a, run, worker);
      } else if a.Fencing() {
        Acknowledgement.FencingKeepsRows(s, a);
      } else if a.DoStart? {
        StartKeepsWork(s, a, run, worker);
      } else if a.DoFail? {
        FailKeepsWork(s, a, run, worker);
      } else if a.DoStage? {
        Acknowledgement.StageKeepsQueue(s, a.session, a.writes);
      } else if a.DoComplete? {
        CompleteKeepsWork(s, a.session, run, worker);
      }
    }
  }

  predicate ClaimableAfter(s: State, run: RunId, wait: nat) {
    Claimable(s.queue, s.now + wait, run)
  }

  /** The invariant leaves unfinished work where a later claim finds it. */
  lemma UnfinishedWorkIsClaimable(s: State, run: RunId) returns (wait: nat)
    requires WorkOk(s) && run in s.queue.runs && run in s.queue.jobs
    requires s.queue.runs[run].status in {Pending, Running}
    ensures ClaimableAfter(s, run, wait)
  {
    assert RunOk(s, run, 0);
    var job := s.queue.jobs[run];
    var due := if job.status == JobQueued then job.availableAt else job.leaseExpiresAt.value;
    wait := if due > s.now then due - s.now else 0;
  }

  // ------------------------------------------------- the guards are exact

  /** What follows a raise when nobody else acts: the failure mark, then finalization. */
  function RaiseToEnd(s: State, worker: WorkerId, error: string): State {
    ApplyWorker(ApplyWorker(ApplyWorker(s, DoRaise(worker)), DoMarkFailed(worker, error)),
                DoFinalize(worker, Some(error)))
  }

  predicate InBody(s: State, worker: WorkerId, run: RunId) {
    PhaseOf(s, worker).On(run)
        && (PhaseOf(s, worker).Loaded? || PhaseOf(s, worker).Entered? || PhaseOf(s, worker).Executing?)
  }

  lemma RaiseToEndQueue(s: State, worker: WorkerId, run: RunId, error: string)
    requires InBody(s, worker, run)
    ensures RaiseToEnd(s, worker, error).queue ==
            Finalize(MarkFailedIfOwned(s.queue, s.now, run, worker, error), s.now, run, worker, Some(error))
  {
  }

  /** A lease holder that raises strands its run exactly when the run is still PENDING. */
  lemma RaiseStrandsIffPending(s: State, worker: WorkerId, run: RunId, error: string)
    requires WorkOk(s) && InBody(s, worker, run) && LeaseLive(s.queue, s.now, run, worker) && error != ""
    ensures !NotStranded(RaiseToEnd(s, worker, error).queue, run) <==> StatusOf(s.queue, run) == Some(Pending)
  {
    assert RunOk(s, run, worker);
    RaiseToEndQueue(s, worker, run, error);
  }

  /**
   A retry body that leaves FAILED keeps the lease invariant exactly when its
   start is safe; it strands its run at once exactly when the job is closed.
   */
  lemma RetryStartKeepsWorkIff(s: State, worker: WorkerId, run: RunId)
    requires WorkOk(s) && MayStart(s, Some(worker), run, true) && StatusOf(s.queue, run) == Some(Failed)
    ensures WorkOk(ApplyStart(s, Some(worker), run, true)) <==> SafeStart(s, run)
    ensures NotStranded(ApplyStart(s, Some(worker), run, true).queue, run) <==>
            (run in s.queue.jobs ==> Active(s.queue.jobs[run]))
  {
    var a := DoStart(Some(worker), run, true);
    var next := ApplyStart(s, Some(worker), run, true);
    if SafeStart(s, run) {
      StepKeepsWork(s, a);
    } else if Active(s.queue.jobs[run]) {
      var holder := s.queue.jobs[run].leaseOwner.value;
      assert !RunOk(next, run, holder);
    } else {
      assert !RunOk(next, run, worker);
    }
  }

  /** An unsafe start is stranding: at once, or by the finalization its run's lease holder comes to next. */
  lemma UnsafeStartStrands(s: State, worker: WorkerId, run: RunId, outcome: Option<string>)
    requires WorkOk(s)
    requires MayStart(s, Some(worker), run, true) && StatusOf(s.queue, run) == Some(Failed) && !SafeStart(s, run)
    ensures var next := ApplyStart(s, Some(worker), run, true);
            || !NotStranded(next.queue, run)
            || exists holder :: && PhaseOf(next, holder) == Returned(run)
                                && LeaseLive(next.queue, next.now, run, holder)
                                && !NotStranded(ApplyWorker(next, DoFinalize(holder, outcome)).queue, run)
  {
    if Active(s.queue.jobs[run]) {
      var holder := s.queue.jobs[run].leaseOwner.value;
      assert RunOk(s, run, holder);
      HolderClosesUnderStart(s, worker, run, holder, outcome);
    }
  }

  /** A live holder that has returned finalizes next, which closes the job under the restarted run. */
  lemma HolderClosesUnderStart(s: State, worker: WorkerId, run: RunId, holder: WorkerId, outcome: Option<string>)
    requires MayStart(s, Some(worker), run, true) && StatusOf(s.queue, run) == Some(Failed)
    requires LeaseLive(s.queue, s.now, run, holder) && PhaseOf(s, holder) == Returned(run)
    ensures var next := ApplyStart(s, Some(worker), run, true);
            && NotStranded(next.queue, run)
            && PhaseOf(next, holder) == Returned(run) && LeaseLive(next.queue, next.now, run, holder)
            && !NotStranded(ApplyWorker(next, DoFinalize(holder, outcome)).queue, run)
  {
  }

  /** The check the code leaves out at the start would be enough. */
  lemma LeasedStartIsSafe(s: State, worker: WorkerId, run: RunId)
    requires MayStart(s, Some(worker), run, true) && LeaseLive(s.queue, s.now, run, worker)
    ensures SafeStart(s, run)
  {
  }

  // ---------------------------------------------------------------- fencing

  predicate Disowned(s: State, worker: WorkerId, run: RunId) {
    !OwnsLease(s.queue, run, worker)
  }

  /** The attempts an old worker can still make on a run it lost; a start is not among them. */
  predicate Attempt(s: State, a: Action, worker: WorkerId, run: RunId) {
    || (a.DoHeartbeat? && a.worker == worker && a.run == run)
    || ((a.DoMarkFailed? || a.DoFinalize? || a.DoRelease?) && a.worker == worker && PhaseOf(s, worker).On(run))
    || (a.DoFail? && a.actor == Some(worker) && a.run == run)
    || ((a.DoStage? || a.DoComplete?) && a.session in s.fences.sessions
        && s.fences.sessions[a.session].actor == Some(worker) && s.fences.sessions[a.session].run == run)
  }

  predicate Reclaims(a: Action, worker: WorkerId, run: RunId) {
    a.DoClaim? && a.worker == worker && a.run == run
  }

  lemma OperatorKeepsDisowned(s: State, a: Action, worker: WorkerId, run: RunId)
    requires Disowned(s, worker, run) && a.Operator()
    ensures Disowned(ApplyOperator(s, a), worker, run)
  {
  }

  lemma StepKeepsDisowned(s: State, a: Action, worker: WorkerId, run: RunId)
    requires Disowned(s, worker, run) && !Reclaims(a, worker, run)
    ensures Disowned(Apply(s, a), worker, run)
  {
    if a.Operator() {
      OperatorKeepsDisowned(s, a, worker, run);
    } else if a.Fencing() {
      Acknowledgement.FencingKeepsRows(s, a);
    } else if a.DoStage? {
      Acknowledgement.StageKeepsQueue(s, a.session, a.writes);
    } else if a.DoComplete? {
      Acknowledgement.CompleteQueue(s, a.session);
    } else {
    }
  }

  /** An attempt without the lease changes neither jobs, runs, candidates nor committed state. */
  lemma AttemptWithoutLease(s: State, a: Action, worker: WorkerId, run: RunId)
    requires Disowned(s, worker, run) && Attempt(s, a, worker, run)
    ensures Apply(s, a).queue == s.queue && Apply(s, a).sources == s.sources
  {
    if a.DoStage? {
      assert !StageAccepted(s, a.session, a.writes);
    } else if a.DoComplete? {
      Acknowledgement.CompleteQueue(s, a.session);
      assert !Acknowledges(s, a.session);
    }
  }

  /** The queue operations that take a lease away leave its holder disowned. */
  lemma TakeoversDisown(s: State, a: Action, worker: WorkerId, run: RunId)
    requires (a == DoResume(run) && run in s.queue.runs && CanTransition(s.queue.runs[run].status, Running))
             || (a == DoRetry(run) && Apply(s, a) != s)
             || (a.DoClaim? && a.run == run && a.worker != worker && Apply(s, a) != s)
    ensures Disowned(Apply(s, a), worker, run)
  {
  }

  /** The worker's lease on the run lasts until then at least. */
  predicate HeldUntil(s: State, worker: WorkerId, run: RunId, until: int) {
    && OwnsLease(s.queue, run, worker)
    && s.queue.jobs[run].leaseExpiresAt.Some? && s.queue.jobs[run].leaseExpiresAt.value >= until
  }

  /** What can end a lease before its time: a resume, a retry, or the holder itself. */
  predicate Yields(a: Action, worker: WorkerId, run: RunId, lease: nat) {
    || a == DoResume(run) || a == DoRetry(run)
    || ((a.DoFinalize? || a.DoRelease?) && a.worker == worker)
    || (a.DoHeartbeat? && a.worker == worker && a.run == run && a.leaseSeconds < lease)
  }

  lemma OperatorKeepsHold(s: State, a: Action, worker: WorkerId, run: RunId, until: int)
    requires HeldUntil(s, worker, run, until) && a.Operator() && a != DoResume(run) && a != DoRetry(run)
    ensures HeldUntil(ApplyOperator(s, a), worker, run, until) && ApplyOperator(s, a).now == s.now
  {
  }

  lemma WorkerKeepsHold(s: State, a: Action, worker: WorkerId, run: RunId, until: int, lease: nat)
    requires HeldUntil(s, worker, run, until) && s.now < until <= s.now + lease
    requires a.Worker() && !Yields(a, worker, run, lease)
    ensures HeldUntil(ApplyWorker(s, a), worker, run, until) && ApplyWorker(s, a).now == s.now
  {
  }

  lemma StepKeepsHold(s: State, a: Action, worker: WorkerId, run: RunId, until: int, lease: nat)
    requires HeldUntil(s, worker, run, until) && s.now < until <= s.now + lease && !Yields(a, worker, run, lease)
    ensures HeldUntil(Apply(s, a), worker, run, until) && Apply(s, a).now >= s.now
  {
    if a.Operator() {
      OperatorKeepsHold(s, a, worker, run, until);
    } else if a.Worker() {
      WorkerKeepsHold(s, a, worker, run, until, lease);
    } else if a.Fencing() {
      Acknowledgement.FencingKeepsRows(s, a);
    } else if a.DoStage? {
      Acknowledgement.StageKeepsQueue(s, a.session, a.writes);
    } else if a.DoComplete? {
      Acknowledgement.CompleteQueue(s, a.session);
    } else {
    }
  }
}
