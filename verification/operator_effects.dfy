/** What the operators' transactions do to the rows, field by field, in every reachable state. */
module OperatorEffects {
  import opened Wrappers
  import opened RunStates
  import opened DurableRuns
  import opened Protocol
  import opened Acknowledgement
  import Guarantees

  /** A new full run retires these: FAILED runs of the graph that no queued or leased job can revive. */
  predicate Retires(q: Queue, graph: GraphId, r: RunId) {
    && r in q.runs && q.runs[r].graph == graph && q.runs[r].status == Failed
    && (r !in q.jobs || q.jobs[r].status == JobCompleted || q.jobs[r].status == JobFailed)
  }

  /** The rows of no other run move. */
  ghost predicate OthersKept(q: Queue, q': Queue, run: RunId) {
    && (forall r :: r != run ==> (r in q'.runs <==> r in q.runs) && (r in q'.jobs <==> r in q.jobs))
    && (forall r :: r != run && r in q.runs ==> q'.runs[r] == q.runs[r])
    && (forall r :: r != run && r in q.jobs ==> q'.jobs[r] == q.jobs[r])
  }

  /** Candidates of these runs go, all others stay as they are. */
  ghost predicate OnlyDropped(src: Sources, src': Sources, dropped: set<RunId>) {
    && src'.committed == src.committed && src'.history == src.history
    && (forall key :: key in src'.candidates <==> key in src.candidates && key.run !in dropped)
    && (forall key :: key in src'.candidates ==> src'.candidates[key] == src.candidates[key])
  }

  /**
   A new full run supersedes exactly the FAILED runs of its graph whose job is
   missing or closed, and changes nothing else of any run that was there.
   */
  lemma FullRunSupersedes(s: State, run: RunId, graph: GraphId, hasVersion: bool)
    requires run !in s.queue.runs && run !in s.queue.jobs
    ensures var q, q' := s.queue, Apply(s, DoCreate(run, graph, hasVersion, Some(Full))).queue;
            && q'.runs.Keys == q.runs.Keys + {run} && q'.jobs.Keys == q.jobs.Keys + {run}
            && (forall r :: r in q.runs ==>
                  q'.runs[r] == if Retires(q, graph, r) then q.runs[r].(status := Superseded) else q.runs[r])
            && (forall r :: r in q.jobs ==> q'.jobs[r] == q.jobs[r])
            && q'.runs[run] == Run(graph, hasVersion, Pending, None)
            && q'.jobs[run] == Job(Full, JobQueued, s.now, None, None, None, 0, None)
  {
  }

  /** Candidates are at home, so dropping those of some runs of a graph is dropping them by run. */
  lemma DroppedByRun(s: State, dropped: set<RunId>, graph: GraphId)
    requires forall key :: key in s.sources.candidates ==> Homed(s, key)
    requires forall r :: r in dropped ==> r in s.queue.runs && s.queue.runs[r].graph == graph
    ensures OnlyDropped(s.sources, DropCandidates(s.sources, dropped, graph, s.owners), dropped)
  {
    var next := DropCandidates(s.sources, dropped, graph, s.owners);
    forall key ensures key in next.candidates <==> key in s.sources.candidates && key.run !in dropped {
      if key in s.sources.candidates {
        assert Homed(s, key);
      }
    }
  }

  /** Its candidates go with a superseded run; every other candidate and all committed states stay. */
  lemma SupersededLoseCandidates(now: int, owners: map<GraphId, UserId>, actions: seq<Action>, run: RunId,
                                 graph: GraphId, hasVersion: bool)
    requires var q := After(Initial(now, owners), actions).queue; run !in q.runs && run !in q.jobs
    ensures var s := After(Initial(now, owners), actions);
            var dropped := set r | r in s.queue.runs && Retires(s.queue, graph, r);
            OnlyDropped(s.sources, Apply(s, DoCreate(run, graph, hasVersion, Some(Full))).sources, dropped)
  {
    Guarantees.ReachableInvariant(now, owners, actions);
    var s := After(Initial(now, owners), actions);
    DroppedByRun(s, SupersededRuns(s.queue, graph), graph);
    SupersededAre(s.queue, graph);
  }

  lemma SupersededAre(q: Queue, graph: GraphId)
    ensures SupersededRuns(q, graph) == set r | r in q.runs && Retires(q, graph, r)
  {
  }

  /** After a new full run no FAILED run of its graph is left without a job that could revive it. */
  lemma NoDeadFailureLeft(s: State, run: RunId, graph: GraphId, hasVersion: bool, r: RunId)
    requires run !in s.queue.runs && run !in s.queue.jobs
    ensures !Retires(Apply(s, DoCreate(run, graph, hasVersion, Some(Full))).queue, graph, r)
  {
    FullRunSupersedes(s, run, graph, hasVersion);
  }

  /** Any other creation supersedes nothing, and an id already in use creates nothing. */
  lemma OtherCreations(s: State, run: RunId, graph: GraphId, hasVersion: bool, jobType: Option<JobType>)
    ensures var s' := Apply(s, DoCreate(run, graph, hasVersion, jobType));
            if run in s.queue.runs || run in s.queue.jobs then s' == s
            else jobType != Some(Full) ==>
              && s'.queue.runs == s.queue.runs[run := Run(graph, hasVersion, Pending, None)] && s'.sources == s.sources
              && s'.queue.jobs == match jobType
                                  case None => s.queue.jobs
                                  case Some(t) =>
                                    s.queue.jobs[run := Job(t, JobQueued, s.now, None, None, None, 0, None)]
  {
  }

  /** Cancellation ends a pending, running or paused run; anything else it leaves alone. */
  lemma CancelEnds(s: State, run: RunId)
    ensures var s' := Apply(s, DoCancel(run));
            if run in s.queue.runs && s.queue.runs[run].status in {Pending, Running, Paused} then
              s'.queue == s.queue.(runs := s.queue.runs[run := s.queue.runs[run].(status := Cancelled)])
            else s' == s
  {
  }

  /** With it go the run's candidates, and no others. */
  lemma CancelDropsCandidates(now: int, owners: map<GraphId, UserId>, actions: seq<Action>, run: RunId)
    requires StatusOf(After(Initial(now, owners), actions).queue, run) in {Some(Pending), Some(Running), Some(Paused)}
    ensures var s := After(Initial(now, owners), actions);
            OnlyDropped(s.sources, Apply(s, DoCancel(run)).sources, {run})
  {
    Guarantees.ReachableInvariant(now, owners, actions);
    CancelDrops(After(Initial(now, owners), actions), run);
  }

  lemma CancelDrops(s: State, run: RunId)
    requires forall key :: key in s.sources.candidates ==> Homed(s, key)
    requires StatusOf(s.queue, run) in {Some(Pending), Some(Running), Some(Paused)}
    ensures OnlyDropped(s.sources, Apply(s, DoCancel(run)).sources, {run})
  {
    DroppedByRun(s, {run}, s.queue.runs[run].graph);
  }

  /** Exactly a running run is paused. */
  lemma PauseHalts(s: State, run: RunId)
    ensures var s' := Apply(s, DoPause(run));
            if run in s.queue.runs && s.queue.runs[run].status == Running then
              s' == s.(queue := s.queue.(runs := s.queue.runs[run := s.queue.runs[run].(status := Paused)]))
            else s' == s
  {
  }

  /** The job is queued again, available now, without a lease. */
  predicate Reoffered(job: Job, now: int) {
    && job.status == JobQueued && job.availableAt == now
    && job.leaseOwner.None? && job.leaseExpiresAt.None? && job.heartbeatAt.None?
  }

  /** A resume sets a run running and offers its job again; the table lets it also start a pending or failed run. */
  lemma ResumeOffers(s: State, run: RunId)
    ensures var q, q' := s.queue, Apply(s, DoResume(run)).queue;
            if run in q.runs && q.runs[run].status in {Pending, Paused, Failed} then
              && OthersKept(q, q', run)
              && run in q'.runs && q'.runs[run] == q.runs[run].(status := Running)
              && (run in q'.jobs <==> run in q.jobs)
              && (run in q.jobs ==>
                    && Reoffered(q'.jobs[run], s.now) && q'.jobs[run].lastError.None?
                    && q'.jobs[run].jobType == q.jobs[run].jobType && q'.jobs[run].attempts == q.jobs[run].attempts)
            else q' == q
  {
  }

  /** A retry puts a FAILED run with a version back to PENDING and offers a retry job. */
  lemma RetryRevives(s: State, run: RunId)
    ensures var q, q' := s.queue, Apply(s, DoRetry(run)).queue;
            if run in q.runs && q.runs[run].status == Failed && q.runs[run].hasVersion then
              && OthersKept(q, q', run)
              && run in q'.runs && q'.runs[run] == q.runs[run].(status := Pending, error := None)
              && run in q'.jobs && Reoffered(q'.jobs[run], s.now)
              && q'.jobs[run].jobType == RetryFailed && q'.jobs[run].lastError.None?
              && q'.jobs[run].attempts == (if run in q.jobs then q.jobs[run].attempts else 0)
            else q' == q
  {
  }

  /** Recovery gives every versioned, unfinished run without a job a full one and sets it back to PENDING. */
  lemma RecoveryRevives(s: State)
    ensures var q, q' := s.queue, Apply(s, DoRecover).queue;
            && q'.runs.Keys == q.runs.Keys && q.jobs.Keys <= q'.jobs.Keys
            && (forall r :: r in q.jobs ==> q'.jobs[r] == q.jobs[r])
            && (forall r :: r in q'.jobs && r !in q.jobs ==>
                  q'.jobs[r] == Job(Full, JobQueued, s.now, None, None, None, 0, None))
            && (forall r :: r in q.runs ==>
                  var lost := r !in q.jobs && q.runs[r].hasVersion && q.runs[r].status in {Pending, Running};
                  && (r in q'.jobs <==> r in q.jobs || lost)
                  && q'.runs[r] == if lost then q.runs[r].(status := Pending, error := None) else q.runs[r])
            && (forall r :: r in q'.jobs ==> r in q.jobs || r in q.runs)
  {
  }

  // --------------------------------------------------------------- workers

  /** A claim leases an unfinished run whose job is due or whose lease ran out, for exactly the time asked. */
  lemma ClaimLeases(s: State, worker: WorkerId, run: RunId, lease: nat)
    requires PhaseOf(s, worker) == Idle
    ensures var q, q' := s.queue, Apply(s, DoClaim(worker, run, lease)).queue;
            if run in q.runs && q.runs[run].status in {Pending, Running} && run in q.jobs
               && ((q.jobs[run].status == JobQueued && q.jobs[run].availableAt <= s.now)
                   || (q.jobs[run].status == JobLeased && q.jobs[run].leaseExpiresAt.Some?
                       && q.jobs[run].leaseExpiresAt.value <= s.now))
            then
              && OthersKept(q, q', run) && q'.runs == q.runs && run in q'.jobs
              && var j := q.jobs[run];
                 q'.jobs[run] == Job(j.jobType, JobLeased, j.availableAt, Some(worker), Some(s.now + lease),
                                     Some(s.now), j.attempts + 1, j.lastError)
            else q' == q
  {
  }

  /** The job is leased to the worker. */
  predicate LeasedTo(q: Queue, run: RunId, worker: WorkerId) {
    run in q.jobs && q.jobs[run].status == JobLeased && q.jobs[run].leaseOwner == Some(worker)
  }

  predicate LeasedBeyond(q: Queue, run: RunId, worker: WorkerId, now: int) {
    LeasedTo(q, run, worker) && q.jobs[run].leaseExpiresAt.Some? && now < q.jobs[run].leaseExpiresAt.value
  }

  /** A heartbeat renews exactly an unexpired lease of its sender. */
  lemma HeartbeatRenews(s: State, worker: WorkerId, run: RunId, lease: nat)
    requires PhaseOf(s, worker).On(run)
    ensures var q, q' := s.queue, Apply(s, DoHeartbeat(worker, run, lease)).queue;
            if LeasedBeyond(q, run, worker, s.now) then
              && OthersKept(q, q', run) && q'.runs == q.runs && run in q'.jobs
              && q'.jobs[run] == q.jobs[run].(heartbeatAt := Some(s.now), leaseExpiresAt := Some(s.now + lease))
            else q' == q
  {
  }

  /** A body that raised fails its run exactly if that is RUNNING and the lease unexpired. */
  lemma RaiseFails(s: State, worker: WorkerId, error: string)
    requires PhaseOf(s, worker).Raised?
    ensures var q, q', run := s.queue, Apply(s, DoMarkFailed(worker, error)).queue, PhaseOf(s, worker).run;
            if LeasedBeyond(q, run, worker, s.now) && run in q.runs && q.runs[run].status == Running then
              q' == q.(runs := q.runs[run := q.runs[run].(status := Failed, error := Some(error))])
            else q' == q
  {
  }

  /**
   The end of a job: under a paused run an owner gives it back to the queue;
   otherwise an unexpired lease closes it, as failed if there is an error.
   */
  lemma FinalizeCloses(s: State, worker: WorkerId, outcome: Option<string>)
    requires PhaseOf(s, worker).Returned?
    ensures var q, q', run := s.queue, Apply(s, DoFinalize(worker, outcome)).queue, PhaseOf(s, worker).run;
            if LeasedTo(q, run, worker) && run in q.runs && q.runs[run].status == Paused then
              && OthersKept(q, q', run) && q'.runs == q.runs && run in q'.jobs && Reoffered(q'.jobs[run], s.now)
              && q'.jobs[run].jobType == q.jobs[run].jobType && q'.jobs[run].lastError == q.jobs[run].lastError
            else if LeasedBeyond(q, run, worker, s.now) && run in q.runs then
              && OthersKept(q, q', run) && q'.runs == q.runs && run in q'.jobs
              && q'.jobs[run].status == (if outcome in {None, Some("")} then JobCompleted else JobFailed)
              && q'.jobs[run].leaseOwner.None? && q'.jobs[run].leaseExpiresAt.None?
              && q'.jobs[run].lastError == outcome && q'.jobs[run].heartbeatAt == Some(s.now)
            else q' == q
  {
  }

  /** A released job is offered again, expired or not, if its releaser still owns it. */
  lemma ReleaseReturns(s: State, worker: WorkerId)
    requires !PhaseOf(s, worker).Idle? && !PhaseOf(s, worker).Dead?
    ensures var q, q', run := s.queue, Apply(s, DoRelease(worker)).queue, PhaseOf(s, worker).run;
            if LeasedTo(q, run, worker) then
              && OthersKept(q, q', run) && q'.runs == q.runs && run in q'.jobs && Reoffered(q'.jobs[run], s.now)
              && q'.jobs[run].jobType == q.jobs[run].jobType && q'.jobs[run].attempts == q.jobs[run].attempts
            else q' == q
  {
  }

  /** A job body starts a PENDING run, and on the retry branch a FAILED one, whose error the retry clears. */
  lemma StartRuns(s: State, worker: WorkerId, run: RunId, retryBranch: bool)
    requires PhaseOf(s, worker).Entered? && PhaseOf(s, worker).run == run && run in s.queue.runs
    requires retryBranch ==> PhaseOf(s, worker).jobType == RetryFailed
    ensures var r, s' := s.queue.runs[run], Apply(s, DoStart(Some(worker), run, retryBranch));
            var starts := r.status == Pending || r.status == Running || (retryBranch && r.status == Failed);
            && s'.queue.jobs == s.queue.jobs
            && s'.queue.runs == s.queue.runs[run := if starts then
                                  Run(r.graph, r.hasVersion, Running, if retryBranch then None else r.error) else r]
            && PhaseOf(s', worker) == if starts then Executing(run) else Returned(run)
  {
  }

  /** A failing body fails its run exactly if that is RUNNING and, for a worker, the lease unexpired. */
  lemma BodyFails(s: State, actor: Option<WorkerId>, run: RunId, error: string)
    requires actor.Some? ==> PhaseOf(s, actor.value) == Executing(run)
    ensures var q, q' := s.queue, Apply(s, DoFail(actor, run, error)).queue;
            if (actor.Some? ==> LeasedBeyond(q, run, actor.value, s.now))
               && run in q.runs && q.runs[run].status == Running then
              q' == q.(runs := q.runs[run := q.runs[run].(status := Failed, error := Some(error))])
            else q' == q
  {
  }
}
