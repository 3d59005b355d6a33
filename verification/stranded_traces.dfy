/** The two guards of the no-stranded-run theorem are needed: three concrete runs of actions. */
module StrandedTraces {
  import opened Wrappers
  import opened RunStates
  import opened DurableRuns
  import opened Protocol
  import opened Leases

  const START := Initial(0, map[])

  /** A worker takes run 0 up to the point where its job body begins. */
  function Begin(worker: WorkerId): seq<Action> {
    [DoClaim(worker, 0, 1), DoLoadJob(worker), DoEnter(worker)]
  }

  const FAILS: seq<Action> :=
    [DoStart(Some(1), 0, false), DoFail(Some(1), 0, "node failed"), DoFinalize(1, Some("node failed"))]

  /** A full run whose execution fails at a node, and the retry that queues it again. */
  const FAILED_AND_RETRIED: seq<Action> := [DoCreate(0, 0, true, Some(Full))] + Begin(1) + FAILS + [DoRetry(0)]

  /**
   The retry body raises before its start, as it does when a connection of the
   graph was deleted meanwhile: the run stays PENDING while its job is closed.
   */
  const RAISE_BEFORE_START: seq<Action> :=
    FAILED_AND_RETRIED + Begin(1)
    + [DoRaise(1), DoMarkFailed(1, "connection deleted"), DoFinalize(1, Some("connection deleted"))]

  /** A retry body stalls past its lease and another worker takes the run over and fails it again. */
  const TAKEN_OVER: seq<Action> :=
    FAILED_AND_RETRIED + Begin(1) + [Tick(1)] + Begin(2)
    + [DoStart(Some(2), 0, true), DoFail(Some(2), 0, "node failed")]

  /** The stalled body starts after the job was closed. */
  const LATE_RETRY_START: seq<Action> :=
    TAKEN_OVER + [DoFinalize(2, Some("node failed")), DoStart(Some(1), 0, true)]

  /** The stalled body starts while the job is still leased, and its holder then closes it. */
  const START_BEFORE_FINALIZE: seq<Action> :=
    TAKEN_OVER + [DoStart(Some(1), 0, true), DoFinalize(2, Some("node failed"))]

  lemma Extend(actions: seq<Action>, a: Action)
    ensures After(START, actions + [a]) == Apply(After(START, actions), a)
  {
    assert (actions + [a])[..|actions + [a]| - 1] == actions;
  }

  lemma ExtendWorker(actions: seq<Action>, a: Action)
    requires a.Worker()
    ensures After(START, actions + [a]) == ApplyWorker(After(START, actions), a)
  {
    Extend(actions, a);
  }

  /** The rows and phases the two runs pass through; nothing else ever changes in them. */
  function At(now: int, run: Run, job: Job, workers: map<WorkerId, Phase>): State {
    START.(now := now, queue := Queue(map[0 := run], map[0 := job]), workers := workers)
  }

  function Held(jobType: JobType, worker: WorkerId, now: int, attempts: nat): Job {
    Job(jobType, JobLeased, 0, Some(worker), Some(now + 1), Some(now), attempts, None)
  }

  lemma CreateStep(hasVersion: bool, jobType: JobType)
    ensures After(START, [DoCreate(0, 0, hasVersion, Some(jobType))]) ==
            At(0, Run(0, hasVersion, Pending, None), NewJob(jobType, 0), map[])
  {
    var a := DoCreate(0, 0, hasVersion, Some(jobType));
    Extend([], a);
    assert [] + [a] == [a];
    assert SupersedeQueue(START.queue, 0) == START.queue;
    assert SupersedeSources(START.queue, START.sources, 0, map[]) == START.sources;
    assert CreateQueue(START.queue, 0, 0, 0, hasVersion, Some(jobType)) ==
           Queue(map[0 := Run(0, hasVersion, Pending, None)], map[0 := NewJob(jobType, 0)]);
  }

  lemma ClaimStep(t: seq<Action>, now: int, run: Run, job: Job, workers: map<WorkerId, Phase>, worker: WorkerId)
    requires After(START, t) == At(now, run, job, workers) && run.status == Pending
    requires Claimable(Queue(map[0 := run], map[0 := job]), now, 0) && job.lastError.None? && job.availableAt == 0
    requires worker in workers ==> workers[worker] == Idle
    ensures After(START, t + [DoClaim(worker, 0, 1)]) ==
            At(now, run, Held(job.jobType, worker, now, job.attempts + 1), workers[worker := Claimed(0)])
  {
    ExtendWorker(t, DoClaim(worker, 0, 1));
  }

  lemma LoadStep(t: seq<Action>, now: int, run: Run, job: Job, workers: map<WorkerId, Phase>, worker: WorkerId)
    requires After(START, t) == At(now, run, job, workers[worker := Claimed(0)])
    requires job.status == JobLeased && job.leaseOwner == Some(worker)
    ensures After(START, t + [DoLoadJob(worker)]) == At(now, run, job, workers[worker := Loaded(0, job.jobType)])
  {
    ExtendWorker(t, DoLoadJob(worker));
    var s := At(now, run, job, workers[worker := Claimed(0)]);
    assert OwnsLease(s.queue, 0, worker) && PhaseOf(s, worker) == Claimed(0);
    assert workers[worker := Claimed(0)][worker := Loaded(0, job.jobType)] == workers[worker := Loaded(0, job.jobType)];
  }

  lemma EnterStep(t: seq<Action>, now: int, run: Run, job: Job, workers: map<WorkerId, Phase>, worker: WorkerId)
    requires After(START, t) == At(now, run, job, workers[worker := Loaded(0, job.jobType)]) && run.status == Pending
    ensures After(START, t + [DoEnter(worker)]) == At(now, run, job, workers[worker := Entered(0, job.jobType)])
  {
    ExtendWorker(t, DoEnter(worker));
    var s := At(now, run, job, workers[worker := Loaded(0, job.jobType)]);
    assert PhaseOf(s, worker) == Loaded(0, job.jobType) && 0 in s.queue.runs;
    assert workers[worker := Loaded(0, job.jobType)][worker := Entered(0, job.jobType)]
        == workers[worker := Entered(0, job.jobType)];
  }

  /** Claiming, loading the job and checking the run, while the run is PENDING. */
  lemma BeginSteps(t: seq<Action>, now: int, run: Run, job: Job, workers: map<WorkerId, Phase>, worker: WorkerId)
    requires After(START, t) == At(now, run, job, workers) && run.status == Pending
    requires Claimable(Queue(map[0 := run], map[0 := job]), now, 0) && job.lastError.None? && job.availableAt == 0
    requires worker in workers ==> workers[worker] == Idle
    ensures After(START, t + Begin(worker)) ==
            At(now, run, Held(job.jobType, worker, now, job.attempts + 1), workers[worker := Entered(0, job.jobType)])
  {
    var held := Held(job.jobType, worker, now, job.attempts + 1);
    ClaimStep(t, now, run, job, workers, worker);
    LoadStep(t + [DoClaim(worker, 0, 1)], now, run, held, workers, worker);
    EnterStep(t + [DoClaim(worker, 0, 1)] + [DoLoadJob(worker)], now, run, held, workers, worker);
    assert t + [DoClaim(worker, 0, 1)] + [DoLoadJob(worker)] + [DoEnter(worker)] == t + Begin(worker);
  }

  lemma RaiseStep(t: seq<Action>, now: int, run: Run, job: Job, workers: map<WorkerId, Phase>, worker: WorkerId)
    requires After(START, t) == At(now, run, job, workers[worker := Entered(0, job.jobType)])
    ensures After(START, t + [DoRaise(worker)]) == At(now, run, job, workers[worker := Raised(0)])
  {
    ExtendWorker(t, DoRaise(worker));
    assert workers[worker := Entered(0, job.jobType)][worker := Raised(0)] == workers[worker := Raised(0)];
  }

  /** The failure mark wants a RUNNING run, so a PENDING one keeps its status. */
  lemma MarkStep(t: seq<Action>, now: int, run: Run, job: Job, workers: map<WorkerId, Phase>, worker: WorkerId,
                 error: string)
    requires After(START, t) == At(now, run, job, workers[worker := Raised(0)]) && run.status == Pending
    ensures After(START, t + [DoMarkFailed(worker, error)]) == At(now, run, job, workers[worker := Returned(0)])
  {
    ExtendWorker(t, DoMarkFailed(worker, error));
    assert workers[worker := Raised(0)][worker := Returned(0)] == workers[worker := Returned(0)];
  }

  lemma RaiseSteps(t: seq<Action>, now: int, run: Run, job: Job, workers: map<WorkerId, Phase>, worker: WorkerId,
                   error: string)
    requires After(START, t) == At(now, run, job, workers[worker := Entered(0, job.jobType)]) && run.status == Pending
    requires LeaseLive(Queue(map[0 := run], map[0 := job]), now, 0, worker) && error != ""
    ensures var ends := [DoRaise(worker), DoMarkFailed(worker, error), DoFinalize(worker, Some(error))];
            !NotStranded(After(START, t + ends).queue, 0)
  {
    RaiseStep(t, now, run, job, workers, worker);
    var t1 := t + [DoRaise(worker)];
    MarkStep(t1, now, run, job, workers, worker, error);
    var t2 := t1 + [DoMarkFailed(worker, error)];
    FinishStep(t2, now, run, job, workers, worker, error);
    assert t2 + [DoFinalize(worker, Some(error))]
        == t + [DoRaise(worker), DoMarkFailed(worker, error), DoFinalize(worker, Some(error))];
  }

  lemma StartStep(t: seq<Action>, now: int, run: Run, job: Job, workers: map<WorkerId, Phase>, worker: WorkerId,
                  jobType: JobType)
    requires After(START, t) == At(now, run, job, workers) && run.graph == 0
    requires run.status == Pending || (jobType == RetryFailed && run.status == Failed)
    requires jobType == Full ==> run.error.None?
    requires worker in workers && workers[worker] == Entered(0, jobType)
    ensures After(START, t + [DoStart(Some(worker), 0, jobType == RetryFailed)]) ==
            At(now, run.(status := Running, error := None), job, workers[worker := Executing(0)])
  {
    Extend(t, DoStart(Some(worker), 0, jobType == RetryFailed));
    var s := At(now, run, job, workers);
    assert MayStart(s, Some(worker), 0, jobType == RetryFailed);
    assert Start(s.queue, 0, jobType == RetryFailed).runs == map[0 := run.(status := Running, error := None)];
  }

  lemma FailStep(t: seq<Action>, now: int, run: Run, job: Job, workers: map<WorkerId, Phase>, worker: WorkerId,
                 error: string)
    requires After(START, t) == At(now, run, job, workers[worker := Executing(0)]) && run.status == Running
    requires LeaseLive(Queue(map[0 := run], map[0 := job]), now, 0, worker)
    ensures After(START, t + [DoFail(Some(worker), 0, error)]) ==
            At(now, run.(status := Failed, error := Some(error)), job, workers[worker := Returned(0)])
  {
    Extend(t, DoFail(Some(worker), 0, error));
    var s := At(now, run, job, workers[worker := Executing(0)]);
    assert PhaseOf(s, worker) == Executing(0) && FailOutcome(s.queue, now, 0, Some(worker)) == Transitioned(true);
    assert SetFailed(s.queue, 0, error).runs == map[0 := run.(status := Failed, error := Some(error))];
    assert workers[worker := Executing(0)][worker := Returned(0)] == workers[worker := Returned(0)];
  }

  lemma FinishStep(t: seq<Action>, now: int, run: Run, job: Job, workers: map<WorkerId, Phase>, worker: WorkerId,
                   error: string)
    requires After(START, t) == At(now, run, job, workers[worker := Returned(0)]) && run.status != Paused && error != ""
    requires LeaseLive(Queue(map[0 := run], map[0 := job]), now, 0, worker)
    ensures After(START, t + [DoFinalize(worker, Some(error))]) ==
            At(now, run, job.(status := JobFailed, leaseOwner := None, leaseExpiresAt := None,
                              heartbeatAt := Some(now), lastError := Some(error)),
               workers[worker := Idle])
  {
    ExtendWorker(t, DoFinalize(worker, Some(error)));
    var s := At(now, run, job, workers[worker := Returned(0)]);
    assert PhaseOf(s, worker) == Returned(0) && FinalizeOutcome(s.queue, now, 0, worker) == Finished;
    assert workers[worker := Returned(0)][worker := Idle] == workers[worker := Idle];
  }

  /** A body that starts the run and fails it at a node, under its live lease. */
  lemma FailAtNode(t: seq<Action>, now: int, run: Run, workers: map<WorkerId, Phase>, worker: WorkerId,
                   jobType: JobType, attempts: nat)
    requires After(START, t) == At(now, run, Held(jobType, worker, now, attempts), workers)
    requires run.graph == 0 && run.status == Pending && run.error.None?
    requires worker in workers && workers[worker] == Entered(0, jobType)
    ensures After(START, t + [DoStart(Some(worker), 0, jobType == RetryFailed)]
                           + [DoFail(Some(worker), 0, "node failed")]) ==
            At(now, run.(status := Failed, error := Some("node failed")), Held(jobType, worker, now, attempts),
               workers[worker := Returned(0)])
  {
    var held := Held(jobType, worker, now, attempts);
    StartStep(t, now, run, held, workers, worker, jobType);
    FailStep(t + [DoStart(Some(worker), 0, jobType == RetryFailed)], now, run.(status := Running, error := None), held,
             workers, worker, "node failed");
  }

  lemma TickStep(t: seq<Action>, now: int, run: Run, job: Job, workers: map<WorkerId, Phase>)
    requires After(START, t) == At(now, run, job, workers)
    ensures After(START, t + [Tick(1)]) == At(now + 1, run, job, workers)
  {
    Extend(t, Tick(1));
    Ticked(After(START, t));
  }

  lemma Ticked(s: State)
    ensures Apply(s, Tick(1)) == s.(now := s.now + 1)
  {
  }

  /** A closed lease: the job row a failing body leaves behind. */
  function ClosedJob(jobType: JobType, now: int, attempts: nat): Job {
    Job(jobType, JobFailed, 0, None, None, Some(now), attempts, Some("node failed"))
  }

  const RETRIED := Job(RetryFailed, JobQueued, 0, None, None, None, 1, None)
  const FRESH := Run(0, true, Pending, None)
  const BROKEN := Run(0, true, Failed, Some("node failed"))

  lemma RetryStep(t: seq<Action>, workers: map<WorkerId, Phase>)
    requires After(START, t) == At(0, BROKEN, ClosedJob(Full, 0, 1), workers)
    ensures After(START, t + [DoRetry(0)]) == At(0, FRESH, RETRIED, workers)
  {
    Extend(t, DoRetry(0));
    var s := At(0, BROKEN, ClosedJob(Full, 0, 1), workers);
    assert Retry(s.queue, 0, 0) == Queue(map[0 := FRESH], map[0 := RETRIED]);
  }

  /** The full run fails and its job is closed. */
  lemma FirstRunFails()
    ensures After(START, [DoCreate(0, 0, true, Some(Full))] + Begin(1) + FAILS) ==
            At(0, BROKEN, ClosedJob(Full, 0, 1), map[1 := Idle])
  {
    var t := [DoCreate(0, 0, true, Some(Full))];
    CreateStep(true, Full);
    BeginSteps(t, 0, FRESH, NewJob(Full, 0), map[], 1);
    FirstBodyFails(t + Begin(1));
    assert t + Begin(1) + FAILS == [DoCreate(0, 0, true, Some(Full))] + Begin(1) + FAILS;
  }

  lemma FirstBodyFails(t: seq<Action>)
    requires After(START, t) == At(0, FRESH, Held(Full, 1, 0, 1), map[1 := Entered(0, Full)])
    ensures After(START, t + FAILS) == At(0, BROKEN, ClosedJob(Full, 0, 1), map[1 := Idle])
  {
    FailAtNode(t, 0, FRESH, map[1 := Entered(0, Full)], 1, Full, 1);
    var failed := t + [DoStart(Some(1), 0, false)] + [DoFail(Some(1), 0, "node failed")];
    FinishStep(failed, 0, BROKEN, Held(Full, 1, 0, 1), map[], 1, "node failed");
    assert failed + [DoFinalize(1, Some("node failed"))] == t + FAILS;
  }

  /** The retry leaves it PENDING with a queued retry job. */
  lemma FailedAndRetried()
    ensures After(START, FAILED_AND_RETRIED) == At(0, FRESH, RETRIED, map[1 := Idle])
  {
    FirstRunFails();
    RetryStep([DoCreate(0, 0, true, Some(Full))] + Begin(1) + FAILS, map[1 := Idle]);
  }

  lemma RaiseBeforeStartStrands()
    ensures !NotStranded(After(START, RAISE_BEFORE_START).queue, 0)
  {
    FailedAndRetried();
    BeginSteps(FAILED_AND_RETRIED, 0, FRESH, RETRIED, map[1 := Idle], 1);
    RaiseSteps(FAILED_AND_RETRIED + Begin(1), 0, FRESH, Held(RetryFailed, 1, 0, 2), map[1 := Idle], 1,
        "connection deleted");
  }

  /** The retry body of the first worker has entered when its lease runs out. */
  lemma FirstStalls()
    ensures After(START, FAILED_AND_RETRIED + Begin(1) + [Tick(1)]) ==
            At(1, FRESH, Held(RetryFailed, 1, 0, 2), map[1 := Entered(0, RetryFailed)])
  {
    FailedAndRetried();
    BeginSteps(FAILED_AND_RETRIED, 0, FRESH, RETRIED, map[1 := Idle], 1);
    assert map[1 := Idle][1 := Entered(0, RetryFailed)] == map[1 := Entered(0, RetryFailed)];
    TickStep(FAILED_AND_RETRIED + Begin(1), 0, FRESH, Held(RetryFailed, 1, 0, 2), map[1 := Entered(0, RetryFailed)]);
  }

  /** Both bodies are past their entry when the second one has failed the run. */
  lemma TakenOver()
    ensures After(START, TAKEN_OVER) ==
            At(1, BROKEN, Held(RetryFailed, 2, 1, 3), map[1 := Entered(0, RetryFailed), 2 := Returned(0)])
  {
    var entered := map[1 := Entered(0, RetryFailed)];
    FirstStalls();
    SecondFails(FAILED_AND_RETRIED + Begin(1) + [Tick(1)]);
    assert FAILED_AND_RETRIED + Begin(1) + [Tick(1)] + Begin(2)
           + [DoStart(Some(2), 0, true)] + [DoFail(Some(2), 0, "node failed")] == TAKEN_OVER;
    assert entered[2 := Entered(0, RetryFailed)][2 := Returned(0)] ==
        map[1 := Entered(0, RetryFailed), 2 := Returned(0)];
  }

  lemma SecondFails(t: seq<Action>)
    requires After(START, t) == At(1, FRESH, Held(RetryFailed, 1, 0, 2), map[1 := Entered(0, RetryFailed)])
    ensures After(START, t + Begin(2) + [DoStart(Some(2), 0, true)] + [DoFail(Some(2), 0, "node failed")]) ==
            At(1, BROKEN, Held(RetryFailed, 2, 1, 3),
               map[1 := Entered(0, RetryFailed)][2 := Entered(0, RetryFailed)][2 := Returned(0)])
  {
    var entered := map[1 := Entered(0, RetryFailed)];
    BeginSteps(t, 1, FRESH, Held(RetryFailed, 1, 0, 2), entered, 2);
    FailAtNode(t + Begin(2), 1, FRESH, entered[2 := Entered(0, RetryFailed)], 2, RetryFailed, 3);
  }

  lemma LateRetryStartStrands()
    ensures !NotStranded(After(START, LATE_RETRY_START).queue, 0)
  {
    var entered := map[1 := Entered(0, RetryFailed)];
    TakenOver();
    assert entered[2 := Returned(0)] == map[1 := Entered(0, RetryFailed), 2 := Returned(0)];
    FinishStep(TAKEN_OVER, 1, BROKEN, Held(RetryFailed, 2, 1, 3), entered, 2, "node failed");
    var t := TAKEN_OVER + [DoFinalize(2, Some("node failed"))];
    StartStep(t, 1, BROKEN, ClosedJob(RetryFailed, 1, 3), entered[2 := Idle], 1, RetryFailed);
    assert t + [DoStart(Some(1), 0, true)] == LATE_RETRY_START;
  }

  lemma StartBeforeFinalizeStrands()
    ensures NotStranded(After(START, TAKEN_OVER + [DoStart(Some(1), 0, true)]).queue, 0)
    ensures !NotStranded(After(START, START_BEFORE_FINALIZE).queue, 0)
  {
    var held := Held(RetryFailed, 2, 1, 3);
    var workers := map[1 := Entered(0, RetryFailed), 2 := Returned(0)];
    TakenOver();
    StartStep(TAKEN_OVER, 1, BROKEN, held, workers, 1, RetryFailed);
    var t := TAKEN_OVER + [DoStart(Some(1), 0, true)];
    var executing := map[1 := Executing(0)];
    assert workers[1 := Executing(0)] == executing[2 := Returned(0)];
    FinishStep(t, 1, BROKEN.(status := Running, error := None), held, executing, 2, "node failed");
    assert t + [DoFinalize(2, Some("node failed"))] == START_BEFORE_FINALIZE;
  }
}
