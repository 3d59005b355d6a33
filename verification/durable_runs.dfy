/**
 The rows of the durable run protocol and the transactions over them. Every
 transaction is a total function: a guard that fails leaves the rows as they
 were, which is what a rollback does.
 */
module DurableRuns {
  import opened Wrappers
  import opened RunStates

  type RunId = nat
  type GraphId = nat
  type UserId = nat
  type WorkerId = nat
  type StateData = map<string, string>

  datatype JobType = Full | RetryFailed

  datatype JobStatus = JobQueued | JobLeased | JobCompleted | JobFailed

  /** The single dispatch row of a run; `run_id` is unique, so it is the key. */
  datatype Job = Job(
    jobType: JobType,
    status: JobStatus,
    availableAt: int,
    leaseOwner: Option<WorkerId>,
    leaseExpiresAt: Option<int>,
    heartbeatAt: Option<int>,
    attempts: nat,
    lastError: Option<string>)

  datatype Run = Run(graph: GraphId, hasVersion: bool, status: Status, error: Option<string>)

  datatype Queue = Queue(runs: map<RunId, Run>, jobs: map<RunId, Job>)

  /** The graph node an advisory fence and a group of source states belong to. */
  datatype Pipeline = Pipeline(owner: UserId, graph: GraphId, node: string)

  datatype Scope = Scope(pipeline: Pipeline, source: string, stream: string)

  datatype Operation = Save | Delete

  datatype Candidate = Candidate(
    operation: Operation,
    data: Option<StateData>,
    baseData: Option<StateData>,
    baseRevision: nat)

  datatype CandidateKey = CandidateKey(run: RunId, scope: Scope)

  datatype Committed = Committed(data: StateData, revision: nat, deleted: bool)

  /** One entry of the promotion history: what was promoted and what became visible. */
  datatype Promotion = Promotion(run: RunId, candidate: Candidate, after: Option<StateData>)

  datatype Sources = Sources(
    candidates: map<CandidateKey, Candidate>,
    committed: map<Scope, Committed>,
    history: map<Scope, seq<Promotion>>)

  datatype Write = SaveState(scope: Scope, data: StateData) | DeleteState(scope: Scope)

  // ---------------------------------------------------------------- leases

  predicate OwnsLease(q: Queue, run: RunId, worker: WorkerId) {
    run in q.jobs && q.jobs[run].status == JobLeased && q.jobs[run].leaseOwner == Some(worker)
  }

  predicate LeaseLive(q: Queue, now: int, run: RunId, worker: WorkerId) {
    && OwnsLease(q, run, worker)
    && q.jobs[run].leaseExpiresAt.Some?
    && q.jobs[run].leaseExpiresAt.value > now
  }

  /** A direct execution carries no lease and skips the check. */
  predicate LeaseAccepted(q: Queue, now: int, run: RunId, actor: Option<WorkerId>) {
    actor.None? || LeaseLive(q, now, run, actor.value)
  }

  predicate Active(job: Job) {
    job.status == JobQueued || job.status == JobLeased
  }

  // ----------------------------------------------------------------- queue

  function NewJob(jobType: JobType, now: int): Job {
    Job(jobType, JobQueued, now, None, None, None, 0, None)
  }

  function Requeued(job: Job, now: int): Job {
    job.(status := JobQueued, availableAt := now, leaseOwner := None, leaseExpiresAt := None, heartbeatAt := None)
  }

  function Enqueue(q: Queue, now: int, run: RunId, jobType: JobType): Queue {
    var job := if run in q.jobs then
                 Requeued(q.jobs[run], now).(jobType := jobType, lastError := None)
               else
                 NewJob(jobType, now);
    q.(jobs := q.jobs[run := job])
  }

  predicate Orphaned(q: Queue, run: RunId) {
    && run in q.runs
    && run !in q.jobs
    && q.runs[run].hasVersion
    && q.runs[run].status in {Pending, Running}
  }

  function OrphanedRuns(q: Queue): set<RunId> {
    set run | run in q.runs && Orphaned(q, run)
  }

  function RecoverOrphans(q: Queue, now: int): Queue {
    var orphans := OrphanedRuns(q);
    Queue(
      map run | run in q.runs ::
        if run in orphans then q.runs[run].(status := Pending, error := None) else q.runs[run],
      map run | run in q.jobs.Keys + orphans ::
        if run in q.jobs then q.jobs[run] else NewJob(Full, now))
  }

  predicate Claimable(q: Queue, now: int, run: RunId) {
    && run in q.jobs
    && run in q.runs
    && q.runs[run].status in {Pending, Running}
    && var job := q.jobs[run];
       || (job.status == JobQueued && job.availableAt <= now)
       || (job.status == JobLeased && job.leaseExpiresAt.Some? && job.leaseExpiresAt.value <= now)
  }

  function Claim(q: Queue, now: int, run: RunId, worker: WorkerId, leaseSeconds: nat): Queue {
    if Claimable(q, now, run) then
      var job := q.jobs[run];
      q.(jobs := q.jobs[run := job.(status := JobLeased,
                                     leaseOwner := Some(worker),
                                     heartbeatAt := Some(now),
                                     leaseExpiresAt := Some(now + leaseSeconds),
                                     attempts := job.attempts + 1)])
    else
      q
  }

  function Heartbeat(q: Queue, now: int, run: RunId, worker: WorkerId, leaseSeconds: nat): Queue {
    if LeaseLive(q, now, run, worker) then
      q.(jobs := q.jobs[run := q.jobs[run].(heartbeatAt := Some(now), leaseExpiresAt := Some(now + leaseSeconds))])
    else
      q
  }

  predicate FailsIfOwned(q: Queue, now: int, run: RunId, worker: WorkerId) {
    LeaseLive(q, now, run, worker) && run in q.runs && q.runs[run].status == Running
  }

  function MarkFailedIfOwned(q: Queue, now: int, run: RunId, worker: WorkerId, error: string): Queue {
    if FailsIfOwned(q, now, run, worker) then SetFailed(q, run, error) else q
  }

  function SetFailed(q: Queue, run: RunId, error: string): Queue
    requires run in q.runs
  {
    q.(runs := q.runs[run := q.runs[run].(status := Failed, error := Some(error))])
  }

  datatype Finalization = Lost | RequeuedWhilePaused | Finished

  function FinalizeOutcome(q: Queue, now: int, run: RunId, worker: WorkerId): Finalization {
    if !OwnsLease(q, run, worker) || run !in q.runs then
      Lost
    else if q.runs[run].status == Paused then
      RequeuedWhilePaused
    else if LeaseLive(q, now, run, worker) then
      Finished
    else
      Lost
  }

  function Finalize(q: Queue, now: int, run: RunId, worker: WorkerId, error: Option<string>): Queue {
    match FinalizeOutcome(q, now, run, worker)
    case Lost => q
    case RequeuedWhilePaused => q.(jobs := q.jobs[run := Requeued(q.jobs[run], now)])
    case Finished =>
      var closed := if error.Some? && error.value != "" then JobFailed else JobCompleted;
      q.(jobs := q.jobs[run := q.jobs[run].(status := closed,
                                             leaseOwner := None,
                                             leaseExpiresAt := None,
                                             heartbeatAt := Some(now),
                                             lastError := error)])
  }

  function Release(q: Queue, now: int, run: RunId, worker: WorkerId): Queue {
    if OwnsLease(q, run, worker) then
      q.(jobs := q.jobs[run := Requeued(q.jobs[run], now)])
    else
      q
  }

  // ------------------------------------------------------------- execution

  datatype FailureOutcome = FailureLeaseLost | RunMissing | Transitioned(changed: bool)

  function FailOutcome(q: Queue, now: int, run: RunId, actor: Option<WorkerId>): FailureOutcome {
    if !LeaseAccepted(q, now, run, actor) then
      FailureLeaseLost
    else if run !in q.runs then
      RunMissing
    else
      Transitioned(q.runs[run].status == Running)
  }

  function FailIfRunning(q: Queue, now: int, run: RunId, actor: Option<WorkerId>, error: string): Queue {
    if FailOutcome(q, now, run, actor) == Transitioned(true) then SetFailed(q, run, error) else q
  }

  /** The locked start of a job body; the retry branch also leaves FAILED. */
  function Start(q: Queue, run: RunId, retryBranch: bool): Queue {
    if run !in q.runs then
      q
    else
      var row := q.runs[run];
      var started := if row.status == Pending || (retryBranch && row.status == Failed) then Running else row.status;
      q.(runs := q.runs[run := row.(status := started,
                                     error := if retryBranch && started == Running then None else row.error)])
  }

  function Pause(q: Queue, run: RunId): Queue {
    if run in q.runs && CanTransition(q.runs[run].status, Paused) then
      q.(runs := q.runs[run := q.runs[run].(status := Paused)])
    else
      q
  }

  function Resume(q: Queue, now: int, run: RunId): Queue {
    if run in q.runs && CanTransition(q.runs[run].status, Running) then
      Queue(
        q.runs[run := q.runs[run].(status := Running)],
        if run in q.jobs then q.jobs[run := Requeued(q.jobs[run], now).(lastError := None)] else q.jobs)
    else
      q
  }

  function Retry(q: Queue, now: int, run: RunId): Queue {
    if run in q.runs && q.runs[run].status == Failed && q.runs[run].hasVersion then
      Enqueue(q.(runs := q.runs[run := q.runs[run].(status := Pending, error := None)]), now, run, RetryFailed)
    else
      q
  }

  // --------------------------------------------------------- source states

  function Visible(committed: map<Scope, Committed>, scope: Scope): Option<StateData> {
    if scope !in committed || committed[scope].deleted then None else Some(committed[scope].data)
  }

  function Revision(committed: map<Scope, Committed>, scope: Scope): nat {
    if scope in committed then committed[scope].revision else 0
  }

  function HistoryOf(src: Sources, scope: Scope): seq<Promotion> {
    if scope in src.history then src.history[scope] else []
  }

  /** One `save` or `delete` of the state store: a candidate over the committed base. */
  function StageOne(src: Sources, run: RunId, write: Write): Sources {
    var key := CandidateKey(run, write.scope);
    var base := Visible(src.committed, write.scope);
    var revision := Revision(src.committed, write.scope);
    match write
    case SaveState(_, data) =>
      src.(candidates := src.candidates[key := Candidate(Save, Some(data), base, revision)])
    case DeleteState(_) =>
      if base.None? then
        src.(candidates := src.candidates - {key})
      else
        src.(candidates := src.candidates[key := Candidate(Delete, None, base, revision)])
  }

  function StageAll(src: Sources, run: RunId, writes: seq<Write>): Sources {
    if writes == [] then src else StageOne(StageAll(src, run, writes[..|writes| - 1]), run, writes[|writes| - 1])
  }

  function CandidateScopes(src: Sources, run: RunId): set<Scope> {
    set key | key in src.candidates && key.run == run :: key.scope
  }

  function CandidatePipelines(src: Sources, run: RunId): set<Pipeline> {
    set key | key in src.candidates && key.run == run :: key.scope.pipeline
  }

  predicate BaseUnchanged(src: Sources, scope: Scope, c: Candidate) {
    Revision(src.committed, scope) == c.baseRevision && Visible(src.committed, scope) == c.baseData
  }

  predicate IntentValid(src: Sources, scope: Scope, c: Candidate) {
    if scope !in src.committed then
      c.operation == Save && c.data.Some?
    else
      (c.operation == Save && c.data.Some?) || c.operation == Delete
  }

  function CommittedAfter(src: Sources, scope: Scope, c: Candidate): Committed
    requires IntentValid(src, scope, c)
  {
    var revision := Revision(src.committed, scope) + 1;
    if c.operation == Save && c.data.Some? then
      Committed(c.data.value, revision, false)
    else
      Committed(map[], revision, true)
  }

  function VisibleAfter(c: Candidate): Option<StateData> {
    if c.operation == Save then c.data else None
  }

  predicate Promotable(src: Sources, run: RunId) {
    forall key :: key in src.candidates && key.run == run ==>
      BaseUnchanged(src, key.scope, src.candidates[key]) && IntentValid(src, key.scope, src.candidates[key])
  }

  /** All candidates of the run at once: rows, history and the emptied staging area. */
  function Promoted(src: Sources, run: RunId): Sources
    requires Promotable(src, run)
  {
    var scopes := CandidateScopes(src, run);
    Sources(
      map key | key in src.candidates && key.run != run :: src.candidates[key],
      map scope | scope in src.committed.Keys + scopes ::
        if scope in scopes then
          (assert CandidateKey(run, scope) in src.candidates;
           CommittedAfter(src, scope, src.candidates[CandidateKey(run, scope)]))
        else
          src.committed[scope],
      map scope | scope in src.history.Keys + scopes ::
        if scope in scopes then
          (assert CandidateKey(run, scope) in src.candidates;
           var c := src.candidates[CandidateKey(run, scope)];
           HistoryOf(src, scope) + [Promotion(run, c, VisibleAfter(c))])
        else
          src.history[scope])
  }

  datatype CompletionOutcome =
    | Acknowledged
    | ControlWon
    | CompletionLeaseLost
    | CandidatesChanged
    | StaleCandidate
    | CompletionRunMissing
    | NotCompletable

  function CompletionOf(q: Queue, src: Sources, now: int, run: RunId, actor: Option<WorkerId>, keys: set<Pipeline>)
    : CompletionOutcome
  {
    if !LeaseAccepted(q, now, run, actor) then CompletionLeaseLost
    else if run !in q.runs then CompletionRunMissing
    else if q.runs[run].status in {Cancelled, Paused} then ControlWon
    else if q.runs[run].status != Running then NotCompletable
    else if !(CandidatePipelines(src, run) <= keys) then CandidatesChanged
    else if !Promotable(src, run) then StaleCandidate
    else Acknowledged
  }

  function SetCompleted(q: Queue, run: RunId): Queue
    requires run in q.runs
  {
    q.(runs := q.runs[run := q.runs[run].(status := Completed, error := None)])
  }

  // --------------------------------------------- cancellation, supersession

  function DropCandidates(src: Sources, dropped: set<RunId>, graph: GraphId, owners: map<GraphId, UserId>): Sources {
    src.(candidates :=
      map key | key in src.candidates
                && !(key.run in dropped
                     && key.scope.pipeline.graph == graph
                     && graph in owners
                     && key.scope.pipeline.owner == owners[graph]) :: src.candidates[key])
  }

  predicate Cancellable(q: Queue, run: RunId) {
    run in q.runs && CanTransition(q.runs[run].status, Cancelled)
  }

  function CancelRun(q: Queue, run: RunId): Queue {
    if Cancellable(q, run) then q.(runs := q.runs[run := q.runs[run].(status := Cancelled)]) else q
  }

  function CancelSources(q: Queue, src: Sources, run: RunId, owners: map<GraphId, UserId>): Sources {
    if Cancellable(q, run) then DropCandidates(src, {run}, q.runs[run].graph, owners) else src
  }

  predicate Supersedable(q: Queue, graph: GraphId, run: RunId) {
    && run in q.runs
    && q.runs[run].graph == graph
    && q.runs[run].status == Failed
    && !(run in q.jobs && Active(q.jobs[run]))
  }

  function SupersededRuns(q: Queue, graph: GraphId): set<RunId> {
    set run | run in q.runs && Supersedable(q, graph, run)
  }

  function SupersedeQueue(q: Queue, graph: GraphId): Queue {
    q.(runs := map run | run in q.runs ::
         if Supersedable(q, graph, run) then q.runs[run].(status := Superseded) else q.runs[run])
  }

  function SupersedeSources(q: Queue, src: Sources, graph: GraphId, owners: map<GraphId, UserId>): Sources {
    DropCandidates(src, SupersededRuns(q, graph), graph, owners)
  }

  function CreateQueue(q: Queue, now: int, run: RunId, graph: GraphId, hasVersion: bool,
                       jobType: Option<JobType>): Queue {
    var swept := if jobType == Some(Full) then SupersedeQueue(q, graph) else q;
    var created := swept.(runs := swept.runs[run := Run(graph, hasVersion, Pending, None)]);
    if jobType.Some? then Enqueue(created, now, run, jobType.value) else created
  }

  function CreateSources(q: Queue, src: Sources, graph: GraphId, owners: map<GraphId, UserId>, jobType: Option<JobType>)
    : Sources
  {
    if jobType == Some(Full) then SupersedeSources(q, src, graph, owners) else src
  }
}
