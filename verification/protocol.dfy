/**
 The durable run protocol as a transition system. An action is one database
 transaction, one poll of an advisory fence, or one step of a worker between
 two of them; `Apply` is total, and an action whose guard fails changes nothing.
 */
module Protocol {
  import opened Wrappers
  import opened RunStates
  import opened DurableRuns

  type SessionId = nat

  /** Where a worker slot stands in the processing of the one job it took. */
  datatype Phase =
    | Idle
    | Claimed(run: RunId)
    | Loaded(run: RunId, jobType: JobType)
    | Entered(run: RunId, jobType: JobType)
    | Executing(run: RunId)
    | Raised(run: RunId)
    | Returned(run: RunId)
    | Dead
  {
    predicate On(r: RunId) {
      !Idle? && !Dead? && this.run == r
    }
  }

  datatype Fence = RunFence(run: RunId) | PipelineFence(pipeline: Pipeline)

  /** An open transaction that holds, or is about to take, advisory fences. */
  datatype Session =
    | NodeSession(actor: Option<WorkerId>, run: RunId, pipeline: Pipeline, loaded: map<Scope, Option<StateData>>)
    | CompletionSession(actor: Option<WorkerId>, run: RunId, keys: Option<set<Pipeline>>)

  datatype Fences = Fences(holder: map<Fence, SessionId>, sessions: map<SessionId, Session>)

  datatype State = State(
    now: int,
    owners: map<GraphId, UserId>,
    queue: Queue,
    sources: Sources,
    fences: Fences,
    workers: map<WorkerId, Phase>)

  datatype Action =
    // the clock and the operators
    | Tick(elapsed: nat)
    | DoCreate(run: RunId, graph: GraphId, hasVersion: bool, enqueue: Option<JobType>)
    | DoCancel(run: RunId)
    | DoPause(run: RunId)
    | DoResume(run: RunId)
    | DoRetry(run: RunId)
    | DoRecover
    // a worker slot
    | DoClaim(worker: WorkerId, run: RunId, leaseSeconds: nat)
    | DoHeartbeat(worker: WorkerId, run: RunId, leaseSeconds: nat)
    | DoLoadJob(worker: WorkerId)
    | DoEnter(worker: WorkerId)
    | DoStart(actor: Option<WorkerId>, run: RunId, retryBranch: bool)
    | DoSeeStopped(worker: WorkerId)
    | DoFail(actor: Option<WorkerId>, run: RunId, error: string)
    | DoRaise(worker: WorkerId)
    | DoMarkFailed(worker: WorkerId, error: string)
    | DoFinalize(worker: WorkerId, outcome: Option<string>)
    | DoRelease(worker: WorkerId)
    | DoCrash(worker: WorkerId)
    // transactions under fences
    | OpenNode(session: SessionId, actor: Option<WorkerId>, run: RunId, pipeline: Pipeline)
    | OpenCompletion(session: SessionId, actor: Option<WorkerId>, run: RunId)
    | TakeRunFence(session: SessionId)
    | Snapshot(session: SessionId)
    | TakePipelineFence(session: SessionId, pipeline: Pipeline)
    | DoLoad(session: SessionId, scope: Scope)
    | DoStage(session: SessionId, writes: seq<Write>)
    | DoComplete(session: SessionId)
    | Abort(session: SessionId)
  {
    predicate Operator() {
      DoCreate? || DoCancel? || DoPause? || DoResume? || DoRetry? || DoRecover?
    }

    predicate Worker() {
      || DoClaim? || DoHeartbeat? || DoLoadJob? || DoEnter? || DoSeeStopped? || DoRaise?
      || DoMarkFailed? || DoFinalize? || DoRelease? || DoCrash?
    }

    predicate Fencing() {
      OpenNode? || OpenCompletion? || TakeRunFence? || Snapshot? || TakePipelineFence? || DoLoad? || Abort?
    }
  }

  // ---------------------------------------------------------------- phases

  function PhaseOf(s: State, worker: WorkerId): Phase {
    if worker in s.workers then s.workers[worker] else Idle
  }

  function SetPhase(s: State, worker: WorkerId, phase: Phase): State {
    s.(workers := s.workers[worker := phase])
  }

  function StatusOf(q: Queue, run: RunId): Option<Status> {
    if run in q.runs then Some(q.runs[run].status) else None
  }

  /** How a worker body ends or goes on after a transaction of its own. */
  function Advance(s: State, actor: Option<WorkerId>, run: RunId, phase: Phase): State {
    if actor.Some? && PhaseOf(s, actor.value) == Executing(run) then SetPhase(s, actor.value, phase) else s
  }

  // ---------------------------------------------------------------- fences

  predicate Holds(f: Fences, fence: Fence, session: SessionId) {
    fence in f.holder && f.holder[fence] == session
  }

  function Close(f: Fences, session: SessionId): Fences {
    Fences(
      map fence | fence in f.holder && f.holder[fence] != session :: f.holder[fence],
      f.sessions - {session})
  }

  predicate HoldsAll(f: Fences, pipelines: set<Pipeline>, session: SessionId) {
    forall p :: p in pipelines ==> Holds(f, PipelineFence(p), session)
  }

  predicate MayTakePipeline(f: Fences, session: SessionId, pipeline: Pipeline)
    requires session in f.sessions
  {
    match f.sessions[session]
    case NodeSession(_, _, own, _) => pipeline == own
    case CompletionSession(_, _, keys) => keys.Some? && pipeline in keys.value
  }

  function ApplyFence(s: State, a: Action): State
    requires a.Fencing()
  {
    var f := s.fences;
    match a
    case OpenNode(id, actor, run, pipeline) =>
      if id !in f.sessions && pipeline.graph in s.owners && s.owners[pipeline.graph] == pipeline.owner then
        s.(fences := f.(sessions := f.sessions[id := NodeSession(actor, run, pipeline, map[])]))
      else
        s
    case OpenCompletion(id, actor, run) =>
      if id !in f.sessions then
        s.(fences := f.(sessions := f.sessions[id := CompletionSession(actor, run, None)]))
      else
        s
    case TakeRunFence(id) =>
      if id !in f.sessions then s
      else
        var session := f.sessions[id];
        if session.NodeSession? && !LeaseAccepted(s.queue, s.now, session.run, session.actor) then
          s.(fences := Close(f, id))
        else if RunFence(session.run) !in f.holder then
          s.(fences := f.(holder := f.holder[RunFence(session.run) := id]))
        else s
    case Snapshot(id) =>
      if id in f.sessions && f.sessions[id].CompletionSession? && f.sessions[id].keys.None?
         && Holds(f, RunFence(f.sessions[id].run), id) then
        var session := f.sessions[id];
        s.(fences := f.(sessions :=
             f.sessions[id := session.(keys := Some(CandidatePipelines(s.sources, session.run)))]))
      else s
    case TakePipelineFence(id, pipeline) =>
      if id in f.sessions && Holds(f, RunFence(f.sessions[id].run), id) && MayTakePipeline(f, id, pipeline)
         && PipelineFence(pipeline) !in f.holder then
        var session := f.sessions[id];
        if session.NodeSession? && !LeaseAccepted(s.queue, s.now, session.run, session.actor) then
          s.(fences := Close(f, id))
        else
          s.(fences := f.(holder := f.holder[PipelineFence(pipeline) := id]))
      else s
    case DoLoad(id, scope) =>
      if id in f.sessions && f.sessions[id].NodeSession? && scope.pipeline == f.sessions[id].pipeline
         && Holds(f, RunFence(f.sessions[id].run), id) && Holds(f, PipelineFence(scope.pipeline), id) then
        var session := f.sessions[id];
        s.(fences := f.(sessions :=
             f.sessions[id := session.(loaded := session.loaded[scope := Visible(s.sources.committed, scope)])]))
      else s
    case Abort(id) => s.(fences := Close(f, id))
  }

  // ------------------------------------------------- staging and completion

  predicate StageAccepted(s: State, id: SessionId, writes: seq<Write>) {
    && id in s.fences.sessions
    && s.fences.sessions[id].NodeSession?
    && var session := s.fences.sessions[id];
       && Holds(s.fences, RunFence(session.run), id)
       && Holds(s.fences, PipelineFence(session.pipeline), id)
       && (forall w :: w in writes ==> w.scope.pipeline == session.pipeline)
       && LeaseAccepted(s.queue, s.now, session.run, session.actor)
       && session.run in s.queue.runs
       && s.queue.runs[session.run].graph == session.pipeline.graph
       && s.queue.runs[session.run].status == Running
  }

  /** Staging commits with the node's output or is rolled back; both end the transaction. */
  function ApplyStage(s: State, id: SessionId, writes: seq<Write>): State {
    if id !in s.fences.sessions || !s.fences.sessions[id].NodeSession? then s
    else
      var session := s.fences.sessions[id];
      var closed := s.(fences := Close(s.fences, id));
      if StageAccepted(s, id, writes) then
        closed.(sources := StageAll(s.sources, session.run, writes))
      else
        closed
  }

  predicate ReadyToComplete(s: State, id: SessionId) {
    && id in s.fences.sessions
    && s.fences.sessions[id].CompletionSession?
    && s.fences.sessions[id].keys.Some?
    && Holds(s.fences, RunFence(s.fences.sessions[id].run), id)
    && HoldsAll(s.fences, s.fences.sessions[id].keys.value, id)
  }

  function OutcomeAt(s: State, id: SessionId): CompletionOutcome
    requires ReadyToComplete(s, id)
  {
    var session := s.fences.sessions[id];
    CompletionOf(s.queue, s.sources, s.now, session.run, session.actor, session.keys.value)
  }

  predicate Acknowledges(s: State, id: SessionId) {
    ReadyToComplete(s, id) && OutcomeAt(s, id) == Acknowledged
  }

  function ApplyComplete(s: State, id: SessionId): State {
    if !ReadyToComplete(s, id) then s
    else
      var session := s.fences.sessions[id];
      var outcome := OutcomeAt(s, id);
      var ended := Advance(s.(fences := Close(s.fences, id)), session.actor, session.run,
                           if outcome == Acknowledged || outcome == ControlWon then Returned(session.run)
                           else Raised(session.run));
      if outcome == Acknowledged then
        ended.(queue := SetCompleted(s.queue, session.run), sources := Promoted(s.sources, session.run))
      else
        ended
  }

  // --------------------------------------------------------------- workers

  function ApplyWorker(s: State, a: Action): State
    requires a.Worker()
  {
    var phase := PhaseOf(s, a.worker);
    match a
    case DoClaim(w, run, lease) =>
      if phase == Idle && Claimable(s.queue, s.now, run) then
        SetPhase(s.(queue := Claim(s.queue, s.now, run, w, lease)), w, Claimed(run))
      else s
    case DoHeartbeat(w, run, lease) =>
      if phase.On(run) then s.(queue := Heartbeat(s.queue, s.now, run, w, lease)) else s
    case DoLoadJob(w) =>
      if phase.Claimed? then
        SetPhase(s, w, if OwnsLease(s.queue, phase.run, w) then Loaded(phase.run, s.queue.jobs[phase.run].jobType)
                       else Idle)
      else s
    case DoEnter(w) =>
      if phase.Loaded? && phase.run in s.queue.runs then
        SetPhase(s, w, if s.queue.runs[phase.run].status in {Paused, Cancelled, Completed, Superseded} then
                         Returned(phase.run)
                       else Entered(phase.run, phase.jobType))
      else s
    case DoSeeStopped(w) =>
      if phase.Executing? && StatusOf(s.queue, phase.run) != Some(Running) then SetPhase(s, w, Returned(phase.run))
      else s
    case DoRaise(w) =>
      if phase.Loaded? || phase.Entered? || phase.Executing? then SetPhase(s, w, Raised(phase.run)) else s
    case DoMarkFailed(w, error) =>
      if phase.Raised? then
        SetPhase(s.(queue := MarkFailedIfOwned(s.queue, s.now, phase.run, w, error)), w, Returned(phase.run))
      else s
    case DoFinalize(w, error) =>
      if phase.Returned? then SetPhase(s.(queue := Finalize(s.queue, s.now, phase.run, w, error)), w, Idle) else s
    case DoRelease(w) =>
      if phase.Idle? || phase.Dead? then s
      else SetPhase(s.(queue := Release(s.queue, s.now, phase.run, w)), w, Idle)
    case DoCrash(w) => SetPhase(s, w, Dead)
  }

  predicate MayStart(s: State, actor: Option<WorkerId>, run: RunId, retryBranch: bool) {
    if actor.None? then !retryBranch
    else
      var phase := PhaseOf(s, actor.value);
      phase.Entered? && phase.run == run && (retryBranch ==> phase.jobType == RetryFailed)
  }

  function ApplyStart(s: State, actor: Option<WorkerId>, run: RunId, retryBranch: bool): State {
    if MayStart(s, actor, run, retryBranch) && run in s.queue.runs then
      var q := Start(s.queue, run, retryBranch);
      var next := s.(queue := q);
      if actor.None? then next
      else SetPhase(next, actor.value, if q.runs[run].status == Running then Executing(run) else Returned(run))
    else s
  }

  function ApplyFail(s: State, actor: Option<WorkerId>, run: RunId, error: string): State {
    if actor.Some? && PhaseOf(s, actor.value) != Executing(run) then s
    else
      var outcome := FailOutcome(s.queue, s.now, run, actor);
      Advance(s.(queue := FailIfRunning(s.queue, s.now, run, actor, error)), actor, run,
              if outcome == FailureLeaseLost then Raised(run) else Returned(run))
  }

  // ----------------------------------------------------------------- steps

  function ApplyOperator(s: State, a: Action): State
    requires a.Operator()
  {
    match a
    case DoCreate(run, graph, hasVersion, jobType) =>
      if run in s.queue.runs || run in s.queue.jobs then s
      else s.(queue := CreateQueue(s.queue, s.now, run, graph, hasVersion, jobType),
              sources := CreateSources(s.queue, s.sources, graph, s.owners, jobType))
    case DoCancel(run) =>
      s.(queue := CancelRun(s.queue, run), sources := CancelSources(s.queue, s.sources, run, s.owners))
    case DoPause(run) => s.(queue := Pause(s.queue, run))
    case DoResume(run) => s.(queue := Resume(s.queue, s.now, run))
    case DoRetry(run) => s.(queue := Retry(s.queue, s.now, run))
    case DoRecover => s.(queue := RecoverOrphans(s.queue, s.now))
  }

  function Apply(s: State, a: Action): State {
    if a.Operator() then ApplyOperator(s, a)
    else if a.Worker() then ApplyWorker(s, a)
    else if a.Fencing() then ApplyFence(s, a)
    else match a
      case Tick(elapsed) => s.(now := s.now + elapsed)
      case DoStart(actor, run, retryBranch) => ApplyStart(s, actor, run, retryBranch)
      case DoFail(actor, run, error) => ApplyFail(s, actor, run, error)
      case DoStage(id, writes) => ApplyStage(s, id, writes)
      case DoComplete(id) => ApplyComplete(s, id)
  }

  /** The state after a whole run of actions. */
  function After(s: State, actions: seq<Action>): State {
    if actions == [] then s else Apply(After(s, actions[..|actions| - 1]), actions[|actions| - 1])
  }

  function Initial(now: int, owners: map<GraphId, UserId>): State {
    State(now, owners, Queue(map[], map[]), Sources(map[], map[], map[]), Fences(map[], map[]), map[])
  }
}
