/**
 The service functions over the run, job and source-state tables, each one a
 method that updates the rows in place and is proved to perform the
 transaction the protocol takes as one step.
 */
module RunStore {
  import opened Wrappers
  import opened RunStates
  import opened DurableRuns
  import SourceLedger

  predicate PromotableOn(src: Sources, run: RunId, scope: Scope) {
    var key := CandidateKey(run, scope);
    key in src.candidates && BaseUnchanged(src, scope, src.candidates[key])
        && IntentValid(src, scope, src.candidates[key])
  }

  /** One turn of the promotion loop. */
  function PromoteStep(src: Sources, run: RunId, scope: Scope): Sources
    requires PromotableOn(src, run, scope)
  {
    var c := src.candidates[CandidateKey(run, scope)];
    Sources(
      src.candidates - {CandidateKey(run, scope)},
      src.committed[scope := CommittedAfter(src, scope, c)],
      src.history[scope := HistoryOf(src, scope) + [Promotion(run, c, VisibleAfter(c))]])
  }

  /** The loop over the ordered candidates; None once one of them is stale. */
  function PromoteLoop(src: Sources, run: RunId, order: seq<Scope>): Option<Sources> {
    if order == [] then Some(src)
    else
      var last := order[|order| - 1];
      match PromoteLoop(src, run, order[..|order| - 1])
      case None => None
      case Some(mid) => if PromotableOn(mid, run, last) then Some(PromoteStep(mid, run, last)) else None
  }

  /** Where a scope stands after the loop went over `order`. */
  predicate Reached(src: Sources, run: RunId, order: seq<Scope>, mid: Sources, scope: Scope) {
    var key := CandidateKey(run, scope);
    if scope in order then
      && PromotableOn(src, run, scope)
      && key !in mid.candidates
      && scope in mid.committed && mid.committed[scope] == CommittedAfter(src, scope, src.candidates[key])
      && scope in mid.history
      && mid.history[scope] == HistoryOf(src, scope)
         + [Promotion(run, src.candidates[key], VisibleAfter(src.candidates[key]))]
    else
      && (key in mid.candidates <==> key in src.candidates)
      && (key in src.candidates ==> mid.candidates[key] == src.candidates[key])
      && (scope in mid.committed <==> scope in src.committed)
      && (scope in src.committed ==> mid.committed[scope] == src.committed[scope])
      && (scope in mid.history <==> scope in src.history)
      && (scope in src.history ==> mid.history[scope] == src.history[scope])
  }

  ghost predicate AllReached(src: Sources, run: RunId, order: seq<Scope>, mid: Sources) {
    && (forall scope :: Reached(src, run, order, mid, scope))
    && (forall key: CandidateKey :: key.run != run ==>
          (key in mid.candidates <==> key in src.candidates)
          && (key in src.candidates ==> mid.candidates[key] == src.candidates[key]))
  }

  lemma UntouchedIsPromotable(src: Sources, run: RunId, order: seq<Scope>, mid: Sources, scope: Scope)
    requires Reached(src, run, order, mid, scope) && scope !in order
    ensures PromotableOn(mid, run, scope) <==> PromotableOn(src, run, scope)
  {
  }

  lemma StepReaches(src: Sources, run: RunId, order: seq<Scope>, mid: Sources, last: Scope, scope: Scope)
    requires Reached(src, run, order, mid, scope) && Reached(src, run, order, mid, last)
    requires last !in order && PromotableOn(mid, run, last)
    ensures Reached(src, run, order + [last], PromoteStep(mid, run, last), scope)
  {
    if scope == last {
      UntouchedIsPromotable(src, run, order, mid, last);
    }
  }

  lemma StepReachesAll(src: Sources, run: RunId, order: seq<Scope>, mid: Sources, last: Scope)
    requires AllReached(src, run, order, mid) && last !in order && PromotableOn(mid, run, last)
    ensures AllReached(src, run, order + [last], PromoteStep(mid, run, last))
  {
    forall scope ensures Reached(src, run, order + [last], PromoteStep(mid, run, last), scope) {
      assert Reached(src, run, order, mid, scope) && Reached(src, run, order, mid, last);
      StepReaches(src, run, order, mid, last, scope);
    }
  }

  predicate AllPromotable(src: Sources, run: RunId, order: seq<Scope>) {
    forall scope :: scope in order ==> PromotableOn(src, run, scope)
  }

  /** One by one or all at once: the loop reaches every scope as the simultaneous promotion would. */
  lemma {:induction false} LoopReaches(src: Sources, run: RunId, order: seq<Scope>)
    requires Distinct(order)
    ensures PromoteLoop(src, run, order).Some? <==> AllPromotable(src, run, order)
    ensures PromoteLoop(src, run, order).Some? ==> AllReached(src, run, order, PromoteLoop(src, run, order).value)
  {
    if order != [] {
      var prefix, last := order[..|order| - 1], order[|order| - 1];
      LoopReaches(src, run, prefix);
      assert prefix + [last] == order && last !in prefix && last in order;
      if PromoteLoop(src, run, prefix).Some? {
        var mid := PromoteLoop(src, run, prefix).value;
        assert Reached(src, run, prefix, mid, last);
        UntouchedIsPromotable(src, run, prefix, mid, last);
        if PromotableOn(mid, run, last) {
          StepReachesAll(src, run, prefix, mid, last);
        }
      }
    }
  }

  /** The candidate of the next scope is still there when its turn comes. */
  lemma PromotionIsPending(src: Sources, run: RunId, order: seq<Scope>, i: nat, mid: Sources)
    requires Distinct(order) && i < |order| && CandidateKey(run, order[i]) in src.candidates
    requires PromoteLoop(src, run, order[..i]) == Some(mid)
    ensures CandidateKey(run, order[i]) in mid.candidates
  {
    LoopReaches(src, run, order[..i]);
    assert Reached(src, run, order[..i], mid, order[i]);
  }

  lemma {:induction false} StaleStaysStale(src: Sources, run: RunId, order: seq<Scope>, i: nat)
    requires i <= |order| && PromoteLoop(src, run, order[..i]) == None
    ensures PromoteLoop(src, run, order) == None
    decreases |order| - i
  {
    if i == |order| {
      assert order[..i] == order;
    } else {
      assert order[..i + 1][..i] == order[..i];
      StaleStaysStale(src, run, order, i + 1);
    }
  }

  /** The loop over all of a run's candidates is exactly the simultaneous promotion. */
  lemma LoopIsPromoted(src: Sources, run: RunId, order: seq<Scope>)
    requires Distinct(order) && forall scope :: scope in order <==> CandidateKey(run, scope) in src.candidates
    ensures PromoteLoop(src, run, order) == if Promotable(src, run) then Some(Promoted(src, run)) else None
  {
    LoopReaches(src, run, order);
    forall key | key in src.candidates && key.run == run ensures key.scope in order {
      assert key == CandidateKey(run, key.scope);
    }
    assert AllPromotable(src, run, order) <==> Promotable(src, run) by {
      if AllPromotable(src, run, order) {
        forall key | key in src.candidates && key.run == run ensures PromotableOn(src, run, key.scope) {
          assert key.scope in order;
        }
      }
    }
    if Promotable(src, run) {
      ReachedIsPromoted(src, run, order, PromoteLoop(src, run, order).value);
    }
  }

  predicate SameKey(a: Sources, b: Sources, key: CandidateKey) {
    (key in a.candidates <==> key in b.candidates) && (key in a.candidates ==> a.candidates[key] == b.candidates[key])
  }

  predicate SameScope(a: Sources, b: Sources, scope: Scope) {
    && (scope in a.committed <==> scope in b.committed)
    && (scope in a.committed ==> a.committed[scope] == b.committed[scope])
    && (scope in a.history <==> scope in b.history)
    && (scope in a.history ==> a.history[scope] == b.history[scope])
  }

  lemma SameEverywhere(a: Sources, b: Sources)
    requires (forall key :: SameKey(a, b, key)) && (forall scope :: SameScope(a, b, scope))
    ensures a == b
  {
    forall key ensures key in a.candidates <==> key in b.candidates {
      assert SameKey(a, b, key);
    }
    forall key | key in a.candidates ensures a.candidates[key] == b.candidates[key] {
      assert SameKey(a, b, key);
    }
    assert a.candidates == b.candidates;
    forall scope
      ensures (scope in a.committed <==> scope in b.committed) && (scope in a.history <==> scope in b.history)
    {
      assert SameScope(a, b, scope);
    }
    forall scope | scope in a.committed ensures a.committed[scope] == b.committed[scope] {
      assert SameScope(a, b, scope);
    }
    forall scope | scope in a.history ensures a.history[scope] == b.history[scope] {
      assert SameScope(a, b, scope);
    }
    assert a.committed == b.committed && a.history == b.history;
  }

  lemma ReachedIsPromoted(src: Sources, run: RunId, order: seq<Scope>, mid: Sources)
    requires Promotable(src, run) && AllReached(src, run, order, mid)
    requires forall scope :: scope in order <==> CandidateKey(run, scope) in src.candidates
    ensures mid == Promoted(src, run)
  {
    forall key ensures SameKey(mid, Promoted(src, run), key) {
      ReachedKey(src, run, order, mid, key);
    }
    forall scope ensures SameScope(mid, Promoted(src, run), scope) {
      ReachedScope(src, run, order, mid, scope);
    }
    SameEverywhere(mid, Promoted(src, run));
  }

  lemma ReachedKey(src: Sources, run: RunId, order: seq<Scope>, mid: Sources, key: CandidateKey)
    requires Promotable(src, run) && AllReached(src, run, order, mid)
    requires forall scope :: scope in order <==> CandidateKey(run, scope) in src.candidates
    ensures SameKey(mid, Promoted(src, run), key)
  {
    assert Reached(src, run, order, mid, key.scope);
    assert key.run == run ==> key == CandidateKey(run, key.scope);
  }

  lemma ReachedScope(src: Sources, run: RunId, order: seq<Scope>, mid: Sources, scope: Scope)
    requires Promotable(src, run) && AllReached(src, run, order, mid)
    requires forall scope :: scope in order <==> CandidateKey(run, scope) in src.candidates
    ensures SameScope(mid, Promoted(src, run), scope)
  {
    assert Reached(src, run, order, mid, scope);
    SourceLedger.PromotedScope(src, run, scope);
    PromotedHistory(src, run, scope);
  }

  lemma PromotedHistory(src: Sources, run: RunId, scope: Scope)
    requires Promotable(src, run)
    ensures scope in Promoted(src, run).history <==> scope in src.history || CandidateKey(run, scope) in src.candidates
  {
    assert scope in CandidateScopes(src, run) <==> CandidateKey(run, scope) in src.candidates by {
      if CandidateKey(run, scope) in src.candidates {
        assert CandidateKey(run, scope).scope == scope;
      }
    }
  }

  /** Rows recovered one by one are the recovered queue. */
  lemma RecoveredRows(q: Queue, now: int, runs: map<RunId, Run>, jobs: map<RunId, Job>)
    requires runs.Keys == q.runs.Keys
    requires forall run :: run in runs ==>
               runs[run] ==
                 if run in OrphanedRuns(q) then q.runs[run].(status := Pending, error := None) else q.runs[run]
    requires forall run :: run in jobs <==> run in q.jobs || run in OrphanedRuns(q)
    requires forall run :: run in jobs ==> jobs[run] == if run in q.jobs then q.jobs[run] else NewJob(Full, now)
    ensures Queue(runs, jobs) == RecoverOrphans(q, now)
  {
    var r := RecoverOrphans(q, now);
    assert runs == r.runs;
    assert jobs == r.jobs;
  }

  class Database {
    const owners: map<GraphId, UserId>
    var runs: map<RunId, Run>
    var jobs: map<RunId, Job>
    var candidates: map<CandidateKey, Candidate>
    var committed: map<Scope, Committed>
    ghost var history: map<Scope, seq<Promotion>>

    ghost function Q(): Queue
      reads this
    {
      Queue(runs, jobs)
    }

    ghost function S(): Sources
      reads this
    {
      Sources(candidates, committed, history)
    }

    constructor (owners: map<GraphId, UserId>)
      ensures this.owners == owners
      ensures Q() == Queue(map[], map[]) && S() == Sources(map[], map[], map[])
    {
      this.owners := owners;
      runs, jobs, candidates, committed, history := map[], map[], map[], map[], map[];
    }

    // ------------------------------------------------------------- dispatch

    method EnqueueRunJob(now: int, run: RunId, jobType: JobType)
      modifies this
      ensures Q() == Enqueue(old(Q()), now, run, jobType) && S() == old(S())
    {
      if run !in jobs {
        jobs := jobs[run := NewJob(jobType, now)];
      } else {
        var job := jobs[run];
        job := job.(jobType := jobType, status := JobQueued, availableAt := now);
        job := job.(leaseOwner := None, leaseExpiresAt := None, heartbeatAt := None, lastError := None);
        jobs := jobs[run := job];
      }
    }

    method RecoverOrphanedRuns(now: int) returns (recovered: nat)
      modifies this
      ensures Q() == RecoverOrphans(old(Q()), now) && S() == old(S())
      ensures recovered == |OrphanedRuns(old(Q()))|
    {
      ghost var q := Q();
      var orphans := OrphanedRuns(Queue(runs, jobs));
      var todo := orphans;
      recovered := 0;
      while todo != {}
        invariant todo <= orphans && S() == old(S()) && recovered + |todo| == |orphans|
        invariant runs.Keys == q.runs.Keys
        invariant forall run :: run in runs ==>
          runs[run] ==
            if run in orphans && run !in todo then q.runs[run].(status := Pending, error := None) else q.runs[run]
        invariant forall run :: run in jobs <==> run in q.jobs || (run in orphans && run !in todo)
        invariant forall run :: run in jobs ==> jobs[run] == if run in q.jobs then q.jobs[run] else NewJob(Full, now)
      {
        var run :| run in todo;
        runs := runs[run := runs[run].(status := Pending, error := None)];
        jobs := jobs[run := NewJob(Full, now)];
        todo := todo - {run};
        recovered := recovered + 1;
      }
      RecoveredRows(q, now, runs, jobs);
    }

    /** Claims a job that no claimable job precedes in availability order. */
    method ClaimRunJob(now: int, worker: WorkerId, leaseSeconds: nat) returns (claimed: Option<RunId>)
      modifies this
      ensures S() == old(S())
      ensures claimed.None? <==> forall run :: !Claimable(old(Q()), now, run)
      ensures claimed.None? ==> Q() == old(Q())
      ensures claimed.Some? ==>
                && Claimable(old(Q()), now, claimed.value)
                && (forall run :: Claimable(old(Q()), now, run) ==>
                      old(jobs)[claimed.value].availableAt <= old(jobs)[run].availableAt)
                && Q() == Claim(old(Q()), now, claimed.value, worker, leaseSeconds)
    {
      var todo := jobs.Keys;
      claimed := None;
      while todo != {}
        invariant todo <= jobs.Keys && Q() == old(Q()) && S() == old(S())
        invariant claimed.Some? ==> Claimable(Q(), now, claimed.value)
        invariant forall run :: Claimable(Q(), now, run) && run !in todo ==>
          claimed.Some? && jobs[claimed.value].availableAt <= jobs[run].availableAt
      {
        var run :| run in todo;
        if Claimable(Queue(runs, jobs), now, run) {
          if claimed.None? || jobs[run].availableAt < jobs[claimed.value].availableAt {
            claimed := Some(run);
          }
        }
        todo := todo - {run};
      }
      if claimed.Some? {
        var job := jobs[claimed.value];
        job := job.(status := JobLeased, leaseOwner := Some(worker), heartbeatAt := Some(now));
        job := job.(leaseExpiresAt := Some(now + leaseSeconds), attempts := job.attempts + 1);
        jobs := jobs[claimed.value := job];
      }
    }

    method HeartbeatRunJob(now: int, run: RunId, worker: WorkerId, leaseSeconds: nat) returns (renewed: bool)
      modifies this
      ensures Q() == Heartbeat(old(Q()), now, run, worker, leaseSeconds) && S() == old(S())
      ensures renewed <==> LeaseLive(old(Q()), now, run, worker)
    {
      renewed := LeaseLive(Queue(runs, jobs), now, run, worker);
      if renewed {
        jobs := jobs[run := jobs[run].(heartbeatAt := Some(now), leaseExpiresAt := Some(now + leaseSeconds))];
      }
    }

    method MarkRunFailedIfOwned(now: int, run: RunId, worker: WorkerId, error: string) returns (failed: bool)
      modifies this
      ensures Q() == MarkFailedIfOwned(old(Q()), now, run, worker, error) && S() == old(S())
      ensures failed <==> FailsIfOwned(old(Q()), now, run, worker)
    {
      if !LeaseLive(Queue(runs, jobs), now, run, worker) {
        return false;
      }
      if run !in runs || runs[run].status != Running {
        return false;
      }
      runs := runs[run := runs[run].(status := Failed, error := Some(error))];
      failed := true;
    }

    method FinalizeRunJob(now: int, run: RunId, worker: WorkerId, error: Option<string>) returns (outcome: Finalization)
      modifies this
      ensures outcome == FinalizeOutcome(old(Q()), now, run, worker)
      ensures Q() == Finalize(old(Q()), now, run, worker, error) && S() == old(S())
    {
      if !OwnsLease(Queue(runs, jobs), run, worker) || run !in runs {
        return Lost;
      }
      var job := jobs[run];
      if runs[run].status == Paused {
        job := job.(status := JobQueued, availableAt := now);
        job := job.(leaseOwner := None, leaseExpiresAt := None, heartbeatAt := None);
        jobs := jobs[run := job];
        return RequeuedWhilePaused;
      }
      if job.leaseExpiresAt.None? || job.leaseExpiresAt.value <= now {
        return Lost;
      }
      job := job.(status := if error.Some? && error.value != "" then JobFailed else JobCompleted);
      job := job.(leaseOwner := None, leaseExpiresAt := None, heartbeatAt := Some(now), lastError := error);
      jobs := jobs[run := job];
      outcome := Finished;
    }

    method ReleaseRunJob(now: int, run: RunId, worker: WorkerId) returns (released: bool)
      modifies this
      ensures Q() == Release(old(Q()), now, run, worker) && S() == old(S())
      ensures released <==> OwnsLease(old(Q()), run, worker)
    {
      released := OwnsLease(Queue(runs, jobs), run, worker);
      if released {
        var job := jobs[run].(status := JobQueued, availableAt := now);
        jobs := jobs[run := job.(leaseOwner := None, leaseExpiresAt := None, heartbeatAt := None)];
      }
    }

    // ------------------------------------------------------------- run rows

    method FailRunIfRunning(now: int, run: RunId, actor: Option<WorkerId>, error: string)
      returns (outcome: FailureOutcome)
      modifies this
      ensures outcome == FailOutcome(old(Q()), now, run, actor)
      ensures Q() == FailIfRunning(old(Q()), now, run, actor, error) && S() == old(S())
    {
      if actor.Some? && !LeaseLive(Queue(runs, jobs), now, run, actor.value) {
        return FailureLeaseLost;
      }
      if run !in runs {
        return RunMissing;
      }
      var transitioned := runs[run].status == Running;
      if transitioned {
        runs := runs[run := runs[run].(status := Failed, error := Some(error))];
      }
      outcome := Transitioned(transitioned);
    }

    /** The locked start of a job body: an error without the run, else whether it is RUNNING afterwards. */
    method StartRun(run: RunId, retryBranch: bool) returns (started: Option<bool>)
      modifies this
      ensures Q() == Start(old(Q()), run, retryBranch) && S() == old(S())
      ensures started.None? <==> run !in old(runs)
      ensures started.Some? ==>
                (started.value <==>
                 old(runs)[run].status in {Pending, Running} || (retryBranch && old(runs)[run].status == Failed))
    {
      if run !in runs {
        return None;
      }
      var row := runs[run];
      if row.status == Pending || (retryBranch && row.status == Failed) {
        row := row.(status := Running);
      }
      if row.status == Running && retryBranch {
        row := row.(error := None);
      }
      runs := runs[run := row];
      started := Some(row.status == Running);
    }

    method PauseRun(run: RunId) returns (ok: bool)
      modifies this
      ensures Q() == Pause(old(Q()), run) && S() == old(S())
      ensures ok <==> run in old(runs) && old(runs)[run].status == Running
    {
      ok := run in runs && CanTransition(runs[run].status, Paused);
      if ok {
        runs := runs[run := runs[run].(status := Paused)];
      }
    }

    method ResumeRun(now: int, run: RunId) returns (ok: bool)
      modifies this
      ensures Q() == Resume(old(Q()), now, run) && S() == old(S())
      ensures ok <==> run in old(runs) && old(runs)[run].status in {Pending, Paused, Failed}
    {
      ok := run in runs && CanTransition(runs[run].status, Running);
      if ok {
        runs := runs[run := runs[run].(status := Running)];
        if run in jobs {
          var job := jobs[run].(status := JobQueued, availableAt := now, lastError := None);
          jobs := jobs[run := job.(leaseOwner := None, leaseExpiresAt := None, heartbeatAt := None)];
        }
      }
    }

    method RetryFailedRun(now: int, run: RunId) returns (ok: bool)
      modifies this
      ensures Q() == Retry(old(Q()), now, run) && S() == old(S())
      ensures ok <==> run in old(runs) && old(runs)[run].status == Failed && old(runs)[run].hasVersion
    {
      ok := run in runs && runs[run].status == Failed && runs[run].hasVersion;
      if ok {
        runs := runs[run := runs[run].(status := Pending, error := None)];
        EnqueueRunJob(now, run, RetryFailed);
      }
    }

    /** Deletes the candidates of the given runs inside one owner's graph. */
    method DeleteCandidates(dropped: set<RunId>, graph: GraphId)
      modifies this`candidates
      ensures S() == DropCandidates(old(S()), dropped, graph, owners)
    {
      if graph in owners {
        var todo := candidates.Keys;
        ghost var was := candidates;
        while todo != {}
          invariant todo <= was.Keys
          invariant forall key :: key in candidates <==>
            key in was && (key in todo || !(key.run in dropped && key.scope.pipeline.graph == graph
                                            && key.scope.pipeline.owner == owners[graph]))
          invariant forall key :: key in candidates ==> candidates[key] == was[key]
        {
          var key :| key in todo;
          if key.run in dropped && key.scope.pipeline.graph == graph && key.scope.pipeline.owner == owners[graph] {
            candidates := candidates - {key};
          }
          todo := todo - {key};
        }
      }
      assert S().candidates == DropCandidates(old(S()), dropped, graph, owners).candidates;
    }

    method CancelRunRow(run: RunId) returns (ok: bool)
      modifies this
      ensures Q() == CancelRun(old(Q()), run) && S() == CancelSources(old(Q()), old(S()), run, owners)
      ensures ok <==> run in old(runs) && old(runs)[run].status in {Pending, Running, Paused}
    {
      ok := run in runs && CanTransition(runs[run].status, Cancelled);
      if ok {
        runs := runs[run := runs[run].(status := Cancelled)];
        DeleteCandidates({run}, runs[run].graph);
      }
    }

    /** Failed runs whose job is neither queued nor leased give way to a new full run. */
    method SupersedeInactiveFailedRuns(graph: GraphId)
      modifies this
      ensures Q() == SupersedeQueue(old(Q()), graph) && S() == SupersedeSources(old(Q()), old(S()), graph, owners)
    {
      ghost var q := Q();
      var todo := runs.Keys;
      var superseded: set<RunId> := {};
      while todo != {}
        invariant todo <= q.runs.Keys && jobs == q.jobs && S() == old(S()) && runs.Keys == q.runs.Keys
        invariant superseded == set run | run in q.runs && run !in todo && Supersedable(q, graph, run)
        invariant forall run :: run in runs ==>
          runs[run] == if run in superseded then q.runs[run].(status := Superseded) else q.runs[run]
      {
        var run :| run in todo;
        if runs[run].graph == graph && runs[run].status == Failed {
          if !(run in jobs && Active(jobs[run])) {
            runs := runs[run := runs[run].(status := Superseded)];
            superseded := superseded + {run};
          }
        }
        todo := todo - {run};
      }
      assert superseded == SupersededRuns(q, graph);
      DeleteCandidates(superseded, graph);
    }

    method CreateRun(now: int, run: RunId, graph: GraphId, hasVersion: bool, jobType: Option<JobType>)
      requires run !in runs
      modifies this
      ensures Q() == CreateQueue(old(Q()), now, run, graph, hasVersion, jobType)
      ensures S() == CreateSources(old(Q()), old(S()), graph, owners, jobType)
    {
      if jobType == Some(Full) {
        SupersedeInactiveFailedRuns(graph);
      }
      runs := runs[run := Run(graph, hasVersion, Pending, None)];
      if jobType.Some? {
        EnqueueRunJob(now, run, jobType.value);
      }
    }

    // -------------------------------------------------------- source states

    method SaveState(run: RunId, scope: Scope, data: StateData)
      modifies this`candidates
      ensures S() == StageOne(old(S()), run, Write.SaveState(scope, data))
    {
      var key := CandidateKey(run, scope);
      var base, revision := Visible(committed, scope), Revision(committed, scope);
      if key !in candidates {
        candidates := candidates[key := Candidate(Save, Some(data), base, revision)];
      } else {
        var candidate := candidates[key].(operation := Save, data := Some(data));
        candidates := candidates[key := candidate.(baseData := base, baseRevision := revision)];
      }
    }

    method DeleteState(run: RunId, scope: Scope)
      modifies this`candidates
      ensures S() == StageOne(old(S()), run, Write.DeleteState(scope))
    {
      var key := CandidateKey(run, scope);
      if key in candidates {
        if scope !in committed || committed[scope].deleted {
          candidates := candidates - {key};
        } else {
          var candidate := candidates[key].(operation := Delete, data := None);
          candidates := candidates[key := candidate.(baseData := Some(committed[scope].data),
                                                     baseRevision := committed[scope].revision)];
        }
        return;
      }
      if scope !in committed || committed[scope].deleted {
        assert candidates - {key} == candidates;
        return;
      }
      candidates := candidates[key := Candidate(Delete, None, Some(committed[scope].data), committed[scope].revision)];
    }

    /** One turn of the promotion loop; false means the candidate is stale. */
    method PromoteOne(run: RunId, scope: Scope) returns (ok: bool)
      requires CandidateKey(run, scope) in candidates
      modifies this`candidates, this`committed, this`history
      ensures ok <==> PromotableOn(old(S()), run, scope)
      ensures S() == if ok then PromoteStep(old(S()), run, scope) else old(S())
    {
      var key := CandidateKey(run, scope);
      var c := candidates[key];
      var current := Revision(committed, scope);
      if current != c.baseRevision || Visible(committed, scope) != c.baseData {
        return false;
      }
      if scope !in committed {
        if c.operation != Save || c.data.None? {
          return false;
        }
        committed := committed[scope := Committed(c.data.value, 1, false)];
      } else if c.operation == Save && c.data.Some? {
        committed := committed[scope := Committed(c.data.value, current + 1, false)];
      } else if c.operation == Delete {
        committed := committed[scope := Committed(map[], current + 1, true)];
      } else {
        return false;
      }
      history := history[scope := HistoryOf(S(), scope) + [Promotion(run, c, VisibleAfter(c))]];
      candidates := candidates - {key};
      ok := true;
    }

    /** The run's candidate scopes in some order, each once. */
    method OrderedScopes(run: RunId) returns (order: seq<Scope>)
      ensures Distinct(order)
      ensures forall scope :: scope in order <==> CandidateKey(run, scope) in candidates
    {
      var todo := set key | key in candidates && key.run == run :: key.scope;
      ghost var all := todo;
      order := [];
      while todo != {}
        invariant todo <= all && Distinct(order)
        invariant forall scope :: scope in order <==> scope in all && scope !in todo
      {
        var scope :| scope in todo;
        order := order + [scope];
        todo := todo - {scope};
      }
      forall scope ensures scope in all <==> CandidateKey(run, scope) in candidates {
        assert CandidateKey(run, scope).scope == scope;
      }
    }

    /** The promotion loop; a stale candidate rolls every earlier row back. */
    method PromoteInOrder(run: RunId, order: seq<Scope>) returns (promoted: bool)
      requires Distinct(order) && forall scope :: scope in order ==> CandidateKey(run, scope) in candidates
      modifies this`candidates, this`committed, this`history
      ensures promoted <==> PromoteLoop(old(S()), run, order).Some?
      ensures S() == if promoted then PromoteLoop(old(S()), run, order).value else old(S())
    {
      var savedCandidates, savedCommitted := candidates, committed;
      ghost var src := S();
      for i := 0 to |order|
        invariant PromoteLoop(src, run, order[..i]) == Some(S())
      {
        PromotionIsPending(src, run, order, i, S());
        assert order[..i + 1][..i] == order[..i];
        var ok := PromoteOne(run, order[i]);
        if !ok {
          StaleStaysStale(src, run, order, i + 1);
          candidates, committed, history := savedCandidates, savedCommitted, src.history;
          return false;
        }
      }
      assert order[..|order|] == order;
      promoted := true;
    }

    /** The fenced set is checked, then every candidate is promoted or none. */
    method PromoteCandidates(run: RunId, keys: set<Pipeline>) returns (outcome: CompletionOutcome)
      modifies this`candidates, this`committed, this`history
      ensures outcome == if !(CandidatePipelines(old(S()), run) <= keys) then CandidatesChanged
                         else if !Promotable(old(S()), run) then StaleCandidate
                         else Acknowledged
      ensures outcome == Acknowledged ==> S() == Promoted(old(S()), run)
      ensures outcome != Acknowledged ==> S() == old(S())
    {
      var order := OrderedScopes(run);
      if exists scope :: scope in order && scope.pipeline !in keys {
        return CandidatesChanged;
      }
      LoopIsPromoted(S(), run, order);
      var ok := PromoteInOrder(run, order);
      outcome := if ok then Acknowledged else StaleCandidate;
    }

    /** Whole-run completion: promotion and the COMPLETED status commit together or not at all. */
    method CompleteRun(now: int, run: RunId, actor: Option<WorkerId>, keys: set<Pipeline>)
      returns (outcome: CompletionOutcome)
      modifies this
      ensures outcome == CompletionOf(old(Q()), old(S()), now, run, actor, keys)
      ensures outcome == Acknowledged ==> Q() == SetCompleted(old(Q()), run) && S() == Promoted(old(S()), run)
      ensures outcome != Acknowledged ==> Q() == old(Q()) && S() == old(S())
    {
      if actor.Some? && !LeaseLive(Queue(runs, jobs), now, run, actor.value) {
        return CompletionLeaseLost;
      }
      if run !in runs {
        return CompletionRunMissing;
      }
      if runs[run].status != Running {
        return if runs[run].status in {Cancelled, Paused} then ControlWon else NotCompletable;
      }
      outcome := PromoteCandidates(run, keys);
      if outcome == Acknowledged {
        runs := runs[run := runs[run].(status := Completed, error := None)];
      }
    }
  }
}
