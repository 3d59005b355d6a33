/** What the queue and staging transactions leave their callers: who can claim, who owns, what is untouched. */
module QueueEffects {
  import opened Wrappers
  import opened RunStates
  import opened DurableRuns

  /** No row but the run's own differs. */
  ghost predicate OnlyRun(q: Queue, q': Queue, run: RunId) {
    && (forall r :: r != run ==> (r in q.runs <==> r in q'.runs) && (r in q.jobs <==> r in q'.jobs))
    && (forall r :: r != run && r in q.runs ==> q'.runs[r] == q.runs[r])
    && (forall r :: r != run && r in q.jobs ==> q'.jobs[r] == q.jobs[r])
  }

  /** Any worker can claim the run now, and nobody owns it. */
  ghost predicate Offered(q: Queue, now: int, run: RunId) {
    Claimable(q, now, run) && forall worker :: !OwnsLease(q, run, worker)
  }

  /** Nobody can claim the run before `until`. */
  ghost predicate WithheldUntil(q: Queue, run: RunId, until: int) {
    forall t :: t < until ==> !Claimable(q, t, run)
  }

  ghost predicate Withheld(q: Queue, run: RunId) {
    forall t :: !Claimable(q, t, run)
  }

  /** Enqueueing offers an unfinished run, whoever held it before. */
  lemma EnqueueOffers(q: Queue, now: int, run: RunId, jobType: JobType)
    ensures var next := Enqueue(q, now, run, jobType);
            && OnlyRun(q, next, run) && next.jobs[run].jobType == jobType
            && (forall worker :: !OwnsLease(next, run, worker))
            && (run in q.runs && q.runs[run].status in {Pending, Running} ==> Offered(next, now, run))
  {
  }

  /** A claim withholds the run from everybody until the lease runs out, then anybody can take it over. */
  lemma ClaimWithholds(q: Queue, now: int, run: RunId, worker: WorkerId, leaseSeconds: nat)
    requires Claimable(q, now, run)
    ensures var next := Claim(q, now, run, worker, leaseSeconds);
            && OnlyRun(q, next, run) && OwnsLease(next, run, worker)
            && WithheldUntil(next, run, now + leaseSeconds) && Claimable(next, now + leaseSeconds, run)
            && next.jobs[run].attempts == q.jobs[run].attempts + 1
  {
  }

  /** A renewed lease withholds the run for as long again; an unrenewed heartbeat changes no row. */
  lemma HeartbeatWithholds(q: Queue, now: int, run: RunId, worker: WorkerId, leaseSeconds: nat)
    ensures var next := Heartbeat(q, now, run, worker, leaseSeconds);
            && OnlyRun(q, next, run) && next.runs == q.runs
            && (LeaseLive(q, now, run, worker) ==>
                  OwnsLease(next, run, worker) && WithheldUntil(next, run, now + leaseSeconds))
            && (!LeaseLive(q, now, run, worker) ==> next == q)
  {
  }

  /** A released job is offered again at once, to its former holder as to anybody. */
  lemma ReleaseOffers(q: Queue, now: int, run: RunId, worker: WorkerId)
    requires OwnsLease(q, run, worker)
    ensures var next := Release(q, now, run, worker);
            && OnlyRun(q, next, run) && !OwnsLease(next, run, worker)
            && (run in q.runs && q.runs[run].status in {Pending, Running} ==> Offered(next, now, run))
  {
  }

  /** A finished job is never claimed again, and one found paused waits for its resume. */
  lemma FinalizeSettles(q: Queue, now: int, run: RunId, worker: WorkerId, error: Option<string>)
    requires FinalizeOutcome(q, now, run, worker) != Lost
    ensures var next := Finalize(q, now, run, worker, error);
            && OnlyRun(q, next, run) && next.runs == q.runs
            && !OwnsLease(next, run, worker) && Withheld(next, run)
            && (q.runs[run].status == Paused ==> next.jobs[run].status == JobQueued)
  {
  }

  /** Pausing withholds the run; resuming offers it, if it has a job, with its lease gone. */
  lemma PauseThenResume(q: Queue, now: int, run: RunId)
    requires run in q.runs && q.runs[run].status == Running
    ensures Withheld(Pause(q, run), run) && OnlyRun(q, Pause(q, run), run)
    ensures var resumed := Resume(Pause(q, run), now, run);
            && OnlyRun(q, resumed, run) && resumed.runs[run] == q.runs[run]
            && (run in q.jobs ==> Offered(resumed, now, run))
  {
  }

  /** A retry offers the failed run as PENDING and forgets the last error. */
  lemma RetryOffers(q: Queue, now: int, run: RunId)
    requires run in q.runs && q.runs[run].status == Failed && q.runs[run].hasVersion
    ensures var next := Retry(q, now, run);
            && OnlyRun(q, next, run) && Offered(next, now, run)
            && next.runs[run] == q.runs[run].(status := Pending, error := None)
            && next.jobs[run].jobType == RetryFailed && next.jobs[run].lastError.None?
  {
  }

  /** A failed or cancelled run is never claimed, whatever its job. */
  lemma EndedRunIsWithheld(q: Queue, run: RunId, error: string)
    requires run in q.runs
    ensures Withheld(SetFailed(q, run, error), run) && OnlyRun(q, SetFailed(q, run, error), run)
    ensures Cancellable(q, run) ==> Withheld(CancelRun(q, run), run) && OnlyRun(q, CancelRun(q, run), run)
  {
  }

  /** A save or delete stages over the base a promotion will check, and touches no other candidate. */
  lemma StagedIsPromotable(src: Sources, run: RunId, write: Write)
    ensures var next := StageOne(src, run, write); var key := CandidateKey(run, write.scope);
            && next.committed == src.committed && next.history == src.history
            && (forall k :: k != key ==> (k in next.candidates <==> k in src.candidates))
            && (forall k :: k != key && k in src.candidates ==> next.candidates[k] == src.candidates[k])
            && (key in next.candidates ==>
                  && BaseUnchanged(next, write.scope, next.candidates[key])
                  && IntentValid(next, write.scope, next.candidates[key])
                  && VisibleAfter(next.candidates[key]) == (if write.SaveState? then Some(write.data) else None))
            && (key !in next.candidates ==> write.DeleteState? && Visible(src.committed, write.scope).None?)
  {
  }
}
