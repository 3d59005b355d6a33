# Ingestion graph: durable runs, replay-safe pipelines and the graph engine

A Dafny model of the system's hard cores, with proofs of what they promise.

- **Durable runs.** Workers claim jobs under expiring leases while operators
  create, cancel, pause, resume and retry runs. A node stages source states under
  two advisory fences; one transaction promotes all of a run's candidates by
  compare-and-swap and marks the run COMPLETED. `durable_runs.dfy` holds the rows
  and transactions, `protocol.dfy` the step relation (one action per database
  transaction, the fences and each worker's phase as explicit state),
  `source_ledger.dfy`, `acknowledgement.dfy`, `fence_stability.dfy` and
  `leases.dfy` the four invariants, `guarantees.dfy` the theorems over whole runs,
  `stranded_traces.dfy` three runs that show the lease guards are needed, and
  `run_store.dfy` the row-updating methods proved equal to the transactions.
  `queue_effects.dfy` and `operator_effects.dfy` say field by field what those
  transactions do to the rows, and `unhindered.dfy` that a completion or a node
  whose fences are free goes through, and exactly when.
- **Checkpointed pipelines.** `pipeline.dfy` proves crash equivalence once, for
  every destination that absorbs a replayed batch; `replay.dfy` is the shared
  theory of batches; `delivered_groups.dfy` reads what must be delivered off the
  messages alone; `jsonl.dfy`, `current_view.dfy` with `sqlite.dfy`, and
  `postgres_ledger.dfy` with `postgres_rows.dfy` are the three destinations, to which
  `crash_equivalence.dfy` applies it. `ordering.dfy` holds ordered listings and pages.
- **The graph engine.** `dag.dfy` and `scheduler.dfy` (Kahn levels and longest
  paths), `dataflow.dfy` and `executor.dfy` (refinement to recursive evaluation),
  `journal.dfy` (the checkpoints and node records that attempts leave),
  `partial_retry.dfy` (closure of the failed nodes, what a retry needs of the
  journal, and which edges it reads) and `attempts.dfy` (series of full runs and
  retries, and exactly when the one that completes equals a full run).
- **Smaller cores.** `splitter.dfy` with `tight_split.dfy`, `webhook_ledger.dfy` with
  `webhook_replies.dfy`, `trigger_schedule.dfy`, `transport.dfy`, `table_grid.dfy`.

`dafny verify dfyconfig.toml` checks the whole project.

## Where code and documentation differ

The code is followed. What each point claims of the code is stated and proved in the
modules named above, or visible in their definitions.

- docs/durable-execution.md (lines 3-7) presents dispatch through `run_jobs` as
  leaving recoverable work instead of losing it. Two ways a retry strands its run,
  unfinished with a closed job, are exceptions. Its body can raise while the run is
  still PENDING: resolving the graph's connections raises before the locked start
  once a connection was deleted, and the failure mark wants a RUNNING run. And its
  start is not lease-checked, so a body that outlived its lease can restart a run
  that another worker has failed, before or after that worker closes the job.
  A live lease holder's raise strands exactly while PENDING (`RaiseStrandsIffPending`),
  and a start that leaves FAILED strands exactly when it is not safe
  (`RetryStartKeepsWorkIff`, `UnsafeStartStrands`); under these two guards no
  reachable state strands a run.
- Claims about fencing do not cover the start of a job body, which takes no lease.
- The JSONL version cache is not updated by a write that fails inside a living
  process; retrying in that process repeats the lines already on file
  (`StaleCacheRepeats`). Crash equivalence is about processes that restart.
- In PostgreSQL insert mode without a unique index on the key fields, one DELETE
  event can report several affected rows. The pipeline then raises although the
  batch is committed; the next run finds the events in the ledger and goes on
  (`CountsWithinIffUniqueKey`, `RefusedBatchIsKept`).
- Source states are said to be promoted only after all graph nodes succeed
  (docs/durable-execution.md:17), and a failed-node retry to promote them after the
  source's downstream nodes succeed (docs/architecture.md:87). A retry executes only
  what the failed nodes reach. A full run that failed at some level has executed
  nothing above it, so a node further up on another branch is never executed: the
  retry completes the run and promotes its states without it
  (`LaterBranchIsSkipped`). That a retry completes with the outputs of a full run
  holds exactly without such gaps and without surviving error outputs
  (`ExecuteFailedNodes`, `ExecuteRunJobs`), and after a first run that failed at
  level k the gaps are exactly the nodes above k that no failed node reaches and
  that have something to output (`FirstFailureIff`).
- A node may report an output with its failure; a full run saves it as a checkpoint,
  and a retry restores it. It survives when the node then completes with nothing to
  output (`ErrorOutputSurvives`). This takes a node whose behaviour changes between
  attempts in that way; every node the repository registers completes with a
  non-empty output, which replaces the error.
- The scheduler reads edge ends also from `from` and `to`; the executor and the
  retry closure do not (`FromToOnlyOrders`). Data flows along an edge between known
  nodes exactly if both ends are named by the other keys (`FedIffNamed`), and a retry
  follows the scheduler's arcs exactly if all edges are so named and no target is
  the empty name (`RetryArcsIff`). Saving a graph version refuses an edge whose
  `source` and `target` are not known nodes, and the templates always write both, so
  only a version row not written by this code can show a difference in the names;
  a saved graph is read alike unless an edge leads to a node with the empty name
  (`SavedGraphReadAlike`).
- Two deliveries of one signed pair can both be accepted when retention is shorter
  than twice the allowed skew plus the time a request may take; the clock is read
  once for the skew check and again for the ledger row.

## Model

| member | source | states |
|---|---|---|
| RunStates.TerminalHasNoExit | backend/app/engine/state.py:29-45 | COMPLETED, CANCELLED and SUPERSEDED are exactly the statuses the transition table never leaves |
| Guarantees.ReachableInvariant | backend/app/services/sdk_source_state_service.py:415-581 | every state any sequence of worker, operator, clock and fenced-transaction steps can reach satisfies the ledger, acknowledgement and fence invariants together |
| Guarantees.NoLostUpdate | backend/app/services/sdk_source_state_service.py:449-500 | in every reachable state each scope's promotions form one chain: the i-th was staged on revision i and on exactly what its predecessor left visible (tombstones included), the committed revision is their number, and no run appears twice |
| SourceLedger.EqualRevisionEqualBase | backend/app/services/sdk_source_state_service.py:246-315 | two candidates of a scope with equal base revisions have equal base states, and so has a candidate and a promotion already made |
| SourceLedger.RevisionDecides | backend/app/services/sdk_source_state_service.py:460-468 | on ledger states the revision comparison alone decides staleness; the base-state comparison never rejects on its own |
| SourceLedger.SecondOfOneBaseIsStale | backend/app/services/sdk_source_state_service.py:460-468 | of two runs staged on one base of a scope, promoting the first makes the second unpromotable |
| SourceLedger.BasesPromotedOnce | backend/app/services/sdk_source_state_service.py:469-500 | no two promotions of a scope share a base revision |
| Guarantees.PromotionIsAcknowledgement | backend/app/services/sdk_source_state_service.py:503-581 | the promotion history changes only in the one step that moves its run from RUNNING to COMPLETED |
| Guarantees.AcknowledgementPromotesAll | backend/app/services/sdk_source_state_service.py:571-581 | that step appends every candidate of the run to its scope, once and with its own data, leaves every other scope alone and empties the run's staging area |
| Guarantees.CompletedOnlyByAcknowledgement | backend/app/services/sdk_source_state_service.py:503-581 | a run becomes COMPLETED in no other step |
| Guarantees.TerminalForever | backend/app/services/execution_service.py:126-152 | a terminal run keeps its status under every continuation of every run of the system, and never holds candidates |
| Guarantees.FailedKeepsCandidates | backend/app/services/execution_service.py:330-382 | a FAILED run keeps its candidates, unchanged, in every step that does not supersede it |
| Acknowledgement.StepsFollowTable | backend/app/engine/state.py:67-76 | every step moves every run along the transition table, or along the two edges taken outside it (retry of a FAILED run, recovery of a jobless RUNNING run), or not at all; runs never disappear |
| Guarantees.CandidatesNeverChangeWhileFenced | backend/app/services/sdk_source_state_service.py:440-447 | in every reachable state a completion that holds its fences never meets the "candidates changed" error |
| Guarantees.LoadedBaseIsRecorded | backend/app/services/sdk_source_state_service.py:230-267 | in every reachable state the base that staging records is exactly the state the node loaded in that transaction |
| FenceStability.LoadedStaysCommitted | backend/app/services/sdk_source_state_service.py:152-176 | what a node transaction loaded is what is committed, and no step that leaves the transaction open changes it |
| FenceStability.FencedPipelineStays | backend/app/services/sdk_source_state_service.py:369-389 | while a transaction holds a pipeline fence, no step but its own completion changes what is visible in that pipeline, loaded or not |
| Guarantees.FencedPipelineNeverMoves | backend/app/services/sdk_source_state_service.py:369-389 | the same in every reachable state |
| FenceStability.PromotionRespectsFences | backend/app/services/sdk_source_state_service.py:369-389 | a promotion moves no scope another open transaction has loaded |
| FenceStability.StepKeepsFences | backend/app/services/sdk_source_state_service.py:152-176 | mutual exclusion of the run and pipeline fences, currency of loaded states and coverage of completion snapshots are kept by every step |
| Guarantees.NoStrandedRun | backend/app/services/run_queue_service.py:73-114 | under the two guards proved exact below, in every reachable state every unfinished run that has a job has it queued or leased, and a PENDING or RUNNING one becomes claimable after some wait |
| Leases.StepKeepsWork | backend/app/engine/run_worker.py:91-142 | the invariant tying each worker's phase to run status and lease is kept by every guarded step |
| Leases.RaiseStrandsIffPending | backend/app/engine/run_worker.py:121-142 | a live lease holder whose body raises strands its run if and only if the run is still PENDING |
| Leases.RetryStartKeepsWorkIff | backend/app/engine/run_job_executor.py:136-153 | a retry body that restarts a FAILED run keeps the no-stranding invariant if and only if its start is safe: the job is open, and no live lease holder has returned and is about to close it |
| Leases.UnsafeStartStrands | backend/app/services/run_queue_service.py:237-292 | every unsafe start strands its run, at once or by the finalization its lease holder comes to next |
| Leases.LeasedStartIsSafe | backend/app/engine/run_job_executor.py:136-153 | the lease check the code leaves out at the start would make it safe |
| StrandedTraces.RaiseBeforeStartStrands | backend/app/engine/run_job_executor.py:127 | a whole run from the empty database: a full run fails at a node, is retried, and the retry body raises before its start, which closes the job under a PENDING run |
| StrandedTraces.LateRetryStartStrands | backend/app/engine/run_job_executor.py:136-153 | a whole run in which a retry body that outlived its lease restarts the run after another worker failed it and closed the job |
| StrandedTraces.StartBeforeFinalizeStrands | backend/app/engine/run_job_executor.py:136-153 | the same with the late start before the other worker has closed the job: the run is stranded by that closing |
| Guarantees.FencedForever | backend/app/services/execution_service.py:155-223 | once a worker does not own a run's lease, and until it claims that run anew, it never owns it, and each heartbeat, failure, finalize, release, stage or completion attempt of its leaves jobs, runs, candidates and committed states unchanged |
| Leases.TakeoversDisown | backend/app/services/execution_service.py:269-293 | a claim by another worker, a resume and a retry each leave the previous holder disowned |
| Guarantees.LeaseIsExclusive | backend/app/services/run_queue_service.py:73-142 | a lease is exclusive for its whole time: in every continuation in which its holder does not give it up and no operator resumes or retries the run, it is live until its end, so the holder's transactions are accepted and nobody can claim the run |
| RunStore.LoopIsPromoted | backend/app/services/sdk_source_state_service.py:449-500 | the row-by-row promotion loop, in any order of the scopes, is the all-at-once promotion, and fails exactly when some candidate is stale or invalid |
| QueueEffects.EnqueueOffers | backend/app/services/run_queue_service.py:44-70 | read off the transaction: an enqueued run has no lease holder, is claimable now when unfinished, and no other row differs |
| QueueEffects.ClaimWithholds | backend/app/services/run_queue_service.py:73-114 | read off the transaction: a claim withholds the run from everybody until its lease runs out, and then from nobody |
| QueueEffects.HeartbeatWithholds | backend/app/services/run_queue_service.py:117-142 | read off the transaction: a renewed lease withholds the run for as long again; any other heartbeat changes no row |
| QueueEffects.ReleaseOffers | backend/app/services/run_queue_service.py:295-318 | read off the transaction: a released run is offered again at once and its holder owns nothing |
| QueueEffects.FinalizeSettles | backend/app/services/run_queue_service.py:237-292 | read off the transaction: a settled job is not claimable at any time, has no owner, and under a paused run waits as queued |
| QueueEffects.PauseThenResume | backend/app/services/execution_service.py:250-293 | read off the transaction: a paused run cannot be claimed at any time; resuming restores its row and offers its job without the old lease |
| QueueEffects.RetryOffers | backend/app/api/executions.py:230-256 | read off the transaction: a retried run is PENDING, without its error, and offered as a retry |
| QueueEffects.EndedRunIsWithheld | backend/app/services/run_queue_service.py:85-95 | read off the transaction: a failed or cancelled run is never claimable, whatever its job |
| QueueEffects.StagedIsPromotable | backend/app/services/sdk_source_state_service.py:236-315 | read off the transaction: what a save or delete stages is promotable over the current base, becomes visible as written, and touches no other candidate; only a delete of nothing visible leaves no candidate |
| OperatorEffects.FullRunSupersedes | backend/app/services/execution_service.py:340-381 | a new full run supersedes exactly the FAILED runs of its graph whose job is missing, completed or failed, and changes no other field of any run or job that was there; its own rows are as listed |
| OperatorEffects.SupersededLoseCandidates | backend/app/services/execution_service.py:375-381 | in every reachable state the candidates of exactly those runs go; every other candidate and all committed states stay |
| OperatorEffects.NoDeadFailureLeft | backend/app/services/execution_service.py:357-373 | after a new full run no FAILED run of its graph is left with a missing or closed job |
| OperatorEffects.OtherCreations | backend/app/services/execution_service.py:30-82 | any other creation supersedes nothing |
| OperatorEffects.CancelEnds | backend/app/services/execution_service.py:126-152 | cancels exactly a PENDING, RUNNING or PAUSED run |
| OperatorEffects.CancelDropsCandidates | backend/app/services/execution_service.py:320-328 | in every reachable state a cancellation drops exactly the candidates of its run |
| OperatorEffects.PauseHalts | backend/app/services/execution_service.py:250-266 | pauses exactly a RUNNING run, and moves nothing else |
| OperatorEffects.ResumeOffers | backend/app/services/execution_service.py:269-293 | sets exactly a run the table lets run RUNNING, and offers its job again without lease or error |
| OperatorEffects.RetryRevives | backend/app/api/executions.py:230-256 | exactly a FAILED run with a version goes back to PENDING with a retry job on offer |
| OperatorEffects.RecoveryRevives | backend/app/services/run_queue_service.py:17-41 | exactly the versioned PENDING and RUNNING runs without a job go back to PENDING and get a full one |
| OperatorEffects.ClaimLeases | backend/app/services/run_queue_service.py:73-114 | a claim succeeds exactly on an unfinished run whose queued job is due or whose lease ran out, and sets each field of the job |
| OperatorEffects.HeartbeatRenews | backend/app/services/run_queue_service.py:117-142 | renews exactly an unexpired lease of its sender |
| OperatorEffects.RaiseFails | backend/app/services/run_queue_service.py:176-234 | a body that raised fails its run exactly if that is RUNNING under an unexpired lease |
| OperatorEffects.FinalizeCloses | backend/app/services/run_queue_service.py:237-292 | an owner gives a paused run's job back; an unexpired lease closes the job, as failed exactly with an error; anything else changes nothing |
| OperatorEffects.ReleaseReturns | backend/app/services/run_queue_service.py:295-318 | an owned job is offered again, whether or not its lease has run out |
| OperatorEffects.StartRuns | backend/app/engine/run_job_executor.py:136-153 | a body starts exactly a PENDING run, and on the retry branch a FAILED one, and goes on exactly if the run is RUNNING |
| OperatorEffects.BodyFails | backend/app/services/execution_service.py:155-223 | a failing body fails its run exactly if that is RUNNING and the lease unexpired |
| Unhindered.CompletionIff | backend/app/services/sdk_source_state_service.py:503-581 | in every reachable state a completion that holds its fences completes its run if and only if its actor is direct or holds an unexpired lease, the run is RUNNING and every candidate's base revision is current; otherwise no row changes |
| Unhindered.CompletionShows | backend/app/services/sdk_source_state_service.py:449-500 | after it every scope with a candidate shows that candidate's data, or nothing for a delete, one revision on; every other scope is as it was |
| Unhindered.UnhinderedCompletion | backend/app/services/sdk_source_state_service.py:503-581 | from any reachable state in which the needed fences are free, the steps of a completion, one after another, complete the run exactly under that condition |
| Unhindered.UnhinderedNode | backend/app/services/sdk_source_state_service.py:152-315 | from any state in which its two fences are free, the steps of a node transaction stage, for each scope written, its last write over the committed base, exactly if the actor is entitled, the run RUNNING on the graph and the writes the node's own; otherwise no row changes |
| Unhindered.StageAllStages | backend/app/services/sdk_source_state_service.py:246-315 | what any sequence of saves and deletes leaves staged, scope by scope |
| RunStore.Database.EnqueueRunJob | backend/app/services/run_queue_service.py:44-70 | creates the run's only job or requeues it with all lease fields cleared |
| RunStore.Database.RecoverOrphanedRuns | backend/app/services/run_queue_service.py:17-41 | gives exactly the versioned PENDING or RUNNING runs without a job a queued one, resets them to PENDING and counts them |
| RunStore.Database.ClaimRunJob | backend/app/services/run_queue_service.py:73-114 | returns nothing exactly when nothing is claimable; otherwise leases the claimable job that became available first |
| RunStore.Database.HeartbeatRunJob | backend/app/services/run_queue_service.py:117-142 | extends the lease exactly when it is owned and unexpired |
| RunStore.Database.MarkRunFailedIfOwned | backend/app/services/run_queue_service.py:176-234 | fails a RUNNING run exactly under the caller's live lease |
| RunStore.Database.FinalizeRunJob | backend/app/services/run_queue_service.py:237-292 | requeues under a paused run, closes under a live lease, and otherwise changes nothing |
| RunStore.Database.ReleaseRunJob | backend/app/services/run_queue_service.py:295-318 | returns an owned job to the queue at once |
| RunStore.Database.FailRunIfRunning | backend/app/services/execution_service.py:155-223 | fails a RUNNING run, with the lease error before any row is changed |
| RunStore.Database.StartRun | backend/app/engine/executor.py:81-97 | an error without the run; otherwise moves PENDING (and on the retry branch FAILED) to RUNNING without a lease check |
| RunStore.Database.PauseRun | backend/app/services/execution_service.py:250-266 | pauses exactly a RUNNING run |
| RunStore.Database.ResumeRun | backend/app/services/execution_service.py:269-293 | sets RUNNING and requeues the job in one transaction |
| RunStore.Database.RetryFailedRun | backend/app/api/executions.py:197-258 | takes a FAILED run with a version back to PENDING with a queued retry job |
| RunStore.Database.CancelRunRow | backend/app/services/execution_service.py:126-152 | cancels exactly where the table allows and drops the run's candidates of the same owner and graph |
| RunStore.Database.SupersedeInactiveFailedRuns | backend/app/services/execution_service.py:330-382 | supersedes exactly the graph's FAILED runs without an active job and drops their candidates |
| RunStore.Database.CreateRun | backend/app/services/execution_service.py:30-68 | supersedes, creates and enqueues in one transaction |
| RunStore.Database.SaveState | backend/app/services/sdk_source_state_service.py:236-267 | stages a save over the committed base and revision |
| RunStore.Database.DeleteState | backend/app/services/sdk_source_state_service.py:283-315 | stages a delete, or forgets the candidate when nothing visible is committed |
| RunStore.Database.PromoteCandidates | backend/app/services/sdk_source_state_service.py:415-500 | promotes all candidates or none, with the snapshot and staleness errors exactly where they belong |
| RunStore.Database.CompleteRun | backend/app/services/sdk_source_state_service.py:503-581 | the outcome, in the order the errors are checked, and on success COMPLETED and the promotion together |
| CheckpointedPipeline.Pipeline.Run | sdk/src/ingestion_graph/pipeline.py:48-123 | a run that finishes leaves the destination of an uninterrupted one, whatever crashed before; with enough budget and a destination that counts honestly it finishes exactly if every source keeps its contract and no delivery fails; it reports every state message it passed and the sum of the counts of its writes |
| CheckpointedPipeline.Pipeline.RunThroughCrashes | sdk/src/ingestion_graph/pipeline.py:48-123 | the same after any finite series of runs that crash or fail at any point |
| DeliveredGroups.UninterruptedWritesGroups | sdk/src/ingestion_graph/pipeline.py:48-123 | what a run must leave, read off the messages: for each stream where first listed, the records between each two state messages, through every transform, written in order |
| DeliveredGroups.ClosedMeans | sdk/src/ingestion_graph/pipeline.py:61-106 | a source keeps its contract exactly if every message is of a known type and its own stream and some state message follows each record |
| CheckpointedPipeline.Pipeline.Checkpoint | sdk/src/ingestion_graph/pipeline.py:75-94 | the checkpoint is saved only after the batch is durable, and at every instant the destination holds exactly the acknowledged batches or is inside the next one |
| CheckpointedPipeline.Pipeline.DeliverPending | sdk/src/ingestion_graph/pipeline.py:78-87 | what reaches the destination and what is reported, for every answer of the destination: a batch with an invalid count is refused although it is written |
| CrashEquivalence.IntoJsonl | sdk/src/ingestion_graph/pipeline.py:48-123 | crash equivalence for the JSONL file, version for version in file order; a line's observation time and provenance, which no version covers, are not compared |
| CrashEquivalence.IntoSqlite | sdk/src/ingestion_graph/pipeline.py:48-123 | crash equivalence for the current view of a collection |
| CrashEquivalence.IntoPostgres | sdk/src/ingestion_graph/pipeline.py:48-123 | crash equivalence for a target table with its ledger |
| CrashEquivalence.RefusedBatchIsKept | sdk/src/ingestion_graph/pipeline.py:83-86 | an over-counted batch is durable although the pipeline refuses it, and its replay changes nothing and reports 0 |
| CheckpointedPipeline.UptoNext | sdk/src/ingestion_graph/pipeline.py:75-94 | acknowledging one more checkpoint adds exactly the delivery of the records since the previous one |
| CheckpointedPipeline.StreamFinished | sdk/src/ingestion_graph/pipeline.py:102-106 | a stream without a further checkpoint contributes all of its batches |
| CheckpointedPipeline.PendingIsOpen | sdk/src/ingestion_graph/pipeline.py:102-106 | records left at the end of a stream mean the source broke its contract |
| Replay.FoldConcat | sdk/src/ingestion_graph/destinations/postgres.py:271-305 | splitting a batch anywhere and writing the halves is writing the batch, counts included |
| Replay.OnlyFirstOccurrences | sdk/src/ingestion_graph/destinations/postgres.py:281-305 | for any step that remembers what it applied, only the first occurrence of each event counts |
| Jsonl.JsonlAbsorbs | sdk/src/ingestion_graph/destinations/jsonl.py:89-108 | replaying a batch over anything a crash can leave of it ends version for version where the undisturbed write ends, and counts stay within the batch |
| Jsonl.AppendsFirstOccurrences | sdk/src/ingestion_graph/destinations/jsonl.py:96-108 | a write appends exactly the versions not on file, each once, in first-occurrence order, and returns their number |
| Jsonl.StaleCacheRepeats | sdk/src/ingestion_graph/destinations/jsonl.py:89-108 | after a write that failed without ending the process, a retry repeats exactly the lines that had reached the file, so the file stays free of repeats if and only if none had |
| Jsonl.JsonlDestination.WriteSync | sdk/src/ingestion_graph/destinations/jsonl.py:89-108 | the cached append loop is the fold over the file, and keeps cache and file in agreement |
| Jsonl.JsonlDestination.CrashDuringWrite | sdk/src/ingestion_graph/destinations/jsonl.py:89-108 | a crash keeps the whole lines of a prefix of the batch |
| CurrentView.LatestWins | sdk/src/ingestion_graph/destinations/sqlite.py:114-183 | each key shows the batch's last version of it, nothing after a delete, and what it showed before otherwise |
| CurrentView.ReplayKeepsView | sdk/src/ingestion_graph/destinations/sqlite.py:114-183 | an exact replay leaves the view as it is, whatever keys repeat |
| CurrentView.ReplayReportsNothingIff | sdk/src/ingestion_graph/destinations/sqlite.py:142-143 | an exact replay returns 0 if and only if no version in the batch is overridden by a later one |
| CurrentView.DistinctKeysReplayQuietly | sdk/src/ingestion_graph/destinations/sqlite.py:142-143 | with distinct keys an exact replay returns 0 |
| CurrentView.SqliteAbsorbs | sdk/src/ingestion_graph/destinations/sqlite.py:114-183 | the collection absorbs replays and its counts stay within the batch |
| SqliteCollections.SqliteCollection.WriteSync | sdk/src/ingestion_graph/destinations/sqlite.py:114-183 | the records table refines the last-writer-wins view and keeps the text table's ids and texts equal to its own |
| SqliteCollections.SqliteCollection.WriteOne | sdk/src/ingestion_graph/destinations/sqlite.py:120-181 | one envelope removes its key's row, leaves it alone if it holds that version, or makes it hold the version, dated now, under its row id; no other row moves |
| SqliteCollections.SqliteCollection.Get | sdk/src/ingestion_graph/destinations/sqlite.py:192-204 | finds exactly the keys of the view |
| SqliteCollections.SqliteCollection.Query | sdk/src/ingestion_graph/destinations/sqlite.py:209-271 | total is the size of the naive scan of the view, and the hits are the requested page of its one ordered listing |
| SqliteCollections.SqliteCollection.ListingIs | sdk/src/ingestion_graph/destinations/sqlite.py:209-262 | a listing has exactly the rows of the requested source, stream and words, best score first or newest first, ties by row id |
| SqliteCollections.SqliteCollection.QueryPages | sdk/src/ingestion_graph/destinations/sqlite.py:255-262 | a caller that queries page after page gets every row of the naive scan once, in the one order, from separate queries |
| SqliteCollections.SqliteCollection.MatchingIsScan | sdk/src/ingestion_graph/destinations/sqlite.py:221-246 | the rows the text index selects are those of the naive scan, one per key |
| Ordering.ListingUnique | sdk/src/ingestion_graph/destinations/sqlite.py:244-245 | a strict total order has one listing of a set, so separate queries page through the same one |
| Ordering.PagesConcatenate | sdk/src/ingestion_graph/destinations/sqlite.py:261-262 | consecutive pages concatenate to the whole result without gap or repeat |
| PostgresLedger.PostgresAbsorbs | sdk/src/ingestion_graph/destinations/postgres.py:162-181 | the target with its event ledger absorbs replays |
| PostgresLedger.ReplayChangesNothing | sdk/src/ingestion_graph/destinations/postgres.py:281-292 | events already in the ledger, in any order, change no row and return 0 |
| PostgresLedger.GroupingDoesNotMatter | sdk/src/ingestion_graph/destinations/postgres.py:271-305 | two transactions over the halves of a batch give the rows, ledger and total of one over the batch |
| PostgresLedger.EventsApplyOnce | sdk/src/ingestion_graph/destinations/postgres.py:281-305 | a batch with repetitions is the batch of first occurrences |
| PostgresLedger.ReplaceIsFreshWrite | sdk/src/ingestion_graph/destinations/postgres.py:182-205 | after a replace, rows and own ledger entries are those of writing the batch to an empty table and ledger; other targets' entries are untouched |
| PostgresLedger.CountsWithinIff | sdk/src/ingestion_graph/destinations/postgres.py:318-325 | returned counts stay within the batch if and only if no keyed DELETE can hit two rows of a table the constraints allow |
| PostgresLedger.CountsWithinIffUniqueKey | sdk/src/ingestion_graph/destinations/postgres.py:318-325 | for a table that takes any rows: counts stay within every batch if and only if the key fields have a unique index or there are none |
| PostgresLedger.RepeatedKeyOvercounts | sdk/src/ingestion_graph/destinations/postgres.py:318-325 | a concrete table without a unique index where one DELETE returns 2 |
| PostgresLedger.UniqueKeyCountsWithin | sdk/src/ingestion_graph/destinations/postgres.py:392-415 | a unique index on the key fields is enough |
| PostgresLedger.PostgresDestination.ApplyPrepared | sdk/src/ingestion_graph/destinations/postgres.py:271-305 | the nested batch loops compute the plain fold, so the batch size is not part of the result |
| PostgresLedger.PostgresDestination.PrepareRecords | sdk/src/ingestion_graph/destinations/postgres.py:214-269 | accepts exactly batches of complete keys and equally ordered columns with plain identifiers as names |
| PostgresRows.PreparedIff | sdk/src/ingestion_graph/destinations/postgres.py:214-269 | a batch is accepted exactly if every envelope is well-formed, field by field, and all its rows have one list of columns |
| PostgresRows.EventMeans | sdk/src/ingestion_graph/destinations/postgres.py:307-343 | an event not in the ledger adds its row, sets its columns in the row of its key and no other cell, or removes exactly the rows of its key, with the count of each statement, and enters the ledger; it fails only if that breaks a constraint of the table |
| PostgresRows.BatchLeaves | sdk/src/ingestion_graph/destinations/postgres.py:271-343 | under a unique index a written batch leaves for every key what its new events make of it in order: nothing after a delete, else one row with the columns set since |
| PostgresLedger.PostgresDestination.Write | sdk/src/ingestion_graph/destinations/postgres.py:162-181 | commits the fold or changes nothing |
| PostgresLedger.PostgresDestination.Replace | sdk/src/ingestion_graph/destinations/postgres.py:182-205 | commits the cleared fold or changes nothing |
| Scheduler.TopologicalSort | backend/app/engine/scheduler.py:8-59 | raises if and only if the arcs between known nodes have a cycle (self-loops and parallel edges included); otherwise each node appears once, at the level that is the length of the longest path into it |
| Scheduler.ValidateDag | backend/app/engine/scheduler.py:62-88 | reports each dangling end in edge order and a cycle last; empty if and only if every edge is known and the graph is acyclic |
| Scheduler.EdgeErrorsAre | backend/app/engine/scheduler.py:64-89 | the report names exactly the edge ends that are no node of the graph |
| Scheduler.EdgeErrorsInOrder | backend/app/engine/scheduler.py:64-89 | each once, edge by edge, sources first |
| Dag.ArcsMean | backend/app/engine/scheduler.py:27-32 | the arcs are exactly the edges between nodes of the graph, each end by the first of its three spellings |
| Scheduler.BuildGraph | backend/app/engine/scheduler.py:24-32 | in-degrees count, and adjacency lists, exactly the arcs between known nodes |
| Scheduler.RestIsCyclic | backend/app/engine/scheduler.py:56-57 | nodes left when the queue runs dry contain a cycle |
| Dag.RankIsLongestPath | backend/app/engine/scheduler.py:40-54 | in a layering a node's rank is the length of the longest path into it |
| Executor.DagExecutor.Execute | backend/app/engine/executor.py:99-202 | invalid graphs are exactly the cyclic or dangling ones; a finished run stores exactly the outputs of the recursive evaluation and no evaluation failed; a failed run names a node whose evaluation fails while everything below its level completes, holds of every completed node up to that level its output and of nothing above it, and has journaled exactly the evaluations up to that level, one record a node, error outputs included; one stopped by a pause or cancellation has stored and journaled exactly the levels it went through |
| Executor.DagExecutor.ExecuteLevel | backend/app/engine/executor.py:148-186 | a level without a reported failure is stored and journaled whole; with one, every node of the level is journaled, the failure is the first in level order, and a pause or cancellation seen after a parallel level hides it |
| Executor.DagExecutor.ExecuteLevelParallel | backend/app/engine/executor.py:278-449 | any interleaving of starts and finishes stores the level's evaluations and finds the first failing node in level order |
| Executor.DagExecutor.ExecuteLevelSequential | backend/app/engine/executor.py:451-586 | one after another gives the same, stopping at the first failure, whose error output it stores as well |
| Executor.DagExecutor.CollectInputs | backend/app/engine/executor.py:588-626 | the input loop computes the edge-order collection, a later edge into the same port winning |
| Executor.ArcsRise | backend/app/engine/executor.py:139-186 | an edge never stays within a level |
| Dataflow.CollectedAgrees | backend/app/engine/executor.py:602-616 | a node's inputs depend only on the outputs of the nodes feeding it |
| Dataflow.CollectedMeans | backend/app/engine/executor.py:602-616 | a port is present exactly if some edge leads into it from a stored output, by the port names with their defaults, and holds what the last such edge brings: the entry at its source port, or the whole output |
| Dataflow.InputsMean | backend/app/engine/executor.py:628-645 | an unfed webhook source of a triggered run gets the payload alone; every other node exactly what its edges bring |
| Dataflow.StoredMeans | backend/app/engine/executor.py:344-346 | an output is stored exactly if its node completed and it is not empty |
| Dataflow.EvaluationRuns | backend/app/engine/executor.py:322-361 | the evaluation is a fixed point: every node ran on what its edges bring from the evaluation's own stored outputs |
| Dataflow.NodeStep | backend/app/engine/executor.py:322-361 | running a node once everything that feeds it is stored gives its evaluation, whatever else is stored |
| Dataflow.RankIrrelevant | backend/app/engine/executor.py:139-186 | the recursive evaluation does not depend on the ranking that shows it well-founded |
| PartialRetry.RetryExecutor.ExecuteFailedNodes | backend/app/engine/run_job_executor.py:73-217 | a retry that completes has executed exactly the nodes reachable from the failed ones, each once more, and one that stops nothing else; over a journal whose checkpoints are evaluations, a retry that completes has a full run's outputs if and only if every node it does not execute, and that has something to output, has a checkpoint, and every node that failed with an error output has something to output now; then the journal it leaves, wherever it stops, is again one of evaluations |
| PartialRetry.RetryExecutor.ExecuteRetry | backend/app/engine/run_job_executor.py:73-100 | without a node whose newest record failed the retry is a full run, with all that says of its outputs and journal; otherwise it executes exactly what those nodes reach, under the same condition |
| PartialRetry.FailedNodes | backend/app/engine/run_job_executor.py:87-97 | exactly the nodes whose newest record failed |
| Journals.NewestIsFirst | backend/app/engine/run_job_executor.py:78-85 | the restored checkpoint is the first in the list that is of the node, taken after its execution, and not empty |
| Journals.LatestFailedIff | backend/app/engine/run_job_executor.py:87-97 | a node counts as failed exactly if some record of it failed and no newer one exists |
| PartialRetry.RetryMatchesIff | backend/app/engine/run_job_executor.py:78-115 | over a journal of evaluations the restored outputs and the closure allow a full run's outputs exactly without gaps and without surviving error outputs |
| Attempts.FirstFailureIff | backend/app/engine/executor.py:139-186 | after a first run that failed at level k, even when the nodes that failed behave otherwise later, all checkpoints but those of failed nodes are a full run's evaluations; the gaps are exactly the nodes above k that no failed node reaches and that have something to output; an error output survives exactly at a node that failed with one and has nothing to output now |
| Attempts.AttemptAgrees | backend/app/engine/executor.py:139-186 | up to its first failing level an attempt computes what a full run does, except where a node fails |
| Attempts.FullKeepsSound | backend/app/engine/executor.py:375-390 | a full attempt over whatever earlier attempts left keeps every checkpoint of a node that is not failed its evaluation |
| Attempts.ExecuteRunJob | backend/app/engine/run_job_executor.py:30-46 | a job of either kind keeps the journal sound when the journal fits it; a full run that finishes computes the full evaluation in any case, a retry that completes exactly when the journal fits |
| Attempts.ExecuteRunJobs | backend/app/engine/run_job_executor.py:30-46 | any series of jobs of one run: if each found a journal that fits it, the outputs at completion are a full run's; if all before the last did, exactly when the last one did |
| Attempts.LaterBranchIsSkipped | backend/app/engine/run_job_executor.py:102-115 | a first run fails at its first level; the retry completes although a node of another branch never ran, and lacks its output |
| Attempts.ErrorOutputSurvives | backend/app/engine/run_job_executor.py:78-85 | the output a node failed with is in the outputs of a retry in which that node completes with nothing to output |
| PartialRetry.FedIffNamed | backend/app/engine/executor.py:602-616 | data flows along an edge between known nodes if and only if both its ends are named by keys the executor reads |
| PartialRetry.RetryArcsIff | backend/app/engine/run_job_executor.py:102-106 | between known nodes the arcs a retry follows are the scheduler's if and only if every edge is followed: its target named, not empty, and its source the scheduler's |
| PartialRetry.SavedGraphReadAlike | backend/app/graph_validation.py:62-68 | in a graph whose edges the save check accepts, data flows exactly along the scheduler's arcs, and a retry follows exactly them unless an edge targets the empty name |
| PartialRetry.FromToOnlyOrders | backend/app/engine/scheduler.py:28-29 | an edge naming its ends only as from and to is an arc for the scheduler, carries no data and is not followed by a retry |
| PartialRetry.FailedClosure | backend/app/engine/run_job_executor.py:102-115 | the worklist ends with exactly the nodes some path reaches from a failed node |
| PartialRetry.RestoreOutputs | backend/app/engine/run_job_executor.py:78-85 | restores for each node the newest non-empty post-execution output |
| RecursiveSplitter.SplitKeeps | backend/app/nodes/recursive_splitter.py:161-217 | whenever splitting succeeds the text is the chunks interleaved with dropped separators, every chunk is non-empty and at most the chunk size, and two chunks meet without a separator only at full size inside a run that contains none |
| RecursiveSplitter.SplitFailsIff | backend/app/nodes/recursive_splitter.py:183-200 | splitting raises if and only if a piece still too long meets an empty separator |
| RecursiveSplitter.SplitFailsIffLongPieceLeft | backend/app/nodes/recursive_splitter.py:183-200 | in terms of the input alone: it raises if and only if some separator is empty and the separators before the first empty one leave a piece too long for a chunk |
| RecursiveSplitter.NonEmptySeparatorsSplit | backend/app/nodes/recursive_splitter.py:161-217 | with non-empty separators it never raises |
| RecursiveSplitter.SplitOnInverse | backend/app/nodes/recursive_splitter.py:187 | joining the pieces with the separator gives the text back |
| RecursiveSplitter.RecursiveSplit | backend/app/nodes/recursive_splitter.py:161-217 | the packing loop inside the recursion on separators computes the specified chunks |
| TightSplit.SplitIsTight | backend/app/nodes/recursive_splitter.py:193-217 | wherever a separator is dropped after a chunk, the piece after it does not fit beside the chunk, or that piece or the one before is too long for any chunk; a piece that did not fit begins the next chunk |
| TightSplit.NeighboursAreFull | backend/app/nodes/recursive_splitter.py:193-217 | when every piece fits, each chunk but the last has no room for the piece the next one begins with |
| TightSplit.NoChunkIsLed | backend/app/nodes/recursive_splitter.py:193-217 | no chunk of a split text begins with the separator it was split on |
| RecursiveSplitter.SplitByChar | backend/app/nodes/recursive_splitter.py:220-225 | consecutive slices of the chunk size |
| RecursiveSplitter.AddOverlap | backend/app/nodes/recursive_splitter.py:228-245 | each chunk is followed by at most the overlap's length of the next chunk's beginning, and nothing else |
| WebhookLedger.RateAlwaysKeptIff | backend/app/services/webhook_service.py:217-232 | in every history, in whatever order requests commit, each closed minute holds at most the limit, if and only if rows are kept for a minute plus the longest request delay |
| WebhookLedger.AcceptsOnceIff | backend/app/services/webhook_service.py:204-256 | no history accepts a signed (timestamp, delivery id) pair twice if and only if twice the skew plus the longest request delay is at most the retention |
| WebhookLedger.ForgottenPairIsAcceptedTwice | backend/app/services/trigger_scheduler.py:98-111 | the history in which pruning comes first and a replay is accepted |
| WebhookLedger.RunKeepsLedger | backend/app/services/webhook_service.py:234-256 | every acceptance stays in the ledger until pruned, and an id repeats only after that |
| WebhookLedger.DeliveryTable.AcceptWebhookDelivery | backend/app/services/webhook_service.py:148-263 | the reply in the order the errors are checked, and a new row exactly on acceptance |
| WebhookReplies.LedgerRemembers | backend/app/services/webhook_service.py:228-260 | in every history the rows are exactly the acceptances no later pruning has forgotten, one for each |
| WebhookReplies.RepliesAre | backend/app/services/webhook_service.py:180-226 | after every history: refused if not genuine or outside the skew, a conflict if its id is remembered, refused if the remembered acceptances since a minute before reach the limit, created otherwise; each if and only if |
| WebhookReplies.HistoryIsTrusted | backend/app/services/webhook_service.py:180-197 | every acceptance in every history records an event that was genuine and within the skew |
| WebhookReplies.UntrustedIsIdle | backend/app/services/webhook_service.py:186-197 | a delivery that is not leaves rows and history as they were |
| WebhookLedger.DeliveryTable.PruneWebhookDeliveries | backend/app/services/trigger_scheduler.py:98-111 | deletes exactly the rows before the cutoff and counts them |
| TriggerSchedule.NextIntervalIsLeast | backend/app/services/trigger_schedule.py:91-102 | the next slot is on the cadence, after now, at most one interval away, and no cadence slot lies between |
| TriggerSchedule.CadenceKept | backend/app/services/trigger_scheduler.py:59-95 | over any series of polls, whatever their clocks, the dispatched slots strictly increase (so none repeats) and stay on the first slot's cadence |
| TriggerSchedule.DispatchAdvances | backend/app/services/trigger_scheduler.py:62-94 | a dispatch moves the slot past the poll by at most an interval, to the least cadence slot; a failed one leaves it due |
| TriggerSchedule.ValidateIff | backend/app/services/trigger_schedule.py:34-65 | accepts exactly an interval from a minute to a year, or a valid cron expression, in a known timezone and without the other kind's field |
| TriggerSchedule.FirstInstant | backend/app/services/trigger_schedule.py:68-94 | a new schedule first runs one interval from now, or at the calendar's next instant |
| TriggerSchedule.PollMeans | backend/app/services/trigger_scheduler.py:36-95 | a poll dispatches a trigger exactly if its slot has come, its run is created and its schedule has a next instant; it then moves to that instant, and otherwise nothing changes |
| TriggerSchedule.ServeNext | backend/app/services/trigger_scheduler.py:36-95 | over series of polls a slot is served exactly by a poll that takes the trigger when due and succeeds |
| TriggerSchedule.TriggerScheduler.DispatchDueSchedules | backend/app/services/trigger_scheduler.py:36-95 | polls exactly the earliest due unlocked triggers up to the batch size, each on its own, and counts successes and failures |
| PostgresTransport.TransportRoundTrip | sdk/src/ingestion_graph/postgres.py:225-311 | restoring an encoded value with its hint gives it back up to tuple-to-list and bytes-like-to-bytes, at every depth and with dictionary order; without a hint the encoding is already that form |
| PostgresTransport.TransportSucceedsIff | sdk/src/ingestion_graph/postgres.py:225-269 | encoding fails exactly on a non-finite float or an unsupported type somewhere inside |
| PostgresTransport.IntervalRoundTrip | sdk/src/ingestion_graph/postgres.py:241-243 | day, second and microsecond come back from the microsecond count, negative days included |
| PostgresTransport.TransportValue | sdk/src/ingestion_graph/postgres.py:225-269 | the loops that fill encoded items and hints compute the specified transport |
| PostgresTransport.ScalarRoundTrip | sdk/src/ingestion_graph/postgres.py:148-206 | every value that encodes as a checkpoint scalar decodes to itself, and exactly the listed types encode |
| TableGrid.ValidateTable | sdk/src/ingestion_graph/document_ai/models.py:148-175 | accepted if and only if the limits hold and the spans are inside the grid and pairwise apart; otherwise the first offending cell; accepted areas add up to the occupied positions, at most rows times columns |
| TableGrid.Occupy | sdk/src/ingestion_graph/document_ai/models.py:170-175 | the nested loops mark exactly the cell's positions, as many as its area, or meet one already taken |

## Left out

- SQL text, sessions, network failure, lock waiting and deadlock: each transaction is one atomic step that commits or leaves the rows alone; several clock reads inside one transaction are one.
- Job identity: a job is known by its run, which the unique `run_id` allows; `finish_run_job` is not modelled because the worker does not call it.
- Worker loops: the asyncio tasks of run_worker.py appear as the phases of a worker slot, with heartbeat, release and cancellation as actions that can come at any point of the processing.
- Promotion order: candidates are promoted in an arbitrary order of scopes instead of the sorted one; the result is proved not to depend on it.
- Events, lineage, dead letters, broadcast and log text: not part of any proved property. The PostgreSQL error mapping and the pipeline's cleanup callbacks are left out for the same reason.
- The revalidation of a document source's lease before its checkpoint is part of staging; the OCR document source does not get it in the code, and node kinds are not distinguished here.
- Sources: a source is a fixed message log that a saved position indexes into; transforms are functions; a record is its version (everything the version hash covers), since the hash is taken as injective and observation times do not enter it.
- Jsonl.JsonlDestination.CrashDuringWrite: a crash keeps whole lines only; a torn last line, which the reader would reject at the next start, is not modelled.
- CheckpointedPipeline.Pipeline.RunThroughCrashes: the destination is the function its write performs; that each destination's class performs that function is the contract of its own write method.
- SqliteCollections.SqliteCollection.Query: text matching, the word extraction and the bm25 score are arbitrary functions; the order is any score with ties by row id, or update time and row id.
- PostgresLedger.PostgresDestination.PrepareRecords: type hints are taken as already restored (`transport.dfy` proves that part).
- PostgresLedger.PostgresDestination.Write: constraints other than the unique key are one arbitrary predicate on the table; column defaults are not filled in.
- Executor.DagExecutor.Execute: a pause or cancellation is seen between levels; node retries with backoff, and nodes of a parallel level that skip themselves because of one, are not modelled. A node is a function from inputs to an output or a failure, which may differ between attempts. An exception outside the node itself, which leaves no record, is not modelled, nor an attempt that ends in the middle of a level.
- Scheduler.TopologicalSort: the order of the nodes within one level, which only decides which of several failures of a level is reported, is not stated.
- RecursiveSplitter: parsing of the separators setting and the blank-text filter around the splitter.
- WebhookLedger.DeliveryTable.AcceptWebhookDelivery: trigger lookup, signature and body checks are one boolean of the request; the run it creates belongs to the run protocol; a trigger's limit stays fixed.
- TriggerSchedule.TriggerScheduler.DispatchDueSchedules: cron evaluation and timezones are arbitrary functions; elapsed seconds are exact where the code divides a float, which differs only beyond the float's 53 bits of microseconds.
- PostgresTransport.TransportRoundTrip: dates, decimals, UUIDs, base64 and number text are inverse pairs; dictionary keys are strings.
- TableGrid.ValidateTable: confidence, metadata and identity checks beyond a non-empty name.
- Hashing, HMAC, encryption, concrete sources, LLM, embedding and OCR nodes, the API layer, authentication, migrations and the frontend; the text chunker, split, merge and filter nodes and graph-version numbering, whose properties are much easier.
