/** Crash equivalence of the pipeline over each of its replay-safe destinations. */
module CrashEquivalence {
  import opened Wrappers
  import opened Envelopes
  import opened CheckpointedPipeline
  import opened Jsonl
  import opened CurrentView
  import opened PostgresLedger

  /** After any crashes, a run that ends leaves the file of an uninterrupted run, version for version. */
  method IntoJsonl(job: Job<seq<Version>>, lines: seq<Version>, crashes: seq<(nat, nat)>, budget: nat)
    returns (outcome: Outcome, after: seq<Version>)
    requires job.destination == JsonlFile()
    ensures outcome.Finished? ==> Uninterrupted(job, |job.streams|, lines) == Some(after)
    ensures Faultless(job, lines) && budget >= 2 * Messages(job, |job.streams|) ==> outcome.Finished?
  {
    JsonlAbsorbs();
    var pipeline := new Pipeline(job, lines);
    outcome := pipeline.RunThroughCrashes(crashes, budget);
    after := pipeline.dest;
  }

  /** The same for the current view of a collection. */
  method IntoSqlite(job: Job<View>, view: View, crashes: seq<(nat, nat)>, budget: nat)
    returns (outcome: Outcome, after: View)
    requires job.destination == SqliteView()
    ensures outcome.Finished? ==> Uninterrupted(job, |job.streams|, view) == Some(after)
    ensures Faultless(job, view) && budget >= 2 * Messages(job, |job.streams|) ==> outcome.Finished?
  {
    SqliteAbsorbs();
    var pipeline := new Pipeline(job, view);
    outcome := pipeline.RunThroughCrashes(crashes, budget);
    after := pipeline.dest;
  }

  /** The same for a target table and its ledger. */
  method IntoPostgres(target: Target, job: Job<Store>, store: Store, crashes: seq<(nat, nat)>, budget: nat)
    returns (outcome: Outcome, after: Store)
    requires job.destination == PostgresTable(target)
    ensures outcome.Finished? ==> Uninterrupted(job, |job.streams|, store) == Some(after)
    ensures Faultless(job, store) && budget >= 2 * Messages(job, |job.streams|) ==> outcome.Finished?
  {
    PostgresAbsorbs(target);
    var pipeline := new Pipeline(job, store);
    outcome := pipeline.RunThroughCrashes(crashes, budget);
    after := pipeline.dest;
  }

  /** An over-counted batch is durable although refused, and its replay changes nothing and reports 0. */
  lemma RefusedBatchIsKept(target: Target, store: Store, batch: seq<Version>)
    requires WriteAll(target, store, batch).Some? && WriteAll(target, store, batch).value.count > |batch|
    ensures var kept := WriteAll(target, store, batch).value.dest;
            WriteAll(target, kept, batch) == Some(Written(kept, 0))
  {
    WrittenAbsorbs(target, store, batch);
  }
}
