/** What the attempts of a run leave in the database: checkpoints and node records, newest first. */
module Journals {
  import opened Wrappers
  import opened Dag
  import opened Dataflow

  /** A saved checkpoint; `postExec` tells its type. */
  datatype Checkpoint = Checkpoint(node: Node, postExec: bool, output: Value)

  /** One execution of a node. */
  datatype NodeRecord = NodeRecord(node: Node, failed: bool)

  datatype Journal = Journal(checkpoints: seq<Checkpoint>, records: seq<NodeRecord>)

  predicate Usable(c: Checkpoint) {
    c.postExec && Truthy(c.output)
  }

  /** The output of the newest usable checkpoint of a node. */
  function Newest(checkpoints: seq<Checkpoint>, v: Node): Option<Value> {
    if checkpoints == [] then None
    else if checkpoints[0].node == v && Usable(checkpoints[0]) then Some(checkpoints[0].output)
    else Newest(checkpoints[1..], v)
  }

  /** The `i`-th checkpoint is one of the node that a retry can use: taken after its execution, and not empty. */
  predicate UsableAt(checkpoints: seq<Checkpoint>, v: Node, i: nat)
    requires i < |checkpoints|
  {
    && checkpoints[i].node == v && checkpoints[i].postExec
    && checkpoints[i].output !in {Nothing, Scalar(""), Dict(map[])}
  }

  /** The newest usable checkpoint is the first of them in the list. */
  lemma {:induction false} NewestIsFirst(checkpoints: seq<Checkpoint>, v: Node)
    ensures Newest(checkpoints, v).None? <==> forall i :: 0 <= i < |checkpoints| ==> !UsableAt(checkpoints, v, i)
    ensures forall i :: 0 <= i < |checkpoints| && UsableAt(checkpoints, v, i)
                        && (forall j :: 0 <= j < i ==> !UsableAt(checkpoints, v, j)) ==>
              Newest(checkpoints, v) == Some(checkpoints[i].output)
  {
    if checkpoints != [] {
      var rest := checkpoints[1..];
      NewestIsFirst(rest, v);
      assert UsableAt(checkpoints, v, 0) <==> checkpoints[0].node == v && Usable(checkpoints[0]);
      assert forall i :: 0 <= i < |rest| ==> (UsableAt(checkpoints, v, i + 1) <==> UsableAt(rest, v, i));
      if !UsableAt(checkpoints, v, 0) {
        forall i | 0 <= i < |checkpoints| && UsableAt(checkpoints, v, i)
                   && (forall j :: 0 <= j < i ==> !UsableAt(checkpoints, v, j))
          ensures Newest(checkpoints, v) == Some(checkpoints[i].output)
        {
          assert UsableAt(rest, v, i - 1);
          forall j: nat | j < i - 1 ensures !UsableAt(rest, v, j) {
            assert !UsableAt(checkpoints, v, j + 1);
          }
        }
      }
    }
  }

  /** The node's newest record is a failure. */
  predicate LatestFailed(records: seq<NodeRecord>, v: Node) {
    if records == [] then false
    else if records[0].node == v then records[0].failed
    else LatestFailed(records[1..], v)
  }

  /** It is one exactly if some record of the node failed and no newer one is there. */
  lemma {:induction false} LatestFailedIff(records: seq<NodeRecord>, v: Node)
    ensures LatestFailed(records, v) <==>
            exists i :: 0 <= i < |records| && records[i].node == v && records[i].failed
              && forall j :: 0 <= j < i ==> records[j].node != v
  {
    if records != [] {
      var rest := records[1..];
      LatestFailedIff(rest, v);
      if records[0].node != v && LatestFailed(records, v) {
        var i :| 0 <= i < |rest| && rest[i].node == v && rest[i].failed && forall j :: 0 <= j < i ==> rest[j].node != v;
        assert records[i + 1] == rest[i];
        assert forall j :: 0 < j < i + 1 ==> records[j] == rest[j - 1];
      }
      if i :| 0 <= i < |records| && records[i].node == v && records[i].failed
              && forall j :: 0 <= j < i ==> records[j].node != v {
        if i > 0 {
          assert records[0].node != v;
          assert rest[i - 1] == records[i];
          assert forall j :: 0 <= j < i - 1 ==> rest[j] == records[j + 1];
        }
      }
    }
  }

  /** How often the node was executed. */
  function Runs(records: seq<NodeRecord>, v: Node): nat {
    if records == [] then 0 else (if records[0].node == v then 1 else 0) + Runs(records[1..], v)
  }

  /** A full run saves the output of every node it executes, a failed node's included. */
  function Saved(j: Journal, v: Node, outcome: Outcome): Journal {
    Journal([Checkpoint(v, true, outcome.output)] + j.checkpoints, Recorded(j, v, outcome).records)
  }

  function Recorded(j: Journal, v: Node, outcome: Outcome): Journal {
    j.(records := [NodeRecord(v, outcome.Failed?)] + j.records)
  }

  lemma SavedAt(j: Journal, v: Node, outcome: Outcome, u: Node)
    ensures Newest(Saved(j, v, outcome).checkpoints, u) ==
            if u == v && Truthy(outcome.output) then Some(outcome.output) else Newest(j.checkpoints, u)
    ensures LatestFailed(Saved(j, v, outcome).records, u) ==
            if u == v then outcome.Failed? else LatestFailed(j.records, u)
    ensures Runs(Recorded(j, v, outcome).records, u) == Runs(j.records, u) + if u == v then 1 else 0
  {
  }

  lemma RecordedAt(j: Journal, v: Node, outcome: Outcome, u: Node)
    ensures LatestFailed(Recorded(j, v, outcome).records, u) ==
            if u == v then outcome.Failed? else LatestFailed(j.records, u)
    ensures Runs(Recorded(j, v, outcome).records, u) == Runs(j.records, u) + if u == v then 1 else 0
  {
  }

  /** `after` adds to `before` exactly one record of every executed node, and its checkpoint. */
  ghost predicate Journaled(before: Journal, evals: map<Node, Outcome>, done: set<Node>, after: Journal) {
    forall u {:trigger JournaledAt(before, evals, done, after, u)} :: JournaledAt(before, evals, done, after, u)
  }

  predicate JournaledAt(before: Journal, evals: map<Node, Outcome>, done: set<Node>, after: Journal, u: Node) {
    var executed := u in done && u in evals;
    && Newest(after.checkpoints, u) ==
       (if executed && Truthy(evals[u].output) then Some(evals[u].output) else Newest(before.checkpoints, u))
    && LatestFailed(after.records, u) == (if executed then evals[u].Failed? else LatestFailed(before.records, u))
    && Runs(after.records, u) == Runs(before.records, u) + if executed then 1 else 0
  }

  lemma JournaledNext(before: Journal, evals: map<Node, Outcome>, done: set<Node>, after: Journal, v: Node)
    requires Journaled(before, evals, done, after) && v in evals && v !in done
    ensures Journaled(before, evals, done + {v}, Saved(after, v, evals[v]))
  {
    forall u ensures JournaledAt(before, evals, done + {v}, Saved(after, v, evals[v]), u) {
      assert JournaledAt(before, evals, done, after, u);
      SavedAt(after, v, evals[v], u);
    }
  }

  lemma NothingJournaled(j: Journal, evals: map<Node, Outcome>)
    ensures Journaled(j, evals, {}, j)
  {
    forall u ensures JournaledAt(j, evals, {}, j, u) {
    }
  }
}
