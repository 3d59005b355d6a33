/** What an uninterrupted run delivers, read off the messages: the groups of records between state messages. */
module DeliveredGroups {
  import opened Wrappers
  import opened Envelopes
  import opened CheckpointedPipeline

  /** A message the stream may carry: of a known type and, where it names a stream, of this one. */
  predicate Belongs(m: Message, stream: string) {
    match m
    case RecordMessage(v) => v.stream == stream
    case StateMessage(s) => s == stream
    case SchemaMessage => true
    case LogMessage => true
    case Unsupported => false
  }

  /** A contract-keeping log, said message by message: all belong, and some state message follows each record. */
  lemma ClosedMeans(log: seq<Message>, stream: string)
    ensures Closed(log, stream) <==>
            && (forall n :: 0 <= n < |log| ==> Belongs(log[n], stream))
            && (forall n :: 0 <= n < |log| && log[n].RecordMessage? ==>
                  exists m :: n < m < |log| && log[m].StateMessage?)
  {
    forall n | 0 <= n < |log| ensures Rejects(log[n], stream) <==> !Belongs(log[n], stream) {
    }
    if forall n :: 0 <= n < |log| ==> Belongs(log[n], stream) {
      forall n | 0 <= n < |log| && log[n].RecordMessage?
        ensures NextMark(log, stream, n).Some? <==> exists m :: n < m < |log| && log[m].StateMessage?
      {
        MarkIsNextState(log, stream, n);
        if NextMark(log, stream, n).Some? {
          assert log[NextMark(log, stream, n).value].StateMessage?;
        }
      }
    }
  }

  /** Where every message belongs, the next mark is the next state message. */
  lemma {:induction false} MarkIsNextState(log: seq<Message>, stream: string, p: nat)
    requires p <= |log| && forall n :: 0 <= n < |log| ==> Belongs(log[n], stream)
    ensures match NextMark(log, stream, p)
            case None => forall n :: p <= n < |log| ==> !log[n].StateMessage?
            case Some(q) => log[q].StateMessage? && forall n :: p <= n < q ==> !log[n].StateMessage?
    decreases |log| - p
  {
    if p < |log| && !log[p].StateMessage? {
      MarkIsNextState(log, stream, p + 1);
    }
  }

  /** How many state messages come before a position. */
  function StatesBefore(log: seq<Message>, n: nat): nat
    requires n <= |log|
  {
    if n == 0 then 0 else StatesBefore(log, n - 1) + if log[n - 1].StateMessage? then 1 else 0
  }

  /** The records with exactly `k` state messages before them, of the first `n` messages. */
  function Group(log: seq<Message>, k: nat, n: nat): seq<Version>
    requires n <= |log|
  {
    if n == 0 then []
    else
      Group(log, k, n - 1) +
      if log[n - 1].RecordMessage? && StatesBefore(log, n - 1) == k then [log[n - 1].version] else []
  }

  /** Every transform from the `t`-th on, first to last; a record that leaves the stream is an error. */
  function Through<D>(job: Job<D>, t: nat, records: seq<Version>, stream: string): Option<seq<Version>>
    requires t <= |job.transforms|
    decreases |job.transforms| - t
  {
    if t == |job.transforms| then Some(records)
    else
      var next := job.transforms[t](records);
      if exists v :: v in next && v.stream != stream then None else Through(job, t + 1, next, stream)
  }

  /** One group written: transformed, and not at all if nothing is left of it. */
  function WriteGroup<D>(job: Job<D>, stream: string, records: seq<Version>, d: D): Option<D> {
    if records == [] then Some(d)
    else
      match Through(job, 0, records, stream)
      case None => None
      case Some(batch) =>
        if batch == [] then Some(d)
        else if job.destination.write(d, batch).None? then None
        else Some(job.destination.write(d, batch).value.dest)
  }

  /** The groups from the `j`-th to before the `k`-th, in order. */
  function WriteGroups<D>(job: Job<D>, stream: string, j: nat, k: nat, d: D): Option<D>
    decreases k - j
  {
    if j >= k then Some(d)
    else
      match WriteGroup(job, stream, Group(LogOf(job, stream), j, |LogOf(job, stream)|), d)
      case None => None
      case Some(d') => WriteGroups(job, stream, j + 1, k, d')
  }

  lemma {:induction false} ThroughIsTransformed<D>(job: Job<D>, t: nat, records: seq<Version>, batch: seq<Version>,
                                                   stream: string)
    requires t <= |job.transforms| && Transformed(job, t, records, stream) == Some(batch)
    ensures Transformed(job, |job.transforms|, records, stream) == Through(job, t, batch, stream)
    decreases |job.transforms| - t
  {
    if t < |job.transforms| {
      var next := job.transforms[t](batch);
      assert Moved(next, stream) <==> exists v :: v in next && v.stream != stream by {
        if exists v :: v in next && v.stream != stream {
          var v :| v in next && v.stream != stream;
          var i :| 0 <= i < |next| && next[i] == v;
        }
      }
      if Moved(next, stream) {
        TransformsStop(job, t + 1, |job.transforms|, records, stream);
      } else {
        ThroughIsTransformed(job, t + 1, records, next, stream);
      }
    }
  }

  lemma DeliverIsWriteGroup<D>(job: Job<D>, stream: string, records: seq<Version>, d: D)
    ensures Deliver(job, stream, records, d) == WriteGroup(job, stream, records, d)
  {
    ThroughIsTransformed(job, 0, records, records, stream);
  }

  lemma {:induction false} StatesMonotone(log: seq<Message>, n: nat, m: nat)
    requires n <= m <= |log|
    ensures StatesBefore(log, n) <= StatesBefore(log, m)
  {
    if n < m {
      StatesMonotone(log, n, m - 1);
    }
  }

  /** No state message in between: the count stays. */
  lemma {:induction false} StatesStay(log: seq<Message>, n: nat, m: nat)
    requires n <= m <= |log| && forall i :: n <= i < m ==> !log[i].StateMessage?
    ensures StatesBefore(log, m) == StatesBefore(log, n)
  {
    if n < m {
      StatesStay(log, n, m - 1);
    }
  }

  /** A position where a new group begins. */
  predicate GroupStart(log: seq<Message>, p: nat)
    requires p <= |log|
  {
    p == 0 || log[p - 1].StateMessage?
  }

  lemma {:induction false} GroupEmptyBefore(log: seq<Message>, p: nat, n: nat)
    requires p <= |log| && GroupStart(log, p) && n <= p
    ensures Group(log, StatesBefore(log, p), n) == []
  {
    if n > 0 {
      GroupEmptyBefore(log, p, n - 1);
      StatesMonotone(log, n - 1, p - 1);
    }
  }

  lemma {:induction false} GroupIsRecords(log: seq<Message>, p: nat, n: nat)
    requires p <= n <= |log| && GroupStart(log, p) && forall i :: p <= i < n ==> !log[i].StateMessage?
    ensures Group(log, StatesBefore(log, p), n) == Records(log, p, n)
  {
    if n == p {
      GroupEmptyBefore(log, p, p);
    } else {
      GroupIsRecords(log, p, n - 1);
      StatesStay(log, p, n - 1);
    }
  }

  lemma {:induction false} GroupEndsAtState(log: seq<Message>, k: nat, q: nat, n: nat)
    requires q < n <= |log| && log[q].StateMessage? && StatesBefore(log, q) == k
    ensures Group(log, k, n) == Group(log, k, q)
  {
    if n > q + 1 {
      GroupEndsAtState(log, k, q, n - 1);
      StatesMonotone(log, q + 1, n - 1);
    }
  }

  /** The group that begins at `p` and ends at the state message `q`. */
  lemma WholeGroup(log: seq<Message>, p: nat, q: nat)
    requires p <= q < |log| && GroupStart(log, p) && log[q].StateMessage?
    requires forall i :: p <= i < q ==> !log[i].StateMessage?
    ensures Group(log, StatesBefore(log, p), |log|) == Records(log, p, q)
    ensures StatesBefore(log, q + 1) == StatesBefore(log, p) + 1 <= StatesBefore(log, |log|)
  {
    StatesStay(log, p, q);
    StatesMonotone(log, q + 1, |log|);
    GroupIsRecords(log, p, q);
    GroupEndsAtState(log, StatesBefore(log, p), q, |log|);
  }

  /** From the start of any group on, a stream delivers its groups in order. */
  lemma {:induction false} UptoWritesGroups<D>(job: Job<D>, stream: string, p: nat, d: D)
    requires var log := LogOf(job, stream); p <= |log| && GroupStart(log, p)
    requires forall n :: 0 <= n < |LogOf(job, stream)| ==> Belongs(LogOf(job, stream)[n], stream)
    ensures var log := LogOf(job, stream);
            Upto(job, stream, p, |log|, d) ==
            WriteGroups(job, stream, StatesBefore(log, p), StatesBefore(log, |log|), d)
    decreases |LogOf(job, stream)| - p
  {
    var log := LogOf(job, stream);
    MarkIsNextState(log, stream, p);
    match NextMark(log, stream, p)
    case None =>
      StatesStay(log, p, |log|);
    case Some(q) =>
      WholeGroup(log, p, q);
      DeliverIsWriteGroup(job, stream, Records(log, p, q), d);
      var next := WriteGroup(job, stream, Records(log, p, q), d);
      if next.Some? {
        UptoWritesGroups(job, stream, q + 1, next.value);
      }
  }

  /** The streams in the order of their first listing, each with all its groups. */
  function WriteStreams<D>(job: Job<D>, n: nat, d: D): Option<D>
    requires n <= |job.streams|
  {
    if n == 0 then Some(d)
    else
      match WriteStreams(job, n - 1, d)
      case None => None
      case Some(d') =>
        var stream := job.streams[n - 1];
        if stream in job.streams[..n - 1] then Some(d')
        else WriteGroups(job, stream, 0, StatesBefore(LogOf(job, stream), |LogOf(job, stream)|), d')
  }

  /**
   What a run must leave, over sources that keep their contract: stream after
   stream, the transformed records between each two state messages, written in order.
   */
  lemma {:induction false} UninterruptedWritesGroups<D>(job: Job<D>, n: nat, d: D)
    requires n <= |job.streams|
    requires forall k :: 0 <= k < n ==> Closed(LogOf(job, job.streams[k]), job.streams[k])
    ensures Uninterrupted(job, n, d) == WriteStreams(job, n, d)
  {
    if n > 0 {
      UninterruptedWritesGroups(job, n - 1, d);
      var stream := job.streams[n - 1];
      ClosedMeans(LogOf(job, stream), stream);
      assert Repeated(job, n - 1) <==> stream in job.streams[..n - 1];
      if Uninterrupted(job, n - 1, d).Some? {
        UptoWritesGroups(job, stream, 0, Uninterrupted(job, n - 1, d).value);
      }
    }
  }
}
