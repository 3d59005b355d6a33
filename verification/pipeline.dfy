/**
 The embedded pipeline runtime: batches between checkpoints are written, flushed
 and only then acknowledged. Proved for every destination that absorbs replays.
 */
module CheckpointedPipeline {
  import opened Wrappers
  import opened Envelopes

  /** What a source can emit; `Unsupported` is a message of no known type. */
  datatype Message =
    | RecordMessage(version: Version)
    | StateMessage(stream: string)
    | SchemaMessage
    | LogMessage
    | Unsupported

  /**
   A destination as its durable content: `write` is the effect of a whole batch
   (None when it raises and rolls back), `torn` what a crash inside it can leave.
   */
  datatype Destination<!D> = Destination(
    write: (D, seq<Version>) -> Option<Written<D>>,
    torn: (D, seq<Version>, nat) -> D)

  /** `x` lies between not having written the batch to `d` and having written it. */
  ghost predicate Between<D(!new)>(dst: Destination<D>, d: D, batch: seq<Version>, x: D) {
    || x == d
    || (dst.write(d, batch).Some? && x == dst.write(d, batch).value.dest)
    || exists n :: x == dst.torn(d, batch, n)
  }

  ghost predicate AbsorbsAt<D(!new)>(dst: Destination<D>, d: D, batch: seq<Version>, x: D) {
    && (dst.write(x, batch).Some? <==> dst.write(d, batch).Some?)
    && (dst.write(x, batch).Some? ==> dst.write(x, batch).value.dest == dst.write(d, batch).value.dest)
    && (forall n :: Between(dst, d, batch, dst.torn(x, batch, n)))
  }

  /** A replay over anything a crash can leave ends where the undisturbed write ends. */
  ghost predicate Absorbing<D(!new)>(dst: Destination<D>) {
    forall d, batch, x {:trigger AbsorbsAt(dst, d, batch, x)} ::
      Between(dst, d, batch, x) ==> AbsorbsAt(dst, d, batch, x)
  }

  /** The destination never reports more changes than it was given records. */
  ghost predicate CountsWithin<D(!new)>(dst: Destination<D>) {
    forall d, batch :: dst.write(d, batch).Some? ==> 0 <= dst.write(d, batch).value.count <= |batch|
  }

  datatype Job<!D> = Job(
    streams: seq<string>,
    logs: map<string, seq<Message>>,
    transforms: seq<seq<Version> -> seq<Version>>,
    destination: Destination<D>)

  function LogOf<D>(job: Job<D>, stream: string): seq<Message> {
    if stream in job.logs then job.logs[stream] else []
  }

  predicate Rejects(m: Message, stream: string) {
    m.Unsupported? || (m.RecordMessage? && m.version.stream != stream) || (m.StateMessage? && m.stream != stream)
  }

  /** The next checkpoint at or after `p` that reading reaches. */
  function NextMark(log: seq<Message>, stream: string, p: nat): (mark: Option<nat>)
    ensures mark.Some? ==> p <= mark.value < |log|
    decreases |log| - p
  {
    if p >= |log| || Rejects(log[p], stream) then None
    else if log[p].StateMessage? then Some(p)
    else NextMark(log, stream, p + 1)
  }

  /** The records between two positions, in order. */
  function Records(log: seq<Message>, p: nat, q: nat): seq<Version>
    requires p <= q <= |log|
  {
    if p == q then []
    else Records(log, p, q - 1) + if log[q - 1].RecordMessage? then [log[q - 1].version] else []
  }

  predicate Moved(batch: seq<Version>, stream: string) {
    exists i :: 0 <= i < |batch| && batch[i].stream != stream
  }

  /** The first `n` transforms in order; one that moves a record to another stream is an error. */
  function Transformed<D>(job: Job<D>, n: nat, records: seq<Version>, stream: string): Option<seq<Version>>
    requires n <= |job.transforms|
  {
    if n == 0 then Some(records)
    else
      match Transformed(job, n - 1, records, stream)
      case None => None
      case Some(batch) =>
        var next := job.transforms[n - 1](batch);
        if Moved(next, stream) then None else Some(next)
  }

  /** The batch a checkpoint's records become: None is an error, an empty batch is not written. */
  function BatchOf<D>(job: Job<D>, stream: string, pending: seq<Version>): Option<seq<Version>> {
    if pending == [] then Some([]) else Transformed(job, |job.transforms|, pending, stream)
  }

  /** What one checkpoint-bounded batch does to the destination. */
  function Deliver<D>(job: Job<D>, stream: string, pending: seq<Version>, d: D): Option<D> {
    match BatchOf(job, stream, pending)
    case None => None
    case Some(batch) =>
      if batch == [] then Some(d)
      else
        match job.destination.write(d, batch)
        case None => None
        case Some(w) => Some(w.dest)
  }

  /** The destination after every batch of a stream whose checkpoint lies before `limit`. */
  function Upto<D>(job: Job<D>, stream: string, from: nat, limit: nat, d: D): Option<D>
    decreases |LogOf(job, stream)| - from
  {
    var log := LogOf(job, stream);
    match NextMark(log, stream, from)
    case None => Some(d)
    case Some(q) =>
      if q >= limit then Some(d)
      else
        match Deliver(job, stream, Records(log, from, q), d)
        case None => None
        case Some(d') => Upto(job, stream, q + 1, limit, d')
  }

  /** The stream is listed before already, so it is read from where that left it. */
  predicate Repeated<D>(job: Job<D>, i: nat)
    requires i < |job.streams|
  {
    exists j :: 0 <= j < i && job.streams[j] == job.streams[i]
  }

  /** The destination after the first `n` streams were read to their end, without any crash. */
  function Uninterrupted<D>(job: Job<D>, n: nat, d: D): Option<D>
    requires n <= |job.streams|
  {
    if n == 0 then Some(d)
    else
      match Uninterrupted(job, n - 1, d)
      case None => None
      case Some(d') =>
        if Repeated(job, n - 1) then Some(d')
        else Upto(job, job.streams[n - 1], 0, |LogOf(job, job.streams[n - 1])|, d')
  }

  /** `p` is a position some sequence of checkpoints acknowledges. */
  predicate Reachable(log: seq<Message>, stream: string, from: nat, p: nat)
    decreases |log| - from
  {
    from == p ||
    match NextMark(log, stream, from)
    case None => false
    case Some(q) => q < p && Reachable(log, stream, q + 1, p)
  }

  /** Acknowledging one more checkpoint delivers exactly the records since the last one. */
  lemma {:induction false} UptoNext<D>(job: Job<D>, stream: string, from: nat, p: nat, d: D)
    requires var log := LogOf(job, stream); Reachable(log, stream, from, p) && NextMark(log, stream, p).Some?
    requires Upto(job, stream, from, p, d).Some?
    ensures var log := LogOf(job, stream); var q := NextMark(log, stream, p).value;
            && Reachable(log, stream, from, q + 1)
            && Upto(job, stream, from, q + 1, d) ==
               Deliver(job, stream, Records(log, p, q), Upto(job, stream, from, p, d).value)
    decreases |LogOf(job, stream)| - from
  {
    var log := LogOf(job, stream);
    var q := NextMark(log, stream, from).value;
    if from == p {
      assert Upto(job, stream, from, p, d) == Some(d);
      NothingDueAt(job, stream, q + 1);
    } else {
      var d' := Deliver(job, stream, Records(log, from, q), d).value;
      UptoNext(job, stream, q + 1, p, d');
    }
  }

  /** A failed or misdirected transform is final. */
  lemma {:induction false} TransformsStop<D>(job: Job<D>, n: nat, m: nat, records: seq<Version>, stream: string)
    requires n <= m <= |job.transforms| && Transformed(job, n, records, stream).None?
    ensures Transformed(job, m, records, stream).None?
  {
    if n < m {
      TransformsStop(job, n, m - 1, records, stream);
    }
  }

  lemma NothingDueAt<D>(job: Job<D>, stream: string, p: nat)
    ensures forall d :: Upto(job, stream, p, p, d) == Some(d)
  {
  }

  /** With no checkpoint left, the acknowledged batches are all of the stream's. */
  lemma {:induction false} UptoEnd<D>(job: Job<D>, stream: string, from: nat, p: nat, d: D)
    requires var log := LogOf(job, stream); Reachable(log, stream, from, p) && NextMark(log, stream, p).None?
    ensures Upto(job, stream, from, |LogOf(job, stream)|, d) == Upto(job, stream, from, p, d)
    decreases |LogOf(job, stream)| - from
  {
    var log := LogOf(job, stream);
    if from != p {
      var q := NextMark(log, stream, from).value;
      var d' := Deliver(job, stream, Records(log, from, q), d);
      if d'.Some? {
        UptoEnd(job, stream, q + 1, p, d'.value);
      }
    }
  }

  /** At a checkpoint the destination holds the acknowledged batches, or is inside the next one. */
  ghost predicate AtMostOneAhead<D(!new)>(job: Job<D>, stream: string, p: nat, base: D, x: D) {
    match NextMark(LogOf(job, stream), stream, p)
    case None => x == base
    case Some(q) =>
      match BatchOf(job, stream, Records(LogOf(job, stream), p, q))
      case None => x == base
      case Some(batch) => if batch == [] then x == base else Between(job.destination, base, batch, x)
  }

  datatype Delivery = Delivered(count: int, wrote: bool) | Died | Refused

  datatype Outcome = Finished(records: int, checkpoints: nat) | Crashed | ProtocolError

  function PositionIn(saved: map<string, nat>, stream: string): nat {
    if stream in saved then saved[stream] else 0
  }

  predicate Exhausted<D>(job: Job<D>, stream: string, p: nat) {
    Reachable(LogOf(job, stream), stream, 0, p) && NextMark(LogOf(job, stream), stream, p).None?
  }

  /** What stream `i` being the current one means for the saved positions. */
  predicate PositionsAt<D>(job: Job<D>, saved: map<string, nat>, i: nat) {
    && i <= |job.streams|
    && (forall j :: 0 <= j < i ==> Exhausted(job, job.streams[j], PositionIn(saved, job.streams[j])))
    && (forall j :: i < j < |job.streams| && !Repeated(job, j) ==> PositionIn(saved, job.streams[j]) == 0)
  }

  /**
   Streams before `i` are done, later ones untouched, `base` is what the saved
   checkpoints acknowledge, and the destination is at most one batch ahead of it.
   */
  ghost predicate ProgressAt<D(!new)>(job: Job<D>, origin: D, saved: map<string, nat>, dest: D, i: nat, base: D) {
    && PositionsAt(job, saved, i)
    && Uninterrupted(job, i, origin).Some?
    && var before := Uninterrupted(job, i, origin).value;
       if i == |job.streams| || Repeated(job, i) then base == before && dest == base
       else
         var stream := job.streams[i];
         && Reachable(LogOf(job, stream), stream, 0, PositionIn(saved, stream))
         && Upto(job, stream, 0, PositionIn(saved, stream), before) == Some(base)
         && AtMostOneAhead(job, stream, PositionIn(saved, stream), base, dest)
  }

  /** Every message belongs to its stream and every record is followed by a checkpoint. */
  predicate Closed(log: seq<Message>, stream: string) {
    forall n :: 0 <= n < |log| ==>
      !Rejects(log[n], stream) && (log[n].RecordMessage? ==> NextMark(log, stream, n).Some?)
  }

  /** The source keeps its contract and an uninterrupted run succeeds. */
  ghost predicate Faultless<D(!new)>(job: Job<D>, origin: D) {
    && CountsWithin(job.destination)
    && Uninterrupted(job, |job.streams|, origin).Some?
    && forall k :: 0 <= k < |job.streams| ==> Closed(LogOf(job, job.streams[k]), job.streams[k])
  }

  /** Messages of the first `n` streams together. */
  function Messages<D>(job: Job<D>, n: nat): nat
    requires n <= |job.streams|
  {
    if n == 0 then 0 else Messages(job, n - 1) + |LogOf(job, job.streams[n - 1])|
  }

  lemma {:induction false} MessagesGrow<D>(job: Job<D>, k: nat, n: nat)
    requires k <= n <= |job.streams|
    ensures Messages(job, k) <= Messages(job, n)
  {
    if k < n {
      MessagesGrow(job, k, n - 1);
    }
  }

  lemma {:induction false} UptoPrefix<D>(job: Job<D>, stream: string, from: nat, p: nat, q: nat, d: D)
    requires p <= q && Upto(job, stream, from, q, d).Some?
    ensures Upto(job, stream, from, p, d).Some?
    decreases |LogOf(job, stream)| - from
  {
    var log := LogOf(job, stream);
    var n := NextMark(log, stream, from);
    if n.Some? && n.value < p {
      UptoPrefix(job, stream, n.value + 1, p, q, Deliver(job, stream, Records(log, from, n.value), d).value);
    }
  }

  lemma {:induction false} UninterruptedPrefix<D>(job: Job<D>, i: nat, n: nat, d: D)
    requires i <= n <= |job.streams| && Uninterrupted(job, n, d).Some?
    ensures Uninterrupted(job, i, d).Some?
  {
    if i < n {
      UninterruptedPrefix(job, i, n - 1, d);
    }
  }

  /** When the uninterrupted run succeeds, so does every delivery along the way. */
  lemma DeliveryIsPart<D(!new)>(job: Job<D>, origin: D, saved: map<string, nat>, dest: D, i: nat, base: D, n: nat)
    requires ProgressAt(job, origin, saved, dest, i, base) && i < |job.streams|
    requires Uninterrupted(job, |job.streams|, origin).Some?
    requires var stream := job.streams[i]; NextMark(LogOf(job, stream), stream, PositionIn(saved, stream)) == Some(n)
    ensures var stream := job.streams[i];
            Deliver(job, stream, Records(LogOf(job, stream), PositionIn(saved, stream), n), base).Some?
  {
    var stream := job.streams[i];
    UninterruptedPrefix(job, i + 1, |job.streams|, origin);
    var before := Uninterrupted(job, i, origin).value;
    UptoPrefix(job, stream, 0, n + 1, |LogOf(job, stream)|, before);
    UptoNext(job, stream, 0, PositionIn(saved, stream), before);
  }

  lemma SavedNext<D(!new)>(job: Job<D>, origin: D, saved: map<string, nat>, dest: D, i: nat, base: D, n: nat)
    requires ProgressAt(job, origin, saved, dest, i, base) && i < |job.streams|
    requires var stream := job.streams[i]; var p := PositionIn(saved, stream);
             && NextMark(LogOf(job, stream), stream, p) == Some(n)
             && Deliver(job, stream, Records(LogOf(job, stream), p, n), base) == Some(dest)
    ensures ProgressAt(job, origin, saved[job.streams[i] := n + 1], dest, i, dest)
  {
    var stream := job.streams[i];
    var before, after := Uninterrupted(job, i, origin).value, saved[stream := n + 1];
    UptoNext(job, stream, 0, PositionIn(saved, stream), before);
    PositionsNext(job, saved, i, n + 1);
    OnMark(job, stream, n + 1, dest);
  }

  /** Moving the current stream's position leaves the others' where they are. */
  lemma PositionsNext<D>(job: Job<D>, saved: map<string, nat>, i: nat, p: nat)
    requires PositionsAt(job, saved, i) && i < |job.streams| && !Repeated(job, i)
    ensures PositionsAt(job, saved[job.streams[i] := p], i)
  {
    var after := saved[job.streams[i] := p];
    forall j | 0 <= j < i ensures PositionIn(after, job.streams[j]) == PositionIn(saved, job.streams[j]) {
    }
    forall j | i < j < |job.streams| && !Repeated(job, j)
      ensures PositionIn(after, job.streams[j]) == PositionIn(saved, job.streams[j])
    {
    }
  }

  lemma OnMark<D(!new)>(job: Job<D>, stream: string, p: nat, base: D)
    ensures AtMostOneAhead(job, stream, p, base, base)
  {
  }

  lemma StreamFinished<D(!new)>(job: Job<D>, origin: D, saved: map<string, nat>, dest: D, i: nat, base: D)
    requires ProgressAt(job, origin, saved, dest, i, base) && i < |job.streams|
    requires NextMark(LogOf(job, job.streams[i]), job.streams[i], PositionIn(saved, job.streams[i])).None?
    ensures ProgressAt(job, origin, saved, dest, i + 1, base) && dest == base
  {
    var stream := job.streams[i];
    UptoEnd(job, stream, 0, PositionIn(saved, stream), Uninterrupted(job, i, origin).value);
    assert AtMostOneAhead(job, stream, PositionIn(saved, stream), base, dest);
    if i + 1 < |job.streams| {
      NothingDueAt(job, job.streams[i + 1], 0);
      assert Between(job.destination, base, [], base);
      assert AtMostOneAhead(job, job.streams[i + 1], 0, base, base);
    }
  }

  lemma {:induction false} ReachableBound(log: seq<Message>, stream: string, from: nat, p: nat)
    requires Reachable(log, stream, from, p) && from <= |log|
    ensures p <= |log|
    decreases |log| - from
  {
    if from != p {
      ReachableBound(log, stream, NextMark(log, stream, from).value + 1, p);
    }
  }

  /** Saved positions of the streams up to the current one lie within their logs. */
  lemma PositionBound<D(!new)>(job: Job<D>, origin: D, saved: map<string, nat>, dest: D, i: nat, base: D, k: nat)
    requires ProgressAt(job, origin, saved, dest, i, base) && k <= i && k < |job.streams|
    ensures PositionIn(saved, job.streams[k]) <= |LogOf(job, job.streams[k])|
  {
    var stream := job.streams[k];
    ReachableBound(LogOf(job, stream), stream, 0, PositionIn(saved, stream));
  }

  /** Only the current stream has a checkpoint left to acknowledge. */
  lemma MarkIsCurrent<D(!new)>(job: Job<D>, origin: D, saved: map<string, nat>, dest: D, i: nat, base: D, k: nat)
    requires ProgressAt(job, origin, saved, dest, i, base) && k <= i && k < |job.streams|
    requires NextMark(LogOf(job, job.streams[k]), job.streams[k], PositionIn(saved, job.streams[k])).Some?
    ensures k == i
  {
  }

  /** How many state messages lie between two positions. */
  function States(log: seq<Message>, p: nat, q: nat): nat
    requires p <= q <= |log|
  {
    if p == q then 0 else States(log, p, q - 1) + if log[q - 1].StateMessage? then 1 else 0
  }

  lemma {:induction false} StatesJoin(log: seq<Message>, p: nat, m: nat, q: nat)
    requires p <= m <= q <= |log|
    ensures States(log, p, q) == States(log, p, m) + States(log, m, q)
  {
    if m < q {
      StatesJoin(log, p, m, q - 1);
    }
  }

  /** The state messages the first `n` streams have left to read, a stream listed again left out. */
  function StatesLeft<D>(job: Job<D>, saved: map<string, nat>, n: nat): nat
    requires n <= |job.streams|
  {
    if n == 0 then 0
    else
      var log, p := LogOf(job, job.streams[n - 1]), PositionIn(saved, job.streams[n - 1]);
      StatesLeft(job, saved, n - 1) + if Repeated(job, n - 1) || |log| < p then 0 else States(log, p, |log|)
  }

  /** Only this stream's saved position may have moved. */
  predicate OthersKept(before: map<string, nat>, after: map<string, nat>, stream: string) {
    forall other :: other in before.Keys + after.Keys && other != stream ==>
      PositionIn(after, other) == PositionIn(before, other)
  }

  predicate NoneLeft<D>(job: Job<D>, saved: map<string, nat>, stream: string) {
    var log, p := LogOf(job, stream), PositionIn(saved, stream);
    p <= |log| && States(log, p, |log|) == 0
  }

  /** The first `n` streams have no state message left, and any other stream is where it was. */
  predicate PassedThrough<D>(job: Job<D>, start: map<string, nat>, now: map<string, nat>, n: nat)
    requires n <= |job.streams|
  {
    && (forall j :: 0 <= j < n ==> NoneLeft(job, now, job.streams[j]))
    && (forall j :: n <= j < |job.streams| && job.streams[j] !in job.streams[..n] ==>
          PositionIn(now, job.streams[j]) == PositionIn(start, job.streams[j]))
  }

  lemma PassedNext<D>(job: Job<D>, start: map<string, nat>, before: map<string, nat>, now: map<string, nat>, k: nat)
    requires k < |job.streams| && PassedThrough(job, start, before, k) && OthersKept(before, now, job.streams[k])
    requires NoneLeft(job, now, job.streams[k]) && PositionIn(before, job.streams[k]) <= |LogOf(job, job.streams[k])|
    ensures PassedThrough(job, start, now, k + 1)
    ensures var log, p := LogOf(job, job.streams[k]), PositionIn(before, job.streams[k]);
            StatesLeft(job, start, k + 1) == StatesLeft(job, start, k) + States(log, p, |log|)
  {
    var stream := job.streams[k];
    forall j | 0 <= j < k + 1 ensures NoneLeft(job, now, job.streams[j]) {
      if j < k {
        assert NoneLeft(job, before, job.streams[j]);
        KeptElsewhere(before, now, stream, job.streams[j]);
      }
    }
    forall j | k + 1 <= j < |job.streams| && job.streams[j] !in job.streams[..k + 1]
      ensures PositionIn(now, job.streams[j]) == PositionIn(start, job.streams[j])
    {
      assert job.streams[..k + 1] == job.streams[..k] + [stream];
      KeptElsewhere(before, now, stream, job.streams[j]);
    }
    if j :| 0 <= j < k && job.streams[j] == stream {
      assert NoneLeft(job, before, job.streams[j]);
    } else {
      assert stream !in job.streams[..k];
    }
  }

  lemma KeptTwice(a: map<string, nat>, b: map<string, nat>, c: map<string, nat>, stream: string)
    requires OthersKept(a, b, stream) && OthersKept(b, c, stream)
    ensures OthersKept(a, c, stream)
  {
    forall other | other in a.Keys + c.Keys && other != stream ensures PositionIn(c, other) == PositionIn(a, other) {
      KeptElsewhere(a, b, stream, other);
      KeptElsewhere(b, c, stream, other);
    }
  }

  lemma KeptElsewhere(before: map<string, nat>, now: map<string, nat>, stream: string, other: string)
    requires OthersKept(before, now, stream)
    ensures other != stream ==> PositionIn(now, other) == PositionIn(before, other)
  {
    if other !in before.Keys + now.Keys {
      assert PositionIn(now, other) == 0 == PositionIn(before, other);
    }
  }

  /** What a stream reads up to a position some checkpoint acknowledged was accepted, and acknowledged. */
  lemma {:induction false} ReachableClosed(log: seq<Message>, stream: string, from: nat, p: nat, n: nat)
    requires Reachable(log, stream, from, p) && from <= n < p <= |log|
    ensures !Rejects(log[n], stream) && NextMark(log, stream, n).Some?
    decreases |log| - from
  {
    var q := NextMark(log, stream, from).value;
    if n <= q {
      MarkAhead(log, stream, from, n);
    } else {
      ReachableClosed(log, stream, q + 1, p, n);
    }
  }

  lemma {:induction false} MarkAhead(log: seq<Message>, stream: string, from: nat, n: nat)
    requires NextMark(log, stream, from).Some? && from <= n <= NextMark(log, stream, from).value
    ensures NextMark(log, stream, n) == NextMark(log, stream, from) && !Rejects(log[n], stream)
    decreases n - from
  {
    if from < n {
      MarkAhead(log, stream, from + 1, n);
    }
  }

  /** A stream read to its end with nothing pending has kept its contract. */
  lemma EndIsClosed(log: seq<Message>, stream: string, p: nat)
    requires Reachable(log, stream, 0, p) && Scanned(log, stream, p, |log|, [])
    ensures Closed(log, stream)
  {
    forall n | 0 <= n < |log|
      ensures !Rejects(log[n], stream) && (log[n].RecordMessage? ==> NextMark(log, stream, n).Some?)
    {
      if n < p {
        ReachableClosed(log, stream, 0, p, n);
      } else {
        NoRecords(log, p, |log|, n);
      }
    }
  }

  lemma {:induction false} NoRecords(log: seq<Message>, p: nat, q: nat, n: nat)
    requires p <= n < q <= |log| && Records(log, p, q) == []
    ensures !log[n].RecordMessage?
    decreases q
  {
    if n < q - 1 {
      NoRecords(log, p, q - 1, n);
    }
  }

  predicate AllAccepted(log: seq<Message>, stream: string, p: nat, n: nat)
    requires n <= |log|
  {
    forall m :: p <= m < n ==> !Rejects(log[m], stream)
  }

  /** Reading from `p` has come to `n` without meeting a checkpoint, with these records pending. */
  predicate Scanned(log: seq<Message>, stream: string, p: nat, n: nat, pending: seq<Version>) {
    && p <= n <= |log|
    && pending == Records(log, p, n) && States(log, p, n) == 0
    && NextMark(log, stream, p) == NextMark(log, stream, n)
    && AllAccepted(log, stream, p, n)
  }

  lemma ScanRecord(log: seq<Message>, stream: string, p: nat, n: nat, pending: seq<Version>)
    requires Scanned(log, stream, p, n, pending) && n < |log| && !Rejects(log[n], stream) && log[n].RecordMessage?
    ensures Scanned(log, stream, p, n + 1, pending + [log[n].version])
  {
  }

  lemma ScanOther(log: seq<Message>, stream: string, p: nat, n: nat, pending: seq<Version>)
    requires Scanned(log, stream, p, n, pending) && n < |log| && !Rejects(log[n], stream)
    requires !log[n].StateMessage? && !log[n].RecordMessage?
    ensures Scanned(log, stream, p, n + 1, pending)
  {
    assert Records(log, p, n + 1) == Records(log, p, n);
  }

  /** Records left at the end of a stream break the source's contract. */
  lemma {:induction false} PendingIsOpen(log: seq<Message>, stream: string, p: nat, pending: seq<Version>)
    requires Scanned(log, stream, p, |log|, pending) && pending != []
    ensures !Closed(log, stream)
  {
    if Closed(log, stream) {
      NoRecordIsOpen(log, stream, p, |log|);
    }
  }

  lemma {:induction false} NoRecordIsOpen(log: seq<Message>, stream: string, p: nat, n: nat)
    requires p <= n <= |log| && Closed(log, stream) && NextMark(log, stream, p).None?
    ensures Records(log, p, n) == []
    decreases n - p
  {
    if p < n {
      NoRecordIsOpen(log, stream, p, n - 1);
      MarkFree(log, stream, p, n - 1);
    }
  }

  lemma {:induction false} MarkFree(log: seq<Message>, stream: string, p: nat, n: nat)
    requires p <= n < |log| && Closed(log, stream) && NextMark(log, stream, p).None?
    ensures NextMark(log, stream, n).None?
    decreases n - p
  {
    if p < n {
      assert !Rejects(log[p], stream);
      MarkFree(log, stream, p + 1, n);
    }
  }

  class Pipeline<D(!new)> {
    const job: Job<D>
    ghost const origin: D
    ghost const faultless: bool
    var dest: D
    var saved: map<string, nat>
    /** The sum of the counts of all writes made. */
    ghost var reported: int

    ghost predicate At(i: nat, base: D)
      reads this
    {
      ProgressAt(job, origin, saved, dest, i, base)
    }

    /** Stream `i` is the current one. */
    ghost predicate AtStream(i: nat)
      reads this
    {
      exists base :: At(i, base)
    }

    ghost predicate Sound() {
      Absorbing(job.destination) && faultless == Faultless(job, origin)
    }

    /** Some interruption of the job leads here: every method keeps this, whatever crashes. */
    ghost predicate Consistent()
      reads this
    {
      Sound() && exists i :: AtStream(i)
    }

    constructor (job: Job<D>, dest: D)
      requires Absorbing(job.destination)
      ensures Consistent() && this.job == job && origin == dest
    {
      this.job := job;
      this.origin := dest;
      this.faultless := Faultless(job, dest);
      this.dest := dest;
      saved, reported := map[], 0;
      new;
      assert At(0, dest) && AtStream(0);
    }

    /** The destination write of one batch, or the crash that cuts it. */
    method WriteBatch(batch: seq<Version>, alive: bool, cut: nat) returns (count: Option<int>)
      modifies this`dest, this`reported
      ensures reported == old(reported) + if count.Some? then count.value else 0
      ensures !alive ==> count.None? && dest == job.destination.torn(old(dest), batch, cut)
      ensures alive ==> match job.destination.write(old(dest), batch)
                        case None => count.None? && dest == old(dest)
                        case Some(w) => count == Some(w.count) && dest == w.dest
    {
      if !alive {
        dest := job.destination.torn(dest, batch, cut);
        return None;
      }
      match job.destination.write(dest, batch)
      case None => count := None;
      case Some(w) =>
        dest := w.dest;
        count := Some(w.count);
        reported := reported + w.count;
    }

    /** Runs the transforms over one batch, checking the stream after each. */
    method ApplyTransforms(records: seq<Version>, stream: string) returns (transformed: Option<seq<Version>>)
      ensures transformed == Transformed(job, |job.transforms|, records, stream)
    {
      var batch := records;
      for t := 0 to |job.transforms|
        invariant Transformed(job, t, records, stream) == Some(batch)
      {
        batch := job.transforms[t](batch);
        if exists b :: 0 <= b < |batch| && batch[b].stream != stream {
          TransformsStop(job, t + 1, |job.transforms|, records, stream);
          return None;
        }
      }
      transformed := Some(batch);
    }

    /** Transforms, checks and writes one checkpoint's records. */
    method DeliverPending(stream: string, pending: seq<Version>, alive: bool, cut: nat, ghost i: nat, ghost n: nat,
                          ghost base: D)
      returns (delivery: Delivery)
      requires Sound() && At(i, base) && i < |job.streams| && stream == job.streams[i]
      requires var log, p := LogOf(job, stream), PositionIn(saved, stream);
               NextMark(log, stream, p) == Some(n) && pending == Records(log, p, n)
      modifies this`dest, this`reported
      ensures At(i, base)
      ensures delivery.Delivered? ==> reported == old(reported) + delivery.count
      ensures delivery.Died? <==>
                !alive && BatchOf(job, stream, pending).Some? && BatchOf(job, stream, pending).value != []
      ensures delivery.Delivered? ==> Deliver(job, stream, pending, base) == Some(dest)
      ensures alive && BatchOf(job, stream, pending).Some? && BatchOf(job, stream, pending).value != [] ==>
                var batch := BatchOf(job, stream, pending).value;
                match job.destination.write(old(dest), batch)
                case None => delivery == Refused && dest == old(dest)
                case Some(w) =>
                  && dest == w.dest
                  && delivery == if 0 <= w.count <= |batch| then Delivered(w.count, true) else Refused
      ensures delivery.Refused? && CountsWithin(job.destination) ==> Deliver(job, stream, pending, base).None?
    {
      if pending == [] {
        return Delivered(0, false);
      }
      var transformed := ApplyTransforms(pending, stream);
      if transformed.None? {
        return Refused;
      }
      var batch := transformed.value;
      if batch == [] {
        return Delivered(0, false);
      }
      assert AbsorbsAt(job.destination, base, batch, dest);
      var count := WriteBatch(batch, alive, cut);
      assert Between(job.destination, base, batch, dest);
      assert At(i, base);
      if !alive {
        return Died;
      }
      if count.None? || !(0 <= count.value <= |batch|) {
        return Refused;
      }
      delivery := Delivered(count.value, true);
    }

    /** A state message: write and flush what is pending, and only then save the checkpoint. */
    method Checkpoint(k: nat, stream: string, pending: seq<Version>, n: nat, alive: nat, cut: nat, ghost i: nat)
      returns (delivery: Delivery, left: nat)
      requires Sound() && AtStream(i) && k <= i && k < |job.streams| && stream == job.streams[k]
      requires var log, p := LogOf(job, stream), PositionIn(saved, stream);
               NextMark(log, stream, p) == Some(n) && pending == Records(log, p, n)
      modifies this
      ensures AtStream(i) && OthersKept(old(saved), saved, stream)
      ensures delivery.Delivered? ==> reported == old(reported) + delivery.count
      ensures delivery.Delivered? ==> PositionIn(saved, stream) == n + 1 && alive <= left + 2
      ensures delivery.Died? ==> alive < 2
      ensures delivery.Refused? ==> !faultless
    {
      ghost var base :| At(i, base);
      MarkIsCurrent(job, origin, saved, dest, i, base, k);
      left := alive;
      if faultless {
        DeliveryIsPart(job, origin, saved, dest, i, base, n);
      }
      delivery := DeliverPending(stream, pending, alive > 0, cut, i, n, base);
      if delivery.Delivered? {
        if delivery.wrote && left > 0 {
          left := left - 1;
        }
        if left == 0 {
          return Died, left;
        }
        left := left - 1;
        SavedNext(job, origin, saved, dest, i, base, n);
        saved := saved[stream := n + 1];
        assert At(i, dest);
      }
    }

    /** The same while reading a stream since a run that began at `start`. */
    method PassState(k: nat, stream: string, pending: seq<Version>, n: nat, alive: nat, cut: nat, ghost i: nat,
                     ghost start: map<string, nat>)
      returns (delivery: Delivery, left: nat)
      requires Sound() && AtStream(i) && k <= i && k < |job.streams| && stream == job.streams[k]
      requires Scanned(LogOf(job, stream), stream, PositionIn(saved, stream), n, pending)
      requires n < |LogOf(job, stream)| && LogOf(job, stream)[n] == StateMessage(stream)
      requires OthersKept(start, saved, stream)
      modifies this
      ensures AtStream(i) && OthersKept(start, saved, stream)
      ensures delivery.Delivered? ==> reported == old(reported) + delivery.count
      ensures delivery.Delivered? ==> PositionIn(saved, stream) == n + 1 && alive <= left + 2
      ensures delivery.Died? ==> alive < 2
      ensures delivery.Refused? ==> !faultless
    {
      ghost var was := saved;
      delivery, left := Checkpoint(k, stream, pending, n, alive, cut, i);
      KeptTwice(start, was, saved, stream);
    }

    /** A stream read to its end: it kept its contract, and every state message passed counts. */
    ghost predicate StreamDone(before: map<string, nat>, k: nat, end: Outcome)
      reads this
      requires k < |job.streams|
    {
      var stream := job.streams[k];
      var log, from, p := LogOf(job, stream), PositionIn(before, stream), PositionIn(saved, stream);
      && Closed(log, stream) && from <= p <= |log| && States(log, p, |log|) == 0
      && end.Finished? && end.checkpoints == States(log, from, |log|)
    }

    /** Reads one stream from its saved position; `alive` counts the durable operations left before the crash. */
    method ReadStream(k: nat, alive: nat, cut: nat, ghost i: nat) returns (end: Outcome, left: nat)
      requires Sound() && AtStream(i) && k <= i && k < |job.streams|
      modifies this
      ensures AtStream(i) && OthersKept(old(saved), saved, job.streams[k])
      ensures end.Finished? ==> StreamDone(old(saved), k, end) && end.records == reported - old(reported)
      ensures end.Finished? ==>
                var stream := job.streams[k]; NextMark(LogOf(job, stream), stream, PositionIn(saved, stream)).None?
      ensures end.Finished? ==> alive <= left + 2 * |LogOf(job, job.streams[k])|
      ensures end.Crashed? ==> alive < 2 * |LogOf(job, job.streams[k])|
      ensures end.ProtocolError? ==> !faultless
    {
      var stream := job.streams[k];
      var log := LogOf(job, stream);
      var pending, records, checkpoints: nat := [], 0, 0;
      var n := PositionIn(saved, stream);
      ghost var p, from := n, n;
      left := alive;
      StartsWithin(k, i);
      while n < |log|
        invariant AtStream(i) && p == PositionIn(saved, stream) && Scanned(log, stream, p, n, pending)
        invariant OthersKept(old(saved), saved, stream) && from <= p
        invariant checkpoints == States(log, from, n) && records == reported - old(reported)
        invariant alive <= left + 2 * n
        decreases |log| - n
      {
        var m := log[n];
        if Rejects(m, stream) {
          end := ProtocolError;
          return;
        }
        if m.StateMessage? {
          var delivery;
          delivery, left := PassState(k, stream, pending, n, left, cut, i, old(saved));
          if !delivery.Delivered? {
            end := if delivery.Died? then Crashed else ProtocolError;
            return;
          }
          records, checkpoints, pending := records + delivery.count, checkpoints + 1, [];
          p := n + 1;
        } else if m.RecordMessage? {
          ScanRecord(log, stream, p, n, pending);
          pending := pending + [m.version];
        } else {
          ScanOther(log, stream, p, n, pending);
        }
        n := n + 1;
      }
      if pending != [] {
        PendingIsOpen(log, stream, p, pending);
      } else {
        EndClosed(k, i, p);
      }
      end := if pending != [] then ProtocolError else Finished(records, checkpoints);
    }

    lemma EndClosed(k: nat, i: nat, p: nat)
      requires AtStream(i) && k <= i && k < |job.streams| && p == PositionIn(saved, job.streams[k])
      requires var log := LogOf(job, job.streams[k]); Scanned(log, job.streams[k], p, |log|, [])
      ensures Closed(LogOf(job, job.streams[k]), job.streams[k])
    {
      var base :| At(i, base);
      EndIsClosed(LogOf(job, job.streams[k]), job.streams[k], p);
    }

    lemma StartsWithin(k: nat, i: nat)
      requires AtStream(i) && k <= i && k < |job.streams|
      ensures PositionIn(saved, job.streams[k]) <= |LogOf(job, job.streams[k])|
    {
      var base :| At(i, base);
      PositionBound(job, origin, saved, dest, i, base, k);
    }

    /** Reads one stream to its end; if it was the current one, the next becomes current. */
    method ReadToEnd(k: nat, alive: nat, cut: nat, ghost budget: nat, ghost i: nat)
      returns (end: Outcome, left: nat, ghost next: nat)
      requires Sound() && AtStream(i) && k <= i && k < |job.streams|
      requires budget <= alive + 2 * Messages(job, k)
      modifies this
      ensures AtStream(next) && OthersKept(old(saved), saved, job.streams[k])
      ensures end.Finished? ==> StreamDone(old(saved), k, end) && end.records == reported - old(reported)
      ensures end.Finished? ==> k + 1 <= next && budget <= left + 2 * Messages(job, k + 1)
      ensures end.Crashed? ==> budget < 2 * Messages(job, |job.streams|)
      ensures end.ProtocolError? ==> !faultless
    {
      next := i;
      end, left := ReadStream(k, alive, cut, i);
      MessagesGrow(job, k + 1, |job.streams|);
      if end.Finished? && k == i {
        ghost var base :| At(i, base);
        StreamFinished(job, origin, saved, dest, i, base);
        assert At(i + 1, base);
        next := i + 1;
      }
    }

    /** The first `n` streams kept their contract. */
    ghost predicate AllClosed(n: nat)
      requires n <= |job.streams|
    {
      forall j :: 0 <= j < n ==> Closed(LogOf(job, job.streams[j]), job.streams[j])
    }

    /** The streams before the `n`-th are through, since the run that began at `start`. */
    ghost predicate Through(start: map<string, nat>, n: nat)
      reads this
      requires n <= |job.streams|
    {
      AllClosed(n) && PassedThrough(job, start, saved, n)
    }

    /** One more stream of a run, and its part in what the run reports. */
    method ReadNext(k: nat, alive: nat, cut: nat, ghost budget: nat, ghost i: nat, ghost start: map<string, nat>)
      returns (end: Outcome, left: nat, ghost next: nat)
      requires Sound() && AtStream(i) && k <= i && k < |job.streams| && Through(start, k)
      requires budget <= alive + 2 * Messages(job, k)
      modifies this
      ensures AtStream(next)
      ensures end.Finished? ==> Through(start, k + 1) && end.records == reported - old(reported)
      ensures end.Finished? ==> StatesLeft(job, start, k + 1) == StatesLeft(job, start, k) + end.checkpoints
      ensures end.Finished? ==> k + 1 <= next && budget <= left + 2 * Messages(job, k + 1)
      ensures end.Crashed? ==> budget < 2 * Messages(job, |job.streams|)
      ensures end.ProtocolError? ==> !faultless
    {
      ghost var before := saved;
      end, left, next := ReadToEnd(k, alive, cut, budget, i);
      if end.Finished? {
        PassedNext(job, start, before, saved, k);
      }
    }

    method ReadStreams(budget: nat, cut: nat, ghost from: nat) returns (outcome: Outcome, ghost i: nat)
      requires Sound() && AtStream(from)
      modifies this
      ensures AtStream(i)
      ensures outcome.Finished? ==> |job.streams| <= i && AllClosed(|job.streams|)
      ensures outcome.Finished? ==>
                && outcome.checkpoints == StatesLeft(job, old(saved), |job.streams|)
                && outcome.records == reported - old(reported)
      ensures outcome.Crashed? ==> budget < 2 * Messages(job, |job.streams|)
      ensures outcome.ProtocolError? ==> !faultless
    {
      var left: nat, records, checkpoints: nat := budget, 0, 0;
      i := from;
      for k := 0 to |job.streams|
        invariant k <= i && AtStream(i)
        invariant Through(old(saved), k)
        invariant checkpoints == StatesLeft(job, old(saved), k) && records == reported - old(reported)
        invariant budget <= left + 2 * Messages(job, k)
      {
        var end;
        end, left, i := ReadNext(k, left, cut, budget, i, old(saved));
        if !end.Finished? {
          outcome := end;
          return;
        }
        records, checkpoints := records + end.records, checkpoints + end.checkpoints;
      }
      outcome := Finished(records, checkpoints);
    }

    /**
     One run that survives `budget` durable operations (writes and checkpoint
     saves) and then crashes; a large budget is a run without a crash.
     */
    method Run(budget: nat, cut: nat) returns (outcome: Outcome)
      requires Consistent()
      modifies this
      ensures Consistent()
      ensures outcome.Finished? ==> Uninterrupted(job, |job.streams|, origin) == Some(dest) && AllClosed(|job.streams|)
      ensures outcome.Finished? ==>
                && outcome.checkpoints == StatesLeft(job, old(saved), |job.streams|)
                && outcome.records == reported - old(reported)
      ensures CountsWithin(job.destination) && budget >= 2 * Messages(job, |job.streams|) ==>
                (outcome.Finished? <==>
                 AllClosed(|job.streams|) && Uninterrupted(job, |job.streams|, origin).Some?)
    {
      ghost var i: nat :| AtStream(i);
      outcome, i := ReadStreams(budget, cut, i);
      if outcome.Finished? {
        ghost var base :| At(i, base);
      }
    }

    /** Any series of crashing runs and then one that ends: the destination is the uninterrupted one. */
    method RunThroughCrashes(crashes: seq<(nat, nat)>, budget: nat) returns (outcome: Outcome)
      requires Consistent()
      modifies this
      ensures Consistent()
      ensures outcome.Finished? ==> Uninterrupted(job, |job.streams|, origin) == Some(dest) && AllClosed(|job.streams|)
      ensures CountsWithin(job.destination) && budget >= 2 * Messages(job, |job.streams|) ==>
                (outcome.Finished? <==>
                 AllClosed(|job.streams|) && Uninterrupted(job, |job.streams|, origin).Some?)
    {
      for c := 0 to |crashes|
        invariant Consistent()
      {
        var _ := Run(crashes[c].0, crashes[c].1);
      }
      outcome := Run(budget, 0);
    }
  }
}
