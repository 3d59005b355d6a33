/** The webhook delivery ledger over whole histories: the rate window, and acceptance at most once. */
module WebhookLedger {
  import opened Wrappers

  /** Times are in microseconds; a timestamp header is whole seconds. */
  const MINUTE: nat := 60 * SECOND

  /** `delay` bounds the time from reading the timestamp header to the end of the accepting transaction. */
  datatype Settings = Settings(skew: nat, retention: nat, delay: nat, limit: nat)

  datatype Event =
    | Delivery(timestamp: int, id: string, genuine: bool, parsedAt: int, receivedAt: int, time: int)
    | Prune(now: int, time: int)

  datatype Accepted = Accepted(timestamp: int, id: string, parsedAt: int, receivedAt: int)

  datatype Reply = Created | Unauthorized | AlreadyAccepted | RateLimited

  /** The clock readings inside one request or prune, all after the previous transaction. */
  predicate Timely(cfg: Settings, clock: int, e: Event) {
    match e
    case Delivery(_, _, _, parsedAt, receivedAt, time) =>
      clock <= time && parsedAt <= receivedAt <= time <= parsedAt + cfg.delay
    case Prune(now, time) => clock <= time && now <= time
  }

  predicate WithinSkew(cfg: Settings, timestamp: int, now: int) {
    -(cfg.skew as int) <= now - timestamp * SECOND <= cfg.skew
  }

  /** How many ledger rows the rate query counts. */
  function RecentRows(rows: map<string, int>, receivedAt: int): set<string> {
    set id | id in rows && rows[id] >= receivedAt - MINUTE
  }

  function Answer(cfg: Settings, rows: map<string, int>, e: Event): Reply
    requires e.Delivery?
  {
    if !WithinSkew(cfg, e.timestamp, e.parsedAt) || !e.genuine then Unauthorized
    else if e.id in rows then AlreadyAccepted
    else if |RecentRows(rows, e.receivedAt)| >= cfg.limit then RateLimited
    else Created
  }

  function Kept(rows: map<string, int>, cutoff: int): map<string, int> {
    map id | id in rows && rows[id] >= cutoff :: rows[id]
  }

  function RowsAfter(cfg: Settings, rows: map<string, int>, e: Event): map<string, int> {
    match e
    case Prune(now, _) => Kept(rows, now - cfg.retention)
    case Delivery(_, id, _, _, receivedAt, _) => if Answer(cfg, rows, e).Created? then rows[id := receivedAt] else rows
  }

  /** The ledger rows, and everything ever accepted; `cutoff` is the latest pruning bound. */
  datatype State = State(rows: map<string, int>, history: seq<Accepted>, clock: int, cutoff: Option<int>)

  function Step(cfg: Settings, s: State, e: Event): State {
    match e
    case Prune(now, time) =>
      var bound := now - cfg.retention;
      var cutoff := if s.cutoff.Some? && s.cutoff.value > bound then s.cutoff.value else bound;
      State(RowsAfter(cfg, s.rows, e), s.history, time, Some(cutoff))
    case Delivery(timestamp, id, _, parsedAt, receivedAt, time) =>
      var history := if Answer(cfg, s.rows, e).Created? then s.history + [Accepted(timestamp, id, parsedAt, receivedAt)]
                     else s.history;
      State(RowsAfter(cfg, s.rows, e), history, time, s.cutoff)
  }

  function After(cfg: Settings, start: int, events: seq<Event>): State {
    if events == [] then State(map[], [], start, None)
    else Step(cfg, After(cfg, start, events[..|events| - 1]), events[|events| - 1])
  }

  /** A history whose clock never goes back. */
  predicate TimelyRun(cfg: Settings, start: int, events: seq<Event>) {
    events == [] ||
    var before := events[..|events| - 1];
    TimelyRun(cfg, start, before) && Timely(cfg, After(cfg, start, before).clock, events[|events| - 1])
  }

  predicate Pruned(s: State, receivedAt: int) {
    s.cutoff.Some? && receivedAt < s.cutoff.value
  }

  /** Every acceptance is in the ledger until pruned, and an id repeats only after that. */
  ghost predicate LedgerOk(cfg: Settings, s: State) {
    && (s.cutoff.Some? ==> s.cutoff.value <= s.clock - cfg.retention)
    && (forall i :: 0 <= i < |s.history| ==> RowOk(cfg, s, i))
    && (forall i, j :: 0 <= i < j < |s.history| && s.history[i].id == s.history[j].id ==>
        Pruned(s, s.history[i].receivedAt))
  }

  predicate RowOk(cfg: Settings, s: State, i: nat)
    requires i < |s.history|
  {
    var h := s.history[i];
    && WithinSkew(cfg, h.timestamp, h.parsedAt) && h.parsedAt <= h.receivedAt
    && (Pruned(s, h.receivedAt) || (h.id in s.rows && s.rows[h.id] == h.receivedAt))
  }

  lemma LedgerStep(cfg: Settings, s: State, e: Event)
    requires LedgerOk(cfg, s) && Timely(cfg, s.clock, e)
    ensures LedgerOk(cfg, Step(cfg, s, e))
  {
    var s' := Step(cfg, s, e);
    forall i | 0 <= i < |s'.history| ensures RowOk(cfg, s', i) {
      if i < |s.history| {
        assert RowOk(cfg, s, i);
      }
    }
    forall i, j | 0 <= i < j < |s'.history| && s'.history[i].id == s'.history[j].id
      ensures Pruned(s', s'.history[i].receivedAt)
    {
      assert RowOk(cfg, s, i);
    }
  }

  lemma {:induction false} RunKeepsLedger(cfg: Settings, start: int, events: seq<Event>)
    requires TimelyRun(cfg, start, events)
    ensures LedgerOk(cfg, After(cfg, start, events))
  {
    if events != [] {
      var before := events[..|events| - 1];
      RunKeepsLedger(cfg, start, before);
      LedgerStep(cfg, After(cfg, start, before), events[|events| - 1]);
    }
  }

  /** The acceptances received in the closed minute that starts at `t`. */
  function InWindow(history: seq<Accepted>, t: int): set<nat> {
    set i: nat | i < |history| && t <= history[i].receivedAt <= t + MINUTE
  }

  ghost predicate RateKept(cfg: Settings, history: seq<Accepted>) {
    forall t :: |InWindow(history, t)| <= cfg.limit
  }

  /** What is in a window with a new acceptance is still in the ledger, under its own id. */
  lemma WindowIsRecent(cfg: Settings, s: State, e: Event, t: int)
    requires LedgerOk(cfg, s) && e.Delivery? && Timely(cfg, s.clock, e) && cfg.retention >= MINUTE + cfg.delay
    requires t <= e.receivedAt <= t + MINUTE
    ensures |InWindow(s.history, t)| <= |RecentRows(s.rows, e.receivedAt)|
  {
    var window, recent := InWindow(s.history, t), RecentRows(s.rows, e.receivedAt);
    forall i | i in window ensures s.history[i].id in recent && !Pruned(s, s.history[i].receivedAt) {
      assert RowOk(cfg, s, i);
    }
    InjectionSize(s.history, window, recent);
  }

  lemma {:induction false} InjectionSize(history: seq<Accepted>, indices: set<nat>, ids: set<string>)
    requires forall i :: i in indices ==> i < |history| && history[i].id in ids
    requires forall i, j :: i in indices && j in indices && i < j ==> history[i].id != history[j].id
    ensures |indices| <= |ids|
    decreases |indices|
  {
    if |indices| > 0 {
      var i: nat :| i in indices;
      InjectionSize(history, indices - {i}, ids - {history[i].id});
    }
  }

  /** Every closed minute holds at most the limit, whatever order requests commit in. */
  lemma {:induction false} RateLimitHolds(cfg: Settings, start: int, events: seq<Event>)
    requires TimelyRun(cfg, start, events) && cfg.retention >= MINUTE + cfg.delay
    ensures RateKept(cfg, After(cfg, start, events).history)
  {
    if events == [] {
      assert forall t :: InWindow([], t) == {};
    } else {
      var before, e := events[..|events| - 1], events[|events| - 1];
      var s := After(cfg, start, before);
      RateLimitHolds(cfg, start, before);
      RunKeepsLedger(cfg, start, before);
      var s' := Step(cfg, s, e);
      forall t ensures |InWindow(s'.history, t)| <= cfg.limit {
        WindowStep(cfg, s, e, t);
      }
    }
  }

  lemma WindowStep(cfg: Settings, s: State, e: Event, t: int)
    requires LedgerOk(cfg, s) && Timely(cfg, s.clock, e) && cfg.retention >= MINUTE + cfg.delay
    requires |InWindow(s.history, t)| <= cfg.limit
    ensures |InWindow(Step(cfg, s, e).history, t)| <= cfg.limit
  {
    var s' := Step(cfg, s, e);
    if s'.history != s.history {
      var n := |s.history|;
      if t <= e.receivedAt <= t + MINUTE {
        WindowIsRecent(cfg, s, e, t);
        assert InWindow(s'.history, t) == InWindow(s.history, t) + {n};
      } else {
        assert InWindow(s'.history, t) == InWindow(s.history, t);
      }
    }
  }

  /** No clock-respecting history overfills a minute. */
  ghost predicate RateAlwaysKept(cfg: Settings) {
    forall start: int, events: seq<Event> :: TimelyRun(cfg, start, events) ==>
        RateKept(cfg, After(cfg, start, events).history)
  }

  function Name(n: nat): (name: string)
    ensures |name| == n
  {
    seq(n, _ => 'x')
  }

  function Names(n: nat): (names: set<string>)
    ensures |names| == n && forall name :: name in names ==> 0 < |name| <= n
  {
    if n == 0 then {} else Names(n - 1) + {Name(n)}
  }

  /** `n` acceptances at the same instant. */
  function Burst(n: nat): seq<Event> {
    if n == 0 then [] else Burst(n - 1) + [Delivery(0, Name(n), true, 0, 0, 0)]
  }

  function BurstHistory(n: nat): (history: seq<Accepted>)
    ensures |history| == n && forall i :: 0 <= i < n ==> history[i].receivedAt == 0
  {
    if n == 0 then [] else BurstHistory(n - 1) + [Accepted(0, Name(n), 0, 0)]
  }

  function BurstRows(n: nat): map<string, int> {
    map name | name in Names(n) :: 0
  }

  lemma {:induction false} BurstAccepted(cfg: Settings, n: nat)
    requires n <= cfg.limit
    ensures TimelyRun(cfg, 0, Burst(n)) && After(cfg, 0, Burst(n)) == State(BurstRows(n), BurstHistory(n), 0, None)
  {
    if n == 0 {
      assert BurstRows(0) == map[];
    } else {
      var e := Delivery(0, Name(n), true, 0, 0, 0);
      BurstAccepted(cfg, n - 1);
      AfterOneMore(cfg, 0, Burst(n - 1), e);
      BurstStep(cfg, n);
    }
  }

  lemma BurstStep(cfg: Settings, n: nat)
    requires 0 < n <= cfg.limit
    ensures Step(cfg, State(BurstRows(n - 1), BurstHistory(n - 1), 0, None), Delivery(0, Name(n), true, 0, 0, 0)) ==
            State(BurstRows(n), BurstHistory(n), 0, None)
  {
    assert RecentRows(BurstRows(n - 1), 0) == Names(n - 1);
    assert BurstRows(n - 1)[Name(n) := 0] == BurstRows(n);
  }

  lemma AfterOneMore(cfg: Settings, start: int, events: seq<Event>, e: Event)
    ensures After(cfg, start, events + [e]) == Step(cfg, After(cfg, start, events), e)
    ensures TimelyRun(cfg, start, events + [e]) <==>
            TimelyRun(cfg, start, events) && Timely(cfg, After(cfg, start, events).clock, e)
  {
    assert (events + [e])[..|events|] == events;
  }

  /** When the slow request reads the clock. */
  function LateReading(cfg: Settings): nat {
    if cfg.retention + 1 > cfg.delay then cfg.retention + 1 - cfg.delay else 0
  }

  /** A full minute, pruned while a slow request is under way, which is then accepted into the same minute. */
  function OverfullMinute(cfg: Settings): seq<Event> {
    var time, at := cfg.retention + 1, LateReading(cfg);
    Burst(cfg.limit) + [Prune(time, time)] + [Delivery(at / SECOND, "", true, at, at, time)]
  }

  lemma MinuteOverfills(cfg: Settings)
    requires cfg.limit > 0 && cfg.skew >= SECOND && cfg.retention < MINUTE + cfg.delay
    ensures TimelyRun(cfg, 0, OverfullMinute(cfg)) && !RateKept(cfg, After(cfg, 0, OverfullMinute(cfg)).history)
  {
    OverfullHistory(cfg);
    AllInWindow(After(cfg, 0, OverfullMinute(cfg)).history);
  }

  lemma OverfullHistory(cfg: Settings)
    requires cfg.limit > 0 && cfg.skew >= SECOND
    ensures TimelyRun(cfg, 0, OverfullMinute(cfg))
    ensures var at := LateReading(cfg);
            After(cfg, 0, OverfullMinute(cfg)).history == BurstHistory(cfg.limit) + [Accepted(at / SECOND, "", at, at)]
  {
    var time, at := cfg.retention + 1, LateReading(cfg);
    var prune, last := Prune(time, time), Delivery(at / SECOND, "", true, at, at, time);
    BurstAccepted(cfg, cfg.limit);
    AfterOneMore(cfg, 0, Burst(cfg.limit), prune);
    AfterOneMore(cfg, 0, Burst(cfg.limit) + [prune], last);
    OverfillSteps(cfg);
  }

  lemma OverfillSteps(cfg: Settings)
    requires cfg.limit > 0 && cfg.skew >= SECOND
    ensures var time, at := cfg.retention + 1, LateReading(cfg);
            var full := State(BurstRows(cfg.limit), BurstHistory(cfg.limit), 0, None);
            var pruned := Step(cfg, full, Prune(time, time));
            && pruned.clock == time
            && Step(cfg, pruned, Delivery(at / SECOND, "", true, at, at, time)).history ==
               BurstHistory(cfg.limit) + [Accepted(at / SECOND, "", at, at)]
  {
    assert Kept(BurstRows(cfg.limit), 1) == map[];
    LateIsAccepted(cfg);
  }

  lemma LateIsAccepted(cfg: Settings)
    requires cfg.limit > 0 && cfg.skew >= SECOND
    ensures var at := LateReading(cfg); var late := Delivery(at / SECOND, "", true, at, at, cfg.retention + 1);
            Answer(cfg, map[], late).Created?
  {
    var at := LateReading(cfg);
    assert at == at / SECOND * SECOND + at % SECOND;
    assert RecentRows(map[], at) == {};
  }

  lemma {:induction false} AllInWindow(history: seq<Accepted>)
    requires forall i :: 0 <= i < |history| ==> 0 <= history[i].receivedAt <= MINUTE
    ensures |InWindow(history, 0)| == |history|
  {
    if history == [] {
      assert InWindow(history, 0) == {};
    } else {
      var n := |history| - 1;
      AllInWindow(history[..n]);
      assert InWindow(history, 0) == InWindow(history[..n], 0) + {n};
    }
  }

  /** The minute limit holds in every history exactly when rows outlive a minute and the delay. */
  lemma RateAlwaysKeptIff(cfg: Settings)
    requires cfg.limit > 0 && cfg.skew >= SECOND
    ensures RateAlwaysKept(cfg) <==> cfg.retention >= MINUTE + cfg.delay
  {
    if cfg.retention >= MINUTE + cfg.delay {
      forall start: int, events: seq<Event> | TimelyRun(cfg, start, events)
        ensures RateKept(cfg, After(cfg, start, events).history)
      {
        RateLimitHolds(cfg, start, events);
      }
    } else {
      MinuteOverfills(cfg);
    }
  }

  /** The same signed pair is in the history twice. */
  predicate Twice(history: seq<Accepted>) {
    exists i, j :: 0 <= i < j < |history| && history[i].id == history[j].id
      && history[i].timestamp == history[j].timestamp
  }

  /** No clock-respecting history accepts a signed pair twice. */
  ghost predicate AcceptsOnce(cfg: Settings) {
    forall start: int, events: seq<Event> :: TimelyRun(cfg, start, events) ==> !Twice(After(cfg, start, events).history)
  }

  lemma {:induction false} NeverTwice(cfg: Settings, start: int, events: seq<Event>)
    requires TimelyRun(cfg, start, events) && 2 * cfg.skew + cfg.delay <= cfg.retention
    ensures !Twice(After(cfg, start, events).history)
  {
    if events != [] {
      var before, e := events[..|events| - 1], events[|events| - 1];
      var s := After(cfg, start, before);
      NeverTwice(cfg, start, before);
      RunKeepsLedger(cfg, start, before);
      var s' := Step(cfg, s, e);
      forall i, j | 0 <= i < j < |s'.history| && s'.history[i].id == s'.history[j].id
        ensures s'.history[i].timestamp != s'.history[j].timestamp
      {
        assert RowOk(cfg, s, i);
      }
    }
  }

  /** A pair accepted twice when the ledger forgets too early. */
  function ForgottenPair(cfg: Settings): seq<Event> {
    var t := cfg.skew / SECOND;
    var again := cfg.skew + t * SECOND;
    [Delivery(t, "id", true, 0, 0, 0),
     Prune(cfg.retention + 1, cfg.retention + 1),
     Delivery(t, "id", true, again, again + cfg.delay, again + cfg.delay)]
  }

  lemma ForgottenPairIsAcceptedTwice(cfg: Settings)
    requires cfg.limit > 0 && cfg.skew % SECOND == 0 && 2 * cfg.skew + cfg.delay > cfg.retention
    ensures TimelyRun(cfg, 0, ForgottenPair(cfg)) && Twice(After(cfg, 0, ForgottenPair(cfg)).history)
  {
    var events := ForgottenPair(cfg);
    var t := cfg.skew / SECOND;
    assert t * SECOND == cfg.skew;
    assert events[..2][..1] == events[..1] && events[..1][..0] == [];
    var s0 := After(cfg, 0, []);
    assert RecentRows(map[], 0) == {};
    var s1 := After(cfg, 0, events[..1]);
    assert s1 == Step(cfg, s0, events[0]);
    assert s1.rows == map["id" := 0] && |s1.history| == 1;
    var s2 := After(cfg, 0, events[..2]);
    assert s2 == Step(cfg, s1, events[1]);
    assert s2.rows == map[] && s2.history == s1.history;
    assert RecentRows(map[], events[2].receivedAt) == {};
    var s3 := After(cfg, 0, events);
    assert events[..|events| - 1] == events[..2];
    assert s3 == Step(cfg, s2, events[2]);
    assert TimelyRun(cfg, 0, events[..1]) && TimelyRun(cfg, 0, events[..2]);
    assert s3.history[0].id == s3.history[1].id;
  }

  /** The ledger accepts each signed pair once exactly when it remembers for twice the skew and the delay. */
  lemma AcceptsOnceIff(cfg: Settings)
    requires cfg.limit > 0 && cfg.skew % SECOND == 0
    ensures AcceptsOnce(cfg) <==> 2 * cfg.skew + cfg.delay <= cfg.retention
  {
    if 2 * cfg.skew + cfg.delay <= cfg.retention {
      forall start: int, events: seq<Event> | TimelyRun(cfg, start, events)
        ensures !Twice(After(cfg, start, events).history)
      {
        NeverTwice(cfg, start, events);
      }
    } else {
      ForgottenPairIsAcceptedTwice(cfg);
    }
  }

  /** One trigger's rows of the delivery table. */
  class DeliveryTable {
    const settings: Settings
    var rows: map<string, int>

    constructor (settings: Settings)
      ensures this.settings == settings && rows == map[]
    {
      this.settings := settings;
      rows := map[];
    }

    method AcceptWebhookDelivery(e: Event) returns (reply: Reply)
      requires e.Delivery?
      modifies this
      ensures reply == Answer(settings, old(rows), e) && rows == RowsAfter(settings, old(rows), e)
      ensures reply.Unauthorized? <==>
                !e.genuine || e.parsedAt < e.timestamp * SECOND - settings.skew
                || e.timestamp * SECOND + settings.skew < e.parsedAt
      ensures rows == if reply.Created? then old(rows)[e.id := e.receivedAt] else old(rows)
    {
      if !WithinSkew(settings, e.timestamp, e.parsedAt) || !e.genuine {
        return Unauthorized;
      }
      if e.id in rows {
        return AlreadyAccepted;
      }
      var recent := CountSince(e.receivedAt - MINUTE);
      if recent >= settings.limit {
        return RateLimited;
      }
      rows := rows[e.id := e.receivedAt];
      reply := Created;
    }

    method CountSince(start: int) returns (count: nat)
      ensures count == |set id | id in rows && rows[id] >= start|
    {
      count := |set id | id in rows && rows[id] >= start|;
    }

    method PruneWebhookDeliveries(now: int) returns (deleted: nat)
      modifies this
      ensures rows == Kept(old(rows), now - settings.retention)
      ensures forall id :: id in rows <==> id in old(rows) && old(rows)[id] >= now - settings.retention
      ensures forall id :: id in rows ==> rows[id] == old(rows)[id]
      ensures deleted == |old(rows)| - |rows|
    {
      var kept := Kept(rows, now - settings.retention);
      ghost var gone := rows.Keys - kept.Keys;
      assert rows.Keys == kept.Keys + gone;
      deleted := |rows.Keys - kept.Keys|;
      rows := kept;
    }
  }
}
