/** Schedule validation, the next instant of a schedule, and dispatch over whole series of polls. */
module TriggerSchedule {
  import opened Wrappers
  import opened Ordering

  const MIN_INTERVAL_SECONDS := 60
  const MAX_INTERVAL_SECONDS := 31_536_000

  /** The schedule columns as stored. */
  datatype Config = Config(kind: string, intervalSeconds: Option<int>, cronExpression: Option<string>, timezone: string)

  datatype Schedule = Interval(seconds: int) | Cron(expression: string, timezone: string)

  /** What the cron and timezone libraries answer. */
  datatype Calendar = Calendar(
    knownTimezone: string -> bool, validCron: string -> bool, nextCron: (string, string, int) -> Option<int>)

  function Validate(calendar: Calendar, c: Config): Option<Schedule> {
    if !calendar.knownTimezone(c.timezone) then None
    else if c.kind == "interval" then
      if c.intervalSeconds.None? || c.cronExpression.Some? then None
      else if !(MIN_INTERVAL_SECONDS <= c.intervalSeconds.value <= MAX_INTERVAL_SECONDS) then None
      else Some(Interval(c.intervalSeconds.value))
    else if c.kind == "cron" then
      if c.intervalSeconds.Some? || c.cronExpression.None? || !calendar.validCron(c.cronExpression.value) then None
      else Some(Cron(c.cronExpression.value, c.timezone))
    else None
  }

  /** The first instant of an interval schedule after `now`, anchored at a previous one. */
  function NextInterval(seconds: int, now: int, anchor: int): int
    requires seconds > 0
  {
    if anchor > now then anchor
    else anchor + ((now - anchor) / (seconds * SECOND) + 1) * (seconds * SECOND)
  }

  function ComputeNextRunAt(calendar: Calendar, c: Config, now: int, previous: Option<int>): Option<int> {
    match Validate(calendar, c)
    case None => None
    case Some(Cron(expression, timezone)) => calendar.nextCron(expression, timezone, now)
    case Some(Interval(seconds)) =>
      if previous.None? then Some(now + seconds * SECOND) else Some(NextInterval(seconds, now, previous.value))
  }

  /** `x` belongs to the cadence through `anchor`. */
  ghost predicate OnCadence(seconds: int, anchor: int, x: int) {
    exists n: int :: x == anchor + n * (seconds * SECOND)
  }

  /** The next slot is on the cadence, after `now`, at most one interval away, and none lies between. */
  lemma NextIntervalIsLeast(seconds: int, now: int, anchor: int)
    requires seconds > 0
    ensures var next := NextInterval(seconds, now, anchor);
            && OnCadence(seconds, anchor, next) && now < next
            && (anchor <= now ==> anchor < next <= now + seconds * SECOND)
            && (forall x :: OnCadence(seconds, anchor, x) && now < x && anchor <= x ==> next <= x)
  {
    var step := seconds * SECOND;
    var next := NextInterval(seconds, now, anchor);
    if anchor > now {
      assert next == anchor + 0 * step;
    } else {
      var n := (now - anchor) / step;
      DivisionBounds(now - anchor, step);
      assert next == anchor + (n + 1) * step;
      assert (n + 1) * step == n * step + step;
      forall x | OnCadence(seconds, anchor, x) && now < x ensures next <= x {
        var m: int :| x == anchor + m * step;
        MultipleAbove(m, n, step, now - anchor);
      }
    }
  }

  lemma DivisionBounds(a: int, b: int)
    requires a >= 0 && b > 0
    ensures a / b * b <= a < a / b * b + b && a / b >= 0
  {
    assert a == a / b * b + a % b;
  }

  lemma MultiplesInOrder(m: int, n: int, step: int)
    requires step > 0
    ensures m <= n ==> m * step <= n * step
  {
    assert n * step == m * step + (n - m) * step;
    if m <= n {
      assert (n - m) * step >= 0;
    }
  }

  lemma MultipleAbove(m: int, n: int, step: int, distance: int)
    requires step > 0 && n * step <= distance < m * step
    ensures (n + 1) * step <= m * step
  {
    MultiplesInOrder(m, n, step);
    MultiplesInOrder(n + 1, m, step);
  }

  /** A schedule trigger; `createFails` in a poll stands for an error while its run is created. */
  datatype Trigger = Trigger(config: Config, nextRunAt: Option<int>, lastRunAt: Option<int>)

  predicate Due(t: Trigger, now: int) {
    t.nextRunAt.Some? && t.nextRunAt.value <= now
  }

  /** One dispatch inside its savepoint: None rolls it back. */
  function Dispatched(calendar: Calendar, t: Trigger, now: int, createFails: bool): Option<Trigger> {
    if createFails || t.nextRunAt.None? then None
    else
      match ComputeNextRunAt(calendar, t.config, now, t.nextRunAt)
      case None => None
      case Some(next) => Some(t.(nextRunAt := Some(next), lastRunAt := Some(now)))
  }

  /** What one poll that reaches the trigger makes of it. */
  function Polled(calendar: Calendar, t: Trigger, now: int, createFails: bool): Trigger {
    if !Due(t, now) then t
    else
      match Dispatched(calendar, t, now, createFails)
      case None => t
      case Some(t') => t'
  }

  /**
   One poll as a trigger sees it: whether it was picked up (not locked, within the batch) and whether
   creation failed.
   */
  datatype Poll = Poll(now: int, taken: bool, createFails: bool)

  /** A trigger after some polls, with the slots dispatched for it. */
  datatype Served = Served(trigger: Trigger, slots: seq<int>)

  function Serve(calendar: Calendar, t: Trigger, polls: seq<Poll>): Served {
    if polls == [] then Served(t, [])
    else
      var before, poll := Serve(calendar, t, polls[..|polls| - 1]), polls[|polls| - 1];
      var trigger := before.trigger;
      if !poll.taken || !Due(trigger, poll.now)
          || Dispatched(calendar, trigger, poll.now, poll.createFails).None? then before
      else Served(Polled(calendar, trigger, poll.now, poll.createFails), before.slots + [trigger.nextRunAt.value])
  }

  predicate Increasing(slots: seq<int>) {
    forall i, j :: 0 <= i < j < |slots| ==> slots[i] < slots[j]
  }

  /** The slots so far increase along the cadence of `first`, and the next one is beyond them all. */
  ghost predicate CadenceOk(seconds: int, first: int, slots: seq<int>, next: int) {
    && Increasing(slots) && OnCadence(seconds, first, next)
    && (forall i :: 0 <= i < |slots| ==> slots[i] < next)
    && (forall i :: 0 <= i < |slots| ==> OnCadence(seconds, first, slots[i]))
  }

  lemma SlotServed(seconds: int, first: int, slots: seq<int>, slot: int, now: int)
    requires seconds > 0 && CadenceOk(seconds, first, slots, slot) && slot <= now
    ensures CadenceOk(seconds, first, slots + [slot], NextInterval(seconds, now, slot))
  {
    NextIntervalIsLeast(seconds, now, slot);
    CadenceTransitive(seconds, first, slot, NextInterval(seconds, now, slot));
  }

  /**
   Over any series of polls, in whatever order their clocks were read, an
   interval trigger's slots strictly increase, so none is dispatched twice, and
   they stay on the cadence of the first one.
   */
  lemma {:induction false} CadenceKept(calendar: Calendar, t: Trigger, polls: seq<Poll>)
    requires Validate(calendar, t.config).Some? && Validate(calendar, t.config).value.Interval? && t.nextRunAt.Some?
    ensures var seconds, served := Validate(calendar, t.config).value.seconds, Serve(calendar, t, polls);
            && served.trigger.config == t.config && served.trigger.nextRunAt.Some?
            && CadenceOk(seconds, t.nextRunAt.value, served.slots, served.trigger.nextRunAt.value)
  {
    var seconds := Validate(calendar, t.config).value.seconds;
    if polls == [] {
      assert t.nextRunAt.value == t.nextRunAt.value + 0 * (seconds * SECOND);
    } else {
      var poll := polls[|polls| - 1];
      CadenceKept(calendar, t, polls[..|polls| - 1]);
      var before := Serve(calendar, t, polls[..|polls| - 1]);
      if poll.taken && Due(before.trigger, poll.now) && !poll.createFails {
        SlotServed(seconds, t.nextRunAt.value, before.slots, before.trigger.nextRunAt.value, poll.now);
      }
    }
  }

  lemma CadenceTransitive(seconds: int, a: int, b: int, c: int)
    requires OnCadence(seconds, a, b) && OnCadence(seconds, b, c)
    ensures OnCadence(seconds, a, c)
  {
    var step := seconds * SECOND;
    var m: int :| b == a + m * step;
    var n: int :| c == b + n * step;
    assert c == a + (m + n) * step by {
      assert (m + n) * step == m * step + n * step;
    }
  }

  /** A dispatch moves the slot past the poll by at most an interval; a failed one leaves it due. */
  lemma DispatchAdvances(calendar: Calendar, t: Trigger, now: int, createFails: bool)
    requires Validate(calendar, t.config).Some? && Validate(calendar, t.config).value.Interval? && Due(t, now)
    ensures var seconds, t' := Validate(calendar, t.config).value.seconds, Polled(calendar, t, now, createFails);
            if createFails then t' == t && Due(t', now)
            else
              && now < t'.nextRunAt.value <= now + seconds * SECOND && t'.lastRunAt == Some(now)
              && forall x :: OnCadence(seconds, t.nextRunAt.value, x) && now < x && t.nextRunAt.value <= x ==>
                  t'.nextRunAt.value <= x
  {
    NextIntervalIsLeast(Validate(calendar, t.config).value.seconds, now, t.nextRunAt.value);
  }

  // ------------------------------------------------ the fields of one poll

  /** A valid interval schedule of so many seconds, field by field. */
  predicate EverySeconds(calendar: Calendar, c: Config, seconds: int) {
    && calendar.knownTimezone(c.timezone) && c.kind == "interval" && c.cronExpression.None?
    && c.intervalSeconds == Some(seconds) && 60 <= seconds <= 31_536_000
  }

  predicate ByCron(calendar: Calendar, c: Config, expression: string) {
    && calendar.knownTimezone(c.timezone) && c.kind == "cron" && c.intervalSeconds.None?
    && c.cronExpression == Some(expression) && calendar.validCron(expression)
  }

  /** Validation accepts exactly the two kinds of schedule, with their own field and no other. */
  lemma ValidateIff(calendar: Calendar, c: Config)
    ensures forall n :: Validate(calendar, c) == Some(Interval(n)) <==> EverySeconds(calendar, c, n)
    ensures forall e, z :: Validate(calendar, c) == Some(Cron(e, z)) <==> ByCron(calendar, c, e) && z == c.timezone
  {
  }

  /** The first instant of a new schedule is one interval away, or the calendar's next. */
  lemma FirstInstant(calendar: Calendar, c: Config, now: int)
    ensures forall n :: EverySeconds(calendar, c, n) ==>
              ComputeNextRunAt(calendar, c, now, None) == Some(now + n * 1_000_000)
    ensures forall e :: ByCron(calendar, c, e) ==>
              ComputeNextRunAt(calendar, c, now, None) == calendar.nextCron(e, c.timezone, now)
  {
  }

  /** The slot a successful dispatch moves the trigger to. */
  ghost predicate MovesTo(calendar: Calendar, t: Trigger, now: int, next: int)
    requires t.nextRunAt.Some?
  {
    || (exists n :: EverySeconds(calendar, t.config, n) && OnCadence(n, t.nextRunAt.value, next)
                    && now < next <= now + n * 1_000_000)
    || (exists e :: ByCron(calendar, t.config, e) && calendar.nextCron(e, t.config.timezone, now) == Some(next))
  }

  /**
   A poll dispatches a trigger exactly if its slot has come, its run is created
   and its schedule has a next instant; then it moves to that instant.
   */
  lemma PollMeans(calendar: Calendar, t: Trigger, now: int, createFails: bool)
    ensures var t' := Polled(calendar, t, now, createFails);
            if t.nextRunAt.Some? && t.nextRunAt.value <= now && !createFails
               && (exists next :: MovesTo(calendar, t, now, next)) then
              && t'.config == t.config && t'.lastRunAt == Some(now)
              && t'.nextRunAt.Some? && MovesTo(calendar, t, now, t'.nextRunAt.value)
              && Dispatched(calendar, t, now, createFails) == Some(t')
            else
              t' == t && (t.nextRunAt.Some? && t.nextRunAt.value <= now ==>
                            Dispatched(calendar, t, now, createFails).None?)
  {
    ValidateIff(calendar, t.config);
    if t.nextRunAt.Some? && t.nextRunAt.value <= now && Validate(calendar, t.config).Some? {
      match Validate(calendar, t.config).value
      case Interval(n) =>
        NextIntervalIsLeast(n, now, t.nextRunAt.value);
        assert MovesTo(calendar, t, now, NextInterval(n, now, t.nextRunAt.value));
      case Cron(e, _) =>
        var next := calendar.nextCron(e, t.config.timezone, now);
        assert next.Some? ==> MovesTo(calendar, t, now, next.value);
    }
  }

  /** One more poll: a slot is served exactly by a poll that takes the trigger when due and succeeds. */
  lemma ServeNext(calendar: Calendar, t: Trigger, polls: seq<Poll>, poll: Poll)
    ensures var before, after := Serve(calendar, t, polls), Serve(calendar, t, polls + [poll]);
            var slot := before.trigger.nextRunAt;
            if poll.taken && slot.Some? && slot.value <= poll.now && !poll.createFails
               && (exists next :: MovesTo(calendar, before.trigger, poll.now, next)) then
              && after.slots == before.slots + [slot.value]
              && after.trigger == Polled(calendar, before.trigger, poll.now, false)
            else after == before
  {
    assert (polls + [poll])[..|polls|] == polls;
    PollMeans(calendar, Serve(calendar, t, polls).trigger, poll.now, poll.createFails);
  }

  /** The trigger's slot comes first, or its id does if both come at once. */
  predicate Earlier(a: Trigger, aId: nat, b: Trigger, bId: nat) {
    a.nextRunAt.Some? && b.nextRunAt.Some? &&
    (a.nextRunAt.value < b.nextRunAt.value || (a.nextRunAt == b.nextRunAt && aId < bId))
  }

  /** ORDER BY next_run_at, id. */
  function ByNextRun(triggers: map<nat, Trigger>): (nat, nat) -> bool {
    (a: nat, b: nat) => SlotOf(triggers, a) < SlotOf(triggers, b) ||
      (SlotOf(triggers, a) == SlotOf(triggers, b) && a < b)
  }

  function SlotOf(triggers: map<nat, Trigger>, id: nat): int {
    if id in triggers && triggers[id].nextRunAt.Some? then triggers[id].nextRunAt.value else 0
  }

  lemma ByNextRunIsTotal(triggers: map<nat, Trigger>)
    ensures TotalOrder(ByNextRun(triggers))
  {
  }

  class TriggerScheduler {
    const calendar: Calendar
    var triggers: map<nat, Trigger>

    constructor (calendar: Calendar, triggers: map<nat, Trigger>)
      ensures this.calendar == calendar && this.triggers == triggers
    {
      this.calendar := calendar;
      this.triggers := triggers;
    }

    /** The enabled triggers that are due and not locked by another scheduler. */
    ghost function Candidates(now: int, locked: set<nat>): set<nat>
      reads this
    {
      set id | id in triggers && id !in locked && Due(triggers[id], now)
    }

    /** One due trigger, inside its own savepoint. */
    method DispatchOne(id: nat, now: int, createFails: bool) returns (ok: bool)
      requires id in triggers && Due(triggers[id], now)
      modifies this
      ensures triggers == old(triggers)[id := Polled(calendar, old(triggers)[id], now, createFails)]
      ensures ok <==> Dispatched(calendar, old(triggers)[id], now, createFails).Some?
    {
      var next := Dispatched(calendar, triggers[id], now, createFails);
      ok := next.Some?;
      if ok {
        triggers := triggers[id := next.value];
      }
    }

    /**
     Dispatches the earliest due triggers, up to the batch size. Each succeeds
     or is rolled back on its own; nothing else changes.
     */
    method DispatchDueSchedules(now: int, batchSize: nat, locked: set<nat>, createFails: nat -> bool)
      returns (dispatched: nat, failures: nat, ghost listing: seq<nat>)
      modifies this
      ensures Lists(ByNextRun(old(triggers)), listing, old(Candidates(now, locked)))
      ensures AllPolled(calendar, old(triggers), triggers, Page(listing, 0, batchSize), now, createFails)
      ensures forall id :: id in listing <==>
                id in old(triggers) && id !in locked && old(triggers)[id].nextRunAt.Some?
                && old(triggers)[id].nextRunAt.value <= now
      ensures forall i, j :: 0 <= i < j < |listing| ==>
                Earlier(old(triggers)[listing[i]], listing[i], old(triggers)[listing[j]], listing[j])
      ensures dispatched + failures == |Page(listing, 0, batchSize)|
      ensures failures == |FailedIds(calendar, old(triggers), Page(listing, 0, batchSize), now, createFails)|
    {
      var due := set id | id in triggers && id !in locked && Due(triggers[id], now);
      ByNextRunIsTotal(triggers);
      var ids := OrderBy(due, ByNextRun(triggers));
      listing := ids;
      BatchIsDistinct(ByNextRun(triggers), ids, batchSize);
      dispatched, failures := DispatchBatch(Page(ids, 0, batchSize), now, createFails);
    }

    method DispatchBatch(batch: seq<nat>, now: int, createFails: nat -> bool) returns (dispatched: nat, failures: nat)
      requires Distinct(batch)
      requires forall i :: 0 <= i < |batch| ==> batch[i] in triggers && Due(triggers[batch[i]], now)
      modifies this
      ensures AllPolled(calendar, old(triggers), triggers, batch, now, createFails)
      ensures dispatched + failures == |batch|
      ensures failures == |FailedIds(calendar, old(triggers), batch, now, createFails)|
    {
      ghost var before := triggers;
      dispatched, failures := 0, 0;
      for i := 0 to |batch|
        invariant AllPolled(calendar, before, triggers, batch[..i], now, createFails)
        invariant dispatched + failures == i
        invariant failures == |FailedIds(calendar, before, batch[..i], now, createFails)|
      {
        assert batch[..i + 1] == batch[..i] + [batch[i]];
        assert batch[..i + 1][..i] == batch[..i];
        assert PolledAt(calendar, before, triggers, batch[..i], now, createFails, batch[i]);
        PolledNext(calendar, before, triggers, batch[..i], now, createFails, batch[i]);
        var ok := DispatchOne(batch[i], now, createFails(batch[i]));
        if ok {
          dispatched := dispatched + 1;
        } else {
          failures := failures + 1;
        }
      }
      assert batch[..|batch|] == batch;
    }
  }

  /** Exactly the triggers of the batch were polled. */
  ghost predicate AllPolled(calendar: Calendar, before: map<nat, Trigger>, after: map<nat, Trigger>, batch: seq<nat>,
                            now: int, createFails: nat -> bool) {
    && after.Keys == before.Keys
    && forall id {:trigger PolledAt(calendar, before, after, batch, now, createFails, id)} ::
         id in before ==> PolledAt(calendar, before, after, batch, now, createFails, id)
  }

  predicate PolledAt(calendar: Calendar, before: map<nat, Trigger>, after: map<nat, Trigger>, batch: seq<nat>, now: int,
                     createFails: nat -> bool, id: nat)
    requires id in before && id in after
  {
    after[id] == if id in batch then Polled(calendar, before[id], now, createFails(id)) else before[id]
  }

  lemma PolledNext(calendar: Calendar, before: map<nat, Trigger>, after: map<nat, Trigger>, batch: seq<nat>, now: int,
                   createFails: nat -> bool, id: nat)
    requires AllPolled(calendar, before, after, batch, now, createFails) && id in before && id !in batch
    ensures after[id] == before[id]
    ensures AllPolled(calendar, before, after[id := Polled(calendar, before[id], now, createFails(id))],
        batch + [id], now, createFails)
  {
    var next := after[id := Polled(calendar, before[id], now, createFails(id))];
    assert PolledAt(calendar, before, after, batch, now, createFails, id);
    forall other | other in before ensures PolledAt(calendar, before, next, batch + [id], now, createFails, other) {
      assert PolledAt(calendar, before, after, batch, now, createFails, other);
    }
  }

  /** The polled triggers whose dispatch is rolled back. */
  function FailedIds(calendar: Calendar, triggers: map<nat, Trigger>, ids: seq<nat>, now: int,
                     createFails: nat -> bool): seq<nat> {
    if ids == [] then []
    else
      var id := ids[|ids| - 1];
      FailedIds(calendar, triggers, ids[..|ids| - 1], now, createFails) +
      if id in triggers && Dispatched(calendar, triggers[id], now, createFails(id)).None? then [id] else []
  }

  lemma BatchIsDistinct(before: (nat, nat) -> bool, ids: seq<nat>, batchSize: nat)
    requires TotalOrder(before) && Sorted(before, ids)
    ensures var batch := Page(ids, 0, batchSize);
            && Distinct(batch)
            && forall i :: 0 <= i < |batch| ==> batch[i] in ids
  {
  }
}
