/** What decides the reply to a webhook delivery: the request itself, and the acceptances the ledger still remembers. */
module WebhookReplies {
  import opened Wrappers
  import opened WebhookLedger

  /** The request is signed with the trigger's secret, and its timestamp is at most the skew away. */
  predicate Trusted(cfg: Settings, e: Event)
    requires e.Delivery?
  {
    e.genuine && e.timestamp * SECOND - cfg.skew <= e.parsedAt <= e.timestamp * SECOND + cfg.skew
  }

  /** The `k`-th event was accepted. */
  predicate AcceptedAt(cfg: Settings, start: int, events: seq<Event>, k: nat)
    requires k < |events|
  {
    |After(cfg, start, events[..k + 1]).history| > |After(cfg, start, events[..k]).history|
  }

  /** A later pruning forgot it. */
  predicate ForgottenAt(cfg: Settings, events: seq<Event>, k: nat)
    requires k < |events|
  {
    exists j :: k < j < |events| && Forgets(cfg, events[j], events[k])
  }

  predicate Forgets(cfg: Settings, prune: Event, e: Event) {
    prune.Prune? && e.Delivery? && e.receivedAt < prune.now - cfg.retention
  }

  /** The events accepted and not forgotten since. */
  function Remembered(cfg: Settings, start: int, events: seq<Event>): set<nat> {
    set k: nat | k < |events| && AcceptedAt(cfg, start, events, k) && !ForgottenAt(cfg, events, k)
  }

  /** The ledger's row for event `k`. */
  predicate HasRow(rows: map<string, int>, events: seq<Event>, k: nat)
    requires k < |events|
  {
    events[k].Delivery? && events[k].id in rows && rows[events[k].id] == events[k].receivedAt
  }

  /** The rows are the remembered acceptances, one for each. */
  ghost predicate RowsAre(rows: map<string, int>, events: seq<Event>, remembered: set<nat>)
    requires forall k :: k in remembered ==> k < |events|
  {
    && (forall k :: k in remembered ==> HasRow(rows, events, k))
    && (forall j, k :: j in remembered && k in remembered && Id(events[j]) == Id(events[k]) ==> j == k)
    && (forall id :: id in rows ==> exists k :: k in remembered && events[k].Delivery? && events[k].id == id)
  }

  /** One more event does not touch earlier acceptances, and forgets those a pruning reaches. */
  lemma RememberedAt(cfg: Settings, start: int, before: seq<Event>, e: Event, k: nat)
    requires k < |before|
    ensures var events := before + [e];
            && AcceptedAt(cfg, start, events, k) == AcceptedAt(cfg, start, before, k)
            && (ForgottenAt(cfg, events, k) <==> ForgottenAt(cfg, before, k) || Forgets(cfg, e, before[k]))
  {
    var events := before + [e];
    assert events[..k] == before[..k] && events[..k + 1] == before[..k + 1];
    ForgottenNext(cfg, before, e, k);
  }

  lemma ForgottenNext(cfg: Settings, before: seq<Event>, e: Event, k: nat)
    requires k < |before|
    ensures ForgottenAt(cfg, before + [e], k) <==> ForgottenAt(cfg, before, k) || Forgets(cfg, e, before[k])
  {
    var events := before + [e];
    assert events[k] == before[k] && events[|before|] == e;
    if ForgottenAt(cfg, events, k) && !Forgets(cfg, e, before[k]) {
      var j :| k < j < |events| && Forgets(cfg, events[j], events[k]);
      assert events[j] == before[j];
    }
    if ForgottenAt(cfg, before, k) {
      var j :| k < j < |before| && Forgets(cfg, before[j], before[k]);
      assert events[j] == before[j];
    }
  }

  lemma LastAccepted(cfg: Settings, start: int, before: seq<Event>, e: Event)
    ensures var events := before + [e];
            && (AcceptedAt(cfg, start, events, |before|) <==>
                e.Delivery? && Answer(cfg, After(cfg, start, before).rows, e).Created?)
            && !ForgottenAt(cfg, events, |before|)
  {
    var events := before + [e];
    assert events[..|before|] == before && events[..|before| + 1] == events;
    AfterOneMore(cfg, start, before, e);
  }

  /** One more event: an acceptance is remembered, a pruning forgets, anything else changes nothing. */
  lemma RememberedNext(cfg: Settings, start: int, before: seq<Event>, e: Event)
    ensures var s := After(cfg, start, before);
            Remembered(cfg, start, before + [e]) ==
            NextRemembered(cfg, s.rows, before, e, Remembered(cfg, start, before))
  {
    var next := NextRemembered(cfg, After(cfg, start, before).rows, before, e, Remembered(cfg, start, before));
    LastAccepted(cfg, start, before, e);
    forall k: nat ensures k in Remembered(cfg, start, before + [e]) <==> k in next {
      if k < |before| {
        RememberedAt(cfg, start, before, e, k);
      }
    }
  }

  function NextRemembered(cfg: Settings, rows: map<string, int>, before: seq<Event>, e: Event, remembered: set<nat>)
    : set<nat>
    requires forall k :: k in remembered ==> k < |before|
  {
    match e
    case Prune(_, _) => set k | k in remembered && !Forgets(cfg, e, before[k])
    case Delivery(_, _, _, _, _, _) => if Answer(cfg, rows, e).Created? then remembered + {|before|} else remembered
  }

  /** In every history the ledger holds exactly the acceptances not yet forgotten. */
  lemma {:induction false} LedgerRemembers(cfg: Settings, start: int, events: seq<Event>)
    ensures RowsAre(After(cfg, start, events).rows, events, Remembered(cfg, start, events))
  {
    if events != [] {
      var before, e := events[..|events| - 1], events[|events| - 1];
      assert events == before + [e];
      LedgerRemembers(cfg, start, before);
      RememberedNext(cfg, start, before, e);
      RowsNext(cfg, After(cfg, start, before).rows, before, e, Remembered(cfg, start, before));
    }
  }

  lemma RowsNext(cfg: Settings, rows: map<string, int>, before: seq<Event>, e: Event, remembered: set<nat>)
    requires forall k :: k in remembered ==> k < |before|
    requires RowsAre(rows, before, remembered)
    ensures RowsAre(RowsAfter(cfg, rows, e), before + [e], NextRemembered(cfg, rows, before, e, remembered))
  {
    var events, rows' := before + [e], RowsAfter(cfg, rows, e);
    assert forall j :: 0 <= j < |before| ==> events[j] == before[j];
    if e.Prune? {
      forall id | id in rows'
        ensures exists k :: k in remembered && !Forgets(cfg, e, before[k]) && events[k].Delivery? && events[k].id == id
      {
        var k :| k in remembered && before[k].Delivery? && before[k].id == id;
        assert HasRow(rows, before, k);
      }
      forall k | k in remembered && !Forgets(cfg, e, before[k]) ensures HasRow(rows', events, k) {
        assert HasRow(rows, before, k);
      }
    } else {
      forall k | k in remembered ensures HasRow(rows', events, k) {
        assert HasRow(rows, before, k);
      }
      assert events[|before|] == e;
      forall id | id in rows
        ensures exists k :: k in remembered && events[k].Delivery? && events[k].id == id
      {
        var k :| k in remembered && before[k].Delivery? && before[k].id == id;
        assert events[k] == before[k];
      }
    }
  }

  /** The remembered acceptances received since one minute before the request. */
  function RecentlyAccepted(events: seq<Event>, remembered: set<nat>, e: Event): set<nat>
    requires e.Delivery? && forall k :: k in remembered ==> k < |events|
  {
    set k | k in remembered && events[k].Delivery? && events[k].receivedAt >= e.receivedAt - MINUTE
  }

  ghost predicate AlreadyThere(cfg: Settings, start: int, events: seq<Event>, e: Event)
    requires e.Delivery?
  {
    exists k :: k in Remembered(cfg, start, events) && events[k].Delivery? && events[k].id == e.id
  }

  /**
   The reply after any history: an untrusted request is refused; a remembered id
   is a conflict; a full minute is refused; everything else is created.
   */
  lemma RepliesAre(cfg: Settings, start: int, events: seq<Event>, e: Event)
    requires e.Delivery?
    ensures var reply := Answer(cfg, After(cfg, start, events).rows, e);
            var full := |RecentlyAccepted(events, Remembered(cfg, start, events), e)| >= cfg.limit;
            var there := AlreadyThere(cfg, start, events, e);
            && (reply == Unauthorized <==> !Trusted(cfg, e))
            && (reply == AlreadyAccepted <==> Trusted(cfg, e) && there)
            && (reply == RateLimited <==> Trusted(cfg, e) && !there && full)
            && (reply == Created <==> Trusted(cfg, e) && !there && !full)
  {
    AnswerIs(cfg, After(cfg, start, events).rows, e);
    IdThere(cfg, start, events, e);
    CountIs(cfg, start, events, e);
  }

  lemma CountIs(cfg: Settings, start: int, events: seq<Event>, e: Event)
    requires e.Delivery?
    ensures |RecentRows(After(cfg, start, events).rows, e.receivedAt)| ==
            |RecentlyAccepted(events, Remembered(cfg, start, events), e)|
  {
    LedgerRemembers(cfg, start, events);
    RecentCount(cfg, After(cfg, start, events).rows, events, Remembered(cfg, start, events), e);
  }

  /** The reply over given rows. */
  lemma AnswerIs(cfg: Settings, rows: map<string, int>, e: Event)
    requires e.Delivery?
    ensures var reply, full := Answer(cfg, rows, e), |RecentRows(rows, e.receivedAt)| >= cfg.limit;
            && (reply == Unauthorized <==> !Trusted(cfg, e))
            && (reply == AlreadyAccepted <==> Trusted(cfg, e) && e.id in rows)
            && (reply == RateLimited <==> Trusted(cfg, e) && e.id !in rows && full)
            && (reply == Created <==> Trusted(cfg, e) && e.id !in rows && !full)
  {
  }

  lemma IdThere(cfg: Settings, start: int, events: seq<Event>, e: Event)
    requires e.Delivery?
    ensures e.id in After(cfg, start, events).rows <==> AlreadyThere(cfg, start, events, e)
  {
    LedgerRemembers(cfg, start, events);
    if AlreadyThere(cfg, start, events, e) {
      var k :| k in Remembered(cfg, start, events) && events[k].Delivery? && events[k].id == e.id;
      assert HasRow(After(cfg, start, events).rows, events, k);
    }
  }

  lemma RecentCount(cfg: Settings, rows: map<string, int>, events: seq<Event>, remembered: set<nat>, e: Event)
    requires e.Delivery? && forall k :: k in remembered ==> k < |events|
    requires RowsAre(rows, events, remembered)
    ensures |RecentRows(rows, e.receivedAt)| == |RecentlyAccepted(events, remembered, e)|
  {
    var recent := RecentlyAccepted(events, remembered, e);
    forall k | k in recent ensures HasRow(rows, events, k) {
    }
    var ids := set k | k in recent :: Id(events[k]);
    forall id ensures id in ids <==> id in RecentRows(rows, e.receivedAt) {
      if id in RecentRows(rows, e.receivedAt) {
        var k :| k in remembered && events[k].Delivery? && events[k].id == id;
        assert HasRow(rows, events, k) && k in recent;
      }
    }
    assert ids == RecentRows(rows, e.receivedAt);
    IdsSize(events, recent);
  }

  function Id(e: Event): string {
    if e.Delivery? then e.id else ""
  }

  lemma {:induction false} IdsSize(events: seq<Event>, indices: set<nat>)
    requires forall k :: k in indices ==> k < |events| && events[k].Delivery?
    requires forall j, k :: j in indices && k in indices && Id(events[j]) == Id(events[k]) ==> j == k
    ensures |set k | k in indices :: Id(events[k])| == |indices|
    decreases |indices|
  {
    var ids := set k | k in indices :: Id(events[k]);
    if indices == {} {
      assert ids == {};
    } else {
      var k :| k in indices;
      var rest := indices - {k};
      IdsSize(events, rest);
      assert ids == (set j | j in rest :: Id(events[j])) + {Id(events[k])};
      assert Id(events[k]) !in set j | j in rest :: Id(events[j]);
    }
  }

  /** Everything accepted was trusted; a request that is not leaves ledger and history alone. */
  lemma OnlyTrustedAccepted(cfg: Settings, start: int, events: seq<Event>, k: nat)
    requires k < |events| && AcceptedAt(cfg, start, events, k)
    ensures events[k].Delivery? && Trusted(cfg, events[k])
    ensures var h := After(cfg, start, events[..k + 1]).history; var e := events[k];
            h == After(cfg, start, events[..k]).history + [Accepted(e.timestamp, e.id, e.parsedAt, e.receivedAt)]
  {
    assert events[..k + 1] == events[..k] + [events[k]];
    AfterOneMore(cfg, start, events[..k], events[k]);
  }

  lemma UntrustedIsIdle(cfg: Settings, s: State, e: Event)
    requires e.Delivery? && !Trusted(cfg, e)
    ensures Step(cfg, s, e).rows == s.rows && Step(cfg, s, e).history == s.history
  {
  }

  /** Every entry of the history records an event that was trusted. */
  ghost predicate FromTrusted(cfg: Settings, h: Accepted, events: seq<Event>) {
    exists k :: 0 <= k < |events| && RecordOf(cfg, h, events[k])
  }

  predicate RecordOf(cfg: Settings, h: Accepted, e: Event) {
    e.Delivery? && Trusted(cfg, e) && h == Accepted(e.timestamp, e.id, e.parsedAt, e.receivedAt)
  }

  lemma {:induction false} HistoryIsTrusted(cfg: Settings, start: int, events: seq<Event>)
    ensures forall h :: h in After(cfg, start, events).history ==> FromTrusted(cfg, h, events)
  {
    if events != [] {
      var before, e := events[..|events| - 1], events[|events| - 1];
      HistoryIsTrusted(cfg, start, before);
      forall h | h in After(cfg, start, events).history ensures FromTrusted(cfg, h, events) {
        if h in After(cfg, start, before).history {
          assert FromTrusted(cfg, h, before);
          var k :| 0 <= k < |before| && RecordOf(cfg, h, before[k]);
          assert events[k] == before[k];
        } else {
          assert events[|before|] == e && RecordOf(cfg, h, e);
        }
      }
    }
  }
}
