/** No lost update: the promotions of each scope form one linear chain. */
module SourceLedger {
  import opened Wrappers
  import opened DurableRuns

  /** What is visible after the first `n` promotions of a history. */
  function VisibleAt(history: seq<Promotion>, n: nat): Option<StateData>
    requires n <= |history|
  {
    if n == 0 then None else history[n - 1].after
  }

  /** Each promotion was staged on exactly what its predecessor left. */
  ghost predicate Linear(history: seq<Promotion>) {
    forall i :: 0 <= i < |history| ==>
      && history[i].candidate.baseRevision == i
      && history[i].candidate.baseData == VisibleAt(history, i)
      && history[i].after == VisibleAfter(history[i].candidate)
  }

  predicate CandidateOk(history: seq<Promotion>, c: Candidate) {
    && c.baseRevision <= |history|
    && c.baseData == VisibleAt(history, c.baseRevision)
    && (c.operation == Save <==> c.data.Some?)
    && (c.operation == Delete ==> c.baseData.Some?)
  }

  ghost predicate ScopeOk(src: Sources, scope: Scope) {
    var h := HistoryOf(src, scope);
    && Linear(h)
    && Revision(src.committed, scope) == |h|
    && Visible(src.committed, scope) == VisibleAt(h, |h|)
    && (scope in src.committed <==> |h| > 0)
  }

  ghost predicate LedgerOk(src: Sources) {
    && (forall scope :: ScopeOk(src, scope))
    && (forall key :: key in src.candidates ==> CandidateOk(HistoryOf(src, key.scope), src.candidates[key]))
  }

  /** Staging records the current base, so it keeps the ledger. */
  lemma StageOneKeepsLedger(src: Sources, run: RunId, write: Write)
    requires LedgerOk(src)
    ensures LedgerOk(StageOne(src, run, write))
  {
    var next := StageOne(src, run, write);
    assert ScopeOk(src, write.scope);
    forall scope ensures ScopeOk(next, scope) {
      assert ScopeOk(src, scope);
      assert HistoryOf(next, scope) == HistoryOf(src, scope);
    }
  }

  lemma {:induction false} StageAllKeepsLedger(src: Sources, run: RunId, writes: seq<Write>)
    requires LedgerOk(src)
    ensures LedgerOk(StageAll(src, run, writes))
    ensures StageAll(src, run, writes).committed == src.committed
    ensures StageAll(src, run, writes).history == src.history
  {
    if writes != [] {
      var prefix := writes[..|writes| - 1];
      StageAllKeepsLedger(src, run, prefix);
      StageOneKeepsLedger(StageAll(src, run, prefix), run, writes[|writes| - 1]);
    }
  }

  lemma DropKeepsLedger(src: Sources, dropped: set<RunId>, graph: GraphId, owners: map<GraphId, UserId>)
    requires LedgerOk(src)
    ensures LedgerOk(DropCandidates(src, dropped, graph, owners))
  {
    var next := DropCandidates(src, dropped, graph, owners);
    forall scope ensures ScopeOk(next, scope) {
      assert ScopeOk(src, scope);
      assert HistoryOf(next, scope) == HistoryOf(src, scope);
    }
    forall key | key in next.candidates
      ensures CandidateOk(HistoryOf(next, key.scope), next.candidates[key])
    {
      assert key in src.candidates && next.candidates[key] == src.candidates[key];
    }
  }

  /** What a promotion does to one scope. */
  lemma PromotedScope(src: Sources, run: RunId, scope: Scope)
    requires Promotable(src, run)
    ensures var next := Promoted(src, run); var key := CandidateKey(run, scope);
            if key in src.candidates then
              var c := src.candidates[key];
              && scope in next.committed
              && IntentValid(src, scope, c)
              && next.committed[scope] == CommittedAfter(src, scope, c)
              && HistoryOf(next, scope) == HistoryOf(src, scope) + [Promotion(run, c, VisibleAfter(c))]
            else
              && (scope in next.committed <==> scope in src.committed)
              && (scope in src.committed ==> next.committed[scope] == src.committed[scope])
              && HistoryOf(next, scope) == HistoryOf(src, scope)
  {
    var key := CandidateKey(run, scope);
    if key in src.candidates {
      assert scope in CandidateScopes(src, run);
    } else {
      assert scope !in CandidateScopes(src, run);
    }
  }

  lemma PromotionKeepsScope(src: Sources, run: RunId, scope: Scope)
    requires LedgerOk(src) && Promotable(src, run)
    ensures ScopeOk(Promoted(src, run), scope)
  {
    assert ScopeOk(src, scope);
    PromotedScope(src, run, scope);
    var key := CandidateKey(run, scope);
    var h := HistoryOf(src, scope);
    var h' := HistoryOf(Promoted(src, run), scope);
    if key in src.candidates {
      var c := src.candidates[key];
      assert CandidateOk(h, c);
      forall i | 0 <= i < |h'|
        ensures h'[i].candidate.baseRevision == i && h'[i].candidate.baseData == VisibleAt(h', i)
                && h'[i].after == VisibleAfter(h'[i].candidate)
      {
        if i < |h| {
          assert h'[i] == h[i];
          assert VisibleAt(h', i) == VisibleAt(h, i);
        }
      }
    }
  }

  lemma PromotionKeepsLedger(src: Sources, run: RunId)
    requires LedgerOk(src) && Promotable(src, run)
    ensures LedgerOk(Promoted(src, run))
  {
    var next := Promoted(src, run);
    forall scope ensures ScopeOk(next, scope) {
      PromotionKeepsScope(src, run, scope);
    }
    forall key | key in next.candidates
      ensures CandidateOk(HistoryOf(next, key.scope), next.candidates[key])
    {
      assert CandidateOk(HistoryOf(src, key.scope), src.candidates[key]);
      PromotedScope(src, run, key.scope);
    }
  }

  /** Equal revisions mean equal bases, staged or already promoted. */
  lemma EqualRevisionEqualBase(src: Sources, a: CandidateKey, b: CandidateKey, i: nat)
    requires LedgerOk(src) && a in src.candidates && a.scope == b.scope
    ensures b in src.candidates && src.candidates[a].baseRevision == src.candidates[b].baseRevision ==>
              src.candidates[a].baseData == src.candidates[b].baseData
    ensures var h := HistoryOf(src, a.scope);
            i < |h| && h[i].candidate.baseRevision == src.candidates[a].baseRevision ==>
              h[i].candidate.baseData == src.candidates[a].baseData
  {
    assert ScopeOk(src, a.scope);
    assert CandidateOk(HistoryOf(src, a.scope), src.candidates[a]);
  }

  /** So the revision alone decides: the comparison of the base state never does. */
  lemma RevisionDecides(src: Sources, key: CandidateKey)
    requires LedgerOk(src) && key in src.candidates
    ensures var c := src.candidates[key];
            && (BaseUnchanged(src, key.scope, c) <==> Revision(src.committed, key.scope) == c.baseRevision)
            && (BaseUnchanged(src, key.scope, c) ==> IntentValid(src, key.scope, c))
  {
    assert ScopeOk(src, key.scope);
    assert CandidateOk(HistoryOf(src, key.scope), src.candidates[key]);
  }

  /** Two promotions of a scope never share a base. */
  lemma BasesPromotedOnce(src: Sources, scope: Scope, i: nat, j: nat)
    requires LedgerOk(src)
    requires i < |HistoryOf(src, scope)| && j < |HistoryOf(src, scope)|
    requires HistoryOf(src, scope)[i].candidate.baseRevision == HistoryOf(src, scope)[j].candidate.baseRevision
    ensures i == j
  {
    assert ScopeOk(src, scope);
  }

  /** Of two runs staged on one base, promoting the first makes the second stale. */
  lemma SecondOfOneBaseIsStale(src: Sources, scope: Scope, first: RunId, second: RunId)
    requires LedgerOk(src) && Promotable(src, first) && first != second
    requires CandidateKey(first, scope) in src.candidates && CandidateKey(second, scope) in src.candidates
    requires src.candidates[CandidateKey(first, scope)].baseRevision ==
             src.candidates[CandidateKey(second, scope)].baseRevision
    ensures !Promotable(Promoted(src, first), second)
  {
    PromotedScope(src, first, scope);
    var next := Promoted(src, first);
    var key := CandidateKey(second, scope);
    assert key in next.candidates && next.candidates[key] == src.candidates[key];
    assert !BaseUnchanged(next, scope, next.candidates[key]);
  }
}
