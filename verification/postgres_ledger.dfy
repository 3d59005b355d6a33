/** The PostgreSQL destination: a target table beside a ledger of the events already applied to it. */
module PostgresLedger {
  import opened Wrappers
  import opened Envelopes
  import opened Replay
  import opened CheckpointedPipeline

  datatype Mode = Insert | Upsert

  type Row = map<string, Cell>

  /** `uniqueKey`: the table has a unique index on exactly the key fields; `legal`: its other constraints. */
  datatype Target = Target(
    name: string, mode: Mode, keyFields: seq<string>, uniqueKey: bool, legal: seq<Row> -> bool)

  /** The target's rows, and a ledger that several targets share. */
  datatype Store = Store(rows: seq<Row>, ledger: set<(string, Version)>)

  /** SQL equality on every key field: a NULL equals nothing. */
  predicate Matches(target: Target, row: Row, key: Row) {
    forall f :: f in target.keyFields ==> f in row && f in key && row[f] == key[f] && row[f] != Null
  }

  predicate KeysUnique(target: Target, rows: seq<Row>) {
    forall i, j :: 0 <= i < j < |rows| ==> !Matches(target, rows[i], rows[j])
  }

  /** The table obeys its constraints. */
  predicate Allowed(target: Target, rows: seq<Row>) {
    (target.uniqueKey ==> KeysUnique(target, rows)) && target.legal(rows)
  }

  function Without(target: Target, rows: seq<Row>, key: Row): (kept: seq<Row>)
    ensures |kept| <= |rows|
  {
    if rows == [] then []
    else
      var init, last := rows[..|rows| - 1], rows[|rows| - 1];
      Without(target, init, key) + if Matches(target, last, key) then [] else [last]
  }

  /** The row an upsert conflicts with; the unique index leaves at most one. */
  function Conflict(target: Target, rows: seq<Row>, row: Row): (i: Option<nat>)
    ensures i.Some? ==> i.value < |rows| && Matches(target, rows[i.value], row)
    ensures i.None? ==> forall j :: 0 <= j < |rows| ==> !Matches(target, rows[j], row)
  {
    if rows == [] then None
    else if Matches(target, rows[|rows| - 1], row) then Some(|rows| - 1)
    else Conflict(target, rows[..|rows| - 1], row)
  }

  /** One mutation: the new rows and the affected count of the statement. */
  function ApplyEvent(target: Target, rows: seq<Row>, v: Version): Option<(seq<Row>, nat)> {
    if v.operation.Delete? then
      var kept := Without(target, rows, KeyValues(target, v));
      if Allowed(target, kept) then Some((kept, |rows| - |kept|)) else None
    else if !v.payload.Record? then None
    else
      var row := v.payload.row;
      var conflict := if target.mode.Upsert? then Conflict(target, rows, row) else None;
      if target.mode.Upsert? && !target.uniqueKey then None
      else if conflict.None? then
        if Allowed(target, rows + [row]) then Some((rows + [row], 1)) else None
      else if forall c :: c in v.payload.columns ==> c in target.keyFields then Some((rows, 0))
      else
        var updated := rows[conflict.value := rows[conflict.value] + row];
        if Allowed(target, updated) then Some((updated, 1)) else None
  }

  function KeyValues(target: Target, v: Version): Row {
    if v.key.None? then map[]
    else map f | f in target.keyFields && f in v.key.value :: v.key.value[f]
  }

  /** An event in the ledger is skipped; any other is applied and recorded in the same transaction. */
  function ApplyOnce(target: Target): Step<Store> {
    (store: Store, v: Version) =>
      if (target.name, v) in store.ledger then Some(Written(store, 0))
      else
        match ApplyEvent(target, store.rows, v)
        case None => None
        case Some((rows, changed)) => Some(Written(Store(rows, store.ledger + {(target.name, v)}), changed))
  }

  function Recorded(target: Target): (Store, Version) -> bool {
    (store: Store, v: Version) => (target.name, v) in store.ledger
  }

  predicate IsLetter(c: char) {
    'a' <= c <= 'z' || 'A' <= c <= 'Z' || c == '_'
  }

  /** A plain SQL identifier: a letter or underscore, then letters, digits and underscores. */
  predicate IsIdentifier(name: string) {
    && name != "" && IsLetter(name[0])
    && forall i :: 0 <= i < |name| ==> IsLetter(name[i]) || '0' <= name[i] <= '9'
  }

  /** The checks on one envelope before any statement runs. */
  predicate Preparable(target: Target, v: Version, allowDeletes: bool) {
    if v.operation.Delete? then
      && allowDeletes && target.keyFields != [] && v.key.Some?
      && forall f :: f in target.keyFields ==> f in v.key.value && v.key.value[f] != Null
    else
      && v.payload.Record? && v.payload.columns != []
      && (forall c :: c in v.payload.columns ==> IsIdentifier(c))
      && (forall c :: c in v.payload.columns ==> c in v.payload.row)
      && (forall c :: c in v.payload.row ==> c in v.payload.columns)
      && forall f :: f in target.keyFields ==> f in v.payload.row && v.payload.row[f] != Null
  }

  predicate IsRow(v: Version) {
    !v.operation.Delete? && v.payload.Record?
  }

  /** All rows of a batch have the same columns in the same order. */
  predicate Prepared(target: Target, batch: seq<Version>, allowDeletes: bool) {
    && (forall v :: v in batch ==> Preparable(target, v, allowDeletes))
    && (forall u, v :: u in batch && v in batch && IsRow(u) && IsRow(v) ==> u.payload.columns == v.payload.columns)
  }

  /** A write transaction; a store whose table breaks its own constraints does not exist. */
  function WriteAll(target: Target, store: Store, batch: seq<Version>): Option<Written<Store>> {
    if Prepared(target, batch, true) && Allowed(target, store.rows) then Fold(ApplyOnce(target), store, batch) else None
  }

  /** Truncates the target, forgets its events and writes the batch, in one transaction. */
  function ReplaceAll(target: Target, store: Store, batch: seq<Version>): Option<Written<Store>> {
    if Prepared(target, batch, false) && Allowed(target, []) then Fold(ApplyOnce(target), Cleared(target, store), batch)
    else None
  }

  function Cleared(target: Target, store: Store): Store {
    Store([], set entry | entry in store.ledger && entry.0 != target.name)
  }

  function PostgresTable(target: Target): Destination<Store> {
    Destination(
      (store, batch) => WriteAll(target, store, batch),
      (store, batch, n) =>
        if n > 0 && WriteAll(target, store, batch).Some? then WriteAll(target, store, batch).value.dest else store)
  }

  lemma LedgerRemembers(target: Target)
    ensures Ledgered(ApplyOnce(target), Recorded(target))
  {
  }

  lemma {:induction false} StaysAllowed(target: Target, store: Store, batch: seq<Version>)
    requires Allowed(target, store.rows) && Fold(ApplyOnce(target), store, batch).Some?
    ensures Allowed(target, Fold(ApplyOnce(target), store, batch).value.dest.rows)
  {
    if batch != [] {
      StaysAllowed(target, store, batch[..|batch| - 1]);
    }
  }

  /** Replaying events already applied, in any grouping or order, changes no row and returns 0. */
  lemma ReplayChangesNothing(target: Target, store: Store, batch: seq<Version>)
    requires Allowed(target, store.rows) && Prepared(target, batch, true)
    requires forall v :: v in batch ==> (target.name, v) in store.ledger
    ensures WriteAll(target, store, batch) == Some(Written(store, 0))
  {
    LedgerRemembers(target);
    NothingNew(ApplyOnce(target), Recorded(target), store, batch);
  }

  /** Splitting a batch into two transactions gives the same rows, ledger and total. */
  lemma GroupingDoesNotMatter(target: Target, store: Store, a: seq<Version>, b: seq<Version>)
    requires Prepared(target, a + b, true)
    ensures WriteAll(target, store, a + b) ==
            match WriteAll(target, store, a)
            case None => None
            case Some(w) =>
              match WriteAll(target, w.dest, b)
              case None => None
              case Some(x) => Some(Written(x.dest, w.count + x.count))
  {
    PreparedParts(target, a, b);
    FoldConcat(ApplyOnce(target), store, a, b);
    if Allowed(target, store.rows) && Fold(ApplyOnce(target), store, a).Some? {
      StaysAllowed(target, store, a);
    }
  }

  lemma PreparedParts(target: Target, a: seq<Version>, b: seq<Version>)
    requires Prepared(target, a + b, true)
    ensures Prepared(target, a, true) && Prepared(target, b, true)
  {
    assert forall v :: v in a || v in b ==> v in a + b;
  }

  /** Every event takes effect once, at its first occurrence. */
  lemma EventsApplyOnce(target: Target, store: Store, batch: seq<Version>)
    requires Prepared(target, batch, true)
    ensures WriteAll(target, store, batch) == WriteAll(target, store, FirstOccurrences(batch))
  {
    LedgerRemembers(target);
    FirstOccurrencesDistinct(batch);
    OnlyFirstOccurrences(ApplyOnce(target), Recorded(target), store, batch);
  }

  lemma PostgresAbsorbs(target: Target)
    ensures Absorbing(PostgresTable(target))
  {
    var dst := PostgresTable(target);
    forall d, batch, x | Between(dst, d, batch, x) ensures AbsorbsAt(dst, d, batch, x) {
      if WriteAll(target, d, batch).Some? {
        WrittenAbsorbs(target, d, batch);
      }
    }
  }

  lemma WrittenAbsorbs(target: Target, d: Store, batch: seq<Version>)
    requires WriteAll(target, d, batch).Some?
    ensures var x := WriteAll(target, d, batch).value.dest; WriteAll(target, x, batch) == Some(Written(x, 0))
  {
    LedgerRemembers(target);
    FoldRemembers(ApplyOnce(target), Recorded(target), d, batch);
    StaysAllowed(target, d, batch);
    ReplayChangesNothing(target, WriteAll(target, d, batch).value.dest, batch);
  }

  /** The target's own part of a store. */
  function Own(target: Target, store: Store): (seq<Row>, set<Version>) {
    (store.rows, set entry | entry in store.ledger && entry.0 == target.name :: entry.1)
  }

  function Others(target: Target, store: Store): set<(string, Version)> {
    set entry | entry in store.ledger && entry.0 != target.name
  }

  /** Writing reads and changes only the target's own rows and ledger entries. */
  lemma {:induction false} WritesOwnPartOnly(target: Target, a: Store, b: Store, batch: seq<Version>)
    requires Own(target, a) == Own(target, b)
    ensures var x, y := Fold(ApplyOnce(target), a, batch), Fold(ApplyOnce(target), b, batch);
            && (x.Some? <==> y.Some?)
            && (x.Some? ==> Own(target, x.value.dest) == Own(target, y.value.dest) && x.value.count == y.value.count)
            && (x.Some? ==> Others(target, x.value.dest) == Others(target, a))
  {
    if batch != [] {
      var init, last := batch[..|batch| - 1], batch[|batch| - 1];
      WritesOwnPartOnly(target, a, b, init);
      var x, y := Fold(ApplyOnce(target), a, init), Fold(ApplyOnce(target), b, init);
      if x.Some? {
        OneOwnEvent(target, x.value.dest, y.value.dest, last);
      }
    }
  }

  lemma OneOwnEvent(target: Target, a: Store, b: Store, v: Version)
    requires Own(target, a) == Own(target, b)
    ensures var x, y := ApplyOnce(target)(a, v), ApplyOnce(target)(b, v);
            && (x.Some? <==> y.Some?)
            && (x.Some? ==> Own(target, x.value.dest) == Own(target, y.value.dest) && x.value.count == y.value.count)
            && (x.Some? ==> Others(target, x.value.dest) == Others(target, a))
  {
    assert forall u :: u in Own(target, a).1 <==> (target.name, u) in a.ledger;
    assert forall u :: u in Own(target, b).1 <==> (target.name, u) in b.ledger;
    var x, y := ApplyOnce(target)(a, v), ApplyOnce(target)(b, v);
    if x.Some? && (target.name, v) !in a.ledger {
      assert Own(target, x.value.dest).1 == Own(target, a).1 + {v};
      assert Own(target, y.value.dest).1 == Own(target, b).1 + {v};
    }
  }

  /** After a replace, rows and ledger are those of writing the batch to an empty table and ledger. */
  lemma ReplaceIsFreshWrite(target: Target, store: Store, batch: seq<Version>)
    requires Prepared(target, batch, false)
    ensures var replaced, fresh' := ReplaceAll(target, store, batch), WriteAll(target, Store([], {}), batch);
            && (replaced.Some? <==> fresh'.Some?)
            && (replaced.Some? ==>
                  && Own(target, replaced.value.dest) == Own(target, fresh'.value.dest)
                  && replaced.value.count == fresh'.value.count
                  && Others(target, replaced.value.dest) == Others(target, store))
  {
    assert Prepared(target, batch, true);
    assert Own(target, Cleared(target, store)).1 == {} == Own(target, Store([], {})).1;
    assert Others(target, Cleared(target, store)) == Others(target, store);
    WritesOwnPartOnly(target, Cleared(target, store), Store([], {}), batch);
  }

  /** A DELETE by complete key removes at most one row of any table the constraints allow. */
  ghost predicate SingleRowDeletes(target: Target) {
    forall rows: seq<Row>, key: Row ::
      target.keyFields != [] && CompleteKey(target, key)
      && Allowed(target, rows) && Allowed(target, Without(target, rows, key)) ==>
        |rows| <= |Without(target, rows, key)| + 1
  }

  predicate CompleteKey(target: Target, key: Row) {
    forall f :: f in target.keyFields ==> f in key && key[f] != Null
  }

  /** Counts stay within the batch exactly when no keyed DELETE can hit several rows. */
  lemma CountsWithinIff(target: Target)
    ensures CountsWithin(PostgresTable(target)) <==> SingleRowDeletes(target)
  {
    var dst := PostgresTable(target);
    if SingleRowDeletes(target) {
      forall d, batch ensures dst.write(d, batch).Some? ==> 0 <= dst.write(d, batch).value.count <= |batch| {
        if dst.write(d, batch).Some? {
          CountBound(target, d, batch);
        }
      }
    }
    if CountsWithin(dst) {
      forall rows: seq<Row>, key: Row
        ensures (target.keyFields != [] && CompleteKey(target, key) && Allowed(target, rows)
                  && Allowed(target, Without(target, rows, key))) ==> |rows| <= |Without(target, rows, key)| + 1
      {
        if target.keyFields != [] && CompleteKey(target, key)
           && Allowed(target, rows) && Allowed(target, Without(target, rows, key)) {
          var v := Version("", "", "", Delete, Tombstone, Some(key));
          WithoutSameKey(target, rows, key, KeyValues(target, v));
          DeleteCount(target, Store(rows, {}), v);
          assert dst.write(Store(rows, {}), [v]).value.count <= |[v]|;
        }
      }
    }
  }

  lemma DeleteCount(target: Target, store: Store, v: Version)
    requires v.operation.Delete? && Preparable(target, v, true) && (target.name, v) !in store.ledger
    requires Allowed(target, store.rows) && Allowed(target, Without(target, store.rows, KeyValues(target, v)))
    ensures var w := WriteAll(target, store, [v]);
            w.Some? && w.value.count == |store.rows| - |Without(target, store.rows, KeyValues(target, v))|
  {
    FoldOneMore(ApplyOnce(target), store, [], v);
    assert [] + [v] == [v];
  }

  lemma {:induction false} WithoutSameKey(target: Target, rows: seq<Row>, key: Row, other: Row)
    requires forall f :: f in target.keyFields ==> f in key && f in other && key[f] == other[f]
    ensures Without(target, rows, key) == Without(target, rows, other)
  {
    if rows != [] {
      WithoutSameKey(target, rows[..|rows| - 1], key, other);
    }
  }

  lemma {:induction false} CountBound(target: Target, store: Store, batch: seq<Version>)
    requires SingleRowDeletes(target) && WriteAll(target, store, batch).Some?
    ensures 0 <= WriteAll(target, store, batch).value.count <= |batch|
  {
    if batch != [] {
      var init, last := batch[..|batch| - 1], batch[|batch| - 1];
      assert batch == init + [last];
      PreparedParts(target, init, [last]);
      CountBound(target, store, init);
      StaysAllowed(target, store, init);
      assert last in batch;
      EventCount(target, WriteAll(target, store, init).value.dest.rows, last);
    }
  }

  lemma EventCount(target: Target, rows: seq<Row>, v: Version)
    requires SingleRowDeletes(target) && Allowed(target, rows) && Preparable(target, v, true)
    ensures ApplyEvent(target, rows, v).Some? ==> ApplyEvent(target, rows, v).value.1 <= 1
  {
    if v.operation.Delete? {
      assert CompleteKey(target, KeyValues(target, v));
    }
  }

  /** A unique index on the key fields is enough. */
  lemma UniqueKeyCountsWithin(target: Target)
    requires target.uniqueKey
    ensures SingleRowDeletes(target)
  {
    forall rows: seq<Row>, key: Row | CompleteKey(target, key) && KeysUnique(target, rows)
      ensures |rows| <= |Without(target, rows, key)| + 1
    {
      AtMostOneRemoved(target, rows, key);
    }
  }

  lemma {:induction false} AtMostOneRemoved(target: Target, rows: seq<Row>, key: Row)
    requires KeysUnique(target, rows)
    ensures |rows| <= |Without(target, rows, key)| + 1
    ensures (forall i :: 0 <= i < |rows| ==> !Matches(target, rows[i], key)) ==> Without(target, rows, key) == rows
  {
    if rows != [] {
      var init, last := rows[..|rows| - 1], rows[|rows| - 1];
      AtMostOneRemoved(target, init, key);
      if Matches(target, last, key) {
        forall i | 0 <= i < |init| ensures !Matches(target, init[i], key) {
          assert !Matches(target, rows[i], rows[|rows| - 1]);
        }
      }
    }
  }

  /**
   What a configuration shows: when the table takes any rows, counts stay within
   the batch exactly with a unique index on the key fields or without key fields.
   */
  lemma CountsWithinIffUniqueKey(target: Target)
    requires forall rows :: target.legal(rows)
    ensures CountsWithin(PostgresTable(target)) <==> target.uniqueKey || target.keyFields == []
  {
    CountsWithinIff(target);
    if target.uniqueKey {
      UniqueKeyCountsWithin(target);
    } else if target.keyFields != [] {
      var row: Row := map f | f in target.keyFields :: Text("1");
      SameKeyTwice(target, row);
      assert CompleteKey(target, row) && Allowed(target, [row, row])
          && Allowed(target, Without(target, [row, row], row));
      assert |[row, row]| > |Without(target, [row, row], row)| + 1;
    }
  }

  lemma SameKeyTwice(target: Target, row: Row)
    requires Matches(target, row, row)
    ensures Without(target, [row, row], row) == []
  {
    assert [row, row][..1] == [row] && [row][..0] == [];
    assert Without(target, [row], row) == [];
  }

  /** Without one, a DELETE of a repeated key reports more changes than it was given records. */
  lemma RepeatedKeyOvercounts()
    ensures var target := Target("t", Insert, ["k"], false, rows => true);
            var row: Row := map["k" := Text("1")];
            var v := Version("", "", "", Delete, Tombstone, Some(row));
            && !CountsWithin(PostgresTable(target))
            && WriteAll(target, Store([row, row], {}), [v]).Some?
            && WriteAll(target, Store([row, row], {}), [v]).value.count == 2
  {
    var target := Target("t", Insert, ["k"], false, rows => true);
    var row: Row := map["k" := Text("1")];
    var v := Version("", "", "", Delete, Tombstone, Some(row));
    CountsWithinIffUniqueKey(target);
    SameKeyTwice(target, row);
    assert KeyValues(target, v) == row;
    DeleteCount(target, Store([row, row], {}), v);
  }

  class PostgresDestination {
    const target: Target
    const batchSize: nat
    var store: Store

    constructor (target: Target, batchSize: nat, store: Store)
      requires batchSize >= 1 && Allowed(target, store.rows)
      ensures this.target == target && this.batchSize == batchSize && this.store == store
    {
      this.target := target;
      this.batchSize := batchSize;
      this.store := store;
    }

    /** Validates every envelope before the transaction starts. */
    method PrepareRecords(batch: seq<Version>, allowDeletes: bool) returns (ok: bool)
      ensures ok <==> Prepared(target, batch, allowDeletes)
    {
      var expectedColumns: Option<seq<string>> := None;
      for i := 0 to |batch|
        invariant Prepared(target, batch[..i], allowDeletes)
        invariant forall v :: v in batch[..i] && IsRow(v) ==> expectedColumns == Some(v.payload.columns)
        invariant expectedColumns.Some? ==>
            exists v :: v in batch[..i] && IsRow(v) && v.payload.columns == expectedColumns.value
      {
        var v := batch[i];
        assert batch[..i + 1] == batch[..i] + [v];
        assert v in batch;
        if !Preparable(target, v, allowDeletes) {
          return false;
        }
        if !v.operation.Delete? {
          if expectedColumns.None? {
            expectedColumns := Some(v.payload.columns);
          } else if v.payload.columns != expectedColumns.value {
            return false;
          }
        }
      }
      assert batch[..|batch|] == batch;
      ok := true;
    }

    method ApplyUnlessRecorded(work: Store, v: Version) returns (next: Option<Written<Store>>)
      ensures next == ApplyOnce(target)(work, v)
    {
      if (target.name, v) in work.ledger {
        return Some(Written(work, 0));
      }
      var changed := ApplyEvent(target, work.rows, v);
      if changed.None? {
        return None;
      }
      next := Some(Written(Store(changed.value.0, work.ledger + {(target.name, v)}), changed.value.1));
    }

    /** One slice of the batch. */
    method ApplySlice(ghost start: Store, prepared: seq<Version>, from: nat, to: nat, so: Written<Store>)
      returns (applied: Option<Written<Store>>)
      requires from <= to <= |prepared| && Fold(ApplyOnce(target), start, prepared[..from]) == Some(so)
      ensures applied == Fold(ApplyOnce(target), start, prepared[..to])
    {
      var work := so;
      for i := from to to
        invariant Fold(ApplyOnce(target), start, prepared[..i]) == Some(work)
      {
        FoldNext(ApplyOnce(target), start, prepared, i);
        var next := ApplyUnlessRecorded(work.dest, prepared[i]);
        if next.None? {
          SliceFails(start, prepared, i + 1, to);
          return None;
        }
        work := Written(next.value.dest, work.count + next.value.count);
      }
      applied := Some(work);
    }

    lemma SliceFails(start: Store, prepared: seq<Version>, n: nat, to: nat)
      requires n <= to <= |prepared| && Fold(ApplyOnce(target), start, prepared[..n]).None?
      ensures Fold(ApplyOnce(target), start, prepared[..to]).None?
    {
      assert prepared[..to][..n] == prepared[..n];
      FailureIsFinal(ApplyOnce(target), start, prepared[..to], n);
    }

    /** The statements of one transaction, on a working copy that a failure discards. */
    method ApplyPrepared(start: Store, prepared: seq<Version>) returns (applied: Option<Written<Store>>)
      requires batchSize >= 1
      ensures applied == Fold(ApplyOnce(target), start, prepared)
    {
      var work := Written(start, 0);
      var from := 0;
      while from < |prepared|
        invariant 0 <= from <= |prepared|
        invariant Fold(ApplyOnce(target), start, prepared[..from]) == Some(work)
      {
        var to := if from + batchSize < |prepared| then from + batchSize else |prepared|;
        var next := ApplySlice(start, prepared, from, to, work);
        if next.None? {
          FailureIsFinal(ApplyOnce(target), start, prepared, to);
          return None;
        }
        work, from := next.value, to;
      }
      assert prepared[..|prepared|] == prepared;
      applied := Some(work);
    }

    /** Commits the batch or leaves the store alone; the batch size is not part of the outcome. */
    method Write(batch: seq<Version>) returns (applied: Option<int>)
      requires batchSize >= 1 && Allowed(target, store.rows)
      modifies this
      ensures Allowed(target, store.rows)
      ensures match PostgresTable(target).write(old(store), batch)
              case None => applied.None? && store == old(store)
              case Some(w) => applied == Some(w.count) && store == w.dest
    {
      var ok := PrepareRecords(batch, true);
      if !ok {
        return None;
      }
      if batch == [] {
        return Some(0);
      }
      var written := ApplyPrepared(store, batch);
      if written.None? {
        return None;
      }
      StaysAllowed(target, store, batch);
      store := written.value.dest;
      applied := Some(written.value.count);
    }

    method Replace(batch: seq<Version>) returns (applied: Option<int>)
      requires batchSize >= 1 && Allowed(target, store.rows)
      modifies this
      ensures Allowed(target, store.rows)
      ensures match ReplaceAll(target, old(store), batch)
              case None => applied.None? && store == old(store)
              case Some(w) => applied == Some(w.count) && store == w.dest
    {
      var ok := PrepareRecords(batch, false);
      if !ok || !Allowed(target, []) {
        return None;
      }
      var written := ApplyPrepared(Cleared(target, store), batch);
      if written.None? {
        return None;
      }
      StaysAllowed(target, Cleared(target, store), batch);
      store := written.value.dest;
      applied := Some(written.value.count);
    }
  }
}
