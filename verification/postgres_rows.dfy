/** Which rows each event leaves in a PostgreSQL target, and which row a whole batch leaves for a key. */
module PostgresRows {
  import opened Wrappers
  import opened Envelopes
  import opened Replay
  import opened PostgresLedger

  /** The row holds these values in every key field; NULL is not a value. */
  predicate HasKey(target: Target, row: Row, key: Row) {
    forall f :: f in target.keyFields ==> f in row && f in key && row[f] == key[f] && key[f] != Null
  }

  /** The row with these columns set, all others as before. */
  predicate SetIn(before: Row, values: Row, after: Row) {
    && after.Keys == before.Keys + values.Keys
    && (forall c :: c in values ==> after[c] == values[c])
    && (forall c :: c in before && c !in values ==> after[c] == before[c])
  }

  predicate OnlyKeys(target: Target, values: Row) {
    forall c :: c in values ==> c in target.keyFields
  }

  /** Row `i` is set to the values; no other row moves. The statement counts 0 if it only names key columns. */
  predicate UpdatesRow(target: Target, rows: seq<Row>, values: Row, rows': seq<Row>, count: int, i: nat)
    requires i < |rows|
  {
    && HasKey(target, rows[i], values)
    && |rows'| == |rows| && (forall j :: 0 <= j < |rows| && j != i ==> rows'[j] == rows[j])
    && SetIn(rows[i], values, rows'[i]) && count == if OnlyKeys(target, values) then 0 else 1
  }

  predicate Updates(target: Target, rows: seq<Row>, values: Row, rows': seq<Row>, count: int) {
    exists i: nat :: i < |rows| && UpdatesRow(target, rows, values, rows', count, i)
  }

  predicate NoneHas(target: Target, rows: seq<Row>, key: Row) {
    forall i :: 0 <= i < |rows| ==> !HasKey(target, rows[i], key)
  }

  predicate Adds(rows: seq<Row>, values: Row, rows': seq<Row>, count: int) {
    rows' == rows + [values] && count == 1
  }

  /** An upsert sets the row of its key, or adds one where there is none. */
  predicate Upserts(target: Target, rows: seq<Row>, values: Row, rows': seq<Row>, count: int) {
    if NoneHas(target, rows, values) then Adds(rows, values, rows', count)
    else Updates(target, rows, values, rows', count)
  }

  /** Exactly the rows with the key go, however many; the statement counts them. */
  ghost predicate Deletes(target: Target, rows: seq<Row>, key: Row, rows': seq<Row>, count: int) {
    && (forall r: Row :: multiset(rows')[r] == if HasKey(target, r, key) then 0 else multiset(rows)[r])
    && count == |rows| - |rows'|
  }

  ghost predicate Effect(target: Target, rows: seq<Row>, v: Version, rows': seq<Row>, count: int) {
    if v.operation.Delete? then v.key.Some? && Deletes(target, rows, v.key.value, rows', count)
    else if !v.payload.Record? then false
    else if target.mode.Insert? then Adds(rows, v.payload.row, rows', count)
    else Upserts(target, rows, v.payload.row, rows', count)
  }

  /** The key values an event addresses. */
  function KeyOf(v: Version): Row {
    if v.operation.Delete? then (if v.key.Some? then v.key.value else map[])
    else if v.payload.Record? then v.payload.row else map[]
  }

  lemma {:induction false} WithoutDeletes(target: Target, rows: seq<Row>, key: Row)
    requires CompleteKey(target, key)
    ensures forall r: Row ::
              multiset(Without(target, rows, key))[r] == if HasKey(target, r, key) then 0 else multiset(rows)[r]
  {
    if rows != [] {
      var init, last := rows[..|rows| - 1], rows[|rows| - 1];
      WithoutDeletes(target, init, key);
      assert rows == init + [last];
      assert HasKey(target, last, key) <==> Matches(target, last, key);
    }
  }

  /** Some table the event's effect leaves breaks the constraints. */
  ghost predicate Breaks(target: Target, rows: seq<Row>, v: Version) {
    exists rows', count :: Effect(target, rows, v, rows', count) && !Allowed(target, rows')
  }

  /** An event not in the ledger has its effect and enters the ledger, or fails because that breaks a constraint. */
  lemma EventMeans(target: Target, store: Store, v: Version)
    requires Preparable(target, v, true) && Allowed(target, store.rows) && (target.name, v) !in store.ledger
    requires target.mode.Upsert? ==> target.uniqueKey
    ensures match ApplyOnce(target)(store, v)
            case Some(w) =>
              && Effect(target, store.rows, v, w.dest.rows, w.count) && Allowed(target, w.dest.rows)
              && w.dest.ledger == store.ledger + {(target.name, v)}
            case None => Breaks(target, store.rows, v)
  {
    if v.operation.Delete? {
      DeleteMeans(target, store.rows, v);
    } else if target.mode.Insert? {
      var rows' := store.rows + [v.payload.row];
      assert Effect(target, store.rows, v, rows', 1);
    } else {
      UpsertMeans(target, store.rows, v);
    }
  }

  lemma DeleteMeans(target: Target, rows: seq<Row>, v: Version)
    requires v.operation.Delete? && Preparable(target, v, true)
    ensures match ApplyEvent(target, rows, v)
            case Some((rows', count)) => Effect(target, rows, v, rows', count) && Allowed(target, rows')
            case None => Breaks(target, rows, v)
  {
    var key := KeyValues(target, v);
    var rows' := Without(target, rows, key);
    WithoutDeletes(target, rows, key);
    forall r: Row ensures HasKey(target, r, key) <==> HasKey(target, r, v.key.value) {
    }
    assert Effect(target, rows, v, rows', |rows| - |rows'|);
  }

  lemma UpsertMeans(target: Target, rows: seq<Row>, v: Version)
    requires !v.operation.Delete? && Preparable(target, v, true) && Allowed(target, rows)
    requires target.mode.Upsert? && target.uniqueKey
    ensures match ApplyEvent(target, rows, v)
            case Some((rows', count)) => Effect(target, rows, v, rows', count) && Allowed(target, rows')
            case None => Breaks(target, rows, v)
  {
    var values := v.payload.row;
    var conflict := Conflict(target, rows, values);
    forall r: Row ensures HasKey(target, r, values) <==> Matches(target, r, values) {
    }
    if conflict.None? {
      assert NoneHas(target, rows, values);
      assert Effect(target, rows, v, rows + [values], 1);
    } else {
      ConflictMeans(target, rows, v, conflict.value);
    }
  }

  lemma ConflictMeans(target: Target, rows: seq<Row>, v: Version, i: nat)
    requires !v.operation.Delete? && Preparable(target, v, true) && target.mode.Upsert? && i < |rows|
    requires HasKey(target, rows[i], v.payload.row)
    ensures var values := v.payload.row; var updated := rows[i := rows[i] + values];
            && Effect(target, rows, v, updated, if OnlyKeys(target, values) then 0 else 1)
            && (OnlyKeys(target, values) ==> updated == rows)
            && (OnlyKeys(target, values) <==> forall c :: c in v.payload.columns ==> c in target.keyFields)
  {
    var values := v.payload.row;
    var updated := rows[i := rows[i] + values];
    if OnlyKeys(target, values) {
      assert rows[i] + values == rows[i] && updated == rows;
    }
    assert UpdatesRow(target, rows, values, updated, if OnlyKeys(target, values) then 0 else 1, i);
  }

  /** Letters, digits and underscores, the first of them no digit. */
  predicate Plain(name: string) {
    && 0 < |name| && !('0' <= name[0] <= '9')
    && forall i :: 0 <= i < |name| ==>
         'a' <= name[i] <= 'z' || 'A' <= name[i] <= 'Z' || '0' <= name[i] <= '9' || name[i] == '_'
  }

  /** What the checks ask of one envelope, field by field. */
  ghost predicate Wellformed(target: Target, v: Version, allowDeletes: bool) {
    var values := KeyOf(v);
    && (forall f :: f in target.keyFields ==> f in values && values[f] != Null)
    && if v.operation.Delete? then allowDeletes && |target.keyFields| > 0 && v.key.Some?
       else v.payload.Record? && |v.payload.columns| > 0
            && (forall c :: c in v.payload.columns <==> c in v.payload.row)
            && (forall i :: 0 <= i < |v.payload.columns| ==> Plain(v.payload.columns[i]))
  }

  /** A batch is accepted exactly if every envelope is well-formed and all its rows have one list of columns. */
  lemma PreparedIff(target: Target, batch: seq<Version>, allowDeletes: bool)
    ensures Prepared(target, batch, allowDeletes) <==>
            && (forall i :: 0 <= i < |batch| ==> Wellformed(target, batch[i], allowDeletes))
            && (forall i, j :: 0 <= i < j < |batch| && !batch[i].operation.Delete? && !batch[j].operation.Delete?
                               && batch[i].payload.Record? && batch[j].payload.Record? ==>
                  batch[i].payload.columns == batch[j].payload.columns)
  {
    forall i | 0 <= i < |batch|
      ensures Wellformed(target, batch[i], allowDeletes) <==> Preparable(target, batch[i], allowDeletes)
    {
      WellformedIff(target, batch[i], allowDeletes);
    }
  }

  lemma WellformedIff(target: Target, v: Version, allowDeletes: bool)
    ensures Wellformed(target, v, allowDeletes) <==> Preparable(target, v, allowDeletes)
  {
    if !v.operation.Delete? && v.payload.Record? {
      forall c: string ensures IsIdentifier(c) <==> Plain(c) {
      }
    }
  }

  // ---------------------------------------------------------- whole batches

  /** What the table shows for a key: no row, or exactly one. */
  ghost predicate Shows(target: Target, rows: seq<Row>, key: Row, content: Option<Row>) {
    match content
    case None => NoneHas(target, rows, key)
    case Some(row) => exists i: nat :: i < |rows| && OnlyRow(target, rows, key, row, i)
  }

  predicate OnlyRow(target: Target, rows: seq<Row>, key: Row, row: Row, i: nat)
    requires i < |rows|
  {
    rows[i] == row && HasKey(target, row, key) && forall j :: 0 <= j < |rows| && HasKey(target, rows[j], key) ==> j == i
  }

  /** The content of a key after one event that is new to the ledger. */
  function Next(target: Target, v: Version, key: Row, content: Option<Row>): Option<Row> {
    if !HasKey(target, KeyOf(v), key) then content
    else if v.operation.Delete? then None
    else if content.None? then Some(KeyOf(v))
    else Some(content.value + KeyOf(v))
  }

  /** The content of a key after the events of a batch, in order, each at most once and none the ledger already has. */
  function Last(target: Target, ledger: set<(string, Version)>, batch: seq<Version>, key: Row, content: Option<Row>)
    : Option<Row>
  {
    if batch == [] then content
    else
      var init, last := batch[..|batch| - 1], batch[|batch| - 1];
      var before := Last(target, ledger, init, key, content);
      if (target.name, last) in ledger || last in init then before else Next(target, last, key, before)
  }

  lemma SameKeyTransitive(target: Target, a: Row, b: Row, c: Row)
    requires HasKey(target, a, b)
    ensures HasKey(target, a, c) <==> HasKey(target, b, c)
  {
  }

  lemma DeleteNext(target: Target, rows: seq<Row>, v: Version, rows': seq<Row>, count: int, key: Row,
                   content: Option<Row>)
    requires v.operation.Delete? && Effect(target, rows, v, rows', count) && Allowed(target, rows')
    requires target.uniqueKey && Shows(target, rows, key, content) && Preparable(target, v, true)
    ensures Shows(target, rows', key, Next(target, v, key, content))
  {
    var gone := v.key.value;
    if HasKey(target, gone, key) {
      forall i | 0 <= i < |rows'| ensures !HasKey(target, rows'[i], key) {
        assert multiset(rows')[rows'[i]] > 0;
        KeyShared(target, gone, rows'[i], key);
      }
    } else {
      forall r: Row | HasKey(target, r, key) ensures r in rows' <==> r in rows {
        KeyShared(target, gone, r, key);
        assert (r in multiset(rows') <==> multiset(rows')[r] > 0) && (r in multiset(rows) <==> multiset(rows)[r] > 0);
      }
      ContentKept(target, rows, rows', key, content);
    }
  }

  /** A row of a key has the other keys exactly that key has. */
  lemma KeyShared(target: Target, key: Row, row: Row, other: Row)
    requires CompleteKey(target, key)
    ensures HasKey(target, key, other) && HasKey(target, row, other) ==> HasKey(target, row, key)
    ensures HasKey(target, row, key) && HasKey(target, row, other) ==> HasKey(target, key, other)
  {
  }

  lemma ContentKept(target: Target, rows: seq<Row>, rows': seq<Row>, key: Row, content: Option<Row>)
    requires Shows(target, rows, key, content) && Allowed(target, rows') && target.uniqueKey
    requires forall r: Row | HasKey(target, r, key) :: r in rows' <==> r in rows
    ensures Shows(target, rows', key, content)
  {
    match content
    case None =>
      forall i | 0 <= i < |rows'| ensures !HasKey(target, rows'[i], key) {
        assert rows'[i] in rows';
      }
    case Some(row) =>
      var i: nat :| i < |rows| && OnlyRow(target, rows, key, row, i);
      assert rows[i] in rows && row in rows';
      var k: nat :| k < |rows'| && rows'[k] == row;
      OneRow(target, rows', key, k);
  }

  /** Under the unique index a key has one row only. */
  lemma OneRow(target: Target, rows: seq<Row>, key: Row, i: nat)
    requires target.uniqueKey && Allowed(target, rows) && i < |rows| && HasKey(target, rows[i], key)
    ensures OnlyRow(target, rows, key, rows[i], i)
  {
    forall j | 0 <= j < |rows| && j != i ensures !HasKey(target, rows[j], key) {
      assert !Matches(target, rows[if i < j then i else j], rows[if i < j then j else i]);
    }
  }

  lemma AddNext(target: Target, rows: seq<Row>, v: Version, rows': seq<Row>, key: Row, content: Option<Row>)
    requires !v.operation.Delete? && v.payload.Record? && rows' == rows + [v.payload.row] && Allowed(target, rows')
    requires target.uniqueKey && Shows(target, rows, key, content)
    ensures Shows(target, rows', key, Next(target, v, key, content))
  {
    var n := |rows|;
    assert rows'[n] == v.payload.row && forall i :: 0 <= i < n ==> rows'[i] == rows[i];
    if HasKey(target, v.payload.row, key) {
      OneRow(target, rows', key, n);
      forall i | 0 <= i < n ensures !HasKey(target, rows[i], key) {
        assert rows'[i] == rows[i];
      }
      assert content.None?;
    } else if content.Some? {
      var i: nat :| i < |rows| && OnlyRow(target, rows, key, content.value, i);
      assert OnlyRow(target, rows', key, content.value, i);
    }
  }

  lemma UpdateNext(target: Target, rows: seq<Row>, v: Version, rows': seq<Row>, count: int, key: Row,
                   content: Option<Row>, i: nat)
    requires !v.operation.Delete? && v.payload.Record? && CompleteKey(target, v.payload.row) && i < |rows|
    requires UpdatesRow(target, rows, v.payload.row, rows', count, i) && Allowed(target, rows')
    requires target.uniqueKey && Shows(target, rows, key, content)
    ensures Shows(target, rows', key, Next(target, v, key, content))
  {
    var values := v.payload.row;
    assert rows'[i] == rows[i] + values;
    assert HasKey(target, rows'[i], key) <==> HasKey(target, values, key);
    assert HasKey(target, rows[i], key) <==> HasKey(target, values, key);
    if content.Some? {
      var k: nat :| k < |rows| && OnlyRow(target, rows, key, content.value, k);
      if HasKey(target, values, key) {
        assert k == i;
        OneRow(target, rows', key, i);
      } else {
        assert k != i;
        OneRow(target, rows', key, k);
      }
    } else {
      assert !HasKey(target, rows[i], key);
      forall j | 0 <= j < |rows'| ensures !HasKey(target, rows'[j], key) {
        assert !HasKey(target, rows[j], key);
      }
    }
  }

  lemma EffectNext(target: Target, rows: seq<Row>, v: Version, rows': seq<Row>, count: int, key: Row,
                   content: Option<Row>)
    requires Preparable(target, v, true) && Effect(target, rows, v, rows', count) && Allowed(target, rows')
    requires target.uniqueKey && Shows(target, rows, key, content)
    ensures Shows(target, rows', key, Next(target, v, key, content))
  {
    if v.operation.Delete? {
      DeleteNext(target, rows, v, rows', count, key, content);
    } else if Adds(rows, v.payload.row, rows', count) {
      AddNext(target, rows, v, rows', key, content);
    } else {
      var i: nat :| i < |rows| && UpdatesRow(target, rows, v.payload.row, rows', count, i);
      UpdateNext(target, rows, v, rows', count, key, content, i);
    }
  }

  /**
   Under a unique index, a batch that is written leaves for each key what its new
   events make of it in order: the last delete or the columns set since.
   */
  lemma {:induction false} BatchLeaves(target: Target, store: Store, batch: seq<Version>, key: Row,
                                       content: Option<Row>)
    requires target.uniqueKey && Prepared(target, batch, true) && Allowed(target, store.rows)
    requires Fold(ApplyOnce(target), store, batch).Some? && Shows(target, store.rows, key, content)
    ensures var w := Fold(ApplyOnce(target), store, batch).value;
            Shows(target, w.dest.rows, key, Last(target, store.ledger, batch, key, content))
  {
    if batch != [] {
      var init, last := batch[..|batch| - 1], batch[|batch| - 1];
      assert batch == init + [last];
      PreparedParts(target, init, [last]);
      BatchLeaves(target, store, init, key, content);
      var before := Fold(ApplyOnce(target), store, init).value.dest;
      StaysAllowed(target, store, init);
      LedgerAfter(target, store, init, last);
      if (target.name, last) !in before.ledger {
        assert last in batch;
        EventMeans(target, before, last);
        var w := ApplyOnce(target)(before, last).value;
        var so := Last(target, store.ledger, init, key, content);
        EffectNext(target, before.rows, last, w.dest.rows, w.count, key, so);
      }
    }
  }

  /** The ledger holds what it held and the batch. */
  lemma {:induction false} LedgerAfter(target: Target, store: Store, batch: seq<Version>, v: Version)
    requires Fold(ApplyOnce(target), store, batch).Some?
    ensures (target.name, v) in Fold(ApplyOnce(target), store, batch).value.dest.ledger <==>
            (target.name, v) in store.ledger || v in batch
  {
    if batch != [] {
      var init, last := batch[..|batch| - 1], batch[|batch| - 1];
      LedgerAfter(target, store, init, v);
      OneEntry(target, Fold(ApplyOnce(target), store, init).value.dest, last, v);
      assert v in batch <==> v in init || v == last;
    }
  }

  lemma OneEntry(target: Target, store: Store, last: Version, v: Version)
    requires ApplyOnce(target)(store, last).Some?
    ensures (target.name, v) in ApplyOnce(target)(store, last).value.dest.ledger <==>
            (target.name, v) in store.ledger || v == last
  {
  }
}
