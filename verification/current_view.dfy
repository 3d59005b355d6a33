/** The view a searchable collection keeps: the last write of each logical key wins. */
module CurrentView {
  import opened Wrappers
  import opened Envelopes
  import opened Replay
  import opened CheckpointedPipeline

  datatype Key = Key(source: string, stream: string, id: string)

  type View = map<Key, Version>

  function KeyOf(v: Version): Key {
    Key(v.source, v.stream, v.id)
  }

  function Overwrite(view: View, v: Version): Option<Written<View>> {
    var k := KeyOf(v);
    if v.operation.Delete? then
      if k in view then Some(Written(view - {k}, 1)) else Some(Written(view, 0))
    else if k in view && view[k] == v then Some(Written(view, 0))
    else Some(Written(view[k := v], 1))
  }

  /** The version is of this source, stream and record. */
  predicate Names(v: Version, k: Key) {
    v.source == k.source && v.stream == k.stream && v.id == k.id
  }

  /** The last version a batch holds for a key. */
  function Latest(batch: seq<Version>, k: Key): Option<Version> {
    if batch == [] then None
    else if Names(batch[|batch| - 1], k) then Some(batch[|batch| - 1])
    else Latest(batch[..|batch| - 1], k)
  }

  /** What a key shows once `latest` was the last thing written to it over `view`. */
  function Shown(view: View, k: Key, latest: Option<Version>): Option<Version> {
    match latest
    case None => if k in view then Some(view[k]) else None
    case Some(v) => if v.operation.Delete? then None else Some(v)
  }

  lemma {:induction false} OverwriteSucceeds(view: View, batch: seq<Version>)
    ensures Fold(Overwrite, view, batch).Some?
    ensures 0 <= Fold(Overwrite, view, batch).value.count <= |batch|
  {
    if batch != [] {
      OverwriteSucceeds(view, batch[..|batch| - 1]);
    }
  }

  function After(view: View, batch: seq<Version>): View {
    OverwriteSucceeds(view, batch);
    Fold(Overwrite, view, batch).value.dest
  }

  /** Last writer wins: each key shows the batch's last version of it, or what it showed before. */
  lemma {:induction false} LatestWins(view: View, batch: seq<Version>, k: Key)
    ensures Shown(After(view, batch), k, None) == Shown(view, k, Latest(batch, k))
  {
    OverwriteSucceeds(view, batch);
    if batch != [] {
      var init := batch[..|batch| - 1];
      OverwriteSucceeds(view, init);
      LatestWins(view, init, k);
    }
  }

  lemma SameShown(a: View, b: View)
    requires forall k :: Shown(a, k, None) == Shown(b, k, None)
    ensures a == b
  {
    forall k ensures (k in a <==> k in b) && (k in a ==> a[k] == b[k]) {
      assert Shown(a, k, None) == Shown(b, k, None);
    }
  }

  /** A replay leaves the view as it is, whatever keys repeat. */
  lemma ReplayKeepsView(view: View, batch: seq<Version>)
    ensures After(After(view, batch), batch) == After(view, batch)
  {
    forall k ensures Shown(After(After(view, batch), batch), k, None) == Shown(After(view, batch), k, None) {
      LatestWins(view, batch, k);
      LatestWins(After(view, batch), batch, k);
    }
    SameShown(After(After(view, batch), batch), After(view, batch));
  }

  /** The version is what its key ends up showing. */
  predicate Final(batch: seq<Version>, v: Version) {
    match Latest(batch, KeyOf(v))
    case None => false
    case Some(last) => if last.operation.Delete? then v.operation.Delete? else v == last
  }

  /** An exact replay reports 0 exactly when no version in the batch is overridden by a later one. */
  lemma ReplayReportsNothingIff(view: View, batch: seq<Version>)
    ensures Fold(Overwrite, After(view, batch), batch).Some?
    ensures Fold(Overwrite, After(view, batch), batch).value.count == 0 <==> forall v :: v in batch ==> Final(batch, v)
  {
    var x := After(view, batch);
    OverwriteSucceeds(x, batch);
    IdleIff(x, batch);
    forall v | v in batch ensures Overwrite(x, v) == Some(Written(x, 0)) <==> Final(batch, v) {
      LatestWins(view, batch, KeyOf(v));
      LatestOccurs(batch, v);
    }
  }

  lemma {:induction false} LatestOccurs(batch: seq<Version>, v: Version)
    requires v in batch
    ensures Latest(batch, KeyOf(v)).Some?
    ensures KeyOf(Latest(batch, KeyOf(v)).value) == KeyOf(v) && Latest(batch, KeyOf(v)).value in batch
  {
    var init, last := batch[..|batch| - 1], batch[|batch| - 1];
    assert batch == init + [last];
    if KeyOf(last) != KeyOf(v) {
      LatestOccurs(init, v);
    }
  }

  /** A batch reports 0 exactly when each of its versions changes nothing. */
  lemma {:induction false} IdleIff(view: View, batch: seq<Version>)
    ensures Fold(Overwrite, view, batch).Some?
    ensures Fold(Overwrite, view, batch).value.count == 0 <==>
            forall v :: v in batch ==> Overwrite(view, v) == Some(Written(view, 0))
    ensures Fold(Overwrite, view, batch).value.count == 0 ==> After(view, batch) == view
  {
    OverwriteSucceeds(view, batch);
    if batch != [] {
      var init, last := batch[..|batch| - 1], batch[|batch| - 1];
      assert batch == init + [last];
      OverwriteSucceeds(view, init);
      IdleIff(view, init);
      assert last in batch;
      assert forall v :: v in init ==> v in batch;
    }
  }

  /** Distinct keys are enough for a replay to report 0. */
  lemma DistinctKeysReplayQuietly(view: View, batch: seq<Version>)
    requires forall i, j :: 0 <= i < j < |batch| ==> KeyOf(batch[i]) != KeyOf(batch[j])
    ensures Fold(Overwrite, After(view, batch), batch) == Some(Written(After(view, batch), 0))
  {
    forall v | v in batch ensures Final(batch, v) {
      LatestOccurs(batch, v);
    }
    ReplayReportsNothingIff(view, batch);
    IdleIff(After(view, batch), batch);
    OverwriteSucceeds(After(view, batch), batch);
  }

  /** A collection write is one transaction: a crash keeps all of it or none. */
  function SqliteView(): Destination<View> {
    Destination(
      (view, batch) => Fold(Overwrite, view, batch),
      (view, batch, n) => if n == 0 then view else After(view, batch))
  }

  lemma SqliteAbsorbs()
    ensures Absorbing(SqliteView()) && CountsWithin(SqliteView())
  {
    var dst := SqliteView();
    forall d, batch, x | Between(dst, d, batch, x) ensures AbsorbsAt(dst, d, batch, x) {
      OverwriteSucceeds(d, batch);
      OverwriteSucceeds(x, batch);
      ReplayKeepsView(d, batch);
      forall n: nat ensures Between(dst, d, batch, dst.torn(x, batch, n)) {
      }
    }
    forall d, batch ensures dst.write(d, batch).Some? ==> 0 <= dst.write(d, batch).value.count <= |batch| {
      OverwriteSucceeds(d, batch);
    }
  }
}
