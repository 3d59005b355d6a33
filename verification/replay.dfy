/** Writing a batch one envelope at a time, and steps that remember what they applied. */
module Replay {
  import opened Wrappers
  import opened Envelopes

  type Step<!D> = (D, Version) -> Option<Written<D>>

  /** The whole batch in order; one failing envelope fails the batch. */
  function Fold<D>(step: Step<D>, d: D, batch: seq<Version>): Option<Written<D>> {
    if batch == [] then Some(Written(d, 0))
    else
      match Fold(step, d, batch[..|batch| - 1])
      case None => None
      case Some(w) => Then(step, w, batch[|batch| - 1])
  }

  function Then<D>(step: Step<D>, w: Written<D>, v: Version): Option<Written<D>> {
    match step(w.dest, v)
    case None => None
    case Some(s) => Some(Written(s.dest, w.count + s.count))
  }

  /** Grouping does not matter: a batch in two halves is the batch. */
  lemma {:induction false} FoldConcat<D>(step: Step<D>, d: D, a: seq<Version>, b: seq<Version>)
    ensures Fold(step, d, a + b) ==
            match Fold(step, d, a)
            case None => None
            case Some(w) =>
              match Fold(step, w.dest, b)
              case None => None
              case Some(v) => Some(Written(v.dest, w.count + v.count))
  {
    if b == [] {
      assert a + b == a;
    } else {
      var n := |b| - 1;
      assert (a + b)[..|a + b| - 1] == a + b[..n];
      FoldConcat(step, d, a, b[..n]);
    }
  }

  /** The fold over a prefix, one element further. */
  lemma FoldNext<D>(step: Step<D>, d: D, batch: seq<Version>, i: nat)
    requires i < |batch|
    ensures Fold(step, d, batch[..i + 1]) ==
            match Fold(step, d, batch[..i])
            case None => None
            case Some(w) => Then(step, w, batch[i])
  {
    FoldOneMore(step, d, batch[..i], batch[i]);
    assert batch[..i + 1] == batch[..i] + [batch[i]];
  }

  lemma FailureIsFinal<D>(step: Step<D>, d: D, batch: seq<Version>, n: nat)
    requires n <= |batch| && Fold(step, d, batch[..n]).None?
    ensures Fold(step, d, batch).None?
  {
    assert batch == batch[..n] + batch[n..];
    FoldConcat(step, d, batch[..n], batch[n..]);
  }

  /** Each applied version is remembered for good, and a remembered one does nothing. */
  ghost predicate Ledgered<D(!new)>(step: Step<D>, seen: (D, Version) -> bool) {
    && (forall d, v :: seen(d, v) ==> step(d, v) == Some(Written(d, 0)))
    && (forall d, v :: step(d, v).Some? ==> seen(step(d, v).value.dest, v))
    && (forall d, v, u :: step(d, v).Some? && seen(d, u) ==> seen(step(d, v).value.dest, u))
  }

  lemma {:induction false} FoldRemembers<D(!new)>(step: Step<D>, seen: (D, Version) -> bool, d: D, batch: seq<Version>)
    requires Ledgered(step, seen) && Fold(step, d, batch).Some?
    ensures forall v :: v in batch || seen(d, v) ==> seen(Fold(step, d, batch).value.dest, v)
  {
    if batch != [] {
      FoldRemembers(step, seen, d, batch[..|batch| - 1]);
    }
  }

  /** Replaying applied events, in whatever grouping or order, changes nothing and reports 0. */
  lemma {:induction false} NothingNew<D(!new)>(step: Step<D>, seen: (D, Version) -> bool, d: D, batch: seq<Version>)
    requires Ledgered(step, seen) && forall v :: v in batch ==> seen(d, v)
    ensures Fold(step, d, batch) == Some(Written(d, 0))
  {
    if batch != [] {
      NothingNew(step, seen, d, batch[..|batch| - 1]);
    }
  }

  /** The events without their later repetitions. */
  function FirstOccurrences(batch: seq<Version>): seq<Version> {
    if batch == [] then []
    else
      var init, last := batch[..|batch| - 1], batch[|batch| - 1];
      if last in init then FirstOccurrences(init) else FirstOccurrences(init) + [last]
  }

  lemma {:induction false} FirstOccurrencesDistinct(batch: seq<Version>)
    ensures forall v :: v in FirstOccurrences(batch) <==> v in batch
    ensures Distinct(FirstOccurrences(batch))
  {
    if batch != [] {
      var init, last := batch[..|batch| - 1], batch[|batch| - 1];
      FirstOccurrencesDistinct(init);
      assert batch == init + [last];
      var first := FirstOccurrences(init);
      assert forall i :: 0 <= i < |first| ==> first[i] in first;
    }
  }

  /** Exactly once: however often an event is repeated, only its first occurrence counts. */
  lemma {:induction false} OnlyFirstOccurrences<D(!new)>(step: Step<D>, seen: (D, Version) -> bool, d: D,
        batch: seq<Version>)
    requires Ledgered(step, seen)
    ensures Fold(step, d, batch) == Fold(step, d, FirstOccurrences(batch))
  {
    if batch != [] {
      var init, last := batch[..|batch| - 1], batch[|batch| - 1];
      OnlyFirstOccurrences(step, seen, d, init);
      if last !in init {
        FoldOneMore(step, d, FirstOccurrences(init), last);
      } else if Fold(step, d, init).Some? {
        RepeatIsIdle(step, seen, d, init, last);
      }
    }
  }

  lemma RepeatIsIdle<D(!new)>(step: Step<D>, seen: (D, Version) -> bool, d: D, batch: seq<Version>, v: Version)
    requires Ledgered(step, seen) && v in batch && Fold(step, d, batch).Some?
    ensures Then(step, Fold(step, d, batch).value, v) == Fold(step, d, batch)
  {
    FoldRemembers(step, seen, d, batch);
  }

  lemma FoldOneMore<D>(step: Step<D>, d: D, batch: seq<Version>, v: Version)
    ensures Fold(step, d, batch + [v]) ==
            match Fold(step, d, batch)
            case None => None
            case Some(w) => Then(step, w, v)
  {
    assert (batch + [v])[..|batch|] == batch;
  }

  /** Writing the whole batch over what a part of it left behind completes the batch. */
  lemma PartThenAll<D(!new)>(step: Step<D>, seen: (D, Version) -> bool, d: D, part: seq<Version>, rest: seq<Version>)
    requires Ledgered(step, seen) && Fold(step, d, part).Some?
    ensures var x := Fold(step, d, part).value;
            match Fold(step, x.dest, part + rest)
            case None => Fold(step, d, part + rest).None?
            case Some(w) => Fold(step, d, part + rest) == Some(Written(w.dest, x.count + w.count))
  {
    FoldConcat(step, d, part, rest);
    FoldConcat(step, Fold(step, d, part).value.dest, part, rest);
    PrefixIsIdle(step, seen, d, part);
  }

  lemma PrefixIsIdle<D(!new)>(step: Step<D>, seen: (D, Version) -> bool, d: D, before: seq<Version>)
    requires Ledgered(step, seen) && Fold(step, d, before).Some?
    ensures var x := Fold(step, d, before).value.dest; Fold(step, x, before) == Some(Written(x, 0))
  {
    FoldRemembers(step, seen, d, before);
    NothingNew(step, seen, Fold(step, d, before).value.dest, before);
  }
}
