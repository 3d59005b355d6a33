/** The append-only JSONL destination: one line per version, and a cache of the versions on file. */
module Jsonl {
  import opened Wrappers
  import opened Envelopes
  import opened Replay
  import opened CheckpointedPipeline

  function AppendNew(lines: seq<Version>, v: Version): Option<Written<seq<Version>>> {
    if v in lines then Some(Written(lines, 0)) else Some(Written(lines + [v], 1))
  }

  function OnFile(lines: seq<Version>, v: Version): bool {
    v in lines
  }

  function Smaller(m: nat, n: nat): nat {
    if m <= n then m else n
  }

  /** An interrupted write leaves the whole lines of a prefix of its batch. */
  function PrefixWritten(lines: seq<Version>, batch: seq<Version>, n: nat): seq<Version> {
    AllWritten(lines, batch[..Smaller(n, |batch|)])
  }

  function AllWritten(lines: seq<Version>, batch: seq<Version>): seq<Version> {
    match Fold(AppendNew, lines, batch)
    case Some(w) => w.dest
    case None => lines
  }

  function JsonlFile(): Destination<seq<Version>> {
    Destination((lines, batch) => Fold(AppendNew, lines, batch), PrefixWritten)
  }

  /** The versions a file holds, which is what reading it back caches. */
  function Known(lines: seq<Version>): set<Version> {
    set v | v in lines
  }

  /** The entries of `batch` that are not cached. */
  function Missing(known: set<Version>, batch: seq<Version>): seq<Version> {
    if batch == [] then []
    else
      var init, last := batch[..|batch| - 1], batch[|batch| - 1];
      if last in known then Missing(known, init) else Missing(known, init) + [last]
  }

  lemma AppendIsLedgered()
    ensures Ledgered(AppendNew, OnFile)
  {
  }

  /** Lines are only ever added, one per version not yet on file, in first-occurrence order. */
  lemma {:induction false} AppendsFirstOccurrences(lines: seq<Version>, batch: seq<Version>)
    ensures var added := Missing(Known(lines), FirstOccurrences(batch));
            Fold(AppendNew, lines, batch) == Some(Written(lines + added, |added|))
  {
    if batch == [] {
      assert lines + [] == lines;
    } else {
      var init, last := batch[..|batch| - 1], batch[|batch| - 1];
      AppendsFirstOccurrences(lines, init);
      var first := FirstOccurrences(init);
      FirstOccurrencesDistinct(init);
      MissingHas(Known(lines), first);
      AppendStep(lines, Missing(Known(lines), first), last);
      if last !in init {
        MissingOneMore(Known(lines), first, last);
      }
    }
  }

  lemma AppendStep(lines: seq<Version>, added: seq<Version>, v: Version)
    ensures Then(AppendNew, Written(lines + added, |added|), v) ==
            Some(if v in lines || v in added then Written(lines + added, |added|)
                 else Written(lines + (added + [v]), |added + [v]|))
  {
    assert lines + (added + [v]) == lines + added + [v];
  }

  lemma MissingOneMore(known: set<Version>, batch: seq<Version>, v: Version)
    ensures Missing(known, batch + [v]) == Missing(known, batch) + if v in known then [] else [v]
  {
    assert (batch + [v])[..|batch|] == batch;
  }

  lemma {:induction false} MissingHas(known: set<Version>, batch: seq<Version>)
    ensures forall v :: v in Missing(known, batch) <==> v in batch && v !in known
  {
    if batch != [] {
      MissingHas(known, batch[..|batch| - 1]);
      assert batch == batch[..|batch| - 1] + [batch[|batch| - 1]];
    }
  }

  /** Whole-line prefixes included: every replay ends version for version where the undisturbed write ends. */
  lemma JsonlAbsorbs()
    ensures Absorbing(JsonlFile()) && CountsWithin(JsonlFile())
  {
    var dst := JsonlFile();
    forall d, batch, x | Between(dst, d, batch, x) ensures AbsorbsAt(dst, d, batch, x) {
      var k := KeptPrefix(d, batch, x);
      AbsorbedOver(d, batch, k);
    }
    forall d, batch ensures dst.write(d, batch).Some? ==> 0 <= dst.write(d, batch).value.count <= |batch| {
      CountBound(d, batch);
    }
  }

  lemma {:induction false} CountBound(lines: seq<Version>, batch: seq<Version>)
    ensures Fold(AppendNew, lines, batch).Some?
    ensures 0 <= Fold(AppendNew, lines, batch).value.count <= |batch|
  {
    if batch != [] {
      CountBound(lines, batch[..|batch| - 1]);
    }
  }

  /** Everything between a file and its written batch is a prefix of the batch written. */
  lemma KeptPrefix(d: seq<Version>, batch: seq<Version>, x: seq<Version>) returns (k: nat)
    requires Between(JsonlFile(), d, batch, x)
    ensures k <= |batch| && x == PrefixWritten(d, batch, k)
  {
    CountBound(d, batch);
    assert batch[..|batch|] == batch && batch[..0] == [];
    if x == d {
      k := 0;
    } else if x == AllWritten(d, batch) {
      k := |batch|;
    } else {
      var n: nat :| x == JsonlFile().torn(d, batch, n);
      k := Smaller(n, |batch|);
    }
  }

  lemma AbsorbedOver(d: seq<Version>, batch: seq<Version>, k: nat)
    requires k <= |batch|
    ensures AbsorbsAt(JsonlFile(), d, batch, PrefixWritten(d, batch, k))
  {
    var dst := JsonlFile();
    var x := PrefixWritten(d, batch, k);
    CountBound(d, batch);
    CountBound(x, batch);
    PartCompletes(d, batch[..k], batch[k..]);
    assert batch == batch[..k] + batch[k..];
    forall n: nat ensures Between(dst, d, batch, dst.torn(x, batch, n)) {
      TornOver(d, batch, k, n);
    }
  }

  lemma PartCompletes(d: seq<Version>, part: seq<Version>, rest: seq<Version>)
    ensures var all := Fold(AppendNew, d, part + rest);
            var again := Fold(AppendNew, AllWritten(d, part), part + rest);
            all.Some? && again.Some? && again.value.dest == all.value.dest
  {
    AppendIsLedgered();
    CountBound(d, part);
    CountBound(AllWritten(d, part), part + rest);
    PartThenAll(AppendNew, OnFile, d, part, rest);
  }

  /** A second interruption leaves a prefix as well: the longer of the two. */
  lemma TornOver(d: seq<Version>, batch: seq<Version>, k: nat, n: nat)
    requires k <= |batch|
    ensures PrefixWritten(PrefixWritten(d, batch, k), batch, n) ==
            PrefixWritten(d, batch, if k < n then n else k)
  {
    var m := Smaller(n, |batch|);
    if k < m {
      assert batch[..m] == batch[..k] + batch[k..m];
      PartCompletes(d, batch[..k], batch[k..m]);
    } else {
      assert batch[..k] == batch[..m] + batch[m..k];
      AppendIsLedgered();
      CountBound(d, batch[..k]);
      FoldRemembers(AppendNew, OnFile, d, batch[..k]);
      NothingNew(AppendNew, OnFile, AllWritten(d, batch[..k]), batch[..m]);
    }
  }

  /**
   A write that fails without ending the process keeps the old cache. Retrying
   it repeats exactly the lines that had already reached the file.
   */
  lemma StaleCacheRepeats(before: seq<Version>, batch: seq<Version>, n: nat)
    requires n <= |batch|
    ensures var kept := Missing(Known(before), FirstOccurrences(batch[..n]));
            var after := PrefixWritten(before, batch, n) + Missing(Known(before), FirstOccurrences(batch));
            && PrefixWritten(before, batch, n) == before + kept
            && (forall v :: v in kept ==> v in Missing(Known(before), FirstOccurrences(batch)))
            && (Distinct(before) ==> (Distinct(after) <==> kept == []))
  {
    var known := Known(before);
    var kept, again := Missing(known, FirstOccurrences(batch[..n])), Missing(known, FirstOccurrences(batch));
    AppendsFirstOccurrences(before, batch[..n]);
    FirstOccurrencesDistinct(batch[..n]);
    FirstOccurrencesDistinct(batch);
    MissingHas(known, FirstOccurrences(batch[..n]));
    MissingHas(known, FirstOccurrences(batch));
    MissingDistinct(known, FirstOccurrences(batch));
    if Distinct(before) {
      RepeatedIffKept(before, kept, again);
    }
  }

  lemma RepeatedIffKept(before: seq<Version>, kept: seq<Version>, again: seq<Version>)
    requires Distinct(before) && Distinct(again)
    requires forall v :: v in kept ==> v in again
    requires forall v :: v in again ==> v !in Known(before)
    ensures Distinct(before + kept + again) <==> kept == []
  {
    var after := before + kept + again;
    if kept == [] {
      assert after == before + again;
      assert forall i :: 0 <= i < |before| ==> before[i] in Known(before);
      assert forall j :: 0 <= j < |again| ==> again[j] in again;
    } else {
      assert kept[0] in kept;
      var j :| 0 <= j < |again| && again[j] == kept[0];
      assert after[|before|] == after[|before| + |kept| + j];
    }
  }

  lemma {:induction false} MissingDistinct(known: set<Version>, batch: seq<Version>)
    requires Distinct(batch)
    ensures Distinct(Missing(known, batch))
  {
    if batch != [] {
      var init, last := batch[..|batch| - 1], batch[|batch| - 1];
      MissingDistinct(known, init);
      MissingHas(known, init);
      var rest := Missing(known, init);
      assert forall i :: 0 <= i < |rest| ==> rest[i] in rest;
    }
  }

  class JsonlDestination {
    /** The durable file, one envelope per line. */
    var lines: seq<Envelope>
    var knownVersions: Option<set<Version>>

    ghost predicate Valid()
      reads this
    {
      knownVersions.Some? ==> knownVersions.value == Known(Versions(lines))
    }

    /** What a write takes as already on file. */
    ghost function Base(): set<Version>
      reads this
    {
      if knownVersions.Some? then knownVersions.value else Known(Versions(lines))
    }

    constructor (lines: seq<Envelope>)
      ensures Valid() && this.lines == lines && knownVersions.None?
    {
      this.lines := lines;
      knownVersions := None;
    }

    method LoadVersions() returns (versions: set<Version>)
      ensures versions == Known(Versions(lines))
    {
      versions := {};
      for i := 0 to |lines|
        invariant versions == set v | v in Versions(lines)[..i]
      {
        assert Versions(lines)[..i + 1] == Versions(lines)[..i] + [lines[i].version];
        versions := versions + {lines[i].version};
      }
      assert Versions(lines)[..|lines|] == Versions(lines);
    }

    /** The append loop over the first `kept` envelopes. */
    method AppendLines(records: seq<Envelope>, kept: nat, known: set<Version>)
      returns (written: nat, pendingVersions: set<Version>)
      requires kept <= |records|
      modifies this`lines
      ensures old(lines) <= lines
      ensures var added := Missing(known, FirstOccurrences(Versions(records)[..kept]));
              Versions(lines) == Versions(old(lines)) + added && written == |added|
      ensures pendingVersions == Known(Versions(records)[..kept]) - known
    {
      ghost var versions, start := Versions(records), lines;
      ghost var added: seq<Version> := [];
      pendingVersions, written := {}, 0;
      for i := 0 to kept
        invariant added == Missing(known, FirstOccurrences(versions[..i])) && written == |added|
        invariant start <= lines && Versions(lines) == Versions(start) + added
        invariant pendingVersions == Known(versions[..i]) - known
      {
        var version := records[i].version;
        AddedNext(known, versions, i);
        KnownNext(versions, i);
        if version !in known && version !in pendingVersions {
          AppendedLine(start, lines, added, records[i]);
          lines := lines + [records[i]];
          added := added + [version];
          pendingVersions := pendingVersions + {version};
          written := written + 1;
        }
      }
    }

    /**
     Appends what the cache does not know; `kept` counts the envelopes handled
     before an error, so `kept == |records|` is a write that succeeds.
     */
    method Append(records: seq<Envelope>, kept: nat) returns (written: nat)
      requires kept <= |records|
      modifies this
      ensures var added := Missing(old(Base()), FirstOccurrences(Versions(records)[..kept]));
              Versions(lines) == Versions(old(lines)) + added && written == |added|
      ensures old(lines) <= lines
      ensures knownVersions == Some(if kept == |records| then old(Base()) + Known(Versions(records)) else old(Base()))
    {
      if knownVersions.None? {
        var loaded := LoadVersions();
        knownVersions := Some(loaded);
      }
      var known := knownVersions.value;
      var pendingVersions;
      written, pendingVersions := AppendLines(records, kept, known);
      if kept == |records| {
        assert Versions(records)[..kept] == Versions(records);
        assert known + pendingVersions == known + Known(Versions(records));
        knownVersions := Some(known + pendingVersions);
      }
    }

    method WriteSync(records: seq<Envelope>) returns (written: nat)
      requires Valid()
      modifies this
      ensures Valid() && old(lines) <= lines
      ensures JsonlFile().write(Versions(old(lines)), Versions(records)) == Some(Written(Versions(lines), written))
    {
      assert Versions(records)[..|records|] == Versions(records);
      AppendsFirstOccurrences(Versions(lines), Versions(records));
      MissingHas(Known(Versions(lines)), FirstOccurrences(Versions(records)));
      FirstOccurrencesDistinct(Versions(records));
      written := Append(records, |records|);
    }

    /** A crash after `kept` envelopes: their lines are whole, and the next process starts without a cache. */
    method CrashDuringWrite(records: seq<Envelope>, kept: nat)
      requires Valid() && kept <= |records|
      modifies this
      ensures Valid() && old(lines) <= lines
      ensures Versions(lines) == JsonlFile().torn(Versions(old(lines)), Versions(records), kept)
    {
      AppendsFirstOccurrences(Versions(lines), Versions(records)[..kept]);
      var _ := Append(records, kept);
      knownVersions := None;
    }
  }

  lemma KnownNext(versions: seq<Version>, i: nat)
    requires i < |versions|
    ensures Known(versions[..i + 1]) == Known(versions[..i]) + {versions[i]}
  {
    assert versions[..i + 1] == versions[..i] + [versions[i]];
  }

  lemma AppendedLine(start: seq<Envelope>, lines: seq<Envelope>, added: seq<Version>, e: Envelope)
    requires Versions(lines) == Versions(start) + added
    ensures Versions(lines + [e]) == Versions(start) + (added + [e.version])
  {
    assert Versions(lines + [e]) == Versions(lines) + [e.version];
  }

  lemma AddedNext(known: set<Version>, versions: seq<Version>, i: nat)
    requires i < |versions|
    ensures var v := versions[i];
            && versions[..i + 1] == versions[..i] + [v]
            && Missing(known, FirstOccurrences(versions[..i + 1])) ==
               Missing(known, FirstOccurrences(versions[..i])) +
               (if v in known || v in versions[..i] then [] else [v])
  {
    var v := versions[i];
    assert versions[..i + 1][..i] == versions[..i];
    if v !in versions[..i] {
      MissingOneMore(known, FirstOccurrences(versions[..i]), v);
    }
  }
}
