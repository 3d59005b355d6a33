/** PostgreSQL values as JSON with type hints, and checkpoint scalars as tagged objects. */
module PostgresTransport {
  import opened Wrappers

  /** Library types whose text form is treated as an inverse pair. */
  datatype Kind = Decimal | DateTime | Date | Time | Uuid

  datatype BytesForm = PlainBytes | ByteArray | MemoryView

  /** A dictionary keeps its order; its keys are strings. Floats other than finite ones are all alike. */
  datatype Value =
    | Null
    | Bool(b: bool)
    | Int(i: int)
    | Float(f: int)
    | NotFinite
    | Str(s: string)
    | Library(kind: Kind, content: nat)
    | Interval(days: int, seconds: int, microseconds: int)
    | Bytes(form: BytesForm, data: seq<nat>)
    | List(items: seq<Value>)
    | Tuple(items: seq<Value>)
    | Dict(entries: seq<(string, Value)>)
    | Unsupported

  datatype Hint =
    | NoHint
    | LibraryHint(kind: Kind)
    | IntervalHint
    | BytesHint
    | ArrayHint(items: seq<Hint>)
    | ObjectHint(entries: seq<(string, Hint)>)
    | UnknownHint

  datatype Transported = Transported(value: Value, hint: Hint)

  /** Text forms and their parsers. */
  datatype Codec = Codec(
    intText: int -> string, parseInt: string -> Option<int>,
    floatText: int -> string, parseFloat: string -> Option<int>,
    libraryText: (Kind, nat) -> string, parseLibrary: (Kind, string) -> Option<nat>,
    base64: seq<nat> -> string, parseBase64: string -> Option<seq<nat>>)

  /** Parsing undoes formatting. */
  ghost predicate Lawful(codec: Codec) {
    && (forall i :: codec.parseInt(codec.intText(i)) == Some(i))
    && (forall f :: codec.parseFloat(codec.floatText(f)) == Some(f))
    && (forall k, c: nat :: codec.parseLibrary(k, codec.libraryText(k, c)) == Some(c))
    && (forall d :: codec.parseBase64(codec.base64(d)) == Some(d))
  }

  const DAY: int := 86_400
  const MICROS: int := 1_000_000

  /** Microseconds of a normalised day/second/microsecond interval. */
  function ToMicroseconds(days: int, seconds: int, microseconds: int): int {
    (days * DAY + seconds) * MICROS + microseconds
  }

  /** The normalised interval of so many microseconds; days carry the sign. */
  function FromMicroseconds(n: int): Value {
    Interval(n / MICROS / DAY, n / MICROS % DAY, n % MICROS)
  }

  lemma IntervalRoundTrip(days: int, seconds: int, microseconds: int)
    requires 0 <= seconds < DAY && 0 <= microseconds < MICROS
    ensures FromMicroseconds(ToMicroseconds(days, seconds, microseconds)) == Interval(days, seconds, microseconds)
  {
  }

  /** The value and hint of a value; None when some part has no transport form. */
  function Transport(codec: Codec, v: Value): Option<Transported>
    decreases v
  {
    match v
    case Null => Some(Transported(v, NoHint))
    case Bool(_) => Some(Transported(v, NoHint))
    case Int(_) => Some(Transported(v, NoHint))
    case Str(_) => Some(Transported(v, NoHint))
    case Float(_) => Some(Transported(v, NoHint))
    case NotFinite => None
    case Unsupported => None
    case Library(kind, content) => Some(Transported(Str(codec.libraryText(kind, content)), LibraryHint(kind)))
    case Interval(d, s, m) => Some(Transported(Str(codec.intText(ToMicroseconds(d, s, m))), IntervalHint))
    case Bytes(_, data) => Some(Transported(Str(codec.base64(data)), BytesHint))
    case List(items) => AsArray(TransportItems(codec, v, |items|))
    case Tuple(items) => AsArray(TransportItems(codec, v, |items|))
    case Dict(entries) => AsObject(TransportEntries(codec, v, |entries|))
  }

  function AsArray(parts: Option<(seq<Value>, seq<Hint>)>): Option<Transported> {
    match parts
    case None => None
    case Some((values, hints)) =>
      var hinted := exists i :: 0 <= i < |hints| && hints[i] != NoHint;
      Some(Transported(List(values), if hinted then ArrayHint(hints) else NoHint))
  }

  function AsObject(parts: Option<(seq<(string, Value)>, seq<(string, Hint)>)>): Option<Transported> {
    match parts
    case None => None
    case Some((entries, hints)) => Some(Transported(Dict(entries), if hints != [] then ObjectHint(hints) else NoHint))
  }

  predicate Sequential(v: Value) {
    v.List? || v.Tuple?
  }

  /** The first `n` items of a list or tuple. */
  function TransportItems(codec: Codec, v: Value, n: nat): Option<(seq<Value>, seq<Hint>)>
    requires Sequential(v) && n <= |v.items|
    decreases v, n
  {
    if n == 0 then Some(([], []))
    else
      match TransportItems(codec, v, n - 1)
      case None => None
      case Some((values, hints)) =>
        match Transport(codec, v.items[n - 1])
        case None => None
        case Some(t) => Some((values + [t.value], hints + [t.hint]))
  }

  /** The first `n` entries of a dictionary; only hinted ones enter the hints. */
  function TransportEntries(codec: Codec, v: Value, n: nat): Option<(seq<(string, Value)>, seq<(string, Hint)>)>
    requires v.Dict? && n <= |v.entries|
    decreases v, n
  {
    if n == 0 then Some(([], []))
    else
      match TransportEntries(codec, v, n - 1)
      case None => None
      case Some((entries, hints)) =>
        match Transport(codec, v.entries[n - 1].1)
        case None => None
        case Some(t) =>
          var key := v.entries[n - 1].0;
          Some((entries + [(key, t.value)], if t.hint == NoHint then hints else hints + [(key, t.hint)]))
  }

  function Lookup(hints: seq<(string, Hint)>, key: string): Hint {
    if hints == [] then NoHint
    else if hints[|hints| - 1].0 == key then hints[|hints| - 1].1
    else Lookup(hints[..|hints| - 1], key)
  }

  /** Restores a JSON value by its hint; None is the invalid combination. */
  function Restore(codec: Codec, v: Value, hint: Hint): Option<Value>
    decreases v
  {
    match hint
    case NoHint => Some(v)
    case LibraryHint(kind) =>
      if !v.Str? then None
      else (match codec.parseLibrary(kind, v.s) case None => None case Some(c) => Some(Library(kind, c)))
    case IntervalHint =>
      if !v.Str? then None
      else (match codec.parseInt(v.s) case None => None case Some(n) => Some(FromMicroseconds(n)))
    case BytesHint =>
      if !v.Str? then None
      else (match codec.parseBase64(v.s) case None => None case Some(d) => Some(Bytes(PlainBytes, d)))
    case ArrayHint(hints) =>
      if !v.List? || |v.items| != |hints| then None
      else (match RestoreItems(codec, v, hints, |hints|) case None => None case Some(items) => Some(List(items)))
    case ObjectHint(hints) =>
      if !v.Dict? then None
      else (match RestoreEntries(codec, v, hints, |v.entries|)
            case None => None
            case Some(entries) => Some(Dict(entries)))
    case UnknownHint => None
  }

  function RestoreItems(codec: Codec, v: Value, hints: seq<Hint>, n: nat): Option<seq<Value>>
    requires v.List? && |v.items| == |hints| && n <= |hints|
    decreases v, n
  {
    if n == 0 then Some([])
    else
      match RestoreItems(codec, v, hints, n - 1)
      case None => None
      case Some(items) =>
        match Restore(codec, v.items[n - 1], hints[n - 1])
        case None => None
        case Some(item) => Some(items + [item])
  }

  function RestoreEntries(codec: Codec, v: Value, hints: seq<(string, Hint)>, n: nat): Option<seq<(string, Value)>>
    requires v.Dict? && n <= |v.entries|
    decreases v, n
  {
    if n == 0 then Some([])
    else
      match RestoreEntries(codec, v, hints, n - 1)
      case None => None
      case Some(entries) =>
        var key := v.entries[n - 1].0;
        match Restore(codec, v.entries[n - 1].1, Lookup(hints, key))
        case None => None
        case Some(item) => Some(entries + [(key, item)])
  }

  /** What a value comes back as: tuples as lists, every bytes-like as bytes. */
  function Normal(v: Value): Value
    decreases v
  {
    match v
    case Bytes(_, data) => Bytes(PlainBytes, data)
    case List(items) => List(NormalItems(v, |items|))
    case Tuple(items) => List(NormalItems(v, |items|))
    case Dict(entries) => Dict(NormalEntries(v, |entries|))
    case _ => v
  }

  function NormalItems(v: Value, n: nat): (items: seq<Value>)
    requires Sequential(v) && n <= |v.items|
    ensures |items| == n
    decreases v, n
  {
    if n == 0 then [] else NormalItems(v, n - 1) + [Normal(v.items[n - 1])]
  }

  function NormalEntries(v: Value, n: nat): (entries: seq<(string, Value)>)
    requires v.Dict? && n <= |v.entries|
    ensures |entries| == n
    decreases v, n
  {
    if n == 0 then [] else NormalEntries(v, n - 1) + [(v.entries[n - 1].0, Normal(v.entries[n - 1].1))]
  }

  /** Keys differ and intervals are in the library's normal form, all the way down. */
  predicate WellFormed(v: Value)
    decreases v
  {
    match v
    case Interval(_, s, m) => 0 <= s < DAY && 0 <= m < MICROS
    case List(items) => forall i :: 0 <= i < |items| ==> WellFormed(items[i])
    case Tuple(items) => forall i :: 0 <= i < |items| ==> WellFormed(items[i])
    case Dict(entries) =>
      && (forall i :: 0 <= i < |entries| ==> WellFormed(entries[i].1))
      && (forall i, j :: 0 <= i < j < |entries| ==> entries[i].0 != entries[j].0)
    case _ => true
  }

  /** No part is a non-finite float or of an unsupported type. */
  predicate Transportable(v: Value)
    decreases v
  {
    match v
    case NotFinite => false
    case Unsupported => false
    case List(items) => forall i :: 0 <= i < |items| ==> Transportable(items[i])
    case Tuple(items) => forall i :: 0 <= i < |items| ==> Transportable(items[i])
    case Dict(entries) => forall i :: 0 <= i < |entries| ==> Transportable(entries[i].1)
    case _ => true
  }

  /** The transported parts are the parts' transports. */
  lemma {:induction false} ItemsTransported(codec: Codec, v: Value, n: nat)
    requires Sequential(v) && n <= |v.items|
    ensures TransportItems(codec, v, n).Some? <==> forall i :: 0 <= i < n ==> Transport(codec, v.items[i]).Some?
    ensures TransportItems(codec, v, n).Some? ==>
              var (values, hints) := TransportItems(codec, v, n).value;
              |values| == |hints| == n && forall i :: 0 <= i < n ==>
                Transport(codec, v.items[i]) == Some(Transported(values[i], hints[i]))
    decreases n
  {
    if n > 0 {
      ItemsTransported(codec, v, n - 1);
    }
  }

  lemma {:induction false} ItemsRestored(codec: Codec, v: Value, values: seq<Value>, hints: seq<Hint>, n: nat)
    requires Lawful(codec) && WellFormed(v) && Sequential(v) && n <= |v.items| == |values| == |hints|
    requires forall i :: 0 <= i < n ==> Transport(codec, v.items[i]) == Some(Transported(values[i], hints[i]))
    ensures RestoreItems(codec, List(values), hints, n) == Some(NormalItems(v, n))
    ensures (forall i :: 0 <= i < n ==> hints[i] == NoHint) ==> values[..n] == NormalItems(v, n)
    decreases v, n
  {
    if n > 0 {
      ItemsRestored(codec, v, values, hints, n - 1);
      TransportRoundTrip(codec, v.items[n - 1]);
      ItemRestored(codec, v, values, hints, n);
    }
  }

  lemma ItemRestored(codec: Codec, v: Value, values: seq<Value>, hints: seq<Hint>, n: nat)
    requires Sequential(v) && 0 < n <= |v.items| == |values| == |hints|
    requires RestoreItems(codec, List(values), hints, n - 1) == Some(NormalItems(v, n - 1))
    requires Restore(codec, values[n - 1], hints[n - 1]) == Some(Normal(v.items[n - 1]))
    requires hints[n - 1] == NoHint ==> values[n - 1] == Normal(v.items[n - 1])
    ensures RestoreItems(codec, List(values), hints, n) == Some(NormalItems(v, n))
    ensures values[..n - 1] == NormalItems(v, n - 1) && hints[n - 1] == NoHint ==> values[..n] == NormalItems(v, n)
  {
    assert values[..n] == values[..n - 1] + [values[n - 1]];
  }

  /** What a dictionary's hints say of a key: its own value's hint, and nothing for a key not there. */
  lemma {:induction false} EntriesTransported(codec: Codec, v: Value, n: nat)
    requires WellFormed(v) && v.Dict? && n <= |v.entries|
    ensures TransportEntries(codec, v, n).Some? <==> forall i :: 0 <= i < n ==> Transport(codec, v.entries[i].1).Some?
    ensures TransportEntries(codec, v, n).Some? ==>
              var (entries, hints) := TransportEntries(codec, v, n).value;
              && |entries| == n
              && (forall i :: 0 <= i < n ==> EntryTransported(codec, v, entries, hints, i))
              && (forall key :: (forall i :: 0 <= i < n ==> v.entries[i].0 != key) ==> Lookup(hints, key) == NoHint)
    decreases n
  {
    if n > 0 {
      EntriesTransported(codec, v, n - 1);
      if TransportEntries(codec, v, n).Some? {
        EntryAppended(codec, v, n);
      }
    }
  }

  predicate EntryTransported(codec: Codec, v: Value, entries: seq<(string, Value)>, hints: seq<(string, Hint)>, i: int)
    requires v.Dict? && 0 <= i < |v.entries| && i < |entries|
  {
    entries[i].0 == v.entries[i].0 &&
    Transport(codec, v.entries[i].1) == Some(Transported(entries[i].1, Lookup(hints, v.entries[i].0)))
  }

  lemma EntryAppended(codec: Codec, v: Value, n: nat)
    requires WellFormed(v) && v.Dict? && 0 < n <= |v.entries| && TransportEntries(codec, v, n).Some?
    requires var (entries, hints) := TransportEntries(codec, v, n - 1).value;
             && |entries| == n - 1
             && (forall i :: 0 <= i < n - 1 ==> EntryTransported(codec, v, entries, hints, i))
             && (forall key :: (forall i :: 0 <= i < n - 1 ==> v.entries[i].0 != key) ==> Lookup(hints, key) == NoHint)
    ensures var (entries, hints) := TransportEntries(codec, v, n).value;
            && |entries| == n
            && (forall i :: 0 <= i < n ==> EntryTransported(codec, v, entries, hints, i))
            && (forall key :: (forall i :: 0 <= i < n ==> v.entries[i].0 != key) ==> Lookup(hints, key) == NoHint)
  {
    var (before, known) := TransportEntries(codec, v, n - 1).value;
    var (entries, hints) := TransportEntries(codec, v, n).value;
    var key, t := v.entries[n - 1].0, Transport(codec, v.entries[n - 1].1).value;
    assert Lookup(known, key) == NoHint;
    forall other ensures Lookup(hints, other) == if other == key then t.hint else Lookup(known, other) {
      if t.hint != NoHint {
        assert hints[..|hints| - 1] == known;
      }
    }
    forall i | 0 <= i < n ensures EntryTransported(codec, v, entries, hints, i) {
      if i < n - 1 {
        assert EntryTransported(codec, v, before, known, i);
      }
    }
    forall other | forall i :: 0 <= i < n ==> v.entries[i].0 != other ensures Lookup(hints, other) == NoHint {
      assert other != key;
    }
  }

  lemma {:induction false} EntriesRestored(codec: Codec, v: Value, entries: seq<(string, Value)>,
                                           hints: seq<(string, Hint)>, n: nat)
    requires Lawful(codec) && WellFormed(v) && v.Dict? && n <= |v.entries| == |entries|
    requires forall i :: 0 <= i < |entries| ==> EntryTransported(codec, v, entries, hints, i)
    ensures RestoreEntries(codec, Dict(entries), hints, n) == Some(NormalEntries(v, n))
    ensures hints == [] ==> entries[..n] == NormalEntries(v, n)
    decreases v, n
  {
    if n > 0 {
      EntriesRestored(codec, v, entries, hints, n - 1);
      assert EntryTransported(codec, v, entries, hints, n - 1);
      TransportRoundTrip(codec, v.entries[n - 1].1);
      assert entries[..n] == entries[..n - 1] + [entries[n - 1]];
    }
  }

  /** Round trip: every transportable value comes back in normal form, and without a hint it is that already. */
  lemma {:induction false} TransportRoundTrip(codec: Codec, v: Value)
    requires Lawful(codec) && WellFormed(v)
    ensures Transport(codec, v).Some? ==>
              var t := Transport(codec, v).value;
              && Restore(codec, t.value, t.hint) == Some(Normal(v))
              && (t.hint == NoHint ==> t.value == Normal(v))
    decreases v
  {
    if Transport(codec, v).Some? {
      match v {
        case List(_) => SequenceRoundTrip(codec, v);
        case Tuple(_) => SequenceRoundTrip(codec, v);
        case Dict(_) => DictRoundTrip(codec, v);
        case Interval(d, s, m) => IntervalRoundTrip(d, s, m);
        case _ =>
      }
    }
  }

  lemma {:induction false} SequenceRoundTrip(codec: Codec, v: Value)
    requires Lawful(codec) && WellFormed(v) && Sequential(v) && Transport(codec, v).Some?
    ensures var t := Transport(codec, v).value;
            && Restore(codec, t.value, t.hint) == Some(Normal(v))
            && (t.hint == NoHint ==> t.value == Normal(v))
    decreases v, |v.items| + 1
  {
    ItemsTransported(codec, v, |v.items|);
    var (values, hints) := TransportItems(codec, v, |v.items|).value;
    ItemsRestored(codec, v, values, hints, |v.items|);
    ArrayRestored(codec, v, values, hints);
  }

  lemma ArrayRestored(codec: Codec, v: Value, values: seq<Value>, hints: seq<Hint>)
    requires Sequential(v) && |values| == |hints| == |v.items|
    requires RestoreItems(codec, List(values), hints, |hints|) == Some(NormalItems(v, |v.items|))
    requires (forall i :: 0 <= i < |hints| ==> hints[i] == NoHint) ==> values[..|hints|] == NormalItems(v, |v.items|)
    ensures var t := AsArray(Some((values, hints))).value;
            && Restore(codec, t.value, t.hint) == Some(Normal(v))
            && (t.hint == NoHint ==> t.value == Normal(v))
  {
    assert values[..|hints|] == values;
    assert Normal(v) == List(NormalItems(v, |v.items|));
  }

  lemma {:induction false} DictRoundTrip(codec: Codec, v: Value)
    requires Lawful(codec) && WellFormed(v) && v.Dict? && Transport(codec, v).Some?
    ensures var t := Transport(codec, v).value;
            && Restore(codec, t.value, t.hint) == Some(Normal(v))
            && (t.hint == NoHint ==> t.value == Normal(v))
    decreases v, |v.entries| + 1
  {
    EntriesTransported(codec, v, |v.entries|);
    var (entries, hints) := TransportEntries(codec, v, |v.entries|).value;
    EntriesRestored(codec, v, entries, hints, |v.entries|);
    assert entries[..|entries|] == entries;
  }

  /** Transport fails exactly on values with a non-finite float or an unsupported part. */
  lemma {:induction false} TransportSucceedsIff(codec: Codec, v: Value)
    requires WellFormed(v)
    ensures Transport(codec, v).Some? <==> Transportable(v)
    decreases v
  {
    if Sequential(v) {
      ItemsTransported(codec, v, |v.items|);
      forall i | 0 <= i < |v.items| ensures Transport(codec, v.items[i]).Some? <==> Transportable(v.items[i]) {
        TransportSucceedsIff(codec, v.items[i]);
      }
    } else if v.Dict? {
      EntriesTransported(codec, v, |v.entries|);
      forall i | 0 <= i < |v.entries|
        ensures Transport(codec, v.entries[i].1).Some? <==> Transportable(v.entries[i].1)
      {
        TransportSucceedsIff(codec, v.entries[i].1);
      }
    }
  }

  /** The transport loops: encoded items and hints fill in step. */
  method TransportValue(codec: Codec, v: Value) returns (transported: Option<Transported>)
    ensures transported == Transport(codec, v)
    decreases v
  {
    if v.List? || v.Tuple? {
      var encodedItems: seq<Value>, arrayHints: seq<Hint> := [], [];
      for n := 0 to |v.items|
        invariant TransportItems(codec, v, n) == Some((encodedItems, arrayHints))
      {
        var item := TransportValue(codec, v.items[n]);
        if item.None? {
          ItemsStop(codec, v, n + 1, |v.items|);
          return None;
        }
        encodedItems, arrayHints := encodedItems + [item.value.value], arrayHints + [item.value.hint];
      }
      return AsArray(Some((encodedItems, arrayHints)));
    }
    if v.Dict? {
      var encoded: seq<(string, Value)>, hints: seq<(string, Hint)> := [], [];
      for n := 0 to |v.entries|
        invariant TransportEntries(codec, v, n) == Some((encoded, hints))
      {
        var (key, part) := v.entries[n];
        var item := TransportValue(codec, part);
        if item.None? {
          EntriesStop(codec, v, n + 1, |v.entries|);
          return None;
        }
        encoded := encoded + [(key, item.value.value)];
        if item.value.hint != NoHint {
          hints := hints + [(key, item.value.hint)];
        }
      }
      return AsObject(Some((encoded, hints)));
    }
    transported := Transport(codec, v);
  }

  lemma {:induction false} ItemsStop(codec: Codec, v: Value, n: nat, m: nat)
    requires Sequential(v) && n <= m <= |v.items| && TransportItems(codec, v, n).None?
    ensures TransportItems(codec, v, m).None?
    decreases m
  {
    if n < m {
      ItemsStop(codec, v, n, m - 1);
    }
  }

  lemma {:induction false} EntriesStop(codec: Codec, v: Value, n: nat, m: nat)
    requires v.Dict? && n <= m <= |v.entries| && TransportEntries(codec, v, n).None?
    ensures TransportEntries(codec, v, m).None?
    decreases m
  {
    if n < m {
      EntriesStop(codec, v, n, m - 1);
    }
  }

  function KindTag(kind: Kind): string {
    match kind
    case Decimal => "decimal"
    case DateTime => "datetime"
    case Date => "date"
    case Time => "time"
    case Uuid => "uuid"
  }

  function Tagged(kind: string, raw: Value): Value {
    Dict([("type", Str(kind)), ("value", raw)])
  }

  /** A checkpoint scalar as a tagged object; None for a null, a container or an unsupported type. */
  function EncodeScalar(codec: Codec, v: Value): Option<Value> {
    match v
    case Bool(_) => Some(Tagged("bool", v))
    case Int(i) => Some(Tagged("int", Str(codec.intText(i))))
    case Float(f) => Some(Tagged("float", Str(codec.floatText(f))))
    case Str(_) => Some(Tagged("str", v))
    case Library(kind, content) => Some(Tagged(KindTag(kind), Str(codec.libraryText(kind, content))))
    case Bytes(form, data) => if form.PlainBytes? then Some(Tagged("bytes", Str(codec.base64(data)))) else None
    case _ => None
  }

  function Get(entries: seq<(string, Value)>, key: string): Value {
    if entries == [] then Null
    else if entries[0].0 == key then entries[0].1
    else Get(entries[1..], key)
  }

  function KindOf(tag: string): Option<Kind> {
    if tag == "decimal" then Some(Decimal)
    else if tag == "datetime" then Some(DateTime)
    else if tag == "date" then Some(Date)
    else if tag == "time" then Some(Time)
    else if tag == "uuid" then Some(Uuid)
    else None
  }

  function DecodeScalar(codec: Codec, v: Value): Option<Value> {
    if !v.Dict? then None
    else
      var kind, raw := Get(v.entries, "type"), Get(v.entries, "value");
      if !kind.Str? then None
      else if kind.s == "bool" then if raw.Bool? then Some(raw) else None
      else if !raw.Str? then None
      else if kind.s == "int" then MapSome(codec.parseInt(raw.s), (i: int) => Int(i))
      else if kind.s == "float" then MapSome(codec.parseFloat(raw.s), (f: int) => Float(f))
      else if kind.s == "str" then Some(raw)
      else if kind.s == "bytes" then MapSome(codec.parseBase64(raw.s), (d: seq<nat>) => Bytes(PlainBytes, d))
      else
        match KindOf(kind.s)
        case None => None
        case Some(k) => MapSome(codec.parseLibrary(k, raw.s), (c: nat) => Library(k, c))
  }

  function MapSome<A, B>(a: Option<A>, f: A -> B): Option<B> {
    match a
    case None => None
    case Some(x) => Some(f(x))
  }

  /** Every scalar that can be a checkpoint key decodes to itself, of the same type. */
  lemma ScalarRoundTrip(codec: Codec, v: Value)
    requires Lawful(codec)
    ensures EncodeScalar(codec, v).Some? ==> DecodeScalar(codec, EncodeScalar(codec, v).value) == Some(v)
    ensures EncodeScalar(codec, v).Some? <==>
              v.Bool? || v.Int? || v.Float? || v.Str? || v.Library? || (v.Bytes? && v.form.PlainBytes?)
  {
    if EncodeScalar(codec, v).Some? {
      var e := EncodeScalar(codec, v).value;
      TaggedParts(e.entries[0].1, e.entries[1].1);
      TagsDiffer();
    }
  }

  lemma TaggedParts(kind: Value, raw: Value)
    ensures Get([("type", kind), ("value", raw)], "type") == kind
    ensures Get([("type", kind), ("value", raw)], "value") == raw
  {
    assert [("type", kind), ("value", raw)][1..][0] == ("value", raw);
    assert "type"[0] != "value"[0];
  }

  lemma TagsDiffer()
    ensures forall k :: KindOf(KindTag(k)) == Some(k)
    ensures forall k :: KindTag(k) !in {"bool", "int", "float", "str", "bytes"}
  {
    assert "date"[2] != "decimal"[2];
    assert "datetime"[2] != "decimal"[2];
    assert "time"[0] != "decimal"[0] && "uuid"[0] != "decimal"[0];
  }
}
