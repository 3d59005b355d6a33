/** Recursive text splitting: what the chunks and the separators dropped between them make up. */
module RecursiveSplitter {
  import opened Wrappers

  /** `s` occurs in `text` at position `i`. */
  predicate OccursAt(s: string, text: string, i: nat) {
    i + |s| <= |text| && text[i..i + |s|] == s
  }

  predicate Occurs(s: string, text: string) {
    exists i: nat :: i <= |text| && OccursAt(s, text, i)
  }

  /** The first occurrence at or after `from`, or the length of the text. */
  function FirstOccurrence(s: string, text: string, from: nat): (i: nat)
    requires from <= |text|
    ensures from <= i <= |text|
    ensures i < |text| ==> OccursAt(s, text, i)
    ensures s != "" ==> forall j: nat :: from <= j < i ==> !OccursAt(s, text, j)
    decreases |text| - from
  {
    if from == |text| || OccursAt(s, text, from) then from else FirstOccurrence(s, text, from + 1)
  }

  /** Leftmost, non-overlapping splitting on a non-empty separator. */
  function SplitOn(text: string, separator: string): (pieces: seq<string>)
    requires separator != ""
    ensures pieces != []
    decreases |text|
  {
    var i := FirstOccurrence(separator, text, 0);
    if i == |text| then [text] else [text[..i]] + SplitOn(text[i + |separator|..], separator)
  }

  function Joined(pieces: seq<string>, separator: string): string {
    if pieces == [] then ""
    else if |pieces| == 1 then pieces[0]
    else Joined(pieces[..|pieces| - 1], separator) + separator + pieces[|pieces| - 1]
  }

  lemma JoinedEnd(init: seq<string>, piece: string, separator: string)
    ensures Joined(init + [piece], separator) ==
            Joined(init, separator) + (if init == [] then "" else separator) + piece
  {
    var all := init + [piece];
    assert all[..|all| - 1] == init;
  }

  lemma {:induction false} JoinedFront(first: string, pieces: seq<string>, separator: string)
    requires pieces != []
    ensures Joined([first] + pieces, separator) == first + separator + Joined(pieces, separator)
  {
    if |pieces| == 1 {
      JoinedEnd([first], pieces[0], separator);
      assert [first] + pieces == [first] + [pieces[0]];
    } else {
      var init, last := pieces[..|pieces| - 1], pieces[|pieces| - 1];
      JoinedFront(first, init, separator);
      JoinedEnd([first] + init, last, separator);
      JoinedEnd(init, last, separator);
      assert init + [last] == pieces && [first] + pieces == [first] + init + [last];
    }
  }

  /** Splitting loses only the separators. */
  lemma {:induction false} SplitOnInverse(text: string, separator: string)
    requires separator != ""
    ensures Joined(SplitOn(text, separator), separator) == text
    decreases |text|
  {
    var i := FirstOccurrence(separator, text, 0);
    if i < |text| {
      var first, rest := text[..i], text[i + |separator|..];
      SplitOnInverse(rest, separator);
      JoinedFront(first, SplitOn(rest, separator), separator);
      CutAround(text, separator, i);
      assert SplitOn(text, separator) == [first] + SplitOn(rest, separator);
    } else {
      assert SplitOn(text, separator) == [text];
    }
  }

  lemma CutAround(text: string, separator: string, i: nat)
    requires OccursAt(separator, text, i)
    ensures text == text[..i] + separator + text[i + |separator|..]
  {
    assert text == text[..i] + text[i..i + |separator|] + text[i + |separator|..];
  }

  /** No piece contains the separator. */
  lemma {:induction false} PiecesAreFree(text: string, separator: string)
    requires separator != ""
    ensures forall p :: p in SplitOn(text, separator) ==> !Occurs(separator, p)
    decreases |text|
  {
    var i := FirstOccurrence(separator, text, 0);
    PrefixIsFree(text, separator, i);
    if i == |text| {
      assert text[..i] == text;
    } else {
      PiecesAreFree(text[i + |separator|..], separator);
    }
  }

  lemma PrefixIsFree(text: string, separator: string, i: nat)
    requires separator != "" && i <= |text| && forall j: nat :: j < i ==> !OccursAt(separator, text, j)
    ensures !Occurs(separator, text[..i])
  {
    forall j: nat | j <= i ensures !OccursAt(separator, text[..i], j) {
      if j + |separator| <= i {
        assert text[..i][j..j + |separator|] == text[j..j + |separator|];
        assert !OccursAt(separator, text, j);
      }
    }
  }

  /** Pieces packed so far: finished chunks and the one being filled. */
  datatype Packing = Packing(chunks: seq<string>, current: string)

  function Flushed(p: Packing): seq<string> {
    if p.current == "" then p.chunks else p.chunks + [p.current]
  }

  function ByChar(text: string, size: nat): seq<string>
    requires size > 0
  {
    if text == "" then [] else if |text| <= size then [text] else [text[..size]] + ByChar(text[size..], size)
  }

  /** The chunks of a text; None when an empty separator has to be split on. */
  function Chunks(text: string, separators: seq<string>, size: nat): Option<seq<string>>
    requires size > 0
    decreases |separators|, 0
  {
    if text == "" then Some([])
    else if |text| <= size then Some([text])
    else if separators == [] then Some(ByChar(text, size))
    else if separators[0] == "" then None
    else
      match Pack(SplitOn(text, separators[0]), separators, size)
      case None => None
      case Some(p) => Some(Flushed(p))
  }

  /** Pieces fill a chunk while they fit; one that is too large is split by the remaining separators. */
  function Pack(pieces: seq<string>, separators: seq<string>, size: nat): Option<Packing>
    requires size > 0 && separators != []
    decreases |separators| - 1, |pieces| + 1
  {
    if pieces == [] then Some(Packing([], ""))
    else
      match Pack(pieces[..|pieces| - 1], separators, size)
      case None => None
      case Some(p) =>
        var piece := pieces[|pieces| - 1];
        if |piece| > size then
          match Chunks(piece, separators[1..], size)
          case None => None
          case Some(sub) => Some(Packing(Flushed(p) + sub, ""))
        else if p.current == "" then Some(p.(current := piece))
        else if |p.current| + |separators[0]| + |piece| <= size then
          Some(p.(current := p.current + separators[0] + piece))
        else Some(Packing(p.chunks + [p.current], piece))
  }

  /** A stretch of the text: kept as a chunk, or a separator dropped between chunks. */
  datatype Part = Kept(text: string) | Dropped(text: string)

  /** The text of the first `n` parts. */
  function TextUpTo(parts: seq<Part>, n: nat): string
    requires n <= |parts|
  {
    if n == 0 then "" else TextUpTo(parts, n - 1) + parts[n - 1].text
  }

  /** The chunks among the first `n` parts. */
  function KeptUpTo(parts: seq<Part>, n: nat): seq<string>
    requires n <= |parts|
  {
    if n == 0 then []
    else if parts[n - 1].Kept? then KeptUpTo(parts, n - 1) + [parts[n - 1].text]
    else KeptUpTo(parts, n - 1)
  }

  function TextOf(parts: seq<Part>): string {
    TextUpTo(parts, |parts|)
  }

  function KeptOf(parts: seq<Part>): seq<string> {
    KeptUpTo(parts, |parts|)
  }

  lemma PartsConcat(a: seq<Part>, b: seq<Part>)
    ensures TextOf(a + b) == TextOf(a) + TextOf(b)
    ensures KeptOf(a + b) == KeptOf(a) + KeptOf(b)
  {
    ConcatFront(a, b, |a|);
    ConcatBack(a, b, |b|);
  }

  lemma {:induction false} ConcatFront(a: seq<Part>, b: seq<Part>, n: nat)
    requires n <= |a|
    ensures TextUpTo(a + b, n) == TextUpTo(a, n) && KeptUpTo(a + b, n) == KeptUpTo(a, n)
  {
    if n > 0 {
      ConcatFront(a, b, n - 1);
    }
  }

  lemma {:induction false} ConcatBack(a: seq<Part>, b: seq<Part>, n: nat)
    requires n <= |b| && TextUpTo(a + b, |a|) == TextOf(a) && KeptUpTo(a + b, |a|) == KeptOf(a)
    ensures TextUpTo(a + b, |a| + n) == TextOf(a) + TextUpTo(b, n)
    ensures KeptUpTo(a + b, |a| + n) == KeptOf(a) + KeptUpTo(b, n)
  {
    if n > 0 {
      ConcatBack(a, b, n - 1);
      Associate(TextOf(a), TextUpTo(b, n - 1), b[n - 1].text);
      Associate(KeptOf(a), KeptUpTo(b, n - 1), [b[n - 1].text]);
    }
  }

  lemma Associate<T>(a: seq<T>, b: seq<T>, c: seq<T>)
    ensures a + (b + c) == a + b + c
  {
  }

  lemma OnePart(part: Part)
    ensures TextOf([part]) == part.text
    ensures KeptOf([part]) == if part.Kept? then [part.text] else []
  {
    assert TextUpTo([part], 0) == "" && KeptUpTo([part], 0) == [];
  }

  predicate PartOk(separators: seq<string>, size: nat, part: Part) {
    match part
    case Kept(text) => 0 < |text| <= size
    case Dropped(text) => text in separators
  }

  /** Two chunks meet without a separator only inside a run that has none, cut at full size. */
  predicate JointOk(separators: seq<string>, size: nat, a: Part, b: Part) {
    a.Kept? && b.Kept? ==> |a.text| == size && forall s :: s in separators ==> !Occurs(s, a.text + b.text)
  }

  predicate Sound(separators: seq<string>, size: nat, parts: seq<Part>) {
    && (forall i :: 0 <= i < |parts| ==> PartOk(separators, size, parts[i]))
    && (forall i {:trigger Joint(separators, size, parts, i)} :: 0 < i < |parts| ==> Joint(separators, size, parts, i))
  }

  predicate Joint(separators: seq<string>, size: nat, parts: seq<Part>, i: int)
    requires 0 < i < |parts|
  {
    JointOk(separators, size, parts[i - 1], parts[i])
  }

  /** The chunks, interleaved with dropped separators, are the text. */
  predicate Conserves(text: string, separators: seq<string>, size: nat, chunks: seq<string>, parts: seq<Part>) {
    TextOf(parts) == text && KeptOf(parts) == chunks && Sound(separators, size, parts)
  }

  lemma SoundConcat(separators: seq<string>, size: nat, a: seq<Part>, b: seq<Part>)
    requires Sound(separators, size, a) && Sound(separators, size, b)
    requires a != [] && b != [] ==> JointOk(separators, size, a[|a| - 1], b[0])
    ensures Sound(separators, size, a + b)
  {
    forall i | 0 < i < |a + b| ensures Joint(separators, size, a + b, i) {
      if i < |a| {
        assert Joint(separators, size, a, i);
      } else if i > |a| {
        assert Joint(separators, size, b, i - |a|);
      }
    }
  }

  lemma SliceOfSlice(text: string, i: nat, n: nat, j: nat, m: nat)
    requires i + n <= |text| && j + m <= n
    ensures text[i..i + n][j..j + m] == text[i + j..i + j + m]
  {
    var a, b := text[i..i + n][j..j + m], text[i + j..i + j + m];
    forall k | 0 <= k < m ensures a[k] == b[k] {
    }
    assert a == b;
  }

  lemma OccursInside(s: string, a: string, text: string, i: nat)
    requires OccursAt(a, text, i) && Occurs(s, a)
    ensures Occurs(s, text)
  {
    var j: nat :| j <= |a| && OccursAt(s, a, j);
    SliceOfSlice(text, i, |a|, j, |s|);
    assert OccursAt(s, text, i + j);
  }

  /** What two neighbouring parts contain, the text contains. */
  lemma PairInText(parts: seq<Part>, i: nat, s: string)
    requires 0 < i < |parts| && Occurs(s, parts[i - 1].text + parts[i].text)
    ensures Occurs(s, TextOf(parts))
  {
    var pair := [parts[i - 1], parts[i]];
    var before, after := parts[..i - 1], parts[i + 1..];
    assert parts == before + pair + after;
    PartsConcat(before + pair, after);
    PartsConcat(before, pair);
    PartsConcat([parts[i - 1]], [parts[i]]);
    assert pair == [parts[i - 1]] + [parts[i]];
    OnePart(parts[i - 1]);
    OnePart(parts[i]);
    OccursInside(s, TextOf(pair), TextOf(parts), |TextOf(before)|);
  }

  /** Soundness for the later separators, over a text free of the first one, is soundness for all. */
  lemma SoundWithFirst(separators: seq<string>, size: nat, parts: seq<Part>)
    requires separators != [] && Sound(separators[1..], size, parts) && !Occurs(separators[0], TextOf(parts))
    ensures Sound(separators, size, parts)
  {
    forall i | 0 < i < |parts| ensures Joint(separators, size, parts, i) {
      assert Joint(separators[1..], size, parts, i);
      assert separators == [separators[0]] + separators[1..];
      if Occurs(separators[0], parts[i - 1].text + parts[i].text) {
        PairInText(parts, i, separators[0]);
      }
    }
    forall i | 0 <= i < |parts| ensures PartOk(separators, size, parts[i]) {
      assert PartOk(separators[1..], size, parts[i]);
    }
  }

  function Filled(current: string): seq<Part> {
    if current == "" then [] else [Kept(current)]
  }

  function ByCharParts(chunks: seq<string>): seq<Part> {
    if chunks == [] then [] else [Kept(chunks[0])] + ByCharParts(chunks[1..])
  }

  /** The parts a split text falls into. */
  function PartsOf(text: string, separators: seq<string>, size: nat): seq<Part>
    requires size > 0 && Chunks(text, separators, size).Some?
    decreases |separators|, 0
  {
    if |text| <= size then Filled(text)
    else if separators == [] then ByCharParts(ByChar(text, size))
    else
      var pieces := SplitOn(text, separators[0]);
      PackParts(pieces, separators, size) + Filled(Pack(pieces, separators, size).value.current)
  }

  /** The finished parts of a packing: the chunk being filled is not among them. */
  function PackParts(pieces: seq<string>, separators: seq<string>, size: nat): seq<Part>
    requires size > 0 && separators != [] && Pack(pieces, separators, size).Some?
    decreases |separators| - 1, |pieces| + 1
  {
    if pieces == [] then []
    else
      var init, piece := pieces[..|pieces| - 1], pieces[|pieces| - 1];
      var p, before := Pack(init, separators, size).value, PackParts(init, separators, size);
      var closed := if init == [] then [] else before + Filled(p.current) + [Dropped(separators[0])];
      if |piece| > size then closed + PartsOf(piece, separators[1..], size)
      else if p.current != "" && |p.current| + |separators[0]| + |piece| <= size then before
      else closed
  }

  /** What packing keeps: finished parts, then the text of the chunk being filled. */
  predicate PackConserves(pieces: seq<string>, separators: seq<string>, size: nat, p: Packing, parts: seq<Part>)
    requires separators != []
  {
    && TextOf(parts) + p.current == Joined(pieces, separators[0]) && KeptOf(parts) == p.chunks
    && Sound(separators, size, parts) && |p.current| <= size
    && (p.current != "" && parts != [] ==> parts[|parts| - 1].Dropped?)
    && (pieces == [] ==> parts == [])
  }

  /** The parts before the next piece: the filled chunk, then the separator. */
  lemma Extend(pieces: seq<string>, separators: seq<string>, size: nat, p: Packing, parts: seq<Part>, tail: seq<Part>)
    requires separators != [] && PackConserves(pieces, separators, size, p, parts)
    requires Sound(separators, size, tail) && (tail != [] && p.current != "" ==> tail[0].Dropped?)
    requires p.current == "" && parts != [] && tail != [] ==> tail[0].Dropped?
    ensures var before := parts + Filled(p.current);
            && Sound(separators, size, before + tail)
            && TextOf(before + tail) == Joined(pieces, separators[0]) + TextOf(tail)
            && KeptOf(before + tail) == Flushed(p) + KeptOf(tail)
  {
    var filled := Filled(p.current);
    if p.current != "" {
      OnePart(Kept(p.current));
    }
    PartsConcat(parts, filled);
    PartsConcat(parts + filled, tail);
    SoundConcat(separators, size, parts, filled);
    SoundConcat(separators, size, parts + filled, tail);
  }

  lemma {:induction false} PackKeeps(pieces: seq<string>, separators: seq<string>, size: nat) returns (parts: seq<Part>)
    requires size > 0 && separators != [] && separators[0] != ""
    requires forall p :: p in pieces ==> !Occurs(separators[0], p)
    requires Pack(pieces, separators, size).Some?
    ensures PackConserves(pieces, separators, size, Pack(pieces, separators, size).value, parts)
    ensures parts == PackParts(pieces, separators, size)
    decreases |separators| - 1, |pieces| + 1
  {
    parts := [];
    if pieces != [] {
      var init, piece := pieces[..|pieces| - 1], pieces[|pieces| - 1];
      assert pieces == init + [piece];
      var p := Pack(init, separators, size).value;
      var before := PackKeeps(init, separators, size);
      if |piece| > size {
        var sub := SplitKeeps(piece, separators[1..], size);
        assert piece in pieces;
        SoundWithFirst(separators, size, sub);
        parts := PackLarge(init, piece, separators, size, p, before, sub);
      } else {
        parts := PackSmall(init, piece, separators, size, p, before);
      }
    }
  }

  lemma PackLarge(init: seq<string>, piece: string, separators: seq<string>, size: nat, p: Packing, before: seq<Part>,
                  sub: seq<Part>)
    returns (parts: seq<Part>)
    requires separators != [] && PackConserves(init, separators, size, p, before) && Sound(separators, size, sub)
    requires TextOf(sub) == piece && (init == [] ==> p == Packing([], ""))
    ensures PackConserves(init + [piece], separators, size, Packing(Flushed(p) + KeptOf(sub), ""), parts)
    ensures parts == (if init == [] then [] else before + Filled(p.current) + [Dropped(separators[0])]) + sub
  {
    JoinedEnd(init, piece, separators[0]);
    if init == [] {
      parts := sub;
    } else {
      var closed := CloseChunk(init, separators, size, p, before);
      PartsConcat(closed, sub);
      SoundConcat(separators, size, closed, sub);
      parts := closed + sub;
    }
  }

  lemma PackSmall(init: seq<string>, piece: string, separators: seq<string>, size: nat, p: Packing, before: seq<Part>)
    returns (parts: seq<Part>)
    requires separators != [] && PackConserves(init, separators, size, p, before) && |piece| <= size
    requires init == [] ==> p == Packing([], "")
    ensures PackConserves(init + [piece], separators, size,
              if p.current == "" then p.(current := piece)
              else if |p.current| + |separators[0]| + |piece| <= size then
                  p.(current := p.current + separators[0] + piece)
              else Packing(p.chunks + [p.current], piece), parts)
    ensures parts == if p.current != "" && |p.current| + |separators[0]| + |piece| <= size then before
                     else if init == [] then [] else before + Filled(p.current) + [Dropped(separators[0])]
  {
    JoinedEnd(init, piece, separators[0]);
    if p.current != "" && |p.current| + |separators[0]| + |piece| <= size {
      parts := before;
      assert TextOf(parts) + (p.current + separators[0] + piece) == TextOf(parts) + p.current + separators[0] + piece;
    } else if init == [] {
      parts := [];
    } else {
      parts := CloseChunk(init, separators, size, p, before);
    }
  }

  /** Ends the chunk being filled, if any, and drops the separator that follows it. */
  lemma CloseChunk(init: seq<string>, separators: seq<string>, size: nat, p: Packing, before: seq<Part>)
    returns (parts: seq<Part>)
    requires separators != [] && PackConserves(init, separators, size, p, before)
    ensures TextOf(parts) == Joined(init, separators[0]) + separators[0] && KeptOf(parts) == Flushed(p)
    ensures Sound(separators, size, parts) && parts != [] && parts[|parts| - 1].Dropped?
    ensures parts == before + Filled(p.current) + [Dropped(separators[0])]
  {
    var lead := [Dropped(separators[0])];
    OnePart(Dropped(separators[0]));
    Extend(init, separators, size, p, before, lead);
    parts := before + Filled(p.current) + lead;
  }

  lemma {:induction false} ByCharKeeps(text: string, separators: seq<string>, size: nat) returns (parts: seq<Part>)
    requires size > 0 && separators == []
    ensures Conserves(text, separators, size, ByChar(text, size), parts) && parts == ByCharParts(ByChar(text, size))
    ensures forall i :: 0 <= i < |parts| ==> parts[i].Kept?
    decreases |text|
  {
    if |text| <= size {
      parts := if text == "" then [] else [Kept(text)];
      OnePart(Kept(text));
    } else {
      var head, tail := text[..size], text[size..];
      var rest := ByCharKeeps(tail, separators, size);
      assert text == head + tail;
      parts := FullSizePart(head, tail, ByChar(tail, size), separators, size, rest);
    }
  }

  lemma FullSizePart(head: string, tail: string, chunks: seq<string>, separators: seq<string>, size: nat,
                     rest: seq<Part>)
    returns (parts: seq<Part>)
    requires separators == [] && |head| == size > 0 && Conserves(tail, separators, size, chunks, rest)
    requires rest == ByCharParts(chunks) && forall i :: 0 <= i < |rest| ==> rest[i].Kept?
    ensures parts == ByCharParts([head] + chunks)
    ensures Conserves(head + tail, separators, size, [head] + chunks, parts)
    ensures forall i :: 0 <= i < |parts| ==> parts[i].Kept?
  {
    OnePart(Kept(head));
    PartsConcat([Kept(head)], rest);
    SoundConcat(separators, size, [Kept(head)], rest);
    parts := [Kept(head)] + rest;
  }

  /** Conservation: whenever splitting succeeds, chunks and dropped separators make up the text. */
  lemma {:induction false} SplitKeeps(text: string, separators: seq<string>, size: nat) returns (parts: seq<Part>)
    requires size > 0 && Chunks(text, separators, size).Some?
    ensures Conserves(text, separators, size, Chunks(text, separators, size).value, parts)
    ensures parts == PartsOf(text, separators, size)
    decreases |separators|, 0
  {
    if |text| <= size {
      parts := if text == "" then [] else [Kept(text)];
      OnePart(Kept(text));
    } else if separators == [] {
      parts := ByCharKeeps(text, separators, size);
    } else {
      var pieces := SplitOn(text, separators[0]);
      PiecesAreFree(text, separators[0]);
      SplitOnInverse(text, separators[0]);
      var p := Pack(pieces, separators, size).value;
      var packed := PackKeeps(pieces, separators, size);
      Extend(pieces, separators, size, p, packed, []);
      parts := packed + Filled(p.current) + [];
    }
  }

  /** Without an empty separator, splitting never fails. */
  lemma {:induction false} NonEmptySeparatorsSplit(text: string, separators: seq<string>, size: nat)
    requires size > 0 && forall s :: s in separators ==> s != ""
    ensures Chunks(text, separators, size).Some?
    decreases |separators|, 0
  {
    if |text| > size && separators != [] {
      assert separators[0] in separators;
      NonEmptySeparatorsPack(SplitOn(text, separators[0]), separators, size);
    }
  }

  lemma {:induction false} NonEmptySeparatorsPack(pieces: seq<string>, separators: seq<string>, size: nat)
    requires size > 0 && separators != [] && forall s :: s in separators ==> s != ""
    ensures Pack(pieces, separators, size).Some?
    decreases |separators| - 1, |pieces| + 1
  {
    if pieces != [] {
      NonEmptySeparatorsPack(pieces[..|pieces| - 1], separators, size);
      forall s | s in separators[1..] ensures s != "" {
        assert s in separators;
      }
      NonEmptySeparatorsSplit(pieces[|pieces| - 1], separators[1..], size);
    }
  }

  /** Splitting fails exactly when a piece still too long for a chunk meets an empty separator. */
  predicate MeetsEmptySeparator(text: string, separators: seq<string>, size: nat)
    decreases |separators|
  {
    |text| > size && separators != [] &&
    (separators[0] == "" ||
     exists p :: p in SplitOn(text, separators[0]) && MeetsEmptySeparator(p, separators[1..], size))
  }

  lemma {:induction false} SplitFailsIff(text: string, separators: seq<string>, size: nat)
    requires size > 0
    ensures Chunks(text, separators, size).None? <==> MeetsEmptySeparator(text, separators, size)
    decreases |separators|, 0
  {
    if |text| > size && separators != [] && separators[0] != "" {
      PackFailsIff(SplitOn(text, separators[0]), separators, size);
    }
  }

  lemma {:induction false} PackFailsIff(pieces: seq<string>, separators: seq<string>, size: nat)
    requires size > 0 && separators != []
    ensures Pack(pieces, separators, size).None? <==>
            exists p :: p in pieces && MeetsEmptySeparator(p, separators[1..], size)
    decreases |separators| - 1, |pieces| + 1
  {
    if pieces != [] {
      var init, piece := pieces[..|pieces| - 1], pieces[|pieces| - 1];
      assert pieces == init + [piece];
      PackFailsIff(init, separators, size);
      SplitFailsIff(piece, separators[1..], size);
    }
  }

  predicate NonEmpty(separators: seq<string>) {
    forall i :: 0 <= i < |separators| ==> separators[i] != ""
  }

  /** All the pieces that splitting by each separator in turn leaves, whatever their size. */
  function SplitAll(text: string, separators: seq<string>): seq<string>
    requires NonEmpty(separators)
    decreases |separators|, 0
  {
    if separators == [] then [text]
    else SplitEach(SplitOn(text, separators[0]), separators)
  }

  function SplitEach(pieces: seq<string>, separators: seq<string>): seq<string>
    requires separators != [] && NonEmpty(separators)
    decreases |separators| - 1, |pieces| + 1
  {
    if pieces == [] then []
    else
      SplitEach(pieces[..|pieces| - 1], separators) + SplitAll(pieces[|pieces| - 1], separators[1..])
  }

  /** How many separators come before the first empty one. */
  function BeforeEmpty(separators: seq<string>): (n: nat)
    ensures n <= |separators| && (n < |separators| ==> separators[n] == "")
    ensures NonEmpty(separators[..n])
  {
    if separators == [] || separators[0] == "" then 0
    else
      var n := BeforeEmpty(separators[1..]);
      assert separators[..1 + n] == [separators[0]] + separators[1..][..n];
      1 + n
  }

  predicate HasLong(pieces: seq<string>, size: nat) {
    exists i :: 0 <= i < |pieces| && |pieces[i]| > size
  }

  /**
   What a caller can see: splitting raises exactly when there is an empty
   separator and the non-empty ones before it leave a piece too long for a chunk.
   */
  lemma SplitFailsIffLongPieceLeft(text: string, separators: seq<string>, size: nat)
    requires size > 0
    ensures var n := BeforeEmpty(separators);
            Chunks(text, separators, size).None? <==> n < |separators| && HasLong(SplitAll(text, separators[..n]), size)
  {
    SplitFailsIff(text, separators, size);
    LongPieceMeets(text, separators, size);
  }

  lemma {:induction false} LongPieceMeets(text: string, separators: seq<string>, size: nat)
    ensures var n := BeforeEmpty(separators);
            MeetsEmptySeparator(text, separators, size) <==>
                n < |separators| && HasLong(SplitAll(text, separators[..n]), size)
    decreases |separators|, 1
  {
    var n := BeforeEmpty(separators);
    if n == 0 {
      assert SplitAll(text, separators[..0]) == [text];
      assert HasLong([text], size) <==> |text| > size by {
        if |text| > size {
          assert |[text][0]| > size;
        }
      }
    } else {
      var rest := separators[1..];
      SliceTail(separators, n);
      PiecesAreShorter(text, separators[0]);
      EachLongPieceMeets(SplitOn(text, separators[0]), separators, size);
      if |text| <= size {
        ShortStaysShort(SplitOn(text, separators[0]), separators[..n], size);
      }
    }
  }

  lemma {:induction false} EachLongPieceMeets(pieces: seq<string>, separators: seq<string>, size: nat)
    requires BeforeEmpty(separators) > 0
    ensures var n := BeforeEmpty(separators);
            (exists p :: p in pieces && MeetsEmptySeparator(p, separators[1..], size)) <==>
            n < |separators| && HasLong(SplitEach(pieces, separators[..n]), size)
    decreases |separators|, 0, |pieces|
  {
    var n := BeforeEmpty(separators);
    if pieces != [] {
      var init, last := pieces[..|pieces| - 1], pieces[|pieces| - 1];
      assert pieces == init + [last];
      EachLongPieceMeets(init, separators, size);
      LongPieceMeets(last, separators[1..], size);
      SliceTail(separators, n);
      LongInEither(SplitEach(init, separators[..n]), SplitAll(last, separators[..n][1..]), size);
    }
  }

  lemma SliceTail<T>(s: seq<T>, n: nat)
    requires 0 < n <= |s|
    ensures s[..n][0] == s[0] && s[..n][1..] == s[1..][..n - 1]
  {
  }

  lemma LongInEither(a: seq<string>, b: seq<string>, size: nat)
    ensures HasLong(a + b, size) <==> HasLong(a, size) || HasLong(b, size)
  {
    if HasLong(a, size) {
      var i :| 0 <= i < |a| && |a[i]| > size;
      assert (a + b)[i] == a[i];
    }
    if HasLong(b, size) {
      var i :| 0 <= i < |b| && |b[i]| > size;
      assert (a + b)[|a| + i] == b[i];
    }
  }

  /** No piece is longer than the text. */
  lemma {:induction false} PiecesAreShorter(text: string, separator: string)
    requires separator != ""
    ensures forall p :: p in SplitOn(text, separator) ==> |p| <= |text|
    decreases |text|
  {
    var i := FirstOccurrence(separator, text, 0);
    if i < |text| {
      PiecesAreShorter(text[i + |separator|..], separator);
    }
  }

  lemma {:induction false} ShortStaysShort(pieces: seq<string>, separators: seq<string>, size: nat)
    requires separators != [] && NonEmpty(separators) && forall p :: p in pieces ==> |p| <= size
    ensures !HasLong(SplitEach(pieces, separators), size)
    decreases |separators|, |pieces|
  {
    if pieces != [] {
      var init, last := pieces[..|pieces| - 1], pieces[|pieces| - 1];
      ShortStaysShort(init, separators, size);
      LongInEither(SplitEach(init, separators), SplitAll(last, separators[1..]), size);
      if |separators| == 1 {
        assert SplitAll(last, separators[1..]) == [last];
      } else {
        PiecesAreShorter(last, separators[1]);
        assert separators[1..][0] == separators[1];
        ShortStaysShort(SplitOn(last, separators[1]), separators[1..], size);
      }
    }
  }

  /** Character-level splitting, in steps of the chunk size. */
  method SplitByChar(text: string, size: nat) returns (chunks: seq<string>)
    requires size > 0
    ensures chunks == ByChar(text, size)
  {
    chunks := [];
    var i := 0;
    while i < |text|
      invariant 0 <= i
      invariant i <= |text| ==> chunks + ByChar(text[i..], size) == ByChar(text, size)
      invariant i > |text| ==> chunks == ByChar(text, size)
      decreases |text| - i
    {
      var to := if i + size < |text| then i + size else |text|;
      ByCharStep(text[i..], size);
      assert text[i..][..to - i] == text[i..to] && text[i..][to - i..] == text[to..];
      chunks := chunks + [text[i..to]];
      i := i + size;
    }
  }

  lemma ByCharStep(text: string, size: nat)
    requires size > 0 && text != ""
    ensures var n := if size < |text| then size else |text|;
            ByChar(text, size) == [text[..n]] + ByChar(text[n..], size)
  {
    if |text| <= size {
      assert text[..|text|] == text && text[|text|..] == "";
    }
  }

  method RecursiveSplit(text: string, separators: seq<string>, size: nat) returns (chunks: Option<seq<string>>)
    requires size > 0
    ensures chunks == Chunks(text, separators, size)
    decreases |separators|
  {
    if text == "" {
      return Some([]);
    }
    if |text| <= size {
      return Some([text]);
    }
    if separators == [] {
      var cut := SplitByChar(text, size);
      return Some(cut);
    }
    var separator := separators[0];
    if separator == "" {
      return None;
    }
    var pieces := SplitOn(text, separator);
    var finished: seq<string>, currentChunk := [], "";
    for n := 0 to |pieces|
      invariant Pack(pieces[..n], separators, size) == Some(Packing(finished, currentChunk))
    {
      var piece := pieces[n];
      assert pieces[..n + 1][..n] == pieces[..n];
      if |piece| > size {
        if currentChunk != "" {
          finished := finished + [currentChunk];
          currentChunk := "";
        }
        var sub := RecursiveSplit(piece, separators[1..], size);
        if sub.None? {
          PackStops(pieces, n + 1, |pieces|, separators, size);
          return None;
        }
        finished := finished + sub.value;
      } else if currentChunk == "" {
        currentChunk := piece;
      } else if |currentChunk| + |separator| + |piece| <= size {
        currentChunk := currentChunk + separator + piece;
      } else {
        finished := finished + [currentChunk];
        currentChunk := piece;
      }
    }
    assert pieces[..|pieces|] == pieces;
    if currentChunk != "" {
      finished := finished + [currentChunk];
    }
    chunks := Some(finished);
  }

  lemma {:induction false} PackStops(pieces: seq<string>, n: nat, m: nat, separators: seq<string>, size: nat)
    requires size > 0 && separators != [] && n <= m <= |pieces| && Pack(pieces[..n], separators, size).None?
    ensures Pack(pieces[..m], separators, size).None?
    ensures m == |pieces| ==> Pack(pieces, separators, size).None?
  {
    if n < m {
      PackStops(pieces, n, m - 1, separators, size);
      assert pieces[..m][..m - 1] == pieces[..m - 1];
    }
    assert pieces[..|pieces|] == pieces;
  }

  function Prefix(text: string, n: nat): string {
    if |text| <= n then text else text[..n]
  }

  /** Each chunk is followed by at most `overlap` characters of the next; dropping them gives the chunks back. */
  method AddOverlap(chunks: seq<string>, overlap: int) returns (result: seq<string>)
    ensures |result| == |chunks|
    ensures forall i :: 0 <= i < |chunks| ==>
              result[i] == chunks[i] + if i + 1 < |chunks| && overlap > 0 then Prefix(chunks[i + 1], overlap) else ""
  {
    if overlap <= 0 || |chunks| <= 1 {
      return chunks;
    }
    result := [];
    for i := 0 to |chunks|
      invariant |result| == i
      invariant forall j :: 0 <= j < i ==>
                  result[j] == chunks[j] + if j + 1 < |chunks| then Prefix(chunks[j + 1], overlap) else ""
    {
      if i < |chunks| - 1 {
        result := result + [chunks[i] + Prefix(chunks[i + 1], overlap)];
      } else {
        result := result + [chunks[i]];
      }
    }
  }
}
