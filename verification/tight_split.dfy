/** No chunk of a split text ends early: a separator is dropped after a chunk only for want of room. */
module TightSplit {
  import opened Wrappers
  import opened RecursiveSplitter

  predicate StartsWith(text: string, prefix: string) {
    |prefix| <= |text| && text[..|prefix|] == prefix
  }

  predicate EndsWith(text: string, suffix: string) {
    |suffix| <= |text| && text[|text| - |suffix|..] == suffix
  }

  /** Nothing more, or a separator next. */
  predicate Continues(separators: seq<string>, more: string) {
    more == "" || exists s :: s in separators && StartsWith(more, s)
  }

  /** Nothing before, or a separator last. */
  predicate Precedes(separators: seq<string>, front: string) {
    front == "" || exists s :: s in separators && EndsWith(front, s)
  }

  /** The stretch before a separator, from the separator before it or the start, is too long for a chunk. */
  ghost predicate LongBefore(separators: seq<string>, size: nat, s: string, pre: string) {
    exists before :: LongStretch(separators, size, s, pre, before)
  }

  predicate LongStretch(separators: seq<string>, size: nat, s: string, pre: string, before: string) {
    && EndsWith(pre, before) && !Occurs(s, before) && |before| > size
    && Precedes(separators, pre[..|pre| - |before|])
  }

  /**
   The piece after a separator, up to the next one or the end, is too long for a
   chunk, or for the chunk before it; the next chunk starts with all of it.
   */
  ghost predicate NoRoom(separators: seq<string>, size: nat, chunk: string, s: string, rest: string,
                         next: Option<Part>) {
    exists after :: TooBig(separators, size, chunk, s, rest, next, after)
  }

  predicate TooBig(separators: seq<string>, size: nat, chunk: string, s: string, rest: string, next: Option<Part>,
                   after: string) {
    && StartsWith(rest, after) && !Occurs(s, after) && Continues(separators, rest[|after|..])
    && (|after| > size || (|chunk| + |s| + |after| > size
                           && (next.Some? && next.value.Kept? ==> StartsWith(next.value.text, after))))
  }

  /** A part, the next one, and what surrounds them. */
  datatype Window = Window(pre: string, part: Part, drop: Part, rest: string, next: Option<Part>)

  ghost predicate Snug(separators: seq<string>, size: nat, w: Window) {
    w.part.Kept? && w.drop.Dropped? ==>
      || LongBefore(separators, size, w.drop.text, w.pre)
      || NoRoom(separators, size, w.part.text, w.drop.text, w.rest, w.next)
  }

  /** The text of the parts from `n` to before `m`. */
  function TextBetween(parts: seq<Part>, n: nat, m: nat): string
    requires n <= m <= |parts|
  {
    if n == m then "" else TextBetween(parts, n, m - 1) + parts[m - 1].text
  }

  function PartAt(parts: seq<Part>, i: nat): Option<Part> {
    if i < |parts| then Some(parts[i]) else None
  }

  function WindowAt(parts: seq<Part>, i: nat): Window
    requires i + 1 < |parts|
  {
    Window(TextUpTo(parts, i + 1), parts[i], parts[i + 1], TextBetween(parts, i + 2, |parts|), PartAt(parts, i + 2))
  }

  // --------------------------------- any property that survives more text

  ghost predicate Everywhere(ok: Window -> bool, parts: seq<Part>) {
    forall i: nat {:trigger WindowAt(parts, i)} :: i + 1 < |parts| ==> ok(WindowAt(parts, i))
  }

  function Wider(w: Window, front: string, more: string): Window {
    w.(pre := front + w.pre, rest := w.rest + more)
  }

  function Before(w: Window, next: Part): Window {
    w.(next := Some(next))
  }

  /** A dropped separator after nothing, or a chunk that has grown. */
  predicate MayFollow(now: Option<Part>, next: Part) {
    match now
    case None => next.Dropped?
    case Some(part) => part.Kept? && next.Kept? && StartsWith(next.text, part.text)
  }

  /** Separated text on either side, a separator next, or a next chunk that grows, do no harm. */
  ghost predicate Robust(ok: Window -> bool, separators: seq<string>) {
    && (forall w, front, more {:trigger Wider(w, front, more)} ::
          ok(w) && Precedes(separators, front) && Continues(separators, more) ==> ok(Wider(w, front, more)))
    && (forall w, next {:trigger Before(w, next)} ::
          ok(w) && MayFollow(w.next, next) ==> ok(Before(w, next)))
  }

  lemma {:induction false} BetweenInFront(a: seq<Part>, b: seq<Part>, n: nat, m: nat)
    requires n <= m <= |a|
    ensures TextBetween(a + b, n, m) == TextBetween(a, n, m)
  {
    if n < m {
      BetweenInFront(a, b, n, m - 1);
    }
  }

  lemma {:induction false} BetweenBehind(a: seq<Part>, b: seq<Part>, n: nat, m: nat)
    requires n <= m <= |b|
    ensures TextBetween(a + b, |a| + n, |a| + m) == TextBetween(b, n, m)
  {
    if n < m {
      BetweenBehind(a, b, n, m - 1);
    }
  }

  lemma {:induction false} BetweenAcross(a: seq<Part>, b: seq<Part>, n: nat, m: nat)
    requires n <= |a| && m <= |b|
    ensures TextBetween(a + b, n, |a| + m) == TextBetween(a, n, |a|) + TextUpTo(b, m)
  {
    if m == 0 {
      BetweenInFront(a, b, n, |a|);
    } else {
      BetweenAcross(a, b, n, m - 1);
      Associate(TextBetween(a, n, |a|), TextUpTo(b, m - 1), b[m - 1].text);
    }
  }

  lemma {:induction false} FromStart(parts: seq<Part>, m: nat)
    requires m <= |parts|
    ensures TextBetween(parts, 0, m) == TextUpTo(parts, m)
  {
    if m > 0 {
      FromStart(parts, m - 1);
    }
  }

  lemma FrontWindow(a: seq<Part>, b: seq<Part>, i: nat)
    requires i + 1 < |a|
    ensures var w, v := WindowAt(a, i), WindowAt(a + b, i);
            v == Wider(w, "", TextOf(b)).(next := if i + 2 < |a| then w.next else PartAt(b, 0))
  {
    ConcatFront(a, b, i + 1);
    BetweenAcross(a, b, i + 2, |b|);
  }

  lemma BackWindow(a: seq<Part>, b: seq<Part>, i: nat)
    requires i + 1 < |b|
    ensures WindowAt(a + b, |a| + i) == Wider(WindowAt(b, i), TextOf(a), "")
  {
    ConcatFront(a, b, |a|);
    ConcatBack(a, b, i + 1);
    BetweenBehind(a, b, i + 2, |b|);
  }

  lemma HereWindow(parts: seq<Part>, drop: Part, tail: seq<Part>)
    requires parts != []
    ensures WindowAt(parts + [drop] + tail, |parts| - 1) ==
            Window(TextOf(parts), parts[|parts| - 1], drop, TextOf(tail), PartAt(tail, 0))
  {
    var all := parts + [drop] + tail;
    assert all == parts + ([drop] + tail);
    ConcatFront(parts, [drop] + tail, |parts|);
    BetweenBehind(parts + [drop], tail, 0, |tail|);
    FromStart(tail, |tail|);
  }

  /** A property of all windows of the parts before and after a dropped separator, and of the one it makes. */
  lemma DropEverywhere(ok: Window -> bool, separators: seq<string>, parts: seq<Part>, s: string, tail: seq<Part>)
    requires Robust(ok, separators) && s in separators
    requires Everywhere(ok, parts) && Everywhere(ok, tail) && forall w: Window :: w.part.Dropped? ==> ok(w)
    requires parts != [] ==>
               ok(Window(TextOf(parts), parts[|parts| - 1], Dropped(s), TextOf(tail), PartAt(tail, 0)))
    ensures Everywhere(ok, parts + [Dropped(s)] + tail)
  {
    var drop := [Dropped(s)];
    var all := parts + drop + tail;
    forall i: nat | i + 1 < |all| ensures ok(WindowAt(all, i)) {
      if i + 1 < |parts| {
        WindowBefore(ok, separators, parts, s, tail, i);
      } else if i + 1 == |parts| {
        HereWindow(parts, Dropped(s), tail);
      } else if i == |parts| {
        assert all[i] == Dropped(s);
      } else {
        WindowAfter(ok, separators, parts, s, tail, i - |parts| - 1);
      }
    }
  }

  lemma WindowBefore(ok: Window -> bool, separators: seq<string>, parts: seq<Part>, s: string, tail: seq<Part>, i: nat)
    requires Robust(ok, separators) && s in separators && i + 1 < |parts| && ok(WindowAt(parts, i))
    ensures ok(WindowAt(parts + [Dropped(s)] + tail, i))
  {
    var b := [Dropped(s)] + tail;
    assert parts + [Dropped(s)] + tail == parts + b;
    FrontWindow(parts, b, i);
    SeparatorFirst(separators, s, tail);
    var w := Wider(WindowAt(parts, i), "", TextOf(b));
    assert ok(w);
    if i + 2 == |parts| {
      assert ok(Before(w, Dropped(s)));
    }
  }

  lemma SeparatorFirst(separators: seq<string>, s: string, tail: seq<Part>)
    requires s in separators
    ensures Continues(separators, TextOf([Dropped(s)] + tail))
  {
    PartsConcat([Dropped(s)], tail);
    OnePart(Dropped(s));
    assert StartsWith(s + TextOf(tail), s);
  }

  lemma WindowAfter(ok: Window -> bool, separators: seq<string>, parts: seq<Part>, s: string, tail: seq<Part>, i: nat)
    requires Robust(ok, separators) && s in separators && i + 1 < |tail| && ok(WindowAt(tail, i))
    ensures ok(WindowAt(parts + [Dropped(s)] + tail, |parts| + 1 + i))
  {
    var a := parts + [Dropped(s)];
    BackWindow(a, tail, i);
    SeparatorLast(separators, s, parts);
    assert ok(Wider(WindowAt(tail, i), TextOf(a), ""));
  }

  lemma SeparatorLast(separators: seq<string>, s: string, parts: seq<Part>)
    requires s in separators
    ensures Precedes(separators, TextOf(parts + [Dropped(s)]))
  {
    PartsConcat(parts, [Dropped(s)]);
    OnePart(Dropped(s));
    assert EndsWith(TextOf(parts) + s, s);
  }

  /** The last chunk may grow by a separator and what follows it. */
  lemma GrowEverywhere(ok: Window -> bool, separators: seq<string>, parts: seq<Part>, chunk: string, more: string)
    requires Robust(ok, separators) && Everywhere(ok, parts + [Kept(chunk)]) && Continues(separators, more)
    requires forall w: Window :: w.drop.Kept? ==> ok(w)
    ensures Everywhere(ok, parts + [Kept(chunk + more)])
  {
    var a, b := parts + [Kept(chunk)], parts + [Kept(chunk + more)];
    forall i: nat | i + 1 < |b| ensures ok(WindowAt(b, i)) {
      assert ok(WindowAt(a, i));
      if i + 2 <= |parts| {
        GrownWindow(ok, separators, parts, chunk, more, i);
      } else {
        assert b[i + 1] == Kept(chunk + more);
      }
    }
  }

  lemma GrownWindow(ok: Window -> bool, separators: seq<string>, parts: seq<Part>, chunk: string, more: string, i: nat)
    requires Robust(ok, separators) && i + 2 <= |parts| && ok(WindowAt(parts + [Kept(chunk)], i))
    requires Continues(separators, more)
    ensures ok(WindowAt(parts + [Kept(chunk + more)], i))
  {
    FrontWindow(parts, [Kept(chunk)], i);
    FrontWindow(parts, [Kept(chunk + more)], i);
    OnePart(Kept(chunk));
    OnePart(Kept(chunk + more));
    var w := WindowAt(parts, i);
    Associate(w.rest, chunk, more);
    var v := Wider(WindowAt(parts + [Kept(chunk)], i), "", more);
    assert "" + ("" + w.pre) == "" + w.pre;
    assert ok(v);
    if i + 2 == |parts| {
      assert StartsWith(chunk + more, chunk);
      assert ok(Before(v, Kept(chunk + more)));
    }
  }

  // ------------------------------------------------ tightness is such a one

  ghost function SnugIn(separators: seq<string>, size: nat): Window -> bool {
    w => Snug(separators, size, w)
  }

  lemma LongBeforeOn(separators: seq<string>, size: nat, s: string, front: string, pre: string)
    requires LongBefore(separators, size, s, pre) && Precedes(separators, front)
    ensures LongBefore(separators, size, s, front + pre)
  {
    var before :| LongStretch(separators, size, s, pre, before);
    var head, all := pre[..|pre| - |before|], front + pre;
    assert all[|all| - |before|..] == before && all[..|all| - |before|] == front + head;
    if head != "" {
      var sep :| sep in separators && EndsWith(head, sep);
      assert EndsWith(front + head, sep);
    } else {
      assert front + head == front;
    }
    assert LongStretch(separators, size, s, all, before);
  }

  lemma NoRoomOn(separators: seq<string>, size: nat, chunk: string, s: string, rest: string, more: string,
                 next: Option<Part>)
    requires NoRoom(separators, size, chunk, s, rest, next) && Continues(separators, more)
    ensures NoRoom(separators, size, chunk, s, rest + more, next)
  {
    var after :| TooBig(separators, size, chunk, s, rest, next, after);
    var tail, all := rest[|after|..], rest + more;
    assert all[..|after|] == after && all[|after|..] == tail + more;
    if tail != "" {
      var sep :| sep in separators && StartsWith(tail, sep);
      assert StartsWith(tail + more, sep);
    } else {
      assert tail + more == more;
    }
    assert TooBig(separators, size, chunk, s, all, next, after);
  }

  lemma NoRoomBefore(separators: seq<string>, size: nat, chunk: string, s: string, rest: string, now: Option<Part>,
                     next: Part)
    requires NoRoom(separators, size, chunk, s, rest, now) && MayFollow(now, next)
    ensures NoRoom(separators, size, chunk, s, rest, Some(next))
  {
    var after :| TooBig(separators, size, chunk, s, rest, now, after);
    if now.Some? && StartsWith(now.value.text, after) {
      assert next.text[..|after|] == next.text[..|now.value.text|][..|after|];
    }
    assert TooBig(separators, size, chunk, s, rest, Some(next), after);
  }

  lemma SnugIsRobust(separators: seq<string>, size: nat)
    ensures Robust(SnugIn(separators, size), separators)
  {
    forall w: Window, front, more | Snug(separators, size, w) && Precedes(separators, front)
                                    && Continues(separators, more)
      ensures Snug(separators, size, Wider(w, front, more))
    {
      if w.part.Kept? && w.drop.Dropped? {
        if LongBefore(separators, size, w.drop.text, w.pre) {
          LongBeforeOn(separators, size, w.drop.text, front, w.pre);
        } else {
          NoRoomOn(separators, size, w.part.text, w.drop.text, w.rest, more, w.next);
        }
      }
    }
    forall w: Window, next | Snug(separators, size, w) && MayFollow(w.next, next)
      ensures Snug(separators, size, Before(w, next))
    {
      if w.part.Kept? && w.drop.Dropped? && !LongBefore(separators, size, w.drop.text, w.pre) {
        NoRoomBefore(separators, size, w.part.text, w.drop.text, w.rest, w.next, next);
      }
    }
  }

  /** More separators to stop at do no harm. */
  lemma SnugWithFirst(separators: seq<string>, size: nat, parts: seq<Part>)
    requires separators != [] && Everywhere(SnugIn(separators[1..], size), parts)
    ensures Everywhere(SnugIn(separators, size), parts)
  {
    forall i: nat | i + 1 < |parts| ensures Snug(separators, size, WindowAt(parts, i)) {
      assert SnugIn(separators[1..], size)(WindowAt(parts, i));
      SnugMore(separators, size, WindowAt(parts, i));
    }
  }

  lemma SnugMore(separators: seq<string>, size: nat, w: Window)
    requires separators != [] && Snug(separators[1..], size, w)
    ensures Snug(separators, size, w)
  {
    assert forall s :: s in separators[1..] ==> s in separators;
    if w.part.Kept? && w.drop.Dropped? {
      if LongBefore(separators[1..], size, w.drop.text, w.pre) {
        var before :| LongStretch(separators[1..], size, w.drop.text, w.pre, before);
        assert LongStretch(separators, size, w.drop.text, w.pre, before);
      } else {
        var after :| TooBig(separators[1..], size, w.part.text, w.drop.text, w.rest, w.next, after);
        assert TooBig(separators, size, w.part.text, w.drop.text, w.rest, w.next, after);
      }
    }
  }

  // ---------------------------------------------------- splitting is tight

  /** A chunk that was closed by a long piece, and not filled, ends in it. */
  ghost predicate LastIsLong(separators: seq<string>, size: nat, parts: seq<Part>)
    requires separators != []
  {
    parts != [] && parts[|parts| - 1].Kept? ==> LongBefore(separators, size, separators[0], TextOf(parts))
  }

  /** What packing keeps: all parts, the chunk being filled included, are snug. */
  ghost predicate PackSnug(separators: seq<string>, size: nat, parts: seq<Part>, current: string)
    requires separators != []
  {
    && Everywhere(SnugIn(separators, size), parts + Filled(current))
    && (current == "" ==> LastIsLong(separators, size, parts))
  }

  lemma DropSnug(separators: seq<string>, size: nat, parts: seq<Part>, piece: string, tail: seq<Part>)
    requires separators != [] && Everywhere(SnugIn(separators, size), parts)
    requires Everywhere(SnugIn(separators, size), tail) && TextOf(tail) == piece && !Occurs(separators[0], piece)
    requires parts != [] && parts[|parts| - 1].Kept? ==>
               || LongBefore(separators, size, separators[0], TextOf(parts)) || |piece| > size
               || (|parts[|parts| - 1].text| + |separators[0]| + |piece| > size
                   && (tail != [] && tail[0].Kept? ==> StartsWith(tail[0].text, piece)))
    ensures Everywhere(SnugIn(separators, size), parts + [Dropped(separators[0])] + tail)
  {
    var s := separators[0];
    SnugIsRobust(separators, size);
    if parts != [] && parts[|parts| - 1].Kept? && !LongBefore(separators, size, s, TextOf(parts)) {
      assert piece[|piece|..] == "";
      assert TooBig(separators, size, parts[|parts| - 1].text, s, piece, PartAt(tail, 0), piece);
    }
    DropEverywhere(SnugIn(separators, size), separators, parts, s, tail);
  }

  /** Text that ends in a long piece after a separator, or is one. */
  lemma EndsInPiece(separators: seq<string>, size: nat, front: string, piece: string)
    requires separators != [] && Precedes(separators, front) && !Occurs(separators[0], piece) && |piece| > size
    ensures LongBefore(separators, size, separators[0], front + piece)
  {
    var text := front + piece;
    assert text[|text| - |piece|..] == piece && text[..|text| - |piece|] == front;
    assert LongStretch(separators, size, separators[0], text, piece);
  }

  lemma TrivialSnug(separators: seq<string>, size: nat, parts: seq<Part>)
    requires |parts| <= 1
    ensures Everywhere(SnugIn(separators, size), parts)
  {
  }

  lemma AddLong(separators: seq<string>, size: nat, before: seq<Part>, current: string, piece: string, sub: seq<Part>,
                first: bool)
    requires separators != [] && PackSnug(separators, size, before, current)
    requires first ==> before == [] && current == ""
    requires Everywhere(SnugIn(separators, size), sub) && TextOf(sub) == piece
    requires |piece| > size && !Occurs(separators[0], piece)
    ensures var closed := if first then [] else before + Filled(current) + [Dropped(separators[0])];
            PackSnug(separators, size, closed + sub, "")
  {
    var all := before + Filled(current);
    var closed := if first then [] else all + [Dropped(separators[0])];
    if first {
      assert closed + sub == sub;
      assert "" + piece == piece;
      EndsInPiece(separators, size, "", piece);
    } else {
      DropSnug(separators, size, all, piece, sub);
      PartsConcat(closed, sub);
      SeparatorLast(separators, separators[0], all);
      EndsInPiece(separators, size, TextOf(closed), piece);
    }
    assert closed + sub + Filled("") == closed + sub;
  }

  lemma FilledText(current: string)
    ensures TextOf(Filled(current)) == current
  {
    if current != "" {
      OnePart(Kept(current));
    }
  }

  /** A piece that fits in a chunk joins the one being filled, or starts another. */
  lemma AddShort(separators: seq<string>, size: nat, before: seq<Part>, current: string, piece: string, first: bool)
    requires separators != [] && PackSnug(separators, size, before, current)
    requires first ==> before == [] && current == ""
    requires |piece| <= size && !Occurs(separators[0], piece)
    ensures if current != "" && |current| + |separators[0]| + |piece| <= size then
              PackSnug(separators, size, before, current + separators[0] + piece)
            else
              var closed := if first then [] else before + Filled(current) + [Dropped(separators[0])];
              PackSnug(separators, size, closed, piece)
  {
    var s := separators[0];
    if current != "" && |current| + |s| + |piece| <= size {
      SnugIsRobust(separators, size);
      assert StartsWith(s + piece, s);
      GrowEverywhere(SnugIn(separators, size), separators, before, current, s + piece);
      Associate(current, s, piece);
    } else if first {
      TrivialSnug(separators, size, [] + Filled(piece));
    } else {
      var all := before + Filled(current);
      FilledText(piece);
      TrivialSnug(separators, size, Filled(piece));
      assert current != "" ==> all[|all| - 1] == Kept(current);
      assert current == "" ==> all == before;
      assert StartsWith(piece, piece);
      DropSnug(separators, size, all, piece, Filled(piece));
      assert (all + [Dropped(s)])[|all|] == Dropped(s);
    }
  }

  lemma {:induction false} PackIsSnug(pieces: seq<string>, separators: seq<string>, size: nat)
    requires size > 0 && separators != [] && separators[0] != "" && Pack(pieces, separators, size).Some?
    requires forall p :: p in pieces ==> !Occurs(separators[0], p)
    ensures var current := Pack(pieces, separators, size).value.current;
            PackSnug(separators, size, PackParts(pieces, separators, size), current)
    decreases |separators| - 1, |pieces| + 1
  {
    if pieces == [] {
      TrivialSnug(separators, size, [] + Filled(""));
    } else {
      var init, piece := pieces[..|pieces| - 1], pieces[|pieces| - 1];
      assert pieces == init + [piece] && piece in pieces;
      PackIsSnug(init, separators, size);
      var before, current := PackParts(init, separators, size), Pack(init, separators, size).value.current;
      if |piece| > size {
        var sub := SplitKeeps(piece, separators[1..], size);
        SplitIsSnug(piece, separators[1..], size);
        SnugWithFirst(separators, size, sub);
        AddLong(separators, size, before, current, piece, sub, init == []);
      } else {
        AddShort(separators, size, before, current, piece, init == []);
      }
    }
  }

  lemma {:induction false} SplitIsSnug(text: string, separators: seq<string>, size: nat)
    requires size > 0 && Chunks(text, separators, size).Some?
    ensures Everywhere(SnugIn(separators, size), PartsOf(text, separators, size))
    decreases |separators|, 0
  {
    if |text| <= size {
      TrivialSnug(separators, size, Filled(text));
    } else if separators == [] {
      ByCharSnug(ByChar(text, size), separators, size);
    } else {
      PiecesAreFree(text, separators[0]);
      PackIsSnug(SplitOn(text, separators[0]), separators, size);
    }
  }

  lemma {:induction false} OnlyKept(chunks: seq<string>)
    ensures forall i :: 0 <= i < |ByCharParts(chunks)| ==> ByCharParts(chunks)[i].Kept?
  {
    if chunks != [] {
      OnlyKept(chunks[1..]);
    }
  }

  lemma ByCharSnug(chunks: seq<string>, separators: seq<string>, size: nat)
    ensures Everywhere(SnugIn(separators, size), ByCharParts(chunks))
  {
    OnlyKept(chunks);
  }

  /**
   Whenever splitting succeeds, its chunks and dropped separators make up the
   text, and no separator is dropped after a chunk but for want of room.
   */
  lemma SplitIsTight(text: string, separators: seq<string>, size: nat) returns (parts: seq<Part>)
    requires size > 0 && Chunks(text, separators, size).Some?
    ensures Conserves(text, separators, size, Chunks(text, separators, size).value, parts)
    ensures forall i: nat {:trigger WindowAt(parts, i)} ::
              i + 1 < |parts| ==> Snug(separators, size, WindowAt(parts, i))
  {
    parts := SplitKeeps(text, separators, size);
    SplitIsSnug(text, separators, size);
    forall i: nat | i + 1 < |parts| ensures Snug(separators, size, WindowAt(parts, i)) {
      assert SnugIn(separators, size)(WindowAt(parts, i));
    }
  }

  // --------------------------------------------- when every piece fits

  /** The second chunk starts with a piece that did not fit beside the first. */
  ghost predicate Full(pieces: seq<string>, s: string, size: nat, a: string, b: string) {
    exists p :: p in pieces && StartsWith(b, p) && |a| + |s| + |p| > size
  }

  ghost predicate AllFull(pieces: seq<string>, s: string, size: nat, chunks: seq<string>) {
    forall i :: 0 <= i < |chunks| - 1 ==> Full(pieces, s, size, chunks[i], chunks[i + 1])
  }

  lemma FullMore(init: seq<string>, piece: string, s: string, size: nat, chunks: seq<string>)
    requires AllFull(init, s, size, chunks)
    ensures AllFull(init + [piece], s, size, chunks)
  {
    forall i | 0 <= i < |chunks| - 1 ensures Full(init + [piece], s, size, chunks[i], chunks[i + 1]) {
      var p :| p in init && StartsWith(chunks[i + 1], p) && |chunks[i]| + |s| + |p| > size;
      assert p in init + [piece];
    }
  }

  /** An empty chunk to fill, after others, is there because even an empty piece did not fit. */
  predicate NoneFits(pieces: seq<string>, s: string, size: nat, p: Packing) {
    p.current == "" && p.chunks != [] ==> "" in pieces && |p.chunks[|p.chunks| - 1]| + |s| > size
  }

  lemma {:induction false} PackingIsFull(pieces: seq<string>, separators: seq<string>, size: nat)
    requires size > 0 && separators != [] && forall p :: p in pieces ==> |p| <= size
    ensures Pack(pieces, separators, size).Some?
    ensures var p := Pack(pieces, separators, size).value;
            AllFull(pieces, separators[0], size, Flushed(p)) && NoneFits(pieces, separators[0], size, p)
    decreases |pieces|
  {
    if pieces != [] {
      var init, piece := pieces[..|pieces| - 1], pieces[|pieces| - 1];
      assert pieces == init + [piece] && piece in pieces;
      forall p | p in init ensures |p| <= size {
        assert p in pieces;
      }
      PackingIsFull(init, separators, size);
      var p := Pack(init, separators, size).value;
      FullMore(init, piece, separators[0], size, Flushed(p));
      NextIsFull(pieces, piece, separators[0], size, p, Pack(pieces, separators, size).value);
    }
  }

  lemma NextIsFull(pieces: seq<string>, piece: string, s: string, size: nat, p: Packing, q: Packing)
    requires piece in pieces && |piece| <= size && AllFull(pieces, s, size, Flushed(p)) && NoneFits(pieces, s, size, p)
    requires q == if p.current == "" then p.(current := piece)
                  else if |p.current| + |s| + |piece| <= size then p.(current := p.current + s + piece)
                  else Packing(p.chunks + [p.current], piece)
    ensures AllFull(pieces, s, size, Flushed(q)) && NoneFits(pieces, s, size, q)
  {
    var was, now := Flushed(p), Flushed(q);
    forall i | 0 <= i < |now| - 1 ensures Full(pieces, s, size, now[i], now[i + 1]) {
      if i + 1 < |was| {
        assert Full(pieces, s, size, was[i], was[i + 1]);
        if now[i + 1] != was[i + 1] {
          var f :| f in pieces && StartsWith(was[i + 1], f) && |was[i]| + |s| + |f| > size;
          assert now[i + 1][..|f|] == was[i + 1][..|f|];
        }
      } else if p.current == "" {
        assert StartsWith(piece, "");
      } else {
        assert StartsWith(piece, piece);
      }
    }
  }

  /** When every piece fits in a chunk, each chunk but the last is full for the piece the next one starts with. */
  lemma NeighboursAreFull(text: string, separators: seq<string>, size: nat)
    requires size > 0 && |text| > size && separators != [] && separators[0] != ""
    requires forall p :: p in SplitOn(text, separators[0]) ==> |p| <= size
    ensures Chunks(text, separators, size).Some?
    ensures AllFull(SplitOn(text, separators[0]), separators[0], size, Chunks(text, separators, size).value)
  {
    PackingIsFull(SplitOn(text, separators[0]), separators, size);
  }

  // ------------------------------------- no chunk begins with a separator

  /** The rest of a text from its `j`-th piece on has the remaining pieces. */
  lemma {:induction false} LaterPieces(text: string, s: string, j: nat)
    requires s != "" && j < |SplitOn(text, s)|
    ensures SplitOn(Joined(SplitOn(text, s)[j..], s), s) == SplitOn(text, s)[j..]
    decreases |text|
  {
    if j == 0 {
      SplitOnInverse(text, s);
      assert SplitOn(text, s)[0..] == SplitOn(text, s);
    } else {
      var i := FirstOccurrence(s, text, 0);
      var rest := text[i + |s|..];
      LaterPieces(rest, s, j - 1);
      assert SplitOn(text, s)[j..] == SplitOn(rest, s)[j - 1..];
    }
  }

  lemma {:induction false} JoinedPrefix(pieces: seq<string>, s: string, n: nat)
    requires 0 < n <= |pieces|
    ensures StartsWith(Joined(pieces, s), Joined(pieces[..n], s))
    decreases |pieces|
  {
    if n == |pieces| {
      assert pieces[..n] == pieces;
    } else {
      var init := pieces[..|pieces| - 1];
      JoinedPrefix(init, s, n);
      assert init[..n] == pieces[..n];
    }
  }

  /** Pieces joined from a non-empty one on do not begin with the separator. */
  lemma JoinedNotLed(text: string, s: string, j: nat, n: nat)
    requires s != "" && j < n <= |SplitOn(text, s)| && SplitOn(text, s)[j] != ""
    ensures !OccursAt(s, Joined(SplitOn(text, s)[j..n], s), 0)
  {
    var tail := SplitOn(text, s)[j..];
    var rest := Joined(tail, s);
    LaterPieces(text, s, j);
    assert tail[0] == rest[..FirstOccurrence(s, rest, 0)];
    assert !OccursAt(s, rest, 0);
    JoinedPrefix(tail, s, n - j);
    assert tail[..n - j] == SplitOn(text, s)[j..n];
    PrefixNotLed(s, Joined(tail[..n - j], s), rest);
  }

  lemma PrefixNotLed(s: string, front: string, text: string)
    requires StartsWith(text, front) && !OccursAt(s, text, 0)
    ensures !OccursAt(s, front, 0)
  {
    if |s| <= |front| {
      assert front[0..|s|] == text[..|front|][0..|s|] == text[0..|s|];
    }
  }

  predicate NotLed(s: string, chunks: seq<string>) {
    forall i :: 0 <= i < |chunks| ==> !OccursAt(s, chunks[i], 0)
  }

  /** The chunk being filled is some pieces joined, a non-empty one first. */
  predicate FilledFrom(pieces: seq<string>, s: string, current: string, n: nat)
    requires n <= |pieces|
  {
    current == "" || exists j :: 0 <= j < n && pieces[j] != "" && current == Joined(pieces[j..n], s)
  }

  /** Each kept chunk occurs in the text. */
  lemma {:induction false} KeptInside(parts: seq<Part>, n: nat, i: nat)
    requires n <= |parts| && i < |KeptUpTo(parts, n)|
    ensures exists k: nat :: k <= |TextUpTo(parts, n)| && OccursAt(KeptUpTo(parts, n)[i], TextUpTo(parts, n), k)
  {
    var front, last, chunk := TextUpTo(parts, n - 1), parts[n - 1].text, KeptUpTo(parts, n)[i];
    var text := TextUpTo(parts, n);
    assert text == front + last;
    if i < |KeptUpTo(parts, n - 1)| {
      KeptInside(parts, n - 1, i);
      assert chunk == KeptUpTo(parts, n - 1)[i];
      var k: nat :| k <= |front| && OccursAt(chunk, front, k);
      assert text[k..k + |chunk|] == front[k..k + |chunk|];
      assert OccursAt(chunk, text, k);
    } else {
      assert chunk == last && text[|front|..|front| + |chunk|] == last;
      assert OccursAt(chunk, text, |front|);
    }
  }

  /** The chunks of a piece without the separator do not begin with it. */
  lemma SubNotLed(piece: string, s: string, separators: seq<string>, size: nat)
    requires size > 0 && s != "" && Chunks(piece, separators, size).Some? && !Occurs(s, piece)
    ensures NotLed(s, Chunks(piece, separators, size).value)
  {
    var parts := SplitKeeps(piece, separators, size);
    var chunks := Chunks(piece, separators, size).value;
    forall i | 0 <= i < |chunks| ensures !OccursAt(s, chunks[i], 0) {
      if OccursAt(s, chunks[i], 0) {
        KeptInside(parts, |parts|, i);
        var k: nat :| k <= |piece| && OccursAt(chunks[i], piece, k);
        OccursInside(s, chunks[i], piece, k);
      }
    }
  }

  lemma {:induction false} PackNotLed(text: string, separators: seq<string>, size: nat, n: nat)
    requires size > 0 && separators != [] && separators[0] != "" && n <= |SplitOn(text, separators[0])|
    requires Pack(SplitOn(text, separators[0])[..n], separators, size).Some?
    ensures var s, pieces := separators[0], SplitOn(text, separators[0]);
            var p := Pack(pieces[..n], separators, size).value;
            NotLed(s, p.chunks) && FilledFrom(pieces, s, p.current, n)
  {
    if n > 0 {
      var s, pieces := separators[0], SplitOn(text, separators[0]);
      assert pieces[..n][..n - 1] == pieces[..n - 1];
      PackNotLed(text, separators, size, n - 1);
      var p, piece := Pack(pieces[..n - 1], separators, size).value, pieces[n - 1];
      FlushedNotLed(text, s, p, n - 1);
      if |piece| > size {
        PiecesAreFree(text, s);
        assert piece in pieces;
        var sub := Chunks(piece, separators[1..], size).value;
        SubNotLed(piece, s, separators[1..], size);
        assert Pack(pieces[..n], separators, size).value == Packing(Flushed(p) + sub, "");
      } else {
        FilledNext(pieces, s, p.current, n - 1);
        NextNotLed(s, piece, size, p, Pack(pieces[..n], separators, size).value);
      }
    }
  }

  lemma NextNotLed(s: string, piece: string, size: nat, p: Packing, q: Packing)
    requires NotLed(s, p.chunks) && NotLed(s, Flushed(p))
    requires q == if p.current == "" then p.(current := piece)
                  else if |p.current| + |s| + |piece| <= size then p.(current := p.current + s + piece)
                  else Packing(p.chunks + [p.current], piece)
    ensures NotLed(s, q.chunks)
    ensures q.current == piece || (p.current != "" && q.current == p.current + s + piece)
  {
  }

  lemma FilledNext(pieces: seq<string>, s: string, current: string, n: nat)
    requires n < |pieces| && FilledFrom(pieces, s, current, n)
    ensures FilledFrom(pieces, s, pieces[n], n + 1)
    ensures current != "" ==> FilledFrom(pieces, s, current + s + pieces[n], n + 1)
  {
    assert pieces[n..n + 1] == [pieces[n]];
    if current != "" {
      var j :| 0 <= j < n && pieces[j] != "" && current == Joined(pieces[j..n], s);
      assert pieces[j..n + 1] == pieces[j..n] + [pieces[n]];
      JoinedEnd(pieces[j..n], pieces[n], s);
    }
  }

  lemma FlushedNotLed(text: string, s: string, p: Packing, n: nat)
    requires s != "" && n <= |SplitOn(text, s)| && NotLed(s, p.chunks) && FilledFrom(SplitOn(text, s), s, p.current, n)
    ensures NotLed(s, Flushed(p))
  {
    if p.current != "" {
      var j :| 0 <= j < n && SplitOn(text, s)[j] != "" && p.current == Joined(SplitOn(text, s)[j..n], s);
      JoinedNotLed(text, s, j, n);
    }
  }

  /** A text that is split never yields a chunk that begins with the separator it is split on. */
  lemma NoChunkIsLed(text: string, separators: seq<string>, size: nat)
    requires size > 0 && |text| > size && separators != [] && separators[0] != ""
    requires Chunks(text, separators, size).Some?
    ensures NotLed(separators[0], Chunks(text, separators, size).value)
  {
    var pieces := SplitOn(text, separators[0]);
    assert pieces[..|pieces|] == pieces;
    PackNotLed(text, separators, size, |pieces|);
    FlushedNotLed(text, separators[0], Pack(pieces, separators, size).value, |pieces|);
  }
}
