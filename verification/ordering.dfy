/** Ordered listings of ids, as ORDER BY makes them, and the pages LIMIT and OFFSET cut from them. */
module Ordering {

  /** A strict total order of ids. */
  ghost predicate TotalOrder(before: (nat, nat) -> bool) {
    && (forall a: nat, b: nat :: before(a, b) ==> !before(b, a))
    && (forall a: nat, b: nat :: a != b ==> before(a, b) || before(b, a))
    && (forall a: nat, b: nat, c: nat :: before(a, b) && before(b, c) ==> before(a, c))
  }

  ghost predicate Sorted(before: (nat, nat) -> bool, ids: seq<nat>) {
    forall i, j :: 0 <= i < j < |ids| ==> before(ids[i], ids[j])
  }

  /** `ids` is the one listing of `members` in the given order. */
  ghost predicate Lists(before: (nat, nat) -> bool, ids: seq<nat>, members: set<nat>) {
    Sorted(before, ids) && forall r :: r in ids <==> r in members
  }

  /** LIMIT and OFFSET over a listing. */
  function Page<T>(s: seq<T>, offset: nat, limit: nat): seq<T> {
    var from := if offset < |s| then offset else |s|;
    var to := if offset + limit < |s| then offset + limit else |s|;
    s[from..to]
  }

  /** There is only one listing, so separate queries see the same one. */
  lemma {:induction false} ListingUnique(before: (nat, nat) -> bool, a: seq<nat>, b: seq<nat>, members: set<nat>)
    requires TotalOrder(before) && Lists(before, a, members) && Lists(before, b, members)
    ensures a == b
  {
    EmptyIff(before, a, members);
    EmptyIff(before, b, members);
    if members != {} {
      FirstIsLeast(before, a, members);
      FirstIsLeast(before, b, members);
      TailLists(before, a, members);
      TailLists(before, b, members);
      ListingUnique(before, a[1..], b[1..], members - {a[0]});
    }
  }

  lemma EmptyIff(before: (nat, nat) -> bool, a: seq<nat>, members: set<nat>)
    requires Lists(before, a, members)
    ensures a == [] <==> members == {}
  {
    if a != [] {
      assert a[0] in members;
    }
  }

  lemma FirstIsLeast(before: (nat, nat) -> bool, a: seq<nat>, members: set<nat>)
    requires TotalOrder(before) && Lists(before, a, members) && a != []
    ensures a[0] in members && forall r :: r in members && r != a[0] ==> before(a[0], r)
  {
    assert a[0] in a;
  }

  lemma TailLists(before: (nat, nat) -> bool, a: seq<nat>, members: set<nat>)
    requires TotalOrder(before) && Lists(before, a, members) && a != []
    ensures Lists(before, a[1..], members - {a[0]})
  {
    assert a == [a[0]] + a[1..];
    assert forall i :: 0 <= i < |a[1..]| ==> before(a[0], a[1..][i]);
  }

  /** A listing names every member once. */
  lemma {:induction false} ListsSize(before: (nat, nat) -> bool, a: seq<nat>, members: set<nat>)
    requires TotalOrder(before) && Lists(before, a, members)
    ensures |a| == |members|
  {
    EmptyIff(before, a, members);
    if a != [] {
      FirstIsLeast(before, a, members);
      TailLists(before, a, members);
      ListsSize(before, a[1..], members - {a[0]});
    }
  }

  /** A page continues what the pages before it have shown. */
  lemma PageJoins<T>(s: seq<T>, offset: nat, limit: nat)
    ensures Page(s, 0, offset) + Page(s, offset, limit) == Page(s, 0, offset + limit)
    ensures offset >= |s| ==> Page(s, 0, offset) == s
  {
    if offset < |s| {
      assert Page(s, 0, offset) == s[..offset];
    }
  }

  /** Consecutive pages put together, `n` of them. */
  function Pages<T>(s: seq<T>, limit: nat, n: nat): seq<T> {
    if n == 0 then [] else Pages(s, limit, n - 1) + Page(s, (n - 1) * limit, limit)
  }

  /** Consecutive pages concatenate to the whole result, without a gap or a repeat. */
  lemma {:induction false} PagesConcatenate<T>(s: seq<T>, limit: nat, n: nat)
    ensures Pages(s, limit, n) == Page(s, 0, n * limit)
    ensures n * limit >= |s| ==> Pages(s, limit, n) == s
  {
    if n > 0 {
      PagesConcatenate(s, limit, n - 1);
      assert n * limit == (n - 1) * limit + limit;
      PageJoins(s, (n - 1) * limit, limit);
    }
  }

  /** Lists members in order by repeatedly taking the first one. */
  method OrderBy(members: set<nat>, before: (nat, nat) -> bool) returns (ids: seq<nat>)
    requires TotalOrder(before)
    ensures Lists(before, ids, members) && |ids| == |members|
  {
    ids := [];
    var rest := members;
    while rest != {}
      invariant rest <= members && (forall r :: r in ids <==> r in members - rest)
      invariant Sorted(before, ids) && forall r, s :: r in ids && s in rest ==> before(r, s)
      invariant |ids| + |rest| == |members|
      decreases rest
    {
      var first := First(rest, before);
      ids := ids + [first];
      rest := rest - {first};
    }
  }

  method First(members: set<nat>, before: (nat, nat) -> bool) returns (first: nat)
    requires TotalOrder(before) && members != {}
    ensures first in members && forall r :: r in members && r != first ==> before(first, r)
  {
    first :| first in members;
    var rest := members - {first};
    while rest != {}
      invariant rest <= members && first in members && first !in rest
      invariant forall r :: r in members - rest && r != first ==> before(first, r)
      decreases rest
    {
      var r :| r in rest;
      if before(r, first) {
        first := r;
      }
      rest := rest - {r};
    }
  }
}
