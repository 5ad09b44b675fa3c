/** Stable sorting by a comparison, as the source's keyed sorts do. */
module Sorting {

  /** `before(a, b)` means that the key of `a` is strictly smaller than that of `b`. */
  ghost predicate KeyOrder<T(!new)>(before: (T, T) -> bool) {
    && (forall a, b :: before(a, b) ==> !before(b, a))
    && (forall a, b, c :: !before(b, a) && !before(c, b) ==> !before(c, a))
  }

  ghost predicate Ordered<T(!new)>(s: seq<T>, before: (T, T) -> bool) {
    forall i, j :: 0 <= i < j < |s| ==> !before(s[j], s[i])
  }

  function InsertBy<T>(x: T, list: seq<T>, before: (T, T) -> bool): seq<T> {
    if list == [] || !before(x, list[|list| - 1]) then list + [x]
    else InsertBy(x, list[..|list| - 1], before) + [list[|list| - 1]]
  }

  function SortBy<T>(s: seq<T>, before: (T, T) -> bool): seq<T> {
    if s == [] then [] else InsertBy(s[|s| - 1], SortBy(s[..|s| - 1], before), before)
  }

  lemma {:induction false} InsertMembers<T>(x: T, list: seq<T>, before: (T, T) -> bool)
    ensures multiset(InsertBy(x, list, before)) == multiset(list) + multiset{x}
  {
    if list != [] && before(x, list[|list| - 1]) {
      assert list == list[..|list| - 1] + [list[|list| - 1]];
      InsertMembers(x, list[..|list| - 1], before);
    }
  }

  lemma LastIsLeast<T(!new)>(x: T, list: seq<T>, before: (T, T) -> bool, i: nat)
    requires KeyOrder(before) && Ordered(list, before) && i < |list|
    requires !before(x, list[|list| - 1])
    ensures !before(x, list[i])
  {
    if i < |list| - 1 {
      assert !before(list[|list| - 1], list[i]);
    }
  }

  lemma {:induction false} InsertKeeps<T(!new)>(x: T, list: seq<T>, before: (T, T) -> bool)
    requires KeyOrder(before) && Ordered(list, before)
    ensures Ordered(InsertBy(x, list, before), before)
    ensures multiset(InsertBy(x, list, before)) == multiset(list) + multiset{x}
  {
    InsertMembers(x, list, before);
    if list == [] || !before(x, list[|list| - 1]) {
      forall i | 0 <= i < |list| ensures !before(x, list[i]) { LastIsLeast(x, list, before, i); }
    } else {
      var rest, last := list[..|list| - 1], list[|list| - 1];
      InsertKeeps(x, rest, before);
      var inner := InsertBy(x, rest, before);
      forall i | 0 <= i < |inner| ensures !before(last, inner[i]) {
        assert inner[i] in multiset(inner) && (inner[i] == x || inner[i] in rest);
      }
    }
  }

  lemma {:induction false} SortByOrders<T(!new)>(s: seq<T>, before: (T, T) -> bool)
    requires KeyOrder(before)
    ensures Ordered(SortBy(s, before), before)
    ensures multiset(SortBy(s, before)) == multiset(s)
  {
    if s != [] {
      var rest, last := s[..|s| - 1], s[|s| - 1];
      assert s == rest + [last];
      SortByOrders(rest, before);
      InsertKeeps(last, SortBy(rest, before), before);
    }
  }

  lemma {:induction false} SortByLength<T(!new)>(s: seq<T>, before: (T, T) -> bool)
    requires KeyOrder(before)
    ensures |SortBy(s, before)| == |s|
    ensures forall x :: x in SortBy(s, before) <==> x in s
  {
    SortByOrders(s, before);
    assert |multiset(SortBy(s, before))| == |multiset(s)|;
    forall x ensures x in SortBy(s, before) <==> x in s {
      assert x in multiset(SortBy(s, before)) <==> x in multiset(s);
    }
  }
}
