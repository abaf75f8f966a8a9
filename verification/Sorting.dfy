/** Stable insertion sort by a strict order, given as a predicate. */
module Sorting {

  function Insert<T>(sorted: seq<T>, x: T, before: (T, T) -> bool): seq<T> {
    if |sorted| == 0 || !before(x, sorted[|sorted| - 1]) then sorted + [x]
    else Insert(sorted[..|sorted| - 1], x, before) + [sorted[|sorted| - 1]]
  }

  function Sorted<T>(items: seq<T>, before: (T, T) -> bool): seq<T> {
    if |items| == 0 then [] else Insert(Sorted(items[..|items| - 1], before), items[|items| - 1], before)
  }

  ghost predicate Increasing<T>(s: seq<T>, before: (T, T) -> bool) {
    forall i, j | 0 <= i < j < |s| :: before(s[i], s[j])
  }

  ghost predicate Strict<T(!new)>(before: (T, T) -> bool) {
    && (forall a, b | before(a, b) :: !before(b, a))
    && (forall a, b, c | before(a, b) && before(b, c) :: before(a, c))
  }

  /** Every two elements can be told apart by the order. */
  ghost predicate Distinct<T>(s: seq<T>, before: (T, T) -> bool) {
    forall i, j | 0 <= i < j < |s| :: before(s[i], s[j]) || before(s[j], s[i])
  }

  lemma InsertAtEnd<T>(init: seq<T>, last: T, x: T, before: (T, T) -> bool)
    ensures Insert(init + [last], x, before)
         == if before(x, last) then Insert(init, x, before) + [last] else init + [last] + [x]
  {
    assert (init + [last])[..|init|] == init;
  }

  lemma {:induction false} InsertKeepsAll<T>(sorted: seq<T>, x: T, before: (T, T) -> bool)
    ensures multiset(Insert(sorted, x, before)) == multiset(sorted) + multiset{x}
    ensures |Insert(sorted, x, before)| == |sorted| + 1
  {
    if sorted != [] && before(x, sorted[|sorted| - 1]) {
      InsertKeepsAll(sorted[..|sorted| - 1], x, before);
      assert sorted == sorted[..|sorted| - 1] + [sorted[|sorted| - 1]];
    }
  }

  lemma {:induction false} SortedKeepsAll<T>(items: seq<T>, before: (T, T) -> bool)
    ensures multiset(Sorted(items, before)) == multiset(items) && |Sorted(items, before)| == |items|
  {
    if items != [] {
      SortedKeepsAll(items[..|items| - 1], before);
      InsertKeepsAll(Sorted(items[..|items| - 1], before), items[|items| - 1], before);
      assert items == items[..|items| - 1] + [items[|items| - 1]];
    }
  }

  lemma {:induction false} InsertKeepsOrder<T(!new)>(sorted: seq<T>, x: T, before: (T, T) -> bool)
    requires Strict(before) && Increasing(sorted, before)
    requires forall y | y in sorted :: before(x, y) || before(y, x)
    ensures Increasing(Insert(sorted, x, before), before)
  {
    if sorted != [] {
      var last := sorted[|sorted| - 1];
      assert last in sorted;
      if before(x, last) {
        var shorter := Insert(sorted[..|sorted| - 1], x, before);
        InsertKeepsOrder(sorted[..|sorted| - 1], x, before);
        InsertKeepsAll(sorted[..|sorted| - 1], x, before);
        forall i | 0 <= i < |shorter| ensures before(shorter[i], last) {
          assert shorter[i] in multiset(sorted[..|sorted| - 1]) + multiset{x};
        }
      }
    }
  }

  lemma {:induction false} SortedIsIncreasing<T(!new)>(items: seq<T>, before: (T, T) -> bool)
    requires Strict(before) && Distinct(items, before)
    ensures Increasing(Sorted(items, before), before)
  {
    if items != [] {
      var init, x := items[..|items| - 1], items[|items| - 1];
      SortedIsIncreasing(init, before);
      SortedKeepsAll(init, before);
      forall y | y in Sorted(init, before) ensures before(x, y) || before(y, x) {
        assert y in multiset(init);
      }
      InsertKeepsOrder(Sorted(init, before), x, before);
    }
  }

  /** Sorting what is in order already changes nothing. */
  lemma {:induction false} SortedIsStable<T(!new)>(items: seq<T>, before: (T, T) -> bool)
    requires Strict(before) && Increasing(items, before)
    ensures Sorted(items, before) == items
  {
    if items != [] {
      SortedIsStable(items[..|items| - 1], before);
      if |items| > 1 { assert before(items[|items| - 2], items[|items| - 1]); }
      assert items == items[..|items| - 1] + [items[|items| - 1]];
    }
  }
}
