/** Sorting by insertion for any total order; it stands in for the library sort. */
module Sorting {
  ghost predicate TotalOrder<T(!new)>(before: (T, T) -> bool) {
    && (forall a, b :: before(a, b) || before(b, a))
    && (forall a, b, c :: before(a, b) && before(b, c) ==> before(a, c))
  }

  ghost predicate SortedBy<T>(s: seq<T>, before: (T, T) -> bool) {
    forall i, j :: 0 <= i < j < |s| ==> before(s[i], s[j])
  }

  function Inserted<T(!new)>(s: seq<T>, x: T, before: (T, T) -> bool): (r: seq<T>)
    requires TotalOrder(before) && SortedBy(s, before)
    ensures SortedBy(r, before) && multiset(r) == multiset(s) + multiset{x}
  {
    var n := |s| - 1;
    if s == [] || before(s[n], x) then
      s + [x]
    else
      assert s == s[..n] + [s[n]];
      var front := Inserted(s[..n], x, before);
      NoneAfter(front, s[..n], x, s[n], before);
      front + [s[n]]
  }

  /** What bounds a sequence and one more element bounds every arrangement of both. */
  lemma NoneAfter<T(!new)>(front: seq<T>, s: seq<T>, x: T, last: T, before: (T, T) -> bool)
    requires multiset(front) == multiset(s) + multiset{x}
    requires before(x, last) && forall k :: 0 <= k < |s| ==> before(s[k], last)
    ensures forall k :: 0 <= k < |front| ==> before(front[k], last)
  {
    forall k | 0 <= k < |front| ensures before(front[k], last) {
      assert front[k] in multiset(front);
      assert front[k] == x || front[k] in multiset(s);
      assert front[k] in multiset(s) ==> front[k] in s;
    }
  }

  function Sort<T(!new)>(s: seq<T>, before: (T, T) -> bool): (r: seq<T>)
    requires TotalOrder(before)
    ensures SortedBy(r, before) && multiset(r) == multiset(s)
  {
    if s == [] then
      []
    else
      assert s == s[..|s| - 1] + [s[|s| - 1]];
      Inserted(Sort(s[..|s| - 1], before), s[|s| - 1], before)
  }

  lemma InsertedLast<T(!new)>(s: seq<T>, before: (T, T) -> bool)
    requires TotalOrder(before) && s != [] && SortedBy(s, before)
    ensures SortedBy(s[..|s| - 1], before) && Inserted(s[..|s| - 1], s[|s| - 1], before) == s
  {
    var front := s[..|s| - 1];
    assert s == front + [s[|s| - 1]];
    assert front != [] ==> before(front[|front| - 1], s[|s| - 1]);
  }

  lemma SortNext<T(!new)>(s: seq<T>, before: (T, T) -> bool)
    requires TotalOrder(before)
    ensures s == [] ==> Sort(s, before) == s
    ensures s != [] ==> Sort(s, before) == Inserted(Sort(s[..|s| - 1], before), s[|s| - 1], before)
  {
  }

  /** A sequence that is in order already stays as it is. */
  lemma {:induction false} SortOfSorted<T(!new)>(s: seq<T>, before: (T, T) -> bool)
    requires TotalOrder(before) && SortedBy(s, before)
    ensures Sort(s, before) == s
  {
    hide Sort, Inserted, SortedBy, TotalOrder;
    SortNext(s, before);
    if s == [] {
    } else {
      InsertedLast(s, before);
      SortOfSorted(s[..|s| - 1], before);
    }
  }
}
