/** Sorting under an order in which different elements may rank alike. */
module Sorting {
  import opened Sums

  ghost predicate Preorder<T(!new)>(leq: (T, T) -> bool) {
    && (forall x, y :: leq(x, y) || leq(y, x))
    && (forall x, y, z :: leq(x, y) && leq(y, z) ==> leq(x, z))
  }

  /** Different elements never rank alike. */
  ghost predicate TotalOrder<T(!new)>(leq: (T, T) -> bool) {
    Preorder(leq) && forall x, y :: leq(x, y) && leq(y, x) ==> x == y
  }

  predicate Sorted<T>(a: seq<T>, leq: (T, T) -> bool) {
    forall i, j :: 0 <= i < j < |a| ==> leq(a[i], a[j])
  }

  function Insert<T>(a: seq<T>, x: T, leq: (T, T) -> bool): seq<T> {
    if a == [] || leq(a[|a| - 1], x) then a + [x] else Insert(a[..|a| - 1], x, leq) + [a[|a| - 1]]
  }

  function Sort<T>(a: seq<T>, leq: (T, T) -> bool): seq<T> {
    if a == [] then [] else Insert(Sort(a[..|a| - 1], leq), a[|a| - 1], leq)
  }

  lemma {:induction false} InsertAdds<T>(a: seq<T>, x: T, leq: (T, T) -> bool)
    ensures multiset(Insert(a, x, leq)) == multiset(a) + multiset{x}
  {
    if a != [] && !leq(a[|a| - 1], x) {
      InsertAdds(a[..|a| - 1], x, leq);
      assert a == a[..|a| - 1] + [a[|a| - 1]];
    }
  }

  lemma {:induction false} InsertSorts<T(!new)>(a: seq<T>, x: T, leq: (T, T) -> bool)
    requires Preorder(leq) && Sorted(a, leq)
    ensures Sorted(Insert(a, x, leq), leq)
  {
    if a != [] && !leq(a[|a| - 1], x) {
      var front, last := a[..|a| - 1], a[|a| - 1];
      InsertSorts(front, x, leq);
      InsertAdds(front, x, leq);
      var r := Insert(front, x, leq);
      forall i | 0 <= i < |r| ensures leq(r[i], last) {
        assert r[i] in multiset(r);
        assert r[i] in front || r[i] == x;
      }
    }
  }

  lemma {:induction false} SortMembers<T>(a: seq<T>, leq: (T, T) -> bool)
    ensures multiset(Sort(a, leq)) == multiset(a)
  {
    if a != [] {
      var front, last := a[..|a| - 1], a[|a| - 1];
      SortMembers(front, leq);
      InsertAdds(Sort(front, leq), last, leq);
      assert a == front + [last];
    }
  }

  lemma {:induction false} SortSorts<T(!new)>(a: seq<T>, leq: (T, T) -> bool)
    requires Preorder(leq)
    ensures multiset(Sort(a, leq)) == multiset(a) && Sorted(Sort(a, leq), leq)
  {
    SortMembers(a, leq);
    if a != [] {
      SortSorts(a[..|a| - 1], leq);
      InsertSorts(Sort(a[..|a| - 1], leq), a[|a| - 1], leq);
    }
  }

  lemma {:induction false} SumInserted<T>(a: seq<T>, x: T, leq: (T, T) -> bool, f: T -> int)
    ensures Sum(Insert(a, x, leq), f) == Sum(a, f) + f(x)
  {
    if a == [] || leq(a[|a| - 1], x) {
      assert (a + [x])[..|a|] == a;
    } else {
      var r := Insert(a[..|a| - 1], x, leq);
      SumInserted(a[..|a| - 1], x, leq, f);
      assert (r + [a[|a| - 1]])[..|r|] == r;
    }
  }

  lemma {:induction false} SumSorted<T>(a: seq<T>, leq: (T, T) -> bool, f: T -> int)
    ensures Sum(Sort(a, leq), f) == Sum(a, f)
  {
    if a != [] {
      SumSorted(a[..|a| - 1], leq, f);
      SumInserted(Sort(a[..|a| - 1], leq), a[|a| - 1], leq, f);
    }
  }
}
