/** Lists of key/value entries sorted by key, under any total order on the keys: what a comparison
    that is 0 on equal keys only makes of `Object.entries(x).sort(...)`. */
module KeyOrder {
  import opened Sorting

  type Order = (string, string) -> bool

  function ByKey<V>(leq: Order): ((string, V), (string, V)) -> bool {
    (x: (string, V), y: (string, V)) => leq(x.0, y.0)
  }

  predicate DistinctKeys<V>(entries: seq<(string, V)>) {
    forall i, j :: 0 <= i < j < |entries| ==> entries[i].0 != entries[j].0
  }

  predicate SortedByKey<V>(entries: seq<(string, V)>, leq: Order) {
    Sorted(entries, ByKey(leq))
  }

  /** `Object.fromEntries`: the last entry of a key wins. */
  function ToMap<V>(entries: seq<(string, V)>): (m: map<string, V>)
    ensures forall k :: k in m <==> exists i :: 0 <= i < |entries| && entries[i].0 == k
  {
    if entries == [] then map[]
    else
      var front, last := ToMap(entries[..|entries| - 1]), entries[|entries| - 1];
      front[last.0 := last.1]
  }

  function SortByKey<V>(entries: seq<(string, V)>, leq: Order): seq<(string, V)> {
    Sort(entries, ByKey(leq))
  }

  /** In a list without repeated keys every entry is what its key maps to. */
  lemma {:induction false} MapsTo<V>(entries: seq<(string, V)>, i: nat)
    requires DistinctKeys(entries) && i < |entries|
    ensures ToMap(entries)[entries[i].0] == entries[i].1
  {
    if i < |entries| - 1 {
      MapsTo(entries[..|entries| - 1], i);
    }
  }

  lemma MapSnoc<V>(a: seq<(string, V)>, last: (string, V))
    ensures ToMap(a + [last]) == ToMap(a)[last.0 := last.1]
  {
    assert (a + [last])[..|a|] == a;
  }

  /** What a key maps to is the value of one of its entries. */
  lemma {:induction false} ValueOfKey<V>(entries: seq<(string, V)>, k: string)
    requires k in ToMap(entries)
    ensures exists i :: 0 <= i < |entries| && entries[i] == (k, ToMap(entries)[k])
  {
    var n := |entries| - 1;
    if entries[n].0 == k {
      assert entries[n] == (k, ToMap(entries)[k]);
    } else {
      ValueOfKey(entries[..n], k);
      var i :| 0 <= i < n && entries[..n][i] == (k, ToMap(entries[..n])[k]);
      assert entries[i] == (k, ToMap(entries)[k]);
    }
  }

  lemma {:induction false} CountsOnce<V>(a: seq<(string, V)>, x: (string, V))
    requires DistinctKeys(a)
    ensures multiset(a)[x] <= 1
  {
    if a != [] {
      var front, last := a[..|a| - 1], a[|a| - 1];
      assert a == front + [last];
      CountsOnce(front, x);
      if x == last {
        assert x !in front;
      }
    }
  }

  lemma CountsTwice<V>(a: seq<(string, V)>, i: nat, j: nat)
    requires i < j < |a| && a[i] == a[j]
    ensures multiset(a)[a[i]] >= 2
  {
    assert a == a[..j] + a[j..];
    assert a[..j][i] == a[i] && a[j..][0] == a[j];
    assert a[i] in multiset(a[..j]) && a[i] in multiset(a[j..]);
  }

  lemma Member<V>(a: seq<(string, V)>, b: seq<(string, V)>, i: nat) returns (j: nat)
    requires multiset(a) == multiset(b) && i < |a|
    ensures j < |b| && b[j] == a[i]
  {
    assert a[i] in multiset(b);
    j :| 0 <= j < |b| && b[j] == a[i];
  }

  lemma SameDistinct<V>(a: seq<(string, V)>, b: seq<(string, V)>)
    requires multiset(a) == multiset(b) && DistinctKeys(b)
    ensures DistinctKeys(a)
  {
    forall i: nat, j: nat | i < j < |a| ensures a[i].0 != a[j].0 {
      var k := Member(a, b, i);
      var m := Member(a, b, j);
      if a[i] == a[j] {
        CountsTwice(a, i, j);
        CountsOnce(b, a[i]);
      }
    }
  }

  lemma SameMap<V>(a: seq<(string, V)>, b: seq<(string, V)>)
    requires multiset(a) == multiset(b) && DistinctKeys(a) && DistinctKeys(b)
    ensures ToMap(a) == ToMap(b)
  {
    forall k | k in ToMap(a) ensures k in ToMap(b) && ToMap(b)[k] == ToMap(a)[k] {
      var i: nat :| i < |a| && a[i].0 == k;
      var j := Member(a, b, i);
      MapsTo(a, i);
      MapsTo(b, j);
    }
    forall k | k in ToMap(b) ensures k in ToMap(a) {
      var j: nat :| j < |b| && b[j].0 == k;
      var i := Member(b, a, j);
    }
  }

  lemma ByKeyIsPreorder<V(!new)>(leq: Order)
    requires Preorder(leq)
    ensures Preorder(ByKey<V>(leq))
  {
    var order := ByKey<V>(leq);
    forall x, y ensures order(x, y) || order(y, x) {
      assert leq(x.0, y.0) || leq(y.0, x.0);
    }
    forall x, y, z | order(x, y) && order(y, z) ensures order(x, z) {
      assert leq(x.0, y.0) && leq(y.0, z.0);
    }
  }

  /** Sorting keeps the entries and puts them in order. */
  lemma SortKeeps<V(!new)>(entries: seq<(string, V)>, leq: Order)
    requires TotalOrder(leq) && DistinctKeys(entries)
    ensures var r := SortByKey(entries, leq);
      multiset(r) == multiset(entries) && SortedByKey(r, leq) && DistinctKeys(r) && ToMap(r) == ToMap(entries)
  {
    ByKeyIsPreorder<V>(leq);
    SortSorts(entries, ByKey(leq));
    SameDistinct(SortByKey(entries, leq), entries);
    SameMap(SortByKey(entries, leq), entries);
  }

  lemma UpdateThenRemove<V>(m: map<string, V>, k: string, v: V)
    requires k !in m
    ensures m[k := v] - {k} == m
  {
  }

  /** Without its last entry, a list without repeated keys is its map without that key. */
  lemma FrontMap<V>(a: seq<(string, V)>, front: seq<(string, V)>, last: (string, V))
    requires a == front + [last] && forall i :: 0 <= i < |front| ==> front[i].0 != last.0
    ensures ToMap(front) == ToMap(a) - {last.0}
  {
    assert a[..|a| - 1] == front;
    UpdateThenRemove(ToMap(front), last.0, last.1);
  }

  lemma FrontSorted<V>(a: seq<(string, V)>, front: seq<(string, V)>, last: (string, V), leq: Order)
    requires a == front + [last] && SortedByKey(a, leq) && DistinctKeys(a)
    ensures SortedByKey(front, leq) && DistinctKeys(front)
    ensures forall i :: 0 <= i < |front| ==> front[i].0 != last.0
  {
    assert forall i :: 0 <= i < |front| ==> front[i] == a[i];
    assert a[|front|] == last;
  }

  lemma LastIsLargest<V>(a: seq<(string, V)>, leq: Order, k: string)
    requires SortedByKey(a, leq) && k in ToMap(a) && leq(k, k)
    ensures a != [] && leq(k, a[|a| - 1].0)
  {
    var i :| 0 <= i < |a| && a[i].0 == k;
  }

  lemma SameLargest(leq: Order, a: string, b: string)
    requires TotalOrder(leq) && leq(a, b) && leq(b, a)
    ensures a == b
  {
  }

  lemma Reflexive(leq: Order, a: string)
    requires TotalOrder(leq)
    ensures leq(a, a)
  {
  }

  lemma SameLast<V>(a: seq<(string, V)>, b: seq<(string, V)>, leq: Order)
    requires TotalOrder(leq) && ToMap(a) == ToMap(b) && a != [] && b != []
    requires SortedByKey(a, leq) && DistinctKeys(a) && SortedByKey(b, leq) && DistinctKeys(b)
    ensures a[|a| - 1] == b[|b| - 1]
  {
    var x, y := a[|a| - 1], b[|b| - 1];
    MapsTo(a, |a| - 1);
    MapsTo(b, |b| - 1);
    Reflexive(leq, x.0);
    Reflexive(leq, y.0);
    LastIsLargest(a, leq, y.0);
    LastIsLargest(b, leq, x.0);
    SameLargest(leq, x.0, y.0);
  }

  lemma OneEmpty<V>(a: seq<(string, V)>, b: seq<(string, V)>)
    requires ToMap(a) == ToMap(b)
    ensures a == [] <==> b == []
  {
    assert a != [] ==> a[0].0 in ToMap(a);
    assert b != [] ==> b[0].0 in ToMap(b);
  }

  ghost predicate SortedList<V>(a: seq<(string, V)>, leq: Order) {
    SortedByKey(a, leq) && DistinctKeys(a)
  }

  lemma Peeled<V>(a: seq<(string, V)>, front: seq<(string, V)>, last: (string, V), leq: Order)
    requires a == front + [last] && SortedList(a, leq)
    ensures SortedList(front, leq) && ToMap(front) == ToMap(a) - {last.0}
  {
    FrontSorted(a, front, last, leq);
    FrontMap(a, front, last);
  }

  lemma Peel<V>(a: seq<(string, V)>, b: seq<(string, V)>, leq: Order)
    returns (front: seq<(string, V)>, front': seq<(string, V)>, last: (string, V))
    requires TotalOrder(leq) && ToMap(a) == ToMap(b) && a != [] && b != []
    requires SortedList(a, leq) && SortedList(b, leq)
    ensures a == front + [last] && b == front' + [last]
    ensures SortedList(front, leq) && SortedList(front', leq) && ToMap(front) == ToMap(front')
  {
    front, front', last := a[..|a| - 1], b[..|b| - 1], a[|a| - 1];
    SameLast(a, b, leq);
    Peeled(a, front, last, leq);
    Peeled(b, front', last, leq);
  }

  /** A map has one sorted list. */
  lemma {:induction false} SortedUnique<V>(a: seq<(string, V)>, b: seq<(string, V)>, leq: Order)
    requires TotalOrder(leq) && ToMap(a) == ToMap(b)
    requires SortedList(a, leq) && SortedList(b, leq)
    ensures a == b
  {
    OneEmpty(a, b);
    if a != [] {
      var front, front', last := Peel(a, b, leq);
      SortedUnique(front, front', leq);
    }
  }

  /** Two lists of the same map sort to the same list, whatever order they were in. */
  lemma SortIgnoresOrder<V(!new)>(a: seq<(string, V)>, b: seq<(string, V)>, leq: Order)
    requires TotalOrder(leq) && DistinctKeys(a) && DistinctKeys(b) && ToMap(a) == ToMap(b)
    ensures SortByKey(a, leq) == SortByKey(b, leq)
  {
    SortKeeps(a, leq);
    SortKeeps(b, leq);
    SortedUnique(SortByKey(a, leq), SortByKey(b, leq), leq);
  }

  /** A list that is in order already is left as it is. */
  lemma SortOfSorted<V(!new)>(a: seq<(string, V)>, leq: Order)
    requires TotalOrder(leq) && SortedByKey(a, leq) && DistinctKeys(a)
    ensures SortByKey(a, leq) == a
  {
    SortKeeps(a, leq);
    SortedUnique(SortByKey(a, leq), a, leq);
  }
}
