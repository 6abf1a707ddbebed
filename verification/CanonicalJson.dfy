/** The canonical form two OpenAPI documents are compared in: the keys of every object sorted, at
    every depth. */
module CanonicalJson {
  import opened Wrappers
  import opened Sorting
  import opened KeyOrder

  datatype Atom = Null | Bool(b: bool) | Number(n: real) | Text(s: string)

  /** An object is the list of its entries in `Object.entries` order. */
  datatype Json = Leaf(atom: Atom) | Arr(items: seq<Json>) | Obj(entries: seq<(string, Json)>)

  /** No object repeats a key. */
  ghost predicate WellFormed(v: Json) {
    match v
    case Leaf(_) => true
    case Arr(items) => forall i :: 0 <= i < |items| ==> WellFormed(items[i])
    case Obj(entries) => DistinctKeys(entries) && forall i :: 0 <= i < |entries| ==> WellFormed(entries[i].1)
  }

  lemma EntriesKept<V>(entries: seq<(string, V)>, leq: Order)
    ensures forall x :: x in SortByKey(entries, leq) ==> x in entries
  {
    SortMembers(entries, ByKey(leq));
    forall x | x in SortByKey(entries, leq) ensures x in entries {
      assert x in multiset(SortByKey(entries, leq));
    }
  }

  function SortDeep(v: Json, leq: Order): Json {
    match v
    case Leaf(_) => v
    case Arr(items) => Arr(seq(|items|, i requires 0 <= i < |items| => SortDeep(items[i], leq)))
    case Obj(entries) =>
      var sorted := SortByKey(entries, leq);
      EntriesKept(entries, leq);
      assert forall i :: 0 <= i < |sorted| ==> sorted[i] in entries;
      Obj(seq(|sorted|, i requires 0 <= i < |sorted| => (sorted[i].0, SortDeep(sorted[i].1, leq))))
  }

  // ---- Documents that differ in key order only ----

  ghost predicate HasKey<V>(entries: seq<(string, V)>, k: string) {
    exists i :: 0 <= i < |entries| && entries[i].0 == k
  }

  /** Equal but for the order of keys, at any depth. */
  ghost predicate SameButOrder(a: Json, b: Json) {
    match (a, b)
    case (Leaf(x), Leaf(y)) => x == y
    case (Arr(x), Arr(y)) => |x| == |y| && forall i :: 0 <= i < |x| ==> SameButOrder(x[i], y[i])
    case (Obj(x), Obj(y)) =>
      && (forall k :: HasKey(x, k) <==> HasKey(y, k))
      && (forall i, j :: 0 <= i < |x| && 0 <= j < |y| && x[i].0 == y[j].0 ==> SameButOrder(x[i].1, y[j].1))
    case _ => false
  }

  lemma HasKeyIsIn<V>(entries: seq<(string, V)>, k: string)
    ensures HasKey(entries, k) <==> k in ToMap(entries)
  {
  }

  lemma SameMembers<V(!new)>(entries: seq<(string, V)>, leq: Order)
    requires TotalOrder(leq) && DistinctKeys(entries)
    ensures forall e :: e in SortByKey(entries, leq) <==> e in entries
  {
    SortKeeps(entries, leq);
    forall e ensures e in SortByKey(entries, leq) <==> e in entries {
      assert e in multiset(SortByKey(entries, leq)) <==> e in multiset(entries);
    }
  }

  lemma ImageIsSorted(entries: seq<(string, Json)>, leq: Order)
    requires TotalOrder(leq) && DistinctKeys(entries)
    ensures SortedList(SortDeep(Obj(entries), leq).entries, leq)
  {
    SortKeeps(entries, leq);
    var r, sorted := SortDeep(Obj(entries), leq).entries, SortByKey(entries, leq);
    assert |r| == |sorted| && forall p :: 0 <= p < |r| ==> r[p].0 == sorted[p].0;
  }

  lemma EntryHasImage(entries: seq<(string, Json)>, i: nat, leq: Order)
    requires TotalOrder(leq) && DistinctKeys(entries) && i < |entries|
    ensures (entries[i].0, SortDeep(entries[i].1, leq)) in SortDeep(Obj(entries), leq).entries
  {
    var r, sorted := SortDeep(Obj(entries), leq).entries, SortByKey(entries, leq);
    SameMembers(entries, leq);
    assert entries[i] in sorted;
    var p :| 0 <= p < |sorted| && sorted[p] == entries[i];
    assert r[p] == (entries[i].0, SortDeep(entries[i].1, leq));
  }

  lemma ImageHasEntry(entries: seq<(string, Json)>, p: nat, leq: Order)
    requires TotalOrder(leq) && DistinctKeys(entries) && p < |SortDeep(Obj(entries), leq).entries|
    ensures var r := SortDeep(Obj(entries), leq).entries;
      exists i :: 0 <= i < |entries| && r[p] == (entries[i].0, SortDeep(entries[i].1, leq))
  {
    var sorted := SortByKey(entries, leq);
    SameMembers(entries, leq);
    assert sorted[p] in sorted;
    var i :| 0 <= i < |entries| && entries[i] == sorted[p];
  }

  lemma SameKeys(entries: seq<(string, Json)>, r: seq<(string, Json)>, leq: Order)
    requires forall i :: 0 <= i < |entries| ==> (entries[i].0, SortDeep(entries[i].1, leq)) in r
    requires forall p :: 0 <= p < |r| ==>
      exists i :: 0 <= i < |entries| && r[p] == (entries[i].0, SortDeep(entries[i].1, leq))
    ensures forall k :: HasKey(r, k) <==> HasKey(entries, k)
  {
    forall k ensures HasKey(r, k) <==> HasKey(entries, k) {
      if HasKey(entries, k) {
        var i :| 0 <= i < |entries| && entries[i].0 == k;
        assert (k, SortDeep(entries[i].1, leq)) in r;
      }
    }
  }

  /** The sorted image of an object: each key with the sorted image of its value. */
  lemma ObjectImage(entries: seq<(string, Json)>, leq: Order)
    requires TotalOrder(leq) && DistinctKeys(entries)
    ensures var r := SortDeep(Obj(entries), leq).entries;
      && SortedList(r, leq)
      && (forall k :: HasKey(r, k) <==> HasKey(entries, k))
      && (forall i :: 0 <= i < |entries| ==> (entries[i].0, SortDeep(entries[i].1, leq)) in r)
      && (forall p :: 0 <= p < |r| ==>
        exists i :: 0 <= i < |entries| && r[p] == (entries[i].0, SortDeep(entries[i].1, leq)))
  {
    var r := SortDeep(Obj(entries), leq).entries;
    ImageIsSorted(entries, leq);
    forall i | 0 <= i < |entries| ensures (entries[i].0, SortDeep(entries[i].1, leq)) in r {
      EntryHasImage(entries, i, leq);
    }
    forall p | 0 <= p < |r|
      ensures exists i :: 0 <= i < |entries| && r[p] == (entries[i].0, SortDeep(entries[i].1, leq))
    {
      ImageHasEntry(entries, p, leq);
    }
    SameKeys(entries, r, leq);
  }

  lemma EntryOf<V>(r: seq<(string, V)>, e: (string, V))
    requires DistinctKeys(r) && e in r
    ensures e.0 in ToMap(r) && ToMap(r)[e.0] == e.1
  {
    var p :| 0 <= p < |r| && r[p] == e;
    MapsTo(r, p);
  }

  /** Two objects with the same keys have equal images when the images of the values agree. */
  lemma ImagesEqual(x: seq<(string, Json)>, y: seq<(string, Json)>, leq: Order)
    requires TotalOrder(leq) && DistinctKeys(x) && DistinctKeys(y)
    requires forall k :: HasKey(x, k) <==> HasKey(y, k)
    requires forall i, j :: 0 <= i < |x| && 0 <= j < |y| && x[i].0 == y[j].0 ==>
      SortDeep(x[i].1, leq) == SortDeep(y[j].1, leq)
    ensures SortDeep(Obj(x), leq) == SortDeep(Obj(y), leq)
  {
    var r, t := SortDeep(Obj(x), leq).entries, SortDeep(Obj(y), leq).entries;
    ObjectImage(x, leq);
    ObjectImage(y, leq);
    forall k ensures k in ToMap(r) <==> k in ToMap(t) {
      HasKeyIsIn(r, k);
      HasKeyIsIn(t, k);
    }
    forall k | k in ToMap(r) ensures ToMap(r)[k] == ToMap(t)[k] {
      HasKeyIsIn(r, k);
      assert HasKey(x, k) && HasKey(y, k);
      var i :| 0 <= i < |x| && x[i].0 == k;
      var j :| 0 <= j < |y| && y[j].0 == k;
      EntryOf(r, (x[i].0, SortDeep(x[i].1, leq)));
      EntryOf(t, (y[j].0, SortDeep(y[j].1, leq)));
    }
    assert ToMap(r) == ToMap(t);
    SortedUnique(r, t, leq);
  }

  lemma {:induction false} SameButOrderSameImage(a: Json, b: Json, leq: Order)
    requires TotalOrder(leq) && WellFormed(a) && WellFormed(b) && SameButOrder(a, b)
    ensures SortDeep(a, leq) == SortDeep(b, leq)
  {
    match (a, b)
    case (Leaf(_), Leaf(_)) =>
    case (Arr(x), Arr(y)) =>
      forall i | 0 <= i < |x| ensures SortDeep(x[i], leq) == SortDeep(y[i], leq) {
        SameButOrderSameImage(x[i], y[i], leq);
      }
      assert SortDeep(a, leq).items == SortDeep(b, leq).items;
    case (Obj(x), Obj(y)) =>
      forall i, j | 0 <= i < |x| && 0 <= j < |y| && x[i].0 == y[j].0
        ensures SortDeep(x[i].1, leq) == SortDeep(y[j].1, leq)
      {
        SameButOrderSameImage(x[i].1, y[j].1, leq);
      }
      ImagesEqual(x, y, leq);
  }

  /** Equal images come from the same keys, and the same image for each key. */
  lemma EqualImages(x: seq<(string, Json)>, y: seq<(string, Json)>, leq: Order)
    requires TotalOrder(leq) && DistinctKeys(x) && DistinctKeys(y)
    requires SortDeep(Obj(x), leq) == SortDeep(Obj(y), leq)
    ensures forall k :: HasKey(x, k) <==> HasKey(y, k)
    ensures forall i, j :: 0 <= i < |x| && 0 <= j < |y| && x[i].0 == y[j].0 ==>
      SortDeep(x[i].1, leq) == SortDeep(y[j].1, leq)
  {
    var r := SortDeep(Obj(x), leq).entries;
    ObjectImage(x, leq);
    ObjectImage(y, leq);
    forall i, j | 0 <= i < |x| && 0 <= j < |y| && x[i].0 == y[j].0
      ensures SortDeep(x[i].1, leq) == SortDeep(y[j].1, leq)
    {
      EntryOf(r, (x[i].0, SortDeep(x[i].1, leq)));
      EntryOf(r, (y[j].0, SortDeep(y[j].1, leq)));
    }
  }

  lemma {:induction false} SameImageSameButOrder(a: Json, b: Json, leq: Order)
    requires TotalOrder(leq) && WellFormed(a) && WellFormed(b) && SortDeep(a, leq) == SortDeep(b, leq)
    ensures SameButOrder(a, b)
  {
    match a
    case Leaf(_) =>
    case Arr(x) =>
      var y := b.items;
      forall i | 0 <= i < |x| ensures SameButOrder(x[i], y[i]) {
        assert SortDeep(a, leq).items[i] == SortDeep(b, leq).items[i];
        SameImageSameButOrder(x[i], y[i], leq);
      }
    case Obj(x) =>
      var y := b.entries;
      EqualImages(x, y, leq);
      forall i, j | 0 <= i < |x| && 0 <= j < |y| && x[i].0 == y[j].0 ensures SameButOrder(x[i].1, y[j].1) {
        SameImageSameButOrder(x[i].1, y[j].1, leq);
      }
  }

  /** The sorted image is a canonical form: two documents have the same image exactly when they
      differ in nothing but the order of keys. */
  lemma CanonicalForm(a: Json, b: Json, leq: Order)
    requires TotalOrder(leq) && WellFormed(a) && WellFormed(b)
    ensures SortDeep(a, leq) == SortDeep(b, leq) <==> SameButOrder(a, b)
  {
    if SameButOrder(a, b) {
      SameButOrderSameImage(a, b, leq);
    }
    if SortDeep(a, leq) == SortDeep(b, leq) {
      SameImageSameButOrder(a, b, leq);
    }
  }

  // ---- Idempotence ----

  /** All objects are sorted, at every depth. */
  ghost predicate SortedDeep(v: Json, leq: Order) {
    match v
    case Leaf(_) => true
    case Arr(items) => forall i :: 0 <= i < |items| ==> SortedDeep(items[i], leq)
    case Obj(entries) => SortedList(entries, leq) && forall i :: 0 <= i < |entries| ==> SortedDeep(entries[i].1, leq)
  }

  lemma {:induction false} ImageSorted(v: Json, leq: Order)
    requires TotalOrder(leq) && WellFormed(v)
    ensures SortedDeep(SortDeep(v, leq), leq)
  {
    match v
    case Leaf(_) =>
    case Arr(items) =>
      forall i | 0 <= i < |items| ensures SortedDeep(SortDeep(items[i], leq), leq) {
        ImageSorted(items[i], leq);
      }
    case Obj(entries) =>
      var r := SortDeep(v, leq).entries;
      ObjectImage(entries, leq);
      forall p | 0 <= p < |r| ensures SortedDeep(r[p].1, leq) {
        var i :| 0 <= i < |entries| && r[p] == (entries[i].0, SortDeep(entries[i].1, leq));
        ImageSorted(entries[i].1, leq);
      }
  }

  lemma {:induction false} SortedUnchanged(v: Json, leq: Order)
    requires TotalOrder(leq) && SortedDeep(v, leq)
    ensures SortDeep(v, leq) == v
  {
    match v
    case Leaf(_) =>
    case Arr(items) =>
      forall i | 0 <= i < |items| ensures SortDeep(items[i], leq) == items[i] {
        SortedUnchanged(items[i], leq);
      }
      assert SortDeep(v, leq).items == items;
    case Obj(entries) =>
      SortOfSorted(entries, leq);
      forall i | 0 <= i < |entries| ensures SortDeep(entries[i].1, leq) == entries[i].1 {
        SortedUnchanged(entries[i].1, leq);
      }
      assert SortDeep(v, leq).entries == entries;
  }

  /** The image has its keys sorted at every depth, and sorting it again changes nothing. */
  lemma Idempotent(v: Json, leq: Order)
    requires TotalOrder(leq) && WellFormed(v)
    ensures SortedDeep(SortDeep(v, leq), leq)
    ensures SortDeep(SortDeep(v, leq), leq) == SortDeep(v, leq)
  {
    ImageSorted(v, leq);
    SortedUnchanged(SortDeep(v, leq), leq);
  }

  // ---- Paths ----

  datatype Hop = Key(k: string) | Index(i: nat)

  /** The value one key or index further down. */
  function Down(v: Json, hop: Hop): Option<Json> {
    match (v, hop)
    case (Arr(items), Index(i)) => if i < |items| then Some(items[i]) else None
    case (Obj(entries), Key(k)) => if k in ToMap(entries) then Some(ToMap(entries)[k]) else None
    case _ => None
  }

  /** The value at a path of keys and indices. */
  function At(v: Json, path: seq<Hop>): Option<Json>
    decreases |path|
  {
    if path == [] then Some(v)
    else
      match Down(v, path[0])
      case Some(w) => At(w, path[1..])
      case None => None
  }

  function Image(v: Option<Json>, leq: Order): Option<Json> {
    match v
    case Some(w) => Some(SortDeep(w, leq))
    case None => None
  }

  lemma DownOfImage(v: Json, hop: Hop, leq: Order)
    requires TotalOrder(leq) && WellFormed(v)
    ensures Down(SortDeep(v, leq), hop) == Image(Down(v, hop), leq)
    ensures Down(v, hop).Some? ==> WellFormed(Down(v, hop).value)
  {
    if v.Obj? && hop.Key? {
      var r := SortDeep(v, leq).entries;
      ObjectImage(v.entries, leq);
      HasKeyIsIn(r, hop.k);
      HasKeyIsIn(v.entries, hop.k);
      if hop.k in ToMap(v.entries) {
        ValueOfKey(v.entries, hop.k);
        var i :| 0 <= i < |v.entries| && v.entries[i] == (hop.k, ToMap(v.entries)[hop.k]);
        EntryOf(r, (hop.k, SortDeep(v.entries[i].1, leq)));
      }
    }
  }

  /** Along every path of keys and indices the image leads to the image of what the document holds
      there: no path is lost or added, leaves are kept, and arrays keep their order. */
  lemma {:induction false} PathsKept(v: Json, path: seq<Hop>, leq: Order)
    requires TotalOrder(leq) && WellFormed(v)
    ensures At(SortDeep(v, leq), path) == Image(At(v, path), leq)
    decreases |path|
  {
    if path != [] {
      DownOfImage(v, path[0], leq);
      if Down(v, path[0]).Some? {
        PathsKept(Down(v, path[0]).value, path[1..], leq);
      }
    }
  }
}
