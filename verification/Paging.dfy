/** Reading a query page by page. The query orders its rows by a key that different rows may share, and
    the database may list rows with one key in a different order each time it is asked. */
module Paging {
  import opened Sets
  import opened Sorting

  /** Whether the first row may come before the second. */
  type RowOrder = (nat, nat) -> bool

  /** An order in which the database may list the rows. */
  predicate Listing(a: seq<nat>, rows: set<nat>, leq: RowOrder) {
    multiset(a) == multiset(rows) && Sorted(a, leq)
  }

  function Min(x: nat, y: nat): nat {
    if x <= y then x else y
  }

  /** How many of n rows the first pages hold. */
  function Cut(n: nat, limit: nat, pages: nat): (r: nat)
    ensures r <= n
  {
    if pages == 0 then 0 else Min(n, Cut(n, limit, pages - 1) + limit)
  }

  lemma {:induction false} CutIs(n: nat, limit: nat, pages: nat)
    ensures Cut(n, limit, pages) == Min(n, pages * limit)
  {
    if pages > 0 {
      CutIs(n, limit, pages - 1);
      assert pages * limit == (pages - 1) * limit + limit;
    }
  }

  lemma {:induction false} CutGrows(n: nat, limit: nat, pages: nat, more: nat)
    requires pages <= more
    ensures Cut(n, limit, pages) <= Cut(n, limit, more)
  {
    if pages < more {
      CutGrows(n, limit, pages, more - 1);
    }
  }

  /** `OFFSET (page - 1) * limit LIMIT limit`, pages counted from 1. */
  function Page(a: seq<nat>, limit: nat, page: nat): seq<nat>
    requires page >= 1
  {
    var offset := Min(|a|, (page - 1) * limit);
    a[offset..Min(|a|, offset + limit)]
  }

  lemma PageIs(a: seq<nat>, limit: nat, page: nat)
    requires page >= 1
    ensures Cut(|a|, limit, page - 1) <= Cut(|a|, limit, page)
    ensures Page(a, limit, page) == a[Cut(|a|, limit, page - 1)..Cut(|a|, limit, page)]
  {
    CutIs(|a|, limit, page - 1);
  }

  /** All pages in turn, page k from the k-th listing. */
  function Walk(listings: seq<seq<nat>>, limit: nat): seq<nat> {
    if listings == [] then []
    else Walk(listings[..|listings| - 1], limit) + Page(listings[|listings| - 1], limit, |listings|)
  }

  ghost predicate Listings(listings: seq<seq<nat>>, rows: set<nat>, leq: RowOrder) {
    forall k :: 0 <= k < |listings| ==> Listing(listings[k], rows, leq)
  }

  /** Between page k and the next one the key goes up. */
  predicate CleanCut(a: seq<nat>, leq: RowOrder, limit: nat, k: nat) {
    var cut := Cut(|a|, limit, k);
    0 < cut < |a| ==> !leq(a[cut], a[cut - 1])
  }

  ghost predicate CleanCuts(a: seq<nat>, leq: RowOrder, limit: nat) {
    forall k: nat :: CleanCut(a, leq, limit, k)
  }

  // ---- Listings of the same rows ----

  lemma PlaceOf(a: seq<nat>, rows: set<nat>, x: nat) returns (i: nat)
    requires multiset(a) == multiset(rows) && x in rows
    ensures i < |a| && a[i] == x
  {
    assert x in multiset(a);
    i :| 0 <= i < |a| && a[i] == x;
  }

  lemma OnlyRows(a: seq<nat>, rows: set<nat>, i: nat)
    requires multiset(a) == multiset(rows) && i < |a|
    ensures a[i] in rows
  {
    assert a[i] in multiset(a);
  }

  lemma SameLength(a: seq<nat>, r: seq<nat>, rows: set<nat>)
    requires multiset(a) == multiset(rows) && multiset(r) == multiset(rows)
    ensures |a| == |r|
  {
    assert |multiset(a)| == |multiset(r)|;
  }

  /** The rows of the first b places. */
  function Front(a: seq<nat>, b: nat): set<nat>
    requires b <= |a|
  {
    set i | 0 <= i < b :: a[i]
  }

  lemma SplitCount(a: seq<nat>, b: nat, x: nat)
    requires b <= |a|
    ensures multiset(a)[x] == multiset(a[..b])[x] + multiset(a[b..])[x]
  {
    assert a == a[..b] + a[b..];
  }

  /** No row is listed twice. */
  lemma {:induction false} FrontOnce(a: seq<nat>, rows: set<nat>, b: nat)
    requires multiset(a) == multiset(rows) && b <= |a|
    ensures multiset(a[..b]) == multiset(Front(a, b))
  {
    if b > 0 {
      FrontOnce(a, rows, b - 1);
      var x := a[b - 1];
      SplitCount(a, b - 1, x);
      assert a[b - 1..][0] == x;
      assert x in multiset(a[b - 1..]);
      assert multiset(a)[x] <= 1;
      assert x !in multiset(a[..b - 1]);
      assert a[..b] == a[..b - 1] + [x];
      assert Front(a, b) == Front(a, b - 1) + {x};
    }
  }

  lemma FrontSize(a: seq<nat>, rows: set<nat>, b: nat)
    requires multiset(a) == multiset(rows) && b <= |a|
    ensures |Front(a, b)| == b
  {
    FrontOnce(a, rows, b);
    assert |multiset(a[..b])| == b;
    assert |multiset(Front(a, b))| == |Front(a, b)|;
  }

  /** A listing that takes a row from behind a clean cut to its front has the whole front there. */
  lemma FrontBefore(a: seq<nat>, r: seq<nat>, rows: set<nat>, leq: RowOrder, b: nat, i: nat, x: nat)
    requires Preorder(leq) && Listing(a, rows, leq) && Listing(r, rows, leq)
    requires b <= |a| && b <= |r| && (0 < b < |a| ==> !leq(a[b], a[b - 1]))
    requires i < b && r[i] !in Front(a, b) && x in Front(a, b)
    ensures x in Front(r, b)
  {
    OnlyRows(r, rows, i);
    var m := PlaceOf(a, rows, r[i]);
    var l :| 0 <= l < b && a[l] == x;
    OnlyRows(a, rows, l);
    var j := PlaceOf(r, rows, x);
    assert leq(a[b], a[m]) && leq(a[l], a[b - 1]);
    assert !leq(r[i], r[j]);
  }

  lemma SameFront(a: seq<nat>, r: seq<nat>, rows: set<nat>, leq: RowOrder, b: nat)
    requires Preorder(leq) && Listing(a, rows, leq) && Listing(r, rows, leq)
    requires b <= |a| && (0 < b < |a| ==> !leq(a[b], a[b - 1]))
    ensures b <= |r| && multiset(a[..b]) == multiset(r[..b])
  {
    SameLength(a, r, rows);
    FrontSize(a, rows, b);
    FrontSize(r, rows, b);
    if i: nat :| i < b && r[i] !in Front(a, b) {
      forall x | x in Front(a, b) ensures x in Front(r, b) {
        FrontBefore(a, r, rows, leq, b, i, x);
      }
      SubsetEqual(Front(a, b), Front(r, b));
    } else {
      SubsetEqual(Front(r, b), Front(a, b));
    }
    FrontOnce(a, rows, b);
    FrontOnce(r, rows, b);
  }

  // ---- Clean cuts ----

  lemma FrontAndPage(a: seq<nat>, from: nat, to: nat)
    requires from <= to <= |a|
    ensures multiset(a[..from]) + multiset(a[from..to]) == multiset(a[..to])
  {
    assert a[..to] == a[..from] + a[from..to];
  }

  lemma PageCount(a: seq<nat>, r: seq<nat>, from: nat, to: nat)
    requires from <= to <= |a| && to <= |r|
    requires multiset(a[..from]) == multiset(r[..from]) && multiset(a[..to]) == multiset(r[..to])
    ensures multiset(a[from..to]) == multiset(r[from..to])
  {
    FrontAndPage(a, from, to);
    FrontAndPage(r, from, to);
    assert multiset(a[from..to]) == multiset(a[..to]) - multiset(a[..from]);
    assert multiset(r[from..to]) == multiset(r[..to]) - multiset(r[..from]);
  }

  lemma CleanPage(a: seq<nat>, r: seq<nat>, rows: set<nat>, leq: RowOrder, limit: nat, k: nat)
    requires Preorder(leq) && Listing(a, rows, leq) && Listing(r, rows, leq)
    requires CleanCut(a, leq, limit, k) && CleanCut(a, leq, limit, k + 1)
    ensures Cut(|a|, limit, k) <= Cut(|a|, limit, k + 1)
    ensures multiset(Page(r, limit, k + 1)) == multiset(a[Cut(|a|, limit, k)..Cut(|a|, limit, k + 1)])
  {
    SameLength(a, r, rows);
    PageIs(r, limit, k + 1);
    SameFront(a, r, rows, leq, Cut(|a|, limit, k));
    SameFront(a, r, rows, leq, Cut(|a|, limit, k + 1));
    PageCount(a, r, Cut(|a|, limit, k), Cut(|a|, limit, k + 1));
  }

  /** With clean cuts, the pages hold the rows of any one listing, whatever listings they are from. */
  lemma {:induction false} CleanWalk(listings: seq<seq<nat>>, a: seq<nat>, rows: set<nat>, leq: RowOrder, limit: nat)
    requires Preorder(leq) && Listing(a, rows, leq) && Listings(listings, rows, leq) && CleanCuts(a, leq, limit)
    ensures multiset(Walk(listings, limit)) == multiset(a[..Cut(|a|, limit, |listings|)])
  {
    if listings != [] {
      var k := |listings| - 1;
      CleanWalk(listings[..k], a, rows, leq, limit);
      assert CleanCut(a, leq, limit, k) && CleanCut(a, leq, limit, k + 1);
      CleanPage(a, listings[k], rows, leq, limit, k);
      FrontAndPage(a, Cut(|a|, limit, k), Cut(|a|, limit, k + 1));
    }
  }

  // ---- There is a listing ----

  lemma {:induction false} ListingExists(rows: set<nat>, leq: RowOrder) returns (a: seq<nat>)
    requires Preorder(leq)
    ensures Listing(a, rows, leq)
    decreases |rows|
  {
    if rows == {} {
      a := [];
    } else {
      var x :| x in rows;
      var front := ListingExists(rows - {x}, leq);
      InsertAdds(front, x, leq);
      InsertSorts(front, x, leq);
      a := Insert(front, x, leq);
      assert rows == (rows - {x}) + {x};
    }
  }

  // ---- Split cuts ----

  lemma Adjoin(w: seq<nat>, r: seq<nat>, i: nat, j: nat, k: nat)
    requires i <= j <= k <= |r|
    ensures (w + r[i..j]) + r[j..k] == w + r[i..k]
  {
  }

  /** Pages that are all from one listing. */
  lemma {:induction false} SteadyWalk(listings: seq<seq<nat>>, r: seq<nat>, limit: nat, k: nat)
    requires k <= |listings| && forall i :: k <= i < |listings| ==> listings[i] == r
    ensures Cut(|r|, limit, k) <= Cut(|r|, limit, |listings|)
    ensures Walk(listings, limit)
         == Walk(listings[..k], limit) + r[Cut(|r|, limit, k)..Cut(|r|, limit, |listings|)]
  {
    var n := |listings|;
    if k < n {
      SteadyWalk(listings[..n - 1], r, limit, k);
      assert listings[..n - 1][..k] == listings[..k];
      PageIs(r, limit, n);
      Adjoin(Walk(listings[..k], limit), r, Cut(|r|, limit, k), Cut(|r|, limit, n - 1), Cut(|r|, limit, n));
    } else {
      assert listings[..k] == listings;
    }
  }

  function Swapped(a: seq<nat>, i: nat): seq<nat>
    requires 0 < i < |a|
  {
    a[..i - 1] + [a[i], a[i - 1]] + a[i + 1..]
  }

  lemma SwappedRows(a: seq<nat>, i: nat)
    requires 0 < i < |a|
    ensures multiset(Swapped(a, i)) == multiset(a)
  {
    assert a == a[..i - 1] + [a[i - 1], a[i]] + a[i + 1..];
  }

  lemma SwappedIsListing(a: seq<nat>, rows: set<nat>, leq: RowOrder, i: nat)
    requires Preorder(leq) && Listing(a, rows, leq) && 0 < i < |a| && leq(a[i], a[i - 1])
    ensures Listing(Swapped(a, i), rows, leq)
  {
    SwappedRows(a, i);
    var r := Swapped(a, i);
    forall m, n | 0 <= m < n < |r| ensures leq(r[m], r[n]) {
      assert r[m] == a[if m == i then i - 1 else if m == i - 1 then i else m];
      assert r[n] == a[if n == i then i - 1 else if n == i - 1 then i else n];
    }
  }

  /** The pages up to the k-th from one listing, the others from another. */
  function Mixed(a: seq<nat>, r: seq<nat>, k: nat, pages: nat): seq<seq<nat>> {
    seq(pages, i => if i < k then a else r)
  }

  lemma FirstPages(a: seq<nat>, r: seq<nat>, limit: nat, k: nat, pages: nat)
    requires k <= pages
    ensures Walk(Mixed(a, r, k, pages)[..k], limit) == a[..Cut(|a|, limit, k)]
  {
    var first := Mixed(a, r, k, pages)[..k];
    SteadyWalk(first, a, limit, 0);
    assert first[..0] == [];
  }

  lemma MixedWalk(a: seq<nat>, r: seq<nat>, limit: nat, k: nat, pages: nat)
    requires |a| == |r| && k <= pages
    ensures Cut(|a|, limit, k) <= Cut(|a|, limit, pages)
    ensures Walk(Mixed(a, r, k, pages), limit)
         == a[..Cut(|a|, limit, k)] + r[Cut(|a|, limit, k)..Cut(|a|, limit, pages)]
  {
    FirstPages(a, r, limit, k, pages);
    SteadyWalk(Mixed(a, r, k, pages), r, limit, k);
  }

  lemma SplitCounts(a: seq<nat>, rows: set<nat>, b: nat)
    requires multiset(a) == multiset(rows) && 0 < b < |a|
    ensures var walk := a[..b] + Swapped(a, b)[b..];
      multiset(walk)[a[b - 1]] == 2 && a[b] !in walk
  {
    var x, y := a[b - 1], a[b];
    FrontOnce(a, rows, b);
    FrontOnce(a, rows, b + 1);
    SplitCount(a, b + 1, x);
    SplitCount(a, b + 1, y);
    assert a[..b + 1] == a[..b] + [y];
    assert Swapped(a, b)[b..] == [x] + a[b + 1..];
    assert x in a[..b] && a[..b + 1][b] == y;
    assert multiset(a)[x] <= 1 && multiset(a)[y] <= 1;
  }

  lemma SwappedWalk(a: seq<nat>, limit: nat, k: nat, pages: nat)
    requires 0 < Cut(|a|, limit, k) < |a| && Cut(|a|, limit, pages) == |a|
    ensures var b := Cut(|a|, limit, k);
      Walk(Mixed(a, Swapped(a, b), k, pages), limit) == a[..b] + Swapped(a, b)[b..]
  {
    var r := Swapped(a, Cut(|a|, limit, k));
    if k > pages {
      CutGrows(|a|, limit, pages, k);
    }
    MixedWalk(a, r, limit, k, pages);
    assert r[..|a|] == r;
  }

  /** Where a cut falls between rows of one key, there are listings whose walk shows the row before
      the cut twice, and not the row behind it. */
  lemma SplitWalk(a: seq<nat>, rows: set<nat>, leq: RowOrder, limit: nat, k: nat, pages: nat)
      returns (listings: seq<seq<nat>>)
    requires Preorder(leq) && Listing(a, rows, leq)
    requires !CleanCut(a, leq, limit, k) && Cut(|a|, limit, pages) == |a|
    ensures |listings| == pages && Listings(listings, rows, leq)
    ensures var cut := Cut(|a|, limit, k);
      multiset(Walk(listings, limit))[a[cut - 1]] == 2 && a[cut] !in Walk(listings, limit)
  {
    var b := Cut(|a|, limit, k);
    listings := Mixed(a, Swapped(a, b), k, pages);
    SwappedIsListing(a, rows, leq, b);
    SwappedWalk(a, limit, k, pages);
    SplitCounts(a, rows, b);
  }

  /** Whatever listings the pages are from, together they show every row exactly once. */
  ghost predicate AlwaysComplete(rows: set<nat>, leq: RowOrder, limit: nat, pages: nat) {
    forall listings :: |listings| == pages && Listings(listings, rows, leq) ==>
      multiset(Walk(listings, limit)) == multiset(rows)
  }

  lemma CleanIsComplete(a: seq<nat>, rows: set<nat>, leq: RowOrder, limit: nat, pages: nat)
    requires Preorder(leq) && Listing(a, rows, leq) && Cut(|a|, limit, pages) == |a| && CleanCuts(a, leq, limit)
    ensures AlwaysComplete(rows, leq, limit, pages)
  {
    forall listings | |listings| == pages && Listings(listings, rows, leq)
      ensures multiset(Walk(listings, limit)) == multiset(rows)
    {
      CleanWalk(listings, a, rows, leq, limit);
      assert a[..|a|] == a;
    }
  }

  lemma SplitIsIncomplete(a: seq<nat>, rows: set<nat>, leq: RowOrder, limit: nat, k: nat, pages: nat)
    requires Preorder(leq) && Listing(a, rows, leq)
    requires !CleanCut(a, leq, limit, k) && Cut(|a|, limit, pages) == |a|
    ensures !AlwaysComplete(rows, leq, limit, pages)
  {
    var listings := SplitWalk(a, rows, leq, limit, k, pages);
    assert multiset(rows)[a[Cut(|a|, limit, k) - 1]] <= 1;
  }

  /** Pages that hold all rows always show every row exactly once if and only if every cut is clean. */
  lemma CompleteIff(a: seq<nat>, rows: set<nat>, leq: RowOrder, limit: nat, pages: nat)
    requires Preorder(leq) && Listing(a, rows, leq) && pages * limit >= |a|
    ensures AlwaysComplete(rows, leq, limit, pages) <==> CleanCuts(a, leq, limit)
  {
    CutIs(|a|, limit, pages);
    if CleanCuts(a, leq, limit) {
      CleanIsComplete(a, rows, leq, limit, pages);
    } else {
      var k: nat :| !CleanCut(a, leq, limit, k);
      SplitIsIncomplete(a, rows, leq, limit, k, pages);
    }
  }
}
