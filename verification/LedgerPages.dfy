/** Reading the general ledger page by page. Its rows are ordered by date and journal number, which
    the lines of one journal share. */
module LedgerPages {
  import opened Wrappers
  import opened Sums
  import opened Sorting
  import opened Paging
  import opened LedgerModel
  import opened LedgerInvariant
  import opened LedgerHistory
  import opened LedgerQueries

  type NumberOrder = (JournalNumber, JournalNumber) -> bool

  /** The ids of the lines the query lists. */
  function Rows(db: Db, q: Scope, accountId: Option<nat>): set<nat> {
    set i: nat | i < |db.lines| && Listed(db, q, accountId, db.lines[i])
  }

  /** The sort key of a line, for the lines there are. */
  function SortKey(db: Db, i: nat): (int, JournalNumber) {
    if i < |db.lines| && db.lines[i].entryId < |db.entries| then
      var e := db.entries[db.lines[i].entryId];
      (e.entryDate, e.number)
    else (0, JournalNumber(0, 0))
  }

  predicate KeyLeq(a: (int, JournalNumber), b: (int, JournalNumber), leq: NumberOrder) {
    a.0 < b.0 || (a.0 == b.0 && leq(a.1, b.1))
  }

  /** `ORDER BY entryDate, journalNumber`. */
  function ByDateAndNumber(db: Db, leq: NumberOrder): RowOrder {
    (i: nat, j: nat) => KeyLeq(SortKey(db, i), SortKey(db, j), leq)
  }

  lemma KeysTransitive(a: (int, JournalNumber), b: (int, JournalNumber), c: (int, JournalNumber), leq: NumberOrder)
    requires TotalOrder(leq) && KeyLeq(a, b, leq) && KeyLeq(b, c, leq)
    ensures KeyLeq(a, c, leq)
  {
    assert leq(a.1, b.1) && leq(b.1, c.1) ==> leq(a.1, c.1);
  }

  lemma IsPreorder(db: Db, leq: NumberOrder)
    requires TotalOrder(leq)
    ensures Preorder(ByDateAndNumber(db, leq))
  {
    var order := ByDateAndNumber(db, leq);
    forall x, y, z | order(x, y) && order(y, z) ensures order(x, z) {
      KeysTransitive(SortKey(db, x), SortKey(db, y), SortKey(db, z), leq);
    }
  }

  lemma RowsAreLines(db: Db, q: Scope, accountId: Option<nat>, a: seq<nat>)
    requires multiset(a) == multiset(Rows(db, q, accountId))
    ensures forall k :: 0 <= k < |a| ==> a[k] < |db.lines|
  {
    forall k: nat | k < |a| ensures a[k] < |db.lines| {
      OnlyRows(a, Rows(db, q, accountId), k);
    }
  }

  /** Two listed lines have one sort key exactly when they are lines of one journal. */
  lemma SameKeyIffSameJournal(db: Db, q: Scope, accountId: Option<nat>, i: nat, j: nat)
    requires Inv(db) && i in Rows(db, q, accountId) && j in Rows(db, q, accountId)
    ensures SortKey(db, i) == SortKey(db, j) <==> db.lines[i].entryId == db.lines[j].entryId
  {
    var d, e := db.lines[i].entryId, db.lines[j].entryId;
    if d < e {
      NumbersDistinct(db, d, e);
    } else if e < d {
      NumbersDistinct(db, e, d);
    }
  }

  /** The page boundary falls between two lines of one journal. */
  predicate SplitsJournal(db: Db, a: seq<nat>, limit: nat, page: nat)
    requires forall k :: 0 <= k < |a| ==> a[k] < |db.lines|
  {
    var cut := Cut(|a|, limit, page);
    0 < cut < |a| && db.lines[a[cut - 1]].entryId == db.lines[a[cut]].entryId
  }

  lemma CleanIffWhole(db: Db, q: Scope, accountId: Option<nat>, leq: NumberOrder, a: seq<nat>, limit: nat, page: nat)
    requires Inv(db) && TotalOrder(leq) && Listing(a, Rows(db, q, accountId), ByDateAndNumber(db, leq))
    requires forall k :: 0 <= k < |a| ==> a[k] < |db.lines|
    ensures CleanCut(a, ByDateAndNumber(db, leq), limit, page) <==> !SplitsJournal(db, a, limit, page)
  {
    var cut := Cut(|a|, limit, page);
    if 0 < cut < |a| {
      OnlyRows(a, Rows(db, q, accountId), cut - 1);
      OnlyRows(a, Rows(db, q, accountId), cut);
      SameKeyIffSameJournal(db, q, accountId, a[cut - 1], a[cut]);
      assert ByDateAndNumber(db, leq)(a[cut - 1], a[cut]);
    }
  }

  /** Reading all pages of the general ledger shows every listed line exactly once, whatever order the
      database gives to the lines of one journal, if and only if no page ends within a journal. */
  lemma PagesCompleteIff(db: Db, q: Scope, accountId: Option<nat>, leq: NumberOrder, a: seq<nat>, limit: nat,
                         pages: nat)
    requires Inv(db) && TotalOrder(leq) && Listing(a, Rows(db, q, accountId), ByDateAndNumber(db, leq))
    requires pages * limit >= |a|
    ensures forall k :: 0 <= k < |a| ==> a[k] < |db.lines|
    ensures AlwaysComplete(Rows(db, q, accountId), ByDateAndNumber(db, leq), limit, pages)
       <==> forall page: nat :: !SplitsJournal(db, a, limit, page)
  {
    RowsAreLines(db, q, accountId, a);
    IsPreorder(db, leq);
    CompleteIff(a, Rows(db, q, accountId), ByDateAndNumber(db, leq), limit, pages);
    forall page: nat
      ensures CleanCut(a, ByDateAndNumber(db, leq), limit, page) <==> !SplitsJournal(db, a, limit, page)
    {
      CleanIffWhole(db, q, accountId, leq, a, limit, page);
    }
  }

  // ---- The query ----

  const DEFAULT_PAGE: nat := 1
  const DEFAULT_LIMIT: nat := 20

  function OrElse(o: Option<nat>, default: nat): nat {
    if o.Some? then o.value else default
  }

  datatype LedgerPage = LedgerPage(data: seq<nat>, page: nat, limit: nat, total: nat)

  function LinesAt(db: Db, ids: seq<nat>): seq<Line>
    requires forall k :: 0 <= k < |ids| ==> ids[k] < |db.lines|
  {
    seq(|ids|, k requires 0 <= k < |ids| => db.lines[ids[k]])
  }

  function RowsBelow(db: Db, q: Scope, accountId: Option<nat>, n: nat): set<nat>
    requires n <= |db.lines|
  {
    set i: nat | i < n && Listed(db, q, accountId, db.lines[i])
  }

  lemma NextRow(db: Db, q: Scope, accountId: Option<nat>, n: nat)
    requires n < |db.lines|
    ensures multiset(RowsBelow(db, q, accountId, n + 1))
         == multiset(RowsBelow(db, q, accountId, n))
            + if Listed(db, q, accountId, db.lines[n]) then multiset{n} else multiset{}
  {
    var before := RowsBelow(db, q, accountId, n);
    if Listed(db, q, accountId, db.lines[n]) {
      assert RowsBelow(db, q, accountId, n + 1) == before + {n};
    } else {
      assert RowsBelow(db, q, accountId, n + 1) == before;
    }
  }

  function IsListed(db: Db, q: Scope, accountId: Option<nat>): Line -> bool {
    (l: Line) => Listed(db, q, accountId, l)
  }

  /** The ids of the listed lines among the first n, in table order. */
  ghost predicate Collected(db: Db, q: Scope, accountId: Option<nat>, ids: seq<nat>, n: nat)
    requires n <= |db.lines|
  {
    && multiset(ids) == multiset(RowsBelow(db, q, accountId, n))
    && (forall k :: 0 <= k < |ids| ==> ids[k] < |db.lines|)
    && LinesAt(db, ids) == Filter(db.lines[..n], IsListed(db, q, accountId))
  }

  lemma OneMoreId(db: Db, ids: seq<nat>, n: nat)
    requires n < |db.lines| && forall k :: 0 <= k < |ids| ==> ids[k] < |db.lines|
    ensures multiset(ids + [n]) == multiset(ids) + multiset{n}
    ensures forall k :: 0 <= k < |ids + [n]| ==> (ids + [n])[k] < |db.lines|
    ensures LinesAt(db, ids + [n]) == LinesAt(db, ids) + [db.lines[n]]
  {
  }

  lemma CollectOne(db: Db, q: Scope, accountId: Option<nat>, ids: seq<nat>, n: nat)
    requires n < |db.lines| && Collected(db, q, accountId, ids, n) && Listed(db, q, accountId, db.lines[n])
    ensures Collected(db, q, accountId, ids + [n], n + 1)
  {
    NextRow(db, q, accountId, n);
    NextSeen(db.lines, n, IsListed(db, q, accountId));
    OneMoreId(db, ids, n);
  }

  lemma CollectNone(db: Db, q: Scope, accountId: Option<nat>, ids: seq<nat>, n: nat)
    requires n < |db.lines| && Collected(db, q, accountId, ids, n) && !Listed(db, q, accountId, db.lines[n])
    ensures Collected(db, q, accountId, ids, n + 1)
  {
    NextRow(db, q, accountId, n);
    NextSeen(db.lines, n, IsListed(db, q, accountId));
  }

  lemma CollectedFirst(db: Db, q: Scope, accountId: Option<nat>)
    ensures Collected(db, q, accountId, [], 0)
  {
    assert RowsBelow(db, q, accountId, 0) == {};
    assert db.lines[..0] == [];
  }

  lemma CollectedAll(db: Db, q: Scope, accountId: Option<nat>, ids: seq<nat>)
    requires Collected(db, q, accountId, ids, |db.lines|)
    ensures multiset(ids) == multiset(Rows(db, q, accountId))
    ensures LinesAt(db, ids) == GeneralLedger(db, q, accountId)
  {
    assert RowsBelow(db, q, accountId, |db.lines|) == Rows(db, q, accountId);
    assert db.lines[..|db.lines|] == db.lines;
    FilterSame(db.lines, IsListed(db, q, accountId), (l: Line) => Listed(db, q, accountId, l));
  }

  /** The scan finds the ids of the listed lines, in table order. */
  method ListedIds(db: Db, q: Scope, accountId: Option<nat>) returns (ids: seq<nat>)
    ensures multiset(ids) == multiset(Rows(db, q, accountId))
    ensures forall k :: 0 <= k < |ids| ==> ids[k] < |db.lines|
    ensures LinesAt(db, ids) == GeneralLedger(db, q, accountId)
  {
    ids := [];
    CollectedFirst(db, q, accountId);
    for i := 0 to |db.lines|
      invariant Collected(db, q, accountId, ids, i)
    {
      var keep := Matches(db, q, accountId, db.lines[i]);
      if keep {
        CollectOne(db, q, accountId, ids, i);
        ids := ids + [i];
      } else {
        CollectNone(db, q, accountId, ids, i);
      }
    }
    CollectedAll(db, q, accountId, ids);
  }

  /** An earlier date comes first, and on one date the smaller number. */
  predicate InDateOrder(db: Db, i: nat, j: nat, leq: NumberOrder) {
    i < |db.lines| && j < |db.lines| && db.lines[i].entryId < |db.entries| && db.lines[j].entryId < |db.entries| ==>
      var a, b := db.entries[db.lines[i].entryId], db.entries[db.lines[j].entryId];
      a.entryDate <= b.entryDate && (a.entryDate == b.entryDate ==> leq(a.number, b.number))
  }

  lemma ListedInDateOrder(db: Db, rows: set<nat>, listing: seq<nat>, leq: NumberOrder, i: nat, j: nat)
    requires Listing(listing, rows, ByDateAndNumber(db, leq)) && i < j < |listing|
    ensures InDateOrder(db, listing[i], listing[j], leq)
  {
    assert ByDateAndNumber(db, leq)(listing[i], listing[j]);
  }

  /** The answer is a page of some listing of the lines the filter selects, and their number. */
  method QueryGeneralLedger(db: Db, q: Scope, accountId: Option<nat>, page: Option<nat>, limit: Option<nat>,
                            leq: NumberOrder) returns (r: LedgerPage)
    requires TotalOrder(leq) && page != Some(0)
    ensures r.page == OrElse(page, DEFAULT_PAGE) && r.limit == OrElse(limit, DEFAULT_LIMIT)
    ensures exists listing :: Listing(listing, Rows(db, q, accountId), ByDateAndNumber(db, leq))
                              && r.data == Page(listing, r.limit, r.page)
    ensures r.total == |Rows(db, q, accountId)|
    ensures forall i, j :: 0 <= i < j < |r.data| ==> InDateOrder(db, r.data[i], r.data[j], leq)
  {
    var order := ByDateAndNumber(db, leq);
    var ids := ListedIds(db, q, accountId);
    var listing := Sort(ids, order);
    IsPreorder(db, leq);
    SortSorts(ids, order);
    assert |multiset(ids)| == |multiset(Rows(db, q, accountId))|;
    var p, size := OrElse(page, DEFAULT_PAGE), OrElse(limit, DEFAULT_LIMIT);
    r := LedgerPage(Page(listing, size, p), p, size, |ids|);
    PageIs(listing, size, p);
    ghost var first := Cut(|listing|, size, p - 1);
    forall i, j | 0 <= i < j < |r.data| ensures InDateOrder(db, r.data[i], r.data[j], leq) {
      ListedInDateOrder(db, Rows(db, q, accountId), listing, leq, first + i, first + j);
    }
  }

  // ---- Pages of one line ----

  lemma {:induction false} SumAlone(s: seq<Line>, i: nat, f: Line -> int)
    requires i < |s| && forall k :: 0 <= k < |s| && k != i ==> f(s[k]) == 0
    ensures Sum(s, f) == f(s[i])
  {
    if i < |s| - 1 {
      SumAlone(s[..|s| - 1], i, f);
    } else {
      SumZero(s[..|s| - 1], f);
    }
  }

  /** The lines of a posted journal have amounts. */
  lemma PostedLineHasAmount(db: Db, i: nat)
    requires Inv(db) && i < |db.lines| && db.entries[db.lines[i].entryId].status == Posted
    ensures LineNet(db.lines[i]) != 0
  {
    var id := db.lines[i].entryId;
    assert LineOk(db, db.lines[i]) && TotalsOk(db, id);
    var lines := EntryLines(db, id);
    assert db.lines[i] in lines;
    var k :| 0 <= k < |lines| && lines[k] == db.lines[i];
    assert DoubleEntry.OneSided(AmountsOf(lines)[k]);
  }

  /** No line of a posted journal is alone. */
  lemma PostedLineHasPartner(db: Db, i: nat) returns (j: nat)
    requires Inv(db) && i < |db.lines| && db.entries[db.lines[i].entryId].status == Posted
    ensures j < |db.lines| && j != i && db.lines[j].entryId == db.lines[i].entryId
  {
    var id := db.lines[i].entryId;
    PostedLineHasAmount(db, i);
    PostedEntryNetsToZero(db, id);
    if forall k :: 0 <= k < |db.lines| && k != i ==> NetOf(id)(db.lines[k]) == 0 {
      SumAlone(db.lines, i, NetOf(id));
      assert false;
    }
    j :| 0 <= j < |db.lines| && j != i && NetOf(id)(db.lines[j]) != 0;
  }

  /** Lines of one journal stand next to each other in every listing. */
  lemma NextIsSameJournal(db: Db, q: Scope, accountId: Option<nat>, leq: NumberOrder, a: seq<nat>, i: nat, j: nat)
    requires Inv(db) && TotalOrder(leq) && Listing(a, Rows(db, q, accountId), ByDateAndNumber(db, leq))
    requires forall k :: 0 <= k < |a| ==> a[k] < |db.lines|
    requires i < j < |a| && db.lines[a[i]].entryId == db.lines[a[j]].entryId
    ensures db.lines[a[i]].entryId == db.lines[a[i + 1]].entryId
  {
    OnlyRows(a, Rows(db, q, accountId), i);
    OnlyRows(a, Rows(db, q, accountId), i + 1);
    OnlyRows(a, Rows(db, q, accountId), j);
    var order := ByDateAndNumber(db, leq);
    assert order(a[i], a[i + 1]);
    assert i + 1 < j ==> order(a[i + 1], a[j]);
    SameKeyIffSameJournal(db, q, accountId, a[i], a[i + 1]);
  }

  lemma SomeJournalSplit(db: Db, q: Scope, leq: NumberOrder, a: seq<nat>) returns (page: nat)
    requires Inv(db) && TotalOrder(leq) && Rows(db, q, None) != {}
    requires Listing(a, Rows(db, q, None), ByDateAndNumber(db, leq))
    requires forall k :: 0 <= k < |a| ==> a[k] < |db.lines|
    ensures SplitsJournal(db, a, 1, page)
  {
    var rows := Rows(db, q, None);
    var x :| x in rows;
    var y := PostedLineHasPartner(db, x);
    assert LineOk(db, db.lines[y]);
    var i := PlaceOf(a, rows, x);
    var j := PlaceOf(a, rows, y);
    page := if i < j then i + 1 else j + 1;
    NextIsSameJournal(db, q, None, leq, a, page - 1, if i < j then j else i);
    CutIs(|a|, 1, page);
  }

  /** With one line a page, the pages of a ledger that is not filtered by account can always show a
      line twice and miss another, unless the ledger is empty. */
  lemma OneLinePages(db: Db, q: Scope, leq: NumberOrder, pages: nat)
    requires Inv(db) && TotalOrder(leq) && Rows(db, q, None) != {} && pages >= |Rows(db, q, None)|
    ensures !AlwaysComplete(Rows(db, q, None), ByDateAndNumber(db, leq), 1, pages)
  {
    var rows := Rows(db, q, None);
    IsPreorder(db, leq);
    var a := ListingExists(rows, ByDateAndNumber(db, leq));
    assert |multiset(a)| == |multiset(rows)| == |rows|;
    RowsAreLines(db, q, None, a);
    var page := SomeJournalSplit(db, q, leq, a);
    PagesCompleteIff(db, q, None, leq, a, 1, pages);
  }
}
