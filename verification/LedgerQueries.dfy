/** The two read models over posted lines: the general ledger lists them, the trial balance adds
    them up by account. */
module LedgerQueries {
  import opened Wrappers
  import opened Sums
  import opened Sorting
  import opened LedgerModel
  import opened LedgerInvariant

  /** The header filters of both queries. An empty list of allowed branches filters nothing. */
  datatype Scope = Scope(
    companyId: nat,
    branchId: Option<nat>,
    allowedBranchIds: seq<nat>,
    from: Option<int>,
    to: Option<int>)

  predicate BranchVisible(e: Entry, q: Scope) {
    if q.branchId.Some? then e.branchId == q.branchId
    else if q.allowedBranchIds != [] then e.branchId.Some? && e.branchId.value in q.allowedBranchIds
    else true
  }

  predicate InScope(e: Entry, q: Scope) {
    && e.companyId == q.companyId
    && e.status == Posted
    && BranchVisible(e, q)
    && (q.from.Some? ==> q.from.value <= e.entryDate)
    && (q.to.Some? ==> e.entryDate <= q.to.value)
  }

  /** The joins of both queries: the line's header, in scope, and the line's account. */
  predicate Visible(db: Db, q: Scope, l: Line) {
    l.entryId < |db.entries| && InScope(db.entries[l.entryId], q) && l.accountId < |db.accounts|
  }

  function Seen(db: Db, q: Scope): Line -> bool {
    (l: Line) => Visible(db, q, l)
  }

  function Selected(db: Db, q: Scope): seq<Line> {
    Filter(db.lines, Seen(db, q))
  }

  // ---- Trial balance ----

  datatype Row = Row(accountId: nat, debit: int, credit: int)

  datatype TrialBalance = TrialBalance(rows: seq<Row>, totalDebit: int, totalCredit: int)

  function RowDebit(r: Row): int { r.debit }

  function RowCredit(r: Row): int { r.credit }

  function RowIndex(rows: seq<Row>, accountId: nat): (i: nat)
    ensures i <= |rows|
    ensures i < |rows| ==> rows[i].accountId == accountId
    ensures i == |rows| ==> forall k :: 0 <= k < |rows| ==> rows[k].accountId != accountId
  {
    if rows == [] then 0
    else
      var i := RowIndex(rows[..|rows| - 1], accountId);
      if i < |rows| - 1 then i
      else if rows[|rows| - 1].accountId == accountId then |rows| - 1
      else |rows|
  }

  /** One line added to the groups seen so far. */
  function AddToRows(rows: seq<Row>, l: Line): seq<Row> {
    var i := RowIndex(rows, l.accountId);
    if i < |rows| then rows[i := Row(l.accountId, rows[i].debit + l.debit, rows[i].credit + l.credit)]
    else rows + [Row(l.accountId, l.debit, l.credit)]
  }

  /** `GROUP BY account`, groups in order of first appearance. */
  function Group(lines: seq<Line>): seq<Row> {
    if lines == [] then [] else AddToRows(Group(lines[..|lines| - 1]), lines[|lines| - 1])
  }

  function Balance(db: Db, q: Scope): TrialBalance {
    var rows := Group(Selected(db, q));
    TrialBalance(rows, Sum(rows, RowDebit), Sum(rows, RowCredit))
  }

  /** The scope of a trial balance has no lower date. */
  function AsOf(q: Scope, instant: int): Scope {
    q.(from := None, to := Some(instant))
  }

  lemma NextSeen(lines: seq<Line>, i: nat, p: Line -> bool)
    requires i < |lines|
    ensures Filter(lines[..i + 1], p)
         == if p(lines[i]) then Filter(lines[..i], p) + [lines[i]] else Filter(lines[..i], p)
  {
    assert lines[..i + 1][..i] == lines[..i];
  }

  lemma NextGroup(seen: seq<Line>, l: Line)
    ensures Group(seen + [l]) == AddToRows(Group(seen), l)
  {
    assert (seen + [l])[..|seen|] == seen;
  }

  /** The rows of the query: the lines it selects, grouped by account. */
  method GroupRowsByAccount(db: Db, q: Scope) returns (rows: seq<Row>)
    ensures rows == Group(Selected(db, q))
  {
    rows := [];
    for i := 0 to |db.lines|
      invariant rows == Group(Filter(db.lines[..i], Seen(db, q)))
    {
      NextSeen(db.lines, i, Seen(db, q));
      if Visible(db, q, db.lines[i]) {
        NextGroup(Filter(db.lines[..i], Seen(db, q)), db.lines[i]);
        rows := AddToRows(rows, db.lines[i]);
      }
    }
    assert db.lines[..|db.lines|] == db.lines;
  }

  function CodeOf(db: Db, r: Row): string {
    if r.accountId < |db.accounts| then db.accounts[r.accountId].code else ""
  }

  /** `ORDER BY account.code`, under the order the database has for text. */
  function ByCode(db: Db, leq: (string, string) -> bool): (Row, Row) -> bool {
    (x: Row, y: Row) => leq(CodeOf(db, x), CodeOf(db, y))
  }

  lemma ByCodeIsPreorder(db: Db, leq: (string, string) -> bool)
    requires Preorder(leq)
    ensures Preorder(ByCode(db, leq))
  {
    var order := ByCode(db, leq);
    forall x, y ensures order(x, y) || order(y, x) {
      assert leq(CodeOf(db, x), CodeOf(db, y)) || leq(CodeOf(db, y), CodeOf(db, x));
    }
    forall x, y, z | order(x, y) && order(y, z) ensures order(x, z) {
      assert leq(CodeOf(db, x), CodeOf(db, y)) && leq(CodeOf(db, y), CodeOf(db, z));
    }
  }

  lemma RowsInOrder(db: Db, rows: seq<Row>, leq: (string, string) -> bool)
    requires Preorder(leq)
    ensures var sorted := Sort(rows, ByCode(db, leq));
      && multiset(sorted) == multiset(rows) && Sorted(sorted, ByCode(db, leq))
      && Sum(sorted, RowDebit) == Sum(rows, RowDebit) && Sum(sorted, RowCredit) == Sum(rows, RowCredit)
  {
    ByCodeIsPreorder(db, leq);
    SortSorts(rows, ByCode(db, leq));
    SumSorted(rows, ByCode(db, leq), RowDebit);
    SumSorted(rows, ByCode(db, leq), RowCredit);
  }

  /** Both totals of the rows, added up row by row. */
  method AddTotals(rows: seq<Row>) returns (totalDebit: int, totalCredit: int)
    ensures totalDebit == Sum(rows, RowDebit) && totalCredit == Sum(rows, RowCredit)
  {
    totalDebit, totalCredit := 0, 0;
    for i := 0 to |rows|
      invariant totalDebit == Sum(rows[..i], RowDebit)
      invariant totalCredit == Sum(rows[..i], RowCredit)
    {
      assert rows[..i + 1][..i] == rows[..i];
      totalDebit := totalDebit + rows[i].debit;
      totalCredit := totalCredit + rows[i].credit;
    }
    assert rows[..|rows|] == rows;
  }

  method QueryTrialBalance(db: Db, q: Scope, leq: (string, string) -> bool) returns (r: TrialBalance)
    requires Preorder(leq)
    ensures multiset(r.rows) == multiset(Balance(db, q).rows)
    ensures forall i, j :: 0 <= i < j < |r.rows| ==> leq(CodeOf(db, r.rows[i]), CodeOf(db, r.rows[j]))
    ensures r.totalDebit == Balance(db, q).totalDebit && r.totalCredit == Balance(db, q).totalCredit
  {
    var groups := GroupRowsByAccount(db, q);
    var rows := Sort(groups, ByCode(db, leq));
    RowsInOrder(db, groups, leq);
    var totalDebit, totalCredit := AddTotals(rows);
    r := TrialBalance(rows, totalDebit, totalCredit);
  }

  // ---- General ledger ----

  predicate Listed(db: Db, q: Scope, accountId: Option<nat>, l: Line) {
    Visible(db, q, l) && (accountId.Some? ==> l.accountId == accountId.value)
  }

  function GeneralLedger(db: Db, q: Scope, accountId: Option<nat>): seq<Line> {
    Filter(db.lines, (l: Line) => Listed(db, q, accountId, l))
  }

  /** The conditions are added one by one, as the query is built. */
  method Matches(db: Db, q: Scope, accountId: Option<nat>, l: Line) returns (keep: bool)
    ensures keep == Listed(db, q, accountId, l)
  {
    if l.entryId >= |db.entries| || l.accountId >= |db.accounts| {
      return false;
    }
    var e := db.entries[l.entryId];
    keep := e.companyId == q.companyId && e.status == Posted;
    if accountId.Some? {
      keep := keep && l.accountId == accountId.value;
    }
    if q.branchId.Some? {
      keep := keep && e.branchId == q.branchId;
    } else if q.allowedBranchIds != [] {
      keep := keep && e.branchId.Some? && e.branchId.value in q.allowedBranchIds;
    }
    if q.from.Some? {
      keep := keep && q.from.value <= e.entryDate;
    }
    if q.to.Some? {
      keep := keep && e.entryDate <= q.to.value;
    }
  }

  // ---- Grouping loses nothing ----

  lemma {:induction false} SumReplaced<T>(s: seq<T>, i: nat, x: T, f: T -> int)
    requires i < |s|
    ensures Sum(s[i := x], f) == Sum(s, f) - f(s[i]) + f(x)
  {
    var n := |s| - 1;
    if i == n {
      assert s[i := x][..n] == s[..n];
    } else {
      assert s[i := x][..n] == s[..n][i := x];
      SumReplaced(s[..n], i, x, f);
    }
  }

  lemma RowTotals(rows: seq<Row>, l: Line)
    ensures Sum(AddToRows(rows, l), RowDebit) == Sum(rows, RowDebit) + l.debit
    ensures Sum(AddToRows(rows, l), RowCredit) == Sum(rows, RowCredit) + l.credit
  {
    var i := RowIndex(rows, l.accountId);
    if i < |rows| {
      var row := Row(l.accountId, rows[i].debit + l.debit, rows[i].credit + l.credit);
      SumReplaced(rows, i, row, RowDebit);
      SumReplaced(rows, i, row, RowCredit);
    } else {
      assert AddToRows(rows, l)[..|rows|] == rows;
    }
  }

  lemma {:induction false} GroupTotals(lines: seq<Line>)
    ensures Sum(Group(lines), RowDebit) == Sum(lines, LineDebit)
    ensures Sum(Group(lines), RowCredit) == Sum(lines, LineCredit)
  {
    if lines != [] {
      var front, l := lines[..|lines| - 1], lines[|lines| - 1];
      var rows := Group(front);
      GroupTotals(front);
      RowTotals(rows, l);
      assert Group(lines) == AddToRows(rows, l);
    }
  }

  function OnAccount(accountId: nat): Line -> bool {
    (l: Line) => l.accountId == accountId
  }

  /** There is one row for each account that has lines, and it holds the sums of those lines. */
  predicate RowsMatch(rows: seq<Row>, lines: seq<Line>, accountId: nat) {
    var own := Filter(lines, OnAccount(accountId));
    var i := RowIndex(rows, accountId);
    && (i < |rows| <==> own != [])
    && (i < |rows| ==> rows[i] == Row(accountId, Sum(own, LineDebit), Sum(own, LineCredit)))
    && (forall k :: i < k < |rows| ==> rows[k].accountId != accountId)
  }

  lemma RowIndexUnique(rows: seq<Row>, accountId: nat, i: nat)
    requires i < |rows| && rows[i].accountId == accountId
    requires forall k :: 0 <= k < |rows| && k != i ==> rows[k].accountId != accountId
    ensures RowIndex(rows, accountId) == i
  {
  }

  lemma OwnRow(rows: seq<Row>, front: seq<Line>, l: Line)
    requires RowsMatch(rows, front, l.accountId)
    requires forall k :: 0 <= k < RowIndex(rows, l.accountId) ==> rows[k].accountId != l.accountId
    ensures RowsMatch(AddToRows(rows, l), front + [l], l.accountId)
    ensures RowIndex(AddToRows(rows, l), l.accountId) == RowIndex(rows, l.accountId)
  {
    var own := Filter(front, OnAccount(l.accountId));
    assert (front + [l])[..|front|] == front;
    assert Filter(front + [l], OnAccount(l.accountId)) == own + [l];
    assert (own + [l])[..|own|] == own;
    RowIndexUnique(AddToRows(rows, l), l.accountId, RowIndex(rows, l.accountId));
  }

  lemma {:induction false} GroupRows(lines: seq<Line>, accountId: nat)
    ensures RowsMatch(Group(lines), lines, accountId)
    ensures forall k :: 0 <= k < RowIndex(Group(lines), accountId) ==> Group(lines)[k].accountId != accountId
  {
    if lines != [] {
      var front, l := lines[..|lines| - 1], lines[|lines| - 1];
      GroupRows(front, accountId);
      if l.accountId == accountId {
        assert lines == front + [l];
        OwnRow(Group(front), front, l);
      } else {
        OtherRow(Group(front), l, accountId);
      }
    }
  }

  lemma OtherRow(rows: seq<Row>, l: Line, accountId: nat)
    requires l.accountId != accountId
    requires forall k :: RowIndex(rows, accountId) < k < |rows| ==> rows[k].accountId != accountId
    requires forall k :: 0 <= k < RowIndex(rows, accountId) ==> rows[k].accountId != accountId
    ensures var i, after := RowIndex(rows, accountId), AddToRows(rows, l);
      && RowIndex(after, accountId) == (if i < |rows| then i else |after|)
      && (i < |rows| ==> after[i] == rows[i])
      && forall k :: 0 <= k < |after| && k != i ==> after[k].accountId != accountId
  {
    var i, after := RowIndex(rows, accountId), AddToRows(rows, l);
    if i < |rows| {
      RowIndexUnique(after, accountId, i);
    }
  }

  lemma {:induction false} FilterTwice(s: seq<Line>, p: Line -> bool, q: Line -> bool, r: Line -> bool)
    requires forall l :: l in s ==> r(l) == (p(l) && q(l))
    ensures Filter(Filter(s, p), q) == Filter(s, r)
  {
    if s != [] {
      var front, last := s[..|s| - 1], s[|s| - 1];
      FilterTwice(front, p, q, r);
      if p(last) {
        FilterConcat(Filter(front, p), [last], q);
        assert Filter([last], q) == if q(last) then [last] else [];
      }
    }
  }

  /** The two read models agree: an account has a row in the trial balance exactly when the general
      ledger lists lines of it in the same scope, and the row holds their sums. */
  lemma ReadModelsAgree(db: Db, q: Scope, accountId: nat)
    ensures var rows, own := Balance(db, q).rows, GeneralLedger(db, q, Some(accountId));
      var i := RowIndex(rows, accountId);
      && (i < |rows| <==> own != [])
      && (i < |rows| ==> rows[i] == Row(accountId, Sum(own, LineDebit), Sum(own, LineCredit)))
  {
    GroupRows(Selected(db, q), accountId);
    FilterTwice(db.lines, Seen(db, q), OnAccount(accountId), (l: Line) => Listed(db, q, Some(accountId), l));
  }

  /** What a trial balance says of an account, 0 when it has no row. */
  function DebitOf(b: TrialBalance, accountId: nat): int {
    var i := RowIndex(b.rows, accountId);
    if i < |b.rows| then b.rows[i].debit else 0
  }

  function CreditOf(b: TrialBalance, accountId: nat): int {
    var i := RowIndex(b.rows, accountId);
    if i < |b.rows| then b.rows[i].credit else 0
  }

  function Weight(p: Line -> bool, f: Line -> int): Line -> int {
    (l: Line) => if p(l) then f(l) else 0
  }

  function ListedIn(db: Db, q: Scope, accountId: nat): Line -> bool {
    (l: Line) => Listed(db, q, Some(accountId), l)
  }

  lemma LedgerSum(db: Db, q: Scope, accountId: nat, f: Line -> int)
    ensures Sum(GeneralLedger(db, q, Some(accountId)), f) == Sum(db.lines, Weight(ListedIn(db, q, accountId), f))
  {
    FilterSame(db.lines, (l: Line) => Listed(db, q, Some(accountId), l), ListedIn(db, q, accountId));
    SumFilter(db.lines, ListedIn(db, q, accountId), f, Weight(ListedIn(db, q, accountId), f));
  }

  lemma SplitWindow(db: Db, q: Scope, accountId: nat, from: int, to: int, f: Line -> int)
    requires from <= to + 1
    ensures Sum(GeneralLedger(db, AsOf(q, to), Some(accountId)), f)
            == Sum(GeneralLedger(db, AsOf(q, from - 1), Some(accountId)), f)
               + Sum(GeneralLedger(db, q.(from := Some(from), to := Some(to)), Some(accountId)), f)
  {
    var all, before, window := AsOf(q, to), AsOf(q, from - 1), q.(from := Some(from), to := Some(to));
    LedgerSum(db, all, accountId, f);
    LedgerSum(db, before, accountId, f);
    LedgerSum(db, window, accountId, f);
    SumPlus(db.lines, Weight(ListedIn(db, before, accountId), f), Weight(ListedIn(db, window, accountId), f),
            Weight(ListedIn(db, all, accountId), f));
  }

  /** The general ledger rows from one instant to another account for the difference between the
      trial balance as of the end and the one as of just before the start. */
  lemma WindowIsDifference(db: Db, q: Scope, accountId: nat, from: int, to: int)
    requires from <= to + 1
    ensures var window := GeneralLedger(db, q.(from := Some(from), to := Some(to)), Some(accountId));
      && DebitOf(Balance(db, AsOf(q, to)), accountId) - DebitOf(Balance(db, AsOf(q, from - 1)), accountId)
         == Sum(window, LineDebit)
      && CreditOf(Balance(db, AsOf(q, to)), accountId) - CreditOf(Balance(db, AsOf(q, from - 1)), accountId)
         == Sum(window, LineCredit)
  {
    ReadModelsAgree(db, AsOf(q, to), accountId);
    ReadModelsAgree(db, AsOf(q, from - 1), accountId);
    SplitWindow(db, q, accountId, from, to, LineDebit);
    SplitWindow(db, q, accountId, from, to, LineCredit);
  }

  // ---- The books balance ----

  function LineNet(l: Line): int { l.debit - l.credit }

  /** The net debit of the visible lines of the first n entries. */
  function NetBelow(db: Db, q: Scope, n: nat): Line -> int {
    (l: Line) => if l.entryId < n && Visible(db, q, l) then LineNet(l) else 0
  }

  function NetOf(id: nat): Line -> int {
    (l: Line) => if l.entryId == id then LineNet(l) else 0
  }

  function Nothing(l: Line): int { 0 }

  lemma NetIsDifference(s: seq<Line>)
    ensures Sum(s, LineNet) == Sum(s, LineDebit) - Sum(s, LineCredit)
  {
    SumPlus(s, LineNet, LineCredit, LineDebit);
  }

  lemma PostedEntryNetsToZero(db: Db, id: nat)
    requires EntriesOk(db) && id < |db.entries| && db.entries[id].status == Posted
    ensures Sum(db.lines, NetOf(id)) == 0
  {
    assert TotalsOk(db, id);
    AmountSums(EntryLines(db, id));
    NetIsDifference(EntryLines(db, id));
    SumFilter(db.lines, OfEntry(id), LineNet, NetOf(id));
  }

  lemma {:induction false} NetBelowIsZero(db: Db, q: Scope, n: nat)
    requires Inv(db) && n <= |db.entries|
    ensures Sum(db.lines, NetBelow(db, q, n)) == 0
  {
    if n == 0 {
      SumZero(db.lines, NetBelow(db, q, 0));
    } else {
      NetBelowIsZero(db, q, n - 1);
      var step := if InScope(db.entries[n - 1], q) then NetOf(n - 1) else Nothing;
      if InScope(db.entries[n - 1], q) {
        PostedEntryNetsToZero(db, n - 1);
      } else {
        SumZero(db.lines, Nothing);
      }
      forall l | l in db.lines ensures NetBelow(db, q, n)(l) == NetBelow(db, q, n - 1)(l) + step(l) {
        var i :| 0 <= i < |db.lines| && db.lines[i] == l;
        assert LineOk(db, db.lines[i]);
      }
      SumPlus(db.lines, NetBelow(db, q, n - 1), step, NetBelow(db, q, n));
    }
  }

  /** In consistent tables every trial balance balances, whatever its company, branches and dates. */
  lemma BooksBalance(db: Db, q: Scope)
    requires Inv(db)
    ensures Balance(db, q).totalDebit == Balance(db, q).totalCredit
  {
    var lines := Selected(db, q);
    GroupTotals(lines);
    NetIsDifference(lines);
    NetBelowIsZero(db, q, |db.entries|);
    SumFilter(db.lines, Seen(db, q), LineNet, NetBelow(db, q, |db.entries|));
  }

  /** So does every trial balance of every state a run reaches from empty tables. */
  lemma BooksAlwaysBalance(steps: seq<Step>, q: Scope)
    ensures Balance(Run(Empty(), steps), q).totalDebit == Balance(Run(Empty(), steps), q).totalCredit
  {
    EmptyInv();
    RunKeepsInv(Empty(), steps);
    BooksBalance(Run(Empty(), steps), q);
  }

  // ---- Later journals do not change earlier balances ----

  /** Adding an entry dated after the instant of a trial balance leaves that trial balance as it is. */
  lemma LaterJournalInvisible(db: Db, d: Db, q: Scope, instant: int)
    requires LinesOk(db)
    requires d.accounts == db.accounts && |d.entries| == |db.entries| + 1 && d.entries[..|db.entries|] == db.entries
    requires |d.lines| >= |db.lines| && d.lines[..|db.lines|] == db.lines
    requires forall i :: |db.lines| <= i < |d.lines| ==> d.lines[i].entryId == |db.entries|
    requires instant < d.entries[|db.entries|].entryDate
    ensures Balance(d, AsOf(q, instant)) == Balance(db, AsOf(q, instant))
  {
    var rows, scope := d.lines[|db.lines|..], AsOf(q, instant);
    assert d.lines == db.lines + rows;
    FilterConcat(db.lines, rows, Seen(d, scope));
    FilterNone(rows, Seen(d, scope));
    OldLinesSeenAlike(db, d, scope);
    assert Selected(d, scope) == Selected(db, scope) + [];
    assert Selected(d, scope) == Selected(db, scope);
  }

  lemma OldLinesSeenAlike(db: Db, d: Db, q: Scope)
    requires LinesOk(db) && d.accounts == db.accounts
    requires |d.entries| >= |db.entries| && d.entries[..|db.entries|] == db.entries
    ensures Filter(db.lines, Seen(d, q)) == Filter(db.lines, Seen(db, q))
  {
    forall l | l in db.lines ensures Seen(db, q)(l) == Seen(d, q)(l) {
      var i :| 0 <= i < |db.lines| && db.lines[i] == l;
      assert LineOk(db, db.lines[i]);
      assert d.entries[l.entryId] == db.entries[l.entryId];
    }
    FilterSame(db.lines, Seen(d, q), Seen(db, q));
  }
}
