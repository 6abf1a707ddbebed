/** What the trial balance and the general ledger show of a journal, branch by branch. */
module BranchViews {
  import opened Wrappers
  import opened Sums
  import opened LedgerModel
  import opened LedgerInvariant
  import opened LedgerQueries

  /** A query does not show a journal of another company or outside its dates, nor, when it names a
      branch, one of any other or of none; without a branch, a list of allowed branches that is not
      empty hides the journals of all others and those of none. */
  predicate Hides(q: Scope, companyId: nat, branchId: Option<nat>, at: int) {
    || companyId != q.companyId
    || (q.from.Some? && at < q.from.value)
    || (q.to.Some? && q.to.value < at)
    || match q.branchId
       case Some(b) => branchId != Some(b)
       case None => q.allowedBranchIds != [] && (branchId == None || branchId.value !in q.allowedBranchIds)
  }

  // ---- Balances as sums over the lines ----

  lemma BalanceSums(db: Db, q: Scope, accountId: nat)
    ensures DebitOf(Balance(db, q), accountId) == Sum(db.lines, Weight(ListedIn(db, q, accountId), LineDebit))
    ensures CreditOf(Balance(db, q), accountId) == Sum(db.lines, Weight(ListedIn(db, q, accountId), LineCredit))
  {
    ReadModelsAgree(db, q, accountId);
    LedgerSum(db, q, accountId, LineDebit);
    LedgerSum(db, q, accountId, LineCredit);
  }

  /** Amounts of one journal on one account. */
  function Moved(id: nat, accountId: nat, f: Line -> int): Line -> int {
    (l: Line) => if l.entryId == id && l.accountId == accountId then f(l) else 0
  }

  function OnOne(accountId: nat, f: Line -> int): Line -> int {
    (l: Line) => if l.accountId == accountId then f(l) else 0
  }

  lemma MovedInEntry(db: Db, id: nat, accountId: nat, f: Line -> int)
    ensures Sum(db.lines, Moved(id, accountId, f)) == Sum(EntryLines(db, id), OnOne(accountId, f))
  {
    SumFilter(db.lines, OfEntry(id), OnOne(accountId, f), Moved(id, accountId, f));
  }

  // ---- A journal becomes posted ----

  /** Entry id is posted in d and was not in db, as a draft or because it did not exist; the other
      entries are the same, and only lines of this entry were added. */
  predicate BecomesPosted(db: Db, d: Db, id: nat) {
    && d.accounts == db.accounts
    && id < |d.entries| && d.entries[id].status == Posted
    && |db.entries| <= |d.entries|
    && (forall i: nat :: i < |d.entries| && i != id ==> i < |db.entries| && d.entries[i] == db.entries[i])
    && (id < |db.entries| ==> db.entries[id].status == Draft)
    && |db.lines| <= |d.lines| && d.lines[..|db.lines|] == db.lines
    && (forall k :: |db.lines| <= k < |d.lines| ==> d.lines[k].entryId == id)
  }

  function MovedIf(shown: bool, id: nat, accountId: nat, f: Line -> int): Line -> int {
    (l: Line) => if shown then Moved(id, accountId, f)(l) else 0
  }

  /** A posted journal is shown exactly when it is not hidden. */
  lemma ShownOrHidden(e: Entry, q: Scope)
    ensures InScope(e, q) <==> e.status == Posted && !Hides(q, e.companyId, e.branchId, e.entryDate)
  {
  }

  lemma LineWeight(db: Db, d: Db, id: nat, q: Scope, accountId: nat, f: Line -> int, l: Line)
    requires BecomesPosted(db, d, id) && LineOk(db, l)
    ensures var e := d.entries[id];
      Weight(ListedIn(d, q, accountId), f)(l)
      == Weight(ListedIn(db, q, accountId), f)(l)
         + MovedIf(!Hides(q, e.companyId, e.branchId, e.entryDate), id, accountId, f)(l)
  {
    ShownOrHidden(d.entries[id], q);
    assert Moved(id, accountId, f)(l) == if l.entryId == id && l.accountId == accountId then f(l) else 0;
    assert ListedIn(d, q, accountId)(l) <==> Visible(d, q, l) && l.accountId == accountId;
    assert ListedIn(db, q, accountId)(l) <==> Visible(db, q, l) && l.accountId == accountId;
  }

  lemma NewLineWeight(db: Db, d: Db, id: nat, q: Scope, accountId: nat, f: Line -> int, l: Line)
    requires BecomesPosted(db, d, id) && LineOk(d, l) && l.entryId == id
    ensures var e := d.entries[id];
      Weight(ListedIn(d, q, accountId), f)(l)
      == MovedIf(!Hides(q, e.companyId, e.branchId, e.entryDate), id, accountId, f)(l)
  {
    ShownOrHidden(d.entries[id], q);
    assert Moved(id, accountId, f)(l) == if l.accountId == accountId then f(l) else 0;
    assert ListedIn(d, q, accountId)(l) <==> Visible(d, q, l) && l.accountId == accountId;
  }

  lemma WeightsMove(db: Db, d: Db, id: nat, q: Scope, accountId: nat, f: Line -> int)
    requires LinesOk(db) && LinesOk(d) && BecomesPosted(db, d, id)
    ensures var e := d.entries[id];
      Sum(d.lines, Weight(ListedIn(d, q, accountId), f))
      == Sum(db.lines, Weight(ListedIn(db, q, accountId), f))
         + Sum(d.lines, MovedIf(!Hides(q, e.companyId, e.branchId, e.entryDate), id, accountId, f))
  {
    var e := d.entries[id];
    var before, after := Weight(ListedIn(db, q, accountId), f), Weight(ListedIn(d, q, accountId), f);
    var move := MovedIf(!Hides(q, e.companyId, e.branchId, e.entryDate), id, accountId, f);
    var rows := d.lines[|db.lines|..];
    assert d.lines == db.lines + rows;
    SumConcat(db.lines, rows, after);
    SumConcat(db.lines, rows, move);
    forall l | l in db.lines ensures after(l) == before(l) + move(l) {
      var i :| 0 <= i < |db.lines| && db.lines[i] == l;
      assert LineOk(db, db.lines[i]);
      LineWeight(db, d, id, q, accountId, f, l);
    }
    SumPlus(db.lines, before, move, after);
    forall l | l in rows ensures after(l) == move(l) {
      var k :| 0 <= k < |rows| && rows[k] == l;
      assert rows[k] == d.lines[|db.lines| + k] && LineOk(d, d.lines[|db.lines| + k]);
      NewLineWeight(db, d, id, q, accountId, f, l);
    }
    SumSame(rows, after, move);
  }

  lemma MovedSum(d: Db, id: nat, shown: bool, accountId: nat, f: Line -> int)
    ensures Sum(d.lines, MovedIf(shown, id, accountId, f))
         == if shown then Sum(EntryLines(d, id), OnOne(accountId, f)) else 0
  {
    if shown {
      SumSame(d.lines, MovedIf(shown, id, accountId, f), Moved(id, accountId, f));
      MovedInEntry(d, id, accountId, f);
    } else {
      SumZero(d.lines, MovedIf(shown, id, accountId, f));
    }
  }

  /** A journal that becomes posted adds its amounts, account by account, to every trial balance that
      does not hide it, and changes no other. */
  lemma JournalMovesBalance(db: Db, d: Db, id: nat, q: Scope, accountId: nat)
    requires LinesOk(db) && LinesOk(d) && BecomesPosted(db, d, id)
    ensures var e := d.entries[id];
      var debit := DebitOf(Balance(d, q), accountId) - DebitOf(Balance(db, q), accountId);
      var credit := CreditOf(Balance(d, q), accountId) - CreditOf(Balance(db, q), accountId);
      if Hides(q, e.companyId, e.branchId, e.entryDate) then debit == 0 && credit == 0
      else
        && debit == Sum(EntryLines(d, id), OnOne(accountId, LineDebit))
        && credit == Sum(EntryLines(d, id), OnOne(accountId, LineCredit))
  {
    var e := d.entries[id];
    var shown := !Hides(q, e.companyId, e.branchId, e.entryDate);
    BalanceSums(db, q, accountId);
    BalanceSums(d, q, accountId);
    WeightsMove(db, d, id, q, accountId, LineDebit);
    WeightsMove(db, d, id, q, accountId, LineCredit);
    MovedSum(d, id, shown, accountId, LineDebit);
    MovedSum(d, id, shown, accountId, LineCredit);
  }

  // ---- Branches add up ----

  /** The trial balance of one branch as of an instant. */
  function OneBranch(companyId: nat, b: nat, instant: int): Scope {
    Scope(companyId, Some(b), [], None, Some(instant))
  }

  /** All the company's journals as of an instant, or those of a list of allowed branches. */
  function Allowed(companyId: nat, list: seq<nat>, instant: int): Scope {
    Scope(companyId, None, list, None, Some(instant))
  }

  function DebitsOfBranches(db: Db, companyId: nat, bs: seq<nat>, instant: int, accountId: nat): int {
    if bs == [] then 0
    else
      DebitsOfBranches(db, companyId, bs[..|bs| - 1], instant, accountId)
      + DebitOf(Balance(db, OneBranch(companyId, bs[|bs| - 1], instant)), accountId)
  }

  function CreditsOfBranches(db: Db, companyId: nat, bs: seq<nat>, instant: int, accountId: nat): int {
    if bs == [] then 0
    else
      CreditsOfBranches(db, companyId, bs[..|bs| - 1], instant, accountId)
      + CreditOf(Balance(db, OneBranch(companyId, bs[|bs| - 1], instant)), accountId)
  }

  predicate Distinct(bs: seq<nat>) {
    forall i, j :: 0 <= i < j < |bs| ==> bs[i] != bs[j]
  }

  /** Amounts of the company's posted lines of an account as of an instant, of the branches chosen. */
  function Chosen(db: Db, companyId: nat, instant: int, accountId: nat, branch: Option<nat> -> bool, f: Line -> int)
    : Line -> int
  {
    (l: Line) =>
      if l.entryId < |db.entries| && l.accountId == accountId < |db.accounts|
         && db.entries[l.entryId].companyId == companyId && db.entries[l.entryId].status == Posted
         && db.entries[l.entryId].entryDate <= instant && branch(db.entries[l.entryId].branchId)
      then f(l) else 0
  }

  function IsBranch(b: nat): Option<nat> -> bool {
    (x: Option<nat>) => x == Some(b)
  }

  function InList(bs: seq<nat>): Option<nat> -> bool {
    (x: Option<nat>) => x.Some? && x.value in bs
  }

  function IsNone(): Option<nat> -> bool {
    (x: Option<nat>) => x == None
  }

  function Any(): Option<nat> -> bool {
    (x: Option<nat>) => true
  }

  lemma QueryIsChosen(db: Db, q: Scope, instant: int, accountId: nat, branch: Option<nat> -> bool)
    requires q.from == None && q.to == Some(instant)
    requires forall x: Option<nat>, at: int :: at <= instant ==> (Hides(q, q.companyId, x, at) <==> !branch(x))
    ensures DebitOf(Balance(db, q), accountId)
         == Sum(db.lines, Chosen(db, q.companyId, instant, accountId, branch, LineDebit))
    ensures CreditOf(Balance(db, q), accountId)
         == Sum(db.lines, Chosen(db, q.companyId, instant, accountId, branch, LineCredit))
  {
    BalanceSums(db, q, accountId);
    forall l | l in db.lines
      ensures ListedIn(db, q, accountId)(l) <==>
              && l.entryId < |db.entries| && l.accountId == accountId < |db.accounts|
              && db.entries[l.entryId].companyId == q.companyId && db.entries[l.entryId].status == Posted
              && db.entries[l.entryId].entryDate <= instant && branch(db.entries[l.entryId].branchId)
    {
      if l.entryId < |db.entries| {
        var e := db.entries[l.entryId];
        assert e.entryDate <= instant ==> (Hides(q, q.companyId, e.branchId, e.entryDate) <==> !branch(e.branchId));
      }
    }
    SumSame(db.lines, Weight(ListedIn(db, q, accountId), LineDebit),
            Chosen(db, q.companyId, instant, accountId, branch, LineDebit));
    SumSame(db.lines, Weight(ListedIn(db, q, accountId), LineCredit),
            Chosen(db, q.companyId, instant, accountId, branch, LineCredit));
  }

  lemma {:induction false} ListIsSum(db: Db, companyId: nat, bs: seq<nat>, instant: int, accountId: nat)
    requires Distinct(bs)
    ensures DebitsOfBranches(db, companyId, bs, instant, accountId)
         == Sum(db.lines, Chosen(db, companyId, instant, accountId, InList(bs), LineDebit))
    ensures CreditsOfBranches(db, companyId, bs, instant, accountId)
         == Sum(db.lines, Chosen(db, companyId, instant, accountId, InList(bs), LineCredit))
  {
    if bs == [] {
      SumZero(db.lines, Chosen(db, companyId, instant, accountId, InList(bs), LineDebit));
      SumZero(db.lines, Chosen(db, companyId, instant, accountId, InList(bs), LineCredit));
    } else {
      var front, b := bs[..|bs| - 1], bs[|bs| - 1];
      ListIsSum(db, companyId, front, instant, accountId);
      QueryIsChosen(db, OneBranch(companyId, b, instant), instant, accountId, IsBranch(b));
      OneMoreBranch(db, companyId, front, b, instant, accountId, LineDebit);
      OneMoreBranch(db, companyId, front, b, instant, accountId, LineCredit);
      assert bs == front + [b];
    }
  }

  lemma OneMoreBranch(db: Db, companyId: nat, front: seq<nat>, b: nat, instant: int, accountId: nat, f: Line -> int)
    requires b !in front
    ensures Sum(db.lines, Chosen(db, companyId, instant, accountId, InList(front + [b]), f))
         == Sum(db.lines, Chosen(db, companyId, instant, accountId, InList(front), f))
            + Sum(db.lines, Chosen(db, companyId, instant, accountId, IsBranch(b), f))
  {
    SumPlus(db.lines, Chosen(db, companyId, instant, accountId, InList(front), f),
            Chosen(db, companyId, instant, accountId, IsBranch(b), f),
            Chosen(db, companyId, instant, accountId, InList(front + [b]), f));
  }

  /** The balance of a list of allowed branches is the sum of the balances of its distinct branches. */
  lemma AllowedIsSumOfBranches(db: Db, companyId: nat, list: seq<nat>, bs: seq<nat>, instant: int, accountId: nat)
    requires list != [] && Distinct(bs) && forall b :: b in bs <==> b in list
    ensures var r := Balance(db, Allowed(companyId, list, instant));
      && DebitOf(r, accountId) == DebitsOfBranches(db, companyId, bs, instant, accountId)
      && CreditOf(r, accountId) == CreditsOfBranches(db, companyId, bs, instant, accountId)
  {
    ListIsSum(db, companyId, bs, instant, accountId);
    QueryIsChosen(db, Allowed(companyId, list, instant), instant, accountId, InList(bs));
  }

  /** All branches the company's journals name. */
  predicate BranchesIn(db: Db, companyId: nat, bs: seq<nat>) {
    forall e :: e in db.entries && e.companyId == companyId && e.branchId.Some? ==> e.branchId.value in bs
  }

  /** The balance without a filter, which is that of an empty list, is the sum of the balances of all
      branches and of the journals that have no branch. */
  lemma UnfilteredIsSumOfBranches(db: Db, companyId: nat, bs: seq<nat>, instant: int, accountId: nat)
    requires Distinct(bs)
    requires BranchesIn(db, companyId, bs)
    ensures var r := Balance(db, Allowed(companyId, [], instant));
      && DebitOf(r, accountId)
         == DebitsOfBranches(db, companyId, bs, instant, accountId)
            + Sum(db.lines, Chosen(db, companyId, instant, accountId, IsNone(), LineDebit))
      && CreditOf(r, accountId)
         == CreditsOfBranches(db, companyId, bs, instant, accountId)
            + Sum(db.lines, Chosen(db, companyId, instant, accountId, IsNone(), LineCredit))
  {
    ListIsSum(db, companyId, bs, instant, accountId);
    QueryIsChosen(db, Allowed(companyId, [], instant), instant, accountId, Any());
    BranchedOrNot(db, companyId, bs, instant, accountId, LineDebit);
    BranchedOrNot(db, companyId, bs, instant, accountId, LineCredit);
  }

  lemma BranchedOrNot(db: Db, companyId: nat, bs: seq<nat>, instant: int, accountId: nat, f: Line -> int)
    requires BranchesIn(db, companyId, bs)
    ensures Sum(db.lines, Chosen(db, companyId, instant, accountId, Any(), f))
         == Sum(db.lines, Chosen(db, companyId, instant, accountId, InList(bs), f))
            + Sum(db.lines, Chosen(db, companyId, instant, accountId, IsNone(), f))
  {
    SumPlus(db.lines, Chosen(db, companyId, instant, accountId, InList(bs), f),
            Chosen(db, companyId, instant, accountId, IsNone(), f),
            Chosen(db, companyId, instant, accountId, Any(), f));
  }
}
