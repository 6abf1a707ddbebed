/** From the services to the read models: which trial balances and general ledgers a created, posted,
    cancelled, automatic or reversing journal changes, and by how much. */
module JournalViews {
  import opened Wrappers
  import opened Sums
  import DoubleEntry
  import opened LedgerModel
  import opened LedgerInvariant
  import opened LedgerEffects
  import opened LedgerQueries
  import opened PaymentEffects
  import opened BranchViews

  predicate MovesBy(db: Db, d: Db, q: Scope, accountId: nat, debit: int, credit: int) {
    && DebitOf(Balance(d, q), accountId) == DebitOf(Balance(db, q), accountId) + debit
    && CreditOf(Balance(d, q), accountId) == CreditOf(Balance(db, q), accountId) + credit
  }

  // ---- Journals that are not posted ----

  function IsListed(db: Db, q: Scope, accountId: Option<nat>): Line -> bool {
    (l: Line) => Listed(db, q, accountId, l)
  }

  lemma LedgerIs(db: Db, q: Scope, accountId: Option<nat>)
    ensures GeneralLedger(db, q, accountId) == Filter(db.lines, IsListed(db, q, accountId))
  {
    FilterSame(db.lines, (l: Line) => Listed(db, q, accountId, l), IsListed(db, q, accountId));
  }

  /** The ledger after appending the rows of a new entry. */
  lemma LedgerAppends(db: Db, d: Db, q: Scope, accountId: Option<nat>)
    requires LinesOk(db) && OlderRowsStay(db, d)
    ensures GeneralLedger(d, q, accountId)
         == GeneralLedger(db, q, accountId) + Filter(d.lines[|db.lines|..], IsListed(d, q, accountId))
  {
    var rows := d.lines[|db.lines|..];
    assert d.lines == db.lines + rows;
    LedgerIs(db, q, accountId);
    LedgerIs(d, q, accountId);
    FilterConcat(db.lines, rows, IsListed(d, q, accountId));
    OldLinesListedAlike(db, d, q, accountId);
  }

  lemma BalanceStays(db: Db, d: Db, q: Scope)
    requires LinesOk(db) && OlderRowsStay(db, d) && d.entries[|db.entries|].status != Posted
    requires forall k :: |db.lines| <= k < |d.lines| ==> d.lines[k].entryId == |db.entries|
    ensures Balance(d, q) == Balance(db, q)
  {
    var rows := d.lines[|db.lines|..];
    assert d.lines == db.lines + rows;
    FilterConcat(db.lines, rows, Seen(d, q));
    FilterNone(rows, Seen(d, q));
    OldLinesSeenAlike(db, d, q);
    assert Selected(d, q) == Selected(db, q);
  }

  /** Adding an entry that is not posted shows nowhere. */
  lemma UnpostedIsHidden(db: Db, d: Db, q: Scope, accountId: Option<nat>)
    requires LinesOk(db) && OlderRowsStay(db, d) && d.entries[|db.entries|].status != Posted
    requires forall k :: |db.lines| <= k < |d.lines| ==> d.lines[k].entryId == |db.entries|
    ensures Balance(d, q) == Balance(db, q) && GeneralLedger(d, q, accountId) == GeneralLedger(db, q, accountId)
  {
    BalanceStays(db, d, q);
    LedgerAppends(db, d, q, accountId);
    FilterNone(d.lines[|db.lines|..], IsListed(d, q, accountId));
  }

  lemma OldLinesListedAlike(db: Db, d: Db, q: Scope, accountId: Option<nat>)
    requires LinesOk(db) && d.accounts == db.accounts
    requires |d.entries| >= |db.entries| && d.entries[..|db.entries|] == db.entries
    ensures Filter(db.lines, IsListed(d, q, accountId)) == Filter(db.lines, IsListed(db, q, accountId))
  {
    forall l | l in db.lines ensures IsListed(d, q, accountId)(l) == IsListed(db, q, accountId)(l) {
      var i :| 0 <= i < |db.lines| && db.lines[i] == l;
      assert LineOk(db, db.lines[i]);
      assert d.entries[l.entryId] == db.entries[l.entryId];
    }
    FilterSame(db.lines, IsListed(d, q, accountId), IsListed(db, q, accountId));
  }

  /** A draft changes no trial balance and no general ledger. */
  lemma DraftIsHidden(db: Db, companyId: nat, userId: nat, dto: NewJournal, now: int, q: Scope,
                      accountId: Option<nat>)
    requires Inv(db)
    ensures var d := Create(db, companyId, userId, dto, now).db;
      Balance(d, q) == Balance(db, q) && GeneralLedger(d, q, accountId) == GeneralLedger(db, q, accountId)
  {
    CreateWrites(db, companyId, userId, dto, now);
    var a := Create(db, companyId, userId, dto, now);
    if a.result.Ok? {
      RowsAreOfEntry(db, a.db, dto.lines);
      UnpostedIsHidden(db, a.db, q, accountId);
    }
  }

  lemma RowsAreOfEntry(db: Db, d: Db, lines: seq<LineInput>)
    requires OlderRowsStay(db, d) && RowsWritten(d.lines[|db.lines|..], |db.entries|, lines)
    ensures forall k :: |db.lines| <= k < |d.lines| ==> d.lines[k].entryId == |db.entries|
  {
    forall k | |db.lines| <= k < |d.lines| ensures d.lines[k].entryId == |db.entries| {
      assert d.lines[k] == d.lines[|db.lines|..][k - |db.lines|];
    }
  }

  /** Neither does cancelling one. */
  lemma CancelledIsHidden(db: Db, id: nat, companyId: nat, q: Scope, accountId: Option<nat>)
    ensures var d := Cancel(db, id, companyId).db;
      Balance(d, q) == Balance(db, q) && GeneralLedger(d, q, accountId) == GeneralLedger(db, q, accountId)
  {
    var d := Cancel(db, id, companyId).db;
    FilterSame(db.lines, Seen(d, q), Seen(db, q));
    FilterSame(db.lines, (l: Line) => Listed(d, q, accountId, l), (l: Line) => Listed(db, q, accountId, l));
  }

  // ---- New posted journals ----

  lemma WrittenBecomesPosted(db: Db, d: Db, lines: seq<LineInput>)
    requires OlderRowsStay(db, d) && d.entries[|db.entries|].status == Posted
    requires RowsWritten(d.lines[|db.lines|..], |db.entries|, lines)
    ensures BecomesPosted(db, d, |db.entries|)
  {
    RowsAreOfEntry(db, d, lines);
    forall i: nat | i < |d.entries| && i != |db.entries| ensures i < |db.entries| && d.entries[i] == db.entries[i] {
      assert d.entries[i] == d.entries[..|db.entries|][i];
    }
  }

  function OnAny(accountId: Option<nat>): Line -> bool {
    (l: Line) => accountId.Some? ==> l.accountId == accountId.value
  }

  /** The general ledger gains exactly the lines of a new posted journal, unless it hides it. */
  lemma LedgerGains(db: Db, d: Db, q: Scope, accountId: Option<nat>)
    requires LinesOk(db) && LinesOk(d) && OlderRowsStay(db, d) && BecomesPosted(db, d, |db.entries|)
    ensures var e := d.entries[|db.entries|];
      GeneralLedger(d, q, accountId)
      == GeneralLedger(db, q, accountId)
         + if Hides(q, e.companyId, e.branchId, e.entryDate) then []
           else Filter(d.lines[|db.lines|..], OnAny(accountId))
  {
    LedgerAppends(db, d, q, accountId);
    forall l | l in d.lines[|db.lines|..] ensures LineOk(d, l) && l.entryId == |db.entries| {
      var k :| |db.lines| <= k < |d.lines| && d.lines[k] == l;
    }
    RowsListed(d, d.lines[|db.lines|..], |db.entries|, q, accountId);
  }

  lemma RowsListed(d: Db, rows: seq<Line>, id: nat, q: Scope, accountId: Option<nat>)
    requires id < |d.entries| && d.entries[id].status == Posted
    requires forall l :: l in rows ==> LineOk(d, l) && l.entryId == id
    ensures var e := d.entries[id];
      Filter(rows, IsListed(d, q, accountId))
      == if Hides(q, e.companyId, e.branchId, e.entryDate) then [] else Filter(rows, OnAny(accountId))
  {
    var e := d.entries[id];
    ShownOrHidden(e, q);
    if InScope(e, q) {
      FilterSame(rows, IsListed(d, q, accountId), OnAny(accountId));
    } else {
      FilterNone(rows, IsListed(d, q, accountId));
    }
  }

  // ---- A manual journal, from request to ledger ----

  lemma PostAfterCreate(db: Db, d: Db, e: Db, id: nat)
    requires OlderRowsStay(db, d) && id == |db.entries| && OnlyHeader(d, e, id)
    ensures OlderRowsStay(db, e)
  {
    forall i | 0 <= i < |db.entries| ensures e.entries[..|db.entries|][i] == db.entries[i] {
      assert e.entries[i] == d.entries[i] == d.entries[..|db.entries|][i];
    }
  }

  lemma CreatedCanBePosted(db: Db, companyId: nat, userId: nat, dto: NewJournal, now: int, poster: nat, later: int)
    requires Inv(db) && Create(db, companyId, userId, dto, now).result.Ok?
    requires DoubleEntry.Balanced(InputAmounts(dto.lines))
    ensures var d := Create(db, companyId, userId, dto, now).db;
      Post(d, |db.entries|, companyId, poster, later).result.Ok?
  {
    var d, id := Create(db, companyId, userId, dto, now).db, |db.entries|;
    CreateWrites(db, companyId, userId, dto, now);
    CreateKeepsInv(db, companyId, userId, dto, now);
    PostSucceedsIff(d, id, companyId, poster, later);
    EntryDayAdmits(d, id);
    assert AmountsOf(EntryLines(d, id)) == InputAmounts(dto.lines);
  }

  /** A journal that balances can be posted as soon as it is created, and the general ledger then has
      gained exactly the lines of the request, in every query that does not hide its company, branch
      and date. */
  lemma ManualJournalShows(db: Db, companyId: nat, userId: nat, dto: NewJournal, now: int, poster: nat, later: int,
                           q: Scope)
    requires Inv(db) && Create(db, companyId, userId, dto, now).result.Ok?
    requires DoubleEntry.Balanced(InputAmounts(dto.lines))
    ensures var created := Create(db, companyId, userId, dto, now).db;
      var a := Post(created, |db.entries|, companyId, poster, later);
      && a.result.Ok? && |db.lines| <= |a.db.lines|
      && RowsWritten(a.db.lines[|db.lines|..], |db.entries|, dto.lines)
      && GeneralLedger(a.db, q, None)
         == GeneralLedger(db, q, None)
            + if Hides(q, companyId, dto.branchId, DateOf(dto, now)) then [] else a.db.lines[|db.lines|..]
  {
    var d, id := Create(db, companyId, userId, dto, now).db, |db.entries|;
    CreatedCanBePosted(db, companyId, userId, dto, now, poster, later);
    CreateWrites(db, companyId, userId, dto, now);
    CreateKeepsInv(db, companyId, userId, dto, now);
    LedgerEffects.PostWrites(d, id, companyId, poster, later);
    PostKeepsInv(d, id, companyId, poster, later);
    var b := Post(d, id, companyId, poster, later).db;
    PostAfterCreate(db, d, b, id);
    WrittenBecomesPosted(db, b, dto.lines);
    LedgerGains(db, b, q, None);
    AllLines(b.lines[|db.lines|..]);
  }

  lemma {:induction false} AllLines(rows: seq<Line>)
    ensures Filter(rows, OnAny(None)) == rows
  {
    if rows != [] {
      AllLines(rows[..|rows| - 1]);
      assert rows == rows[..|rows| - 1] + [rows[|rows| - 1]];
    }
  }

  // ---- Payments ----

  lemma OnOneIs(l: Line, accountId: nat)
    ensures OnOne(accountId, LineDebit)(l) == if l.accountId == accountId then l.debit else 0
    ensures OnOne(accountId, LineCredit)(l) == if l.accountId == accountId then l.credit else 0
  {
    var debit, credit := LineDebit, LineCredit;
    assert debit(l) == l.debit && credit(l) == l.credit;
  }

  lemma TwoSidesMove(rows: seq<Line>, id: nat, p: PaymentRow, debited: nat, credited: nat, accountId: nat)
    requires RowsWritten(rows, id, TwoSides(p, debited, credited))
    ensures Sum(rows, OnOne(accountId, LineDebit)) == if accountId == debited then p.amount else 0
    ensures Sum(rows, OnOne(accountId, LineCredit)) == if accountId == credited then p.amount else 0
  {
    assert rows[..1] == [rows[0]] && rows[..1][..0] == [];
    OnOneIs(rows[0], accountId);
    OnOneIs(rows[1], accountId);
    assert Sum(rows[..1], OnOne(accountId, LineDebit)) == OnOne(accountId, LineDebit)(rows[0]);
    assert Sum(rows[..1], OnOne(accountId, LineCredit)) == OnOne(accountId, LineCredit)(rows[0]);
  }

  lemma PaymentMoves(db: Db, d: Db, p: PaymentRow, userId: nat, now: int, debited: nat, credited: nat, q: Scope,
                     accountId: nat)
    requires Inv(db) && Inv(d)
    requires JournalWritten(db, d, p.companyId, p.branchId, p.paymentDate, TwoSides(p, debited, credited))
    requires PostedFor(d.entries[|db.entries|], userId, now, Payment, p.id)
    ensures var shown := !Hides(q, p.companyId, p.branchId, p.paymentDate);
      MovesBy(db, d, q, accountId, if shown && accountId == debited then p.amount else 0,
              if shown && accountId == credited then p.amount else 0)
  {
    WrittenBecomesPosted(db, d, TwoSides(p, debited, credited));
    JournalMovesBalance(db, d, |db.entries|, q, accountId);
    TwoSidesMove(EntryLines(d, |db.entries|), |db.entries|, p, debited, credited, accountId);
  }

  lemma OneMapping(db: Db, p: PaymentRow, parties: Parties, x: nat, y: nat, debited: nat, credited: nat)
    requires PaysBetween(db, p, parties, x, y) && PaysBetween(db, p, parties, debited, credited)
    ensures x == debited && y == credited
  {
  }

  /** Posting a payment adds its amount to the debit of one account and the credit of the other, in
      every trial balance of its company, branch and date, and changes no other trial balance. */
  lemma PaymentMovesBalances(db: Db, p: PaymentRow, parties: Parties, userId: nat, now: int, debited: nat,
                             credited: nat, q: Scope, accountId: nat)
    requires Inv(db) && !HasSource(db, p.companyId, Payment, p.id)
    requires PostPayment(db, p, parties, userId, now).result.Ok?
    requires PaysBetween(db, p, parties, debited, credited)
    ensures var d := PostPayment(db, p, parties, userId, now).db;
      var shown := !Hides(q, p.companyId, p.branchId, p.paymentDate);
      MovesBy(db, d, q, accountId, if shown && accountId == debited then p.amount else 0,
              if shown && accountId == credited then p.amount else 0)
  {
    var d := PostPayment(db, p, parties, userId, now).db;
    PostPaymentWrites(db, p, parties, userId, now);
    PostPaymentKeepsInv(db, p, parties, userId, now);
    WrittenPaymentMoves(db, d, p, parties, userId, now, debited, credited, q, accountId);
  }

  lemma WrittenPaymentMoves(db: Db, d: Db, p: PaymentRow, parties: Parties, userId: nat, now: int, debited: nat,
                            credited: nat, q: Scope, accountId: nat)
    requires Inv(db) && Inv(d) && PaymentWritten(db, d, p, parties, userId, now)
    requires PaysBetween(db, p, parties, debited, credited)
    ensures var shown := !Hides(q, p.companyId, p.branchId, p.paymentDate);
      MovesBy(db, d, q, accountId, if shown && accountId == debited then p.amount else 0,
              if shown && accountId == credited then p.amount else 0)
  {
    var x: nat, y: nat :|
      && PaysBetween(db, p, parties, x, y)
      && JournalWritten(db, d, p.companyId, p.branchId, p.paymentDate, TwoSides(p, x, y))
      && PostedFor(d.entries[|db.entries|], userId, now, Payment, p.id);
    OneMapping(db, p, parties, x, y, debited, credited);
    PaymentMoves(db, d, p, userId, now, debited, credited, q, accountId);
  }

  lemma {:induction false} SwappedSums(rows: seq<Line>, lines: seq<LineInput>, back: seq<Line>, id: nat,
                                       paymentId: nat, accountId: nat)
    requires TakesBack(lines, rows, paymentId) && RowsWritten(back, id, lines)
    ensures Sum(back, OnOne(accountId, LineDebit)) == Sum(rows, OnOne(accountId, LineCredit))
    ensures Sum(back, OnOne(accountId, LineCredit)) == Sum(rows, OnOne(accountId, LineDebit))
  {
    if rows != [] {
      var n := |rows| - 1;
      SwappedSums(rows[..n], lines[..n], back[..n], id, paymentId, accountId);
      OnOneIs(rows[n], accountId);
      OnOneIs(back[n], accountId);
    }
  }

  /** A reversal adds what the original has on the other side, dated today, in every trial balance of the
      payment's company and branch, and changes no other trial balance. */
  lemma ReversalMovesBalances(db: Db, original: nat, p: PaymentRow, userId: nat, now: int, uuid: nat, q: Scope,
                              accountId: nat)
    requires Inv(db) && MadeFor(db, original, p.companyId, Payment, p.id)
    requires ReversePayment(db, p, userId, now, uuid).result == Ok(Some(|db.entries|))
    ensures var d := ReversePayment(db, p, userId, now, uuid).db;
      var shown := !Hides(q, p.companyId, p.branchId, now);
      MovesBy(db, d, q, accountId,
              if shown then Sum(EntryLines(db, original), OnOne(accountId, LineCredit)) else 0,
              if shown then Sum(EntryLines(db, original), OnOne(accountId, LineDebit)) else 0)
  {
    var d := ReversePayment(db, p, userId, now, uuid).db;
    ReversePaymentWrites(db, original, p, userId, now, uuid);
    ReversePaymentKeepsInv(db, p, userId, now, uuid);
    WrittenReversalMoves(db, d, original, p, userId, now, uuid, q, accountId);
  }

  lemma WrittenReversalMoves(db: Db, d: Db, original: nat, p: PaymentRow, userId: nat, now: int, uuid: nat, q: Scope,
                             accountId: nat)
    requires Inv(db) && Inv(d) && ReversalWritten(db, d, original, p, userId, now, uuid)
    ensures var shown := !Hides(q, p.companyId, p.branchId, now);
      MovesBy(db, d, q, accountId,
              if shown then Sum(EntryLines(db, original), OnOne(accountId, LineCredit)) else 0,
              if shown then Sum(EntryLines(db, original), OnOne(accountId, LineDebit)) else 0)
  {
    var lines :|
      && TakesBack(lines, EntryLines(db, original), p.id)
      && JournalWritten(db, d, p.companyId, p.branchId, now, lines)
      && PostedFor(d.entries[|db.entries|], userId, now, Manual, uuid);
    WrittenBecomesPosted(db, d, lines);
    JournalMovesBalance(db, d, |db.entries|, q, accountId);
    SwappedSums(EntryLines(db, original), lines, EntryLines(d, |db.entries|), |db.entries|, p.id, accountId);
  }
}
