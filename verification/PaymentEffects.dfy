/** What posting and reversing a payment write and when they succeed, said of the tables and the payment
    alone. */
module PaymentEffects {
  import opened Wrappers
  import opened Errors
  import opened Sums
  import opened Calendar
  import opened Decimals
  import DoubleEntry
  import opened LedgerModel
  import opened LedgerInvariant
  import opened LedgerEffects

  // ---- Sources ----

  /** Entry i was made for this source of the company. */
  predicate MadeFor(db: Db, i: nat, companyId: nat, sourceType: SourceType, sourceId: nat) {
    && i < |db.entries| && db.entries[i].companyId == companyId
    && db.entries[i].sourceType == sourceType && db.entries[i].sourceId == Some(sourceId)
  }

  predicate HasSource(db: Db, companyId: nat, sourceType: SourceType, sourceId: nat) {
    exists i: nat :: i < |db.entries| && MadeFor(db, i, companyId, sourceType, sourceId)
  }

  /** The lookup answers the entry that was made for the source, if there is one. */
  lemma FindsSource(db: Db, companyId: nat, sourceType: SourceType, sourceId: nat)
    ensures var r := FindBySource(db, companyId, sourceType, sourceId);
      && (r.Some? <==> HasSource(db, companyId, sourceType, sourceId))
      && (r.Some? ==> MadeFor(db, r.value, companyId, sourceType, sourceId))
  {
    var r := FindBySource(db, companyId, sourceType, sourceId);
    if r.Some? {
      assert MadeFor(db, r.value, companyId, sourceType, sourceId);
    }
  }

  lemma MadeForOne(db: Db, i: nat, j: nat, companyId: nat, sourceType: SourceType, sourceId: nat)
    requires SourcesUnique(db)
    requires MadeFor(db, i, companyId, sourceType, sourceId) && MadeFor(db, j, companyId, sourceType, sourceId)
    ensures i == j
  {
    assert i < j ==> !SameSource(db.entries[i], db.entries[j]);
    assert j < i ==> !SameSource(db.entries[j], db.entries[i]);
  }

  // ---- Automatic journals ----

  /** The new entry is posted from the start, by this user, at this instant, for this source. */
  predicate PostedFor(e: Entry, userId: nat, now: int, sourceType: SourceType, sourceId: nat) {
    && e.status == Posted && e.sourceType == sourceType && e.sourceId == Some(sourceId)
    && e.createdBy == userId && e.postedBy == Some(userId) && e.postedAt == Some(now)
  }

  lemma InternalSaves(db: Db, j: InternalJournal, now: int) returns (p: Db, e: Entry)
    requires Inv(db) && CreateInternal(db, j, now).result.Ok?
    ensures p == ResolveOpenPeriod(db, j.companyId, j.entryDate).db
    ensures e.companyId == j.companyId && e.branchId == j.branchId && e.entryDate == j.entryDate
    ensures e.number.year == YearOf(e.entryDate)
    ensures PostedFor(e, j.userId, now, j.sourceType, j.sourceId)
    ensures e.totalDebit == Sum(j.lines, InputDebit) && e.totalCredit == Sum(j.lines, InputCredit)
    ensures Covers(p, e.periodId, e.companyId, DayOf(e.entryDate)) && Postable(p, e.periodId)
    ensures p.entries == db.entries && p.lines == db.lines && p.counters == db.counters
    ensures CreateInternal(db, j, now) == Attempt(WithJournal(p, e, j.lines), Ok(|db.entries|))
  {
    var totals := DoubleEntry.CheckBalanced(InputAmounts(j.lines)).value;
    var r := ResolveOpenPeriod(db, j.companyId, j.entryDate);
    ResolveOpenPeriodCorrect(db, j.companyId, j.entryDate);
    RowSums(0, j.lines);
    p, e := r.db, InternalEntry(j, totals, r.result.value, now);
    NumberAndSaveEffect(p, e, j.lines);
  }

  lemma InternalWrites(db: Db, j: InternalJournal, now: int)
    requires Inv(db) && CreateInternal(db, j, now).result.Ok?
    ensures var a := CreateInternal(db, j, now);
      && a.result.value == |db.entries|
      && JournalWritten(db, a.db, j.companyId, j.branchId, j.entryDate, j.lines)
      && PostedFor(a.db.entries[|db.entries|], j.userId, now, j.sourceType, j.sourceId)
  {
    var p, e := InternalSaves(db, j, now);
    ResolverAddsRows(db, j.companyId, j.entryDate);
    SavedIsWritten(db, p, e, j.lines);
  }

  /** An automatic journal is written exactly when it balances, its day admits postings, its source is
      new and its amounts fit. */
  lemma InternalSucceedsIff(db: Db, j: InternalJournal, now: int)
    requires Inv(db)
    requires forall k :: 0 <= k < |j.lines| ==> j.lines[k].accountId < |db.accounts|
    ensures CreateInternal(db, j, now).result.Ok? <==>
            && DoubleEntry.Balanced(InputAmounts(j.lines))
            && DayAdmitsPostings(db, j.companyId, j.entryDate)
            && !HasSource(db, j.companyId, j.sourceType, j.sourceId)
            && AmountsFit(j.lines)
  {
    ResolverAccepts(db, j.companyId, j.entryDate);
    FindsSource(db, j.companyId, j.sourceType, j.sourceId);
    var r := ResolveOpenPeriod(db, j.companyId, j.entryDate);
    if DoubleEntry.CheckBalanced(InputAmounts(j.lines)).Ok? && r.result.Ok? {
      ResolveOpenPeriodCorrect(db, j.companyId, j.entryDate);
      RowSums(0, j.lines);
      var e := InternalEntry(j, DoubleEntry.CheckBalanced(InputAmounts(j.lines)).value, r.result.value, now);
      SaveOfSource(r.db, e, j.lines);
    }
  }

  lemma SaveOfSource(db: Db, e: Entry, lines: seq<LineInput>)
    requires EntriesOk(db) && CountersOk(db) && e.sourceId.Some?
    requires e.totalDebit == Sum(lines, InputDebit) && e.totalCredit == Sum(lines, InputCredit)
    requires forall k :: 0 <= k < |lines| ==> lines[k].accountId < |db.accounts|
    ensures NumberAndSave(db, e, lines).result.Ok?
       <==> AmountsFit(lines) && !HasSource(db, e.companyId, e.sourceType, e.sourceId.value)
  {
    FindsSource(db, e.companyId, e.sourceType, e.sourceId.value);
    if SourceTaken(db, e) {
      NumberAndSaveEffect(db, e, lines);
    } else {
      SaveSucceedsIff(db, e, lines);
    }
  }

  // ---- Posting a payment ----

  /** The payment debits and credits these accounts, which its company can use: money received goes to
      cash from the customer, money paid goes to the supplier from cash. */
  predicate PaysBetween(db: Db, p: PaymentRow, parties: Parties, debited: nat, credited: nat) {
    && AccountUsable(db, p.companyId, debited) && AccountUsable(db, p.companyId, credited)
    && match p.direction
       case Receipt =>
         && parties.glAccountId == Some(debited)
         && parties.customer == Some(Customer(Some(credited)))
       case Payout =>
         && parties.supplier == Some(Supplier(Some(debited)))
         && parties.glAccountId == Some(credited)
       case Refund => false
  }

  /** A payment can be mapped exactly when there are such accounts, and to these. */
  lemma MapsIff(db: Db, p: PaymentRow, parties: Parties)
    ensures var m := MapPayment(db, p, parties);
      && (m.Ok? ==> PaysBetween(db, p, parties, m.value.debitAccountId, m.value.creditAccountId))
      && (m.Err? ==> forall debited: nat, credited: nat :: !PaysBetween(db, p, parties, debited, credited))
  {
  }

  /** Otherwise the error names what is missing or cannot be used, the cash account first. */
  lemma MapRefusals(db: Db, p: PaymentRow, parties: Parties)
    requires MapPayment(db, p, parties).Err?
    ensures var e := MapPayment(db, p, parties).error;
      match parties.glAccountId
      case None => e == NoCashAccount
      case Some(cash) =>
        if !AccountUsable(db, p.companyId, cash) then e == CashAccountUnresolved
        else if p.direction == Refund then e == RefundNotPostable
        else if p.direction == Receipt then
          if parties.customer == None then e == NoCustomer
          else if parties.customer.value.receivableAccountId == None then e == NoReceivableAccount
          else e == ReceivableAccountUnresolved
        else
          if parties.supplier == None then e == NoSupplier
          else if parties.supplier.value.payableAccountId == None then e == NoPayableAccount
          else e == PayableAccountUnresolved
  {
  }

  /** The lines of a payment: its amount on one account's debit and the other's credit side. */
  function TwoSides(p: PaymentRow, debited: nat, credited: nat): seq<LineInput> {
    [LineInput(debited, p.amount, 0, Some(PaymentReference), Some(p.id)),
     LineInput(credited, 0, p.amount, Some(PaymentReference), Some(p.id))]
  }

  lemma TwoSidesSums(p: PaymentRow, debited: nat, credited: nat)
    ensures var lines := TwoSides(p, debited, credited);
      && Sum(lines, InputDebit) == p.amount == Sum(lines, InputCredit)
      && (DoubleEntry.Balanced(InputAmounts(lines)) <==> p.amount > 0)
      && (AmountsFit(lines) <==> FitsColumn(p.amount))
  {
    var lines := TwoSides(p, debited, credited);
    assert lines[..1] == [lines[0]] && lines[..1][..0] == [];
    assert Sum(lines[..1], InputDebit) == p.amount && Sum(lines[..1], InputCredit) == 0;
    RowSums(0, lines);
    assert InputAmounts(lines)[0] == DoubleEntry.Amounts(p.amount, 0);
  }

  /** A payment that has no entry yet gets one: posted, of the payment's company, branch and date, by the
      caller, now, with its amount on both sides. */
  ghost predicate PaymentWritten(db: Db, d: Db, p: PaymentRow, parties: Parties, userId: nat, now: int) {
    exists debited: nat, credited: nat ::
      && PaysBetween(db, p, parties, debited, credited)
      && JournalWritten(db, d, p.companyId, p.branchId, p.paymentDate, TwoSides(p, debited, credited))
      && PostedFor(d.entries[|db.entries|], userId, now, Payment, p.id)
  }

  lemma PostPaymentWrites(db: Db, p: PaymentRow, parties: Parties, userId: nat, now: int)
    requires Inv(db)
    ensures var a := PostPayment(db, p, parties, userId, now);
      && (a.result.Err? ==> a.db == db)
      && (HasSource(db, p.companyId, Payment, p.id) ==>
            a.db == db && a.result.Ok? && MadeFor(db, a.result.value, p.companyId, Payment, p.id))
      && (!HasSource(db, p.companyId, Payment, p.id) && a.result.Ok? ==>
            a.result.value == |db.entries| && PaymentWritten(db, a.db, p, parties, userId, now))
  {
    FindsSource(db, p.companyId, Payment, p.id);
    if !HasSource(db, p.companyId, Payment, p.id) {
      FirstPosting(db, p, parties, userId, now);
      MapsIff(db, p, parties);
      if PostPayment(db, p, parties, userId, now).result.Ok? {
        var m := MapPayment(db, p, parties).value;
        InternalWrites(db, PaymentJournal(p, m, userId), now);
        assert PaymentLines(p, m) == TwoSides(p, m.debitAccountId, m.creditAccountId);
      }
    }
  }

  /** A payment is posted, or has been, exactly when it has an entry already, or when its accounts can be
      used, its amount is positive and fits, and its day admits postings. */
  lemma PostPaymentSucceedsIff(db: Db, p: PaymentRow, parties: Parties, userId: nat, now: int)
    requires Inv(db)
    ensures PostPayment(db, p, parties, userId, now).result.Ok? <==>
            || HasSource(db, p.companyId, Payment, p.id)
            || (&& (exists debited: nat, credited: nat :: PaysBetween(db, p, parties, debited, credited))
                && p.amount > 0 && FitsColumn(p.amount)
                && DayAdmitsPostings(db, p.companyId, p.paymentDate))
  {
    FindsSource(db, p.companyId, Payment, p.id);
    if !HasSource(db, p.companyId, Payment, p.id) {
      FirstPosting(db, p, parties, userId, now);
      MapsIff(db, p, parties);
      if MapPayment(db, p, parties).Ok? {
        var m := MapPayment(db, p, parties).value;
        TwoSidesSums(p, m.debitAccountId, m.creditAccountId);
        assert PaymentLines(p, m) == TwoSides(p, m.debitAccountId, m.creditAccountId);
        InternalSucceedsIff(db, PaymentJournal(p, m, userId), now);
      }
    }
  }

  // ---- Reversing a payment ----

  /** Line k takes line k of the other journal back and refers to the payment. */
  predicate TakesBack(lines: seq<LineInput>, rows: seq<Line>, paymentId: nat) {
    && |lines| == |rows|
    && forall k :: 0 <= k < |rows| ==>
         && lines[k].accountId == rows[k].accountId
         && lines[k].debit == rows[k].credit && lines[k].credit == rows[k].debit
         && lines[k].referenceType == Some(PaymentReference) && lines[k].referenceId == Some(paymentId)
  }

  /** The reversal of the payment's entry: posted, of the payment's company and branch, dated now, with
      the entry's lines taken back. */
  ghost predicate ReversalWritten(db: Db, d: Db, original: nat, p: PaymentRow, userId: nat, now: int, uuid: nat) {
    exists lines ::
      && TakesBack(lines, EntryLines(db, original), p.id)
      && JournalWritten(db, d, p.companyId, p.branchId, now, lines)
      && PostedFor(d.entries[|db.entries|], userId, now, Manual, uuid)
  }

  lemma PostedHasLines(db: Db, id: nat)
    requires Inv(db) && id < |db.entries| && db.entries[id].sourceId.Some?
    ensures EntryLines(db, id) != [] && DoubleEntry.Balanced(AmountsOf(EntryLines(db, id)))
  {
    assert HeaderOk(db, id) && TotalsOk(db, id);
  }

  lemma ReversalFits(db: Db, id: nat, p: PaymentRow, userId: nat, now: int, uuid: nat)
    requires Inv(db) && id < |db.entries| && db.entries[id].sourceId.Some?
    ensures var j := ReversalJournal(p, EntryLines(db, id), userId, now, uuid);
      && TakesBack(j.lines, EntryLines(db, id), p.id)
      && DoubleEntry.Balanced(InputAmounts(j.lines)) && AmountsFit(j.lines)
      && forall k :: 0 <= k < |j.lines| ==> j.lines[k].accountId < |db.accounts|
  {
    var rows := EntryLines(db, id);
    var lines := ReversedLines(rows, p.id);
    PostedHasLines(db, id);
    assert TotalsOk(db, id);
    DoubleEntry.ReversalBalances(AmountsOf(rows));
    assert InputAmounts(lines) == DoubleEntry.SwapAll(AmountsOf(rows));
    AmountSums(rows);
    RowSums(0, lines);
    forall k | 0 <= k < |lines|
      ensures lines[k].accountId < |db.accounts| && FitsColumn(lines[k].debit) && FitsColumn(lines[k].credit)
    {
      assert rows[k] in rows;
      assert LineOk(db, rows[k]);
    }
  }

  /** A reversal answers nothing exactly for a refund and for a payment without an entry. Otherwise it
      writes a journal exactly when today admits postings and the random id is new. */
  lemma ReversalAnswers(db: Db, p: PaymentRow, userId: nat, now: int, uuid: nat)
    requires Inv(db)
    ensures var r := ReversePayment(db, p, userId, now, uuid).result;
      && (r == Ok(None) <==> p.direction == Refund || !HasSource(db, p.companyId, Payment, p.id))
      && (p.direction != Refund && HasSource(db, p.companyId, Payment, p.id) ==>
            (r == Ok(Some(|db.entries|)) <==>
               DayAdmitsPostings(db, p.companyId, now) && !HasSource(db, p.companyId, Manual, uuid)))
      && (r.Ok? && r.value.Some? ==> r == Ok(Some(|db.entries|)))
  {
    FindsSource(db, p.companyId, Payment, p.id);
    var found := FindBySource(db, p.companyId, Payment, p.id);
    if p.direction != Refund && found.Some? {
      var j := ReversalJournal(p, EntryLines(db, found.value), userId, now, uuid);
      PostedHasLines(db, found.value);
      ReversalFits(db, found.value, p, userId, now, uuid);
      InternalSucceedsIff(db, j, now);
      if CreateInternal(db, j, now).result.Ok? {
        InternalWrites(db, j, now);
      }
    }
  }

  lemma ReversePaymentWrites(db: Db, original: nat, p: PaymentRow, userId: nat, now: int, uuid: nat)
    requires Inv(db) && MadeFor(db, original, p.companyId, Payment, p.id)
    ensures var a := ReversePayment(db, p, userId, now, uuid);
      if a.result.Ok? && a.result.value.Some? then ReversalWritten(db, a.db, original, p, userId, now, uuid)
      else a.db == db
  {
    FindsSource(db, p.companyId, Payment, p.id);
    var found := FindBySource(db, p.companyId, Payment, p.id).value;
    MadeForOne(db, original, found, p.companyId, Payment, p.id);
    var j := ReversalJournal(p, EntryLines(db, original), userId, now, uuid);
    if p.direction != Refund && CreateInternal(db, j, now).result.Ok? {
      ReversalFits(db, original, p, userId, now, uuid);
      InternalWrites(db, j, now);
    }
  }

  /** A reversal that writes nothing changes nothing. */
  lemma NoReversal(db: Db, p: PaymentRow, userId: nat, now: int, uuid: nat)
    requires !HasSource(db, p.companyId, Payment, p.id)
    ensures ReversePayment(db, p, userId, now, uuid).db == db
  {
    FindsSource(db, p.companyId, Payment, p.id);
  }

  // ---- Original and reversal cancel out ----

  /** The net debit of an account. */
  function AccountNet(accountId: nat): Line -> int {
    (l: Line) => if l.accountId == accountId then l.debit - l.credit else 0
  }

  lemma {:induction false} TakenBackNets(rows: seq<Line>, lines: seq<LineInput>, back: seq<Line>, id: nat,
                                         paymentId: nat, accountId: nat)
    requires TakesBack(lines, rows, paymentId) && RowsWritten(back, id, lines)
    ensures Sum(rows, AccountNet(accountId)) + Sum(back, AccountNet(accountId)) == 0
  {
    if rows != [] {
      var n := |rows| - 1;
      TakenBackNets(rows[..n], lines[..n], back[..n], id, paymentId, accountId);
    }
  }

  lemma WrittenReversalNets(db: Db, d: Db, original: nat, p: PaymentRow, userId: nat, now: int, uuid: nat,
                            accountId: nat)
    requires LinesOk(db) && original < |db.entries| && ReversalWritten(db, d, original, p, userId, now, uuid)
    ensures EntryLines(d, original) == EntryLines(db, original)
    ensures Sum(EntryLines(d, original), AccountNet(accountId))
            + Sum(EntryLines(d, |db.entries|), AccountNet(accountId)) == 0
  {
    var lines :| TakesBack(lines, EntryLines(db, original), p.id)
                 && JournalWritten(db, d, p.companyId, p.branchId, now, lines);
    AppendedLines(db, d, d.lines[|db.lines|..]);
    TakenBackNets(EntryLines(db, original), lines, EntryLines(d, |db.entries|), |db.entries|, p.id, accountId);
  }

  /** After a reversal the lines of the original and those of the reversal net to 0 on every account. */
  lemma ReversalNetsToZero(db: Db, original: nat, p: PaymentRow, userId: nat, now: int, uuid: nat, accountId: nat)
    requires Inv(db) && MadeFor(db, original, p.companyId, Payment, p.id)
    requires ReversePayment(db, p, userId, now, uuid).result == Ok(Some(|db.entries|))
    ensures var d := ReversePayment(db, p, userId, now, uuid).db;
      && EntryLines(d, original) == EntryLines(db, original)
      && Sum(EntryLines(d, original), AccountNet(accountId))
         + Sum(EntryLines(d, |db.entries|), AccountNet(accountId)) == 0
  {
    ReversePaymentWrites(db, original, p, userId, now, uuid);
    WrittenReversalNets(db, ReversePayment(db, p, userId, now, uuid).db, original, p, userId, now, uuid, accountId);
  }
}
