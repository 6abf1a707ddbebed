/** The accounting services as they run: statements that insert and update rows of the tables,
    inside transactions that undo them on failure. Each method does to the tables exactly what
    `LedgerModel` says. */
module LedgerStore {
  import opened Wrappers
  import opened Errors
  import opened Sums
  import opened Calendar
  import opened Decimals
  import DoubleEntry
  import Accounts
  import opened LedgerModel
  import opened LedgerInvariant

  class Store {
    var companies: set<nat>
    var branches: map<nat, Branch>
    var accounts: Accounts.Table
    var years: seq<FiscalYear>
    var periods: seq<Period>
    var counters: map<(nat, int), nat>
    var entries: seq<Entry>
    var lines: seq<Line>

    function State(): Db
      reads this
    {
      Db(companies, branches, accounts, years, periods, counters, entries, lines)
    }

    constructor ()
      ensures State() == Empty() && Inv(State())
    {
      companies, branches := {}, map[];
      accounts, years, periods := [], [], [];
      counters := map[];
      entries, lines := [], [];
      new;
      EmptyInv();
    }

    /** What a transaction does when its work fails. */
    method Rollback(saved: Db)
      modifies this
      ensures State() == saved
    {
      companies, branches, accounts := saved.companies, saved.branches, saved.accounts;
      years, periods, counters := saved.years, saved.periods, saved.counters;
      entries, lines := saved.entries, saved.lines;
    }

    // ---- accounting-period-resolver.service ----

    method ResolveOpenPeriod(companyId: nat, at: int) returns (r: Result<nat, Error>)
      modifies this
      ensures Attempt(State(), r) == LedgerModel.ResolveOpenPeriod(old(State()), companyId, at)
    {
      var existing := FindPeriod(State(), companyId, DayOf(at));
      if existing.Some? {
        var period := periods[existing.value];
        if years[period.fiscalYearId].status == ClosedYear {
          return Err(YearClosed);
        }
        if period.status == LockedPeriod {
          return Err(PeriodLocked);
        }
        return Ok(existing.value);
      }
      var year := YearOf(at);
      var raceCheck := FindCalendarYear(State(), companyId, year);
      if raceCheck.Some? {
        return Ok(raceCheck.value);
      }
      var fiscalYearId := |years|;
      years := years + [FiscalYear(companyId, YearStart(year), YearEnd(year), OpenYear)];
      periods := periods + [Period(fiscalYearId, YearStart(year), YearEnd(year), OpenPeriod)];
      return Ok(|periods| - 1);
    }

    // ---- journal-entries.service ----

    /** Upsert the counter row, read it, write it back one higher. */
    method GenerateJournalNumber(companyId: nat, year: int) returns (n: JournalNumber)
      modifies this
      ensures State() == BumpCounter(old(State()), companyId, year)
      ensures n == JournalNumber(year, Counter(old(State()), companyId, year) + 1)
    {
      var key := (companyId, year);
      if key !in counters {
        counters := counters[key := 0];
      }
      var nextSequence := counters[key] + 1;
      counters := counters[key := nextSequence];
      n := JournalNumber(year, nextSequence);
    }

    method AssertLinesReferenceValidAccounts(inputs: seq<LineInput>, companyId: nat) returns (e: Option<Error>)
      ensures e == LinesAccountError(State(), companyId, inputs)
      ensures e == None <==> LinesUsable(State(), companyId, inputs)
    {
      for i := 0 to |inputs|
        invariant LinesAccountError(State(), companyId, inputs[..i]) == None
      {
        assert inputs[..i + 1][..i] == inputs[..i];
        var accountId := inputs[i].accountId;
        if !Accounts.InCompany(accounts, accountId, companyId) {
          AccountErrorOfPrefix(State(), companyId, inputs, i + 1);
          return Some(AccountNotInCompany);
        }
        if !accounts[accountId].isActive {
          AccountErrorOfPrefix(State(), companyId, inputs, i + 1);
          return Some(AccountInactive);
        }
      }
      assert inputs[..|inputs|] == inputs;
      return None;
    }

    method SaveEntry(e: Entry) returns (r: Result<nat, Error>)
      modifies `entries
      ensures var s := InsertEntry(old(State()), e);
        if s.Ok? then State() == s.value && r == Ok(old(|entries|)) else State() == old(State()) && r == Err(s.error)
    {
      if NumberTaken(State(), e) {
        return Err(DuplicateNumber);
      }
      if SourceTaken(State(), e) {
        return Err(DuplicateSource);
      }
      if !FitsColumn(e.totalDebit) || !FitsColumn(e.totalCredit) {
        return Err(OutOfRange);
      }
      entries := entries + [e];
      return Ok(|entries| - 1);
    }

    method SaveLines(id: nat, inputs: seq<LineInput>) returns (r: Result<(), Error>)
      modifies `lines
      ensures Attempt(State(), r) == InsertLines(old(State()), id, inputs)
    {
      for i := 0 to |inputs|
        invariant Attempt(State(), Ok(())) == InsertLines(old(State()), id, inputs[..i])
      {
        assert inputs[..i + 1][..i] == inputs[..i];
        var error := LineRowError(State(), inputs[i]);
        if error.Some? {
          InsertErrorOfPrefix(old(State()), id, inputs, i + 1);
          return Err(error.value);
        }
        lines := lines + [RowOf(id, inputs[i])];
      }
      assert inputs[..|inputs|] == inputs;
      return Ok(());
    }

    /** The header row first, then one row for each line. */
    method SaveNumbered(e: Entry, inputs: seq<LineInput>) returns (r: Result<nat, Error>)
      modifies `entries, `lines
      ensures Attempt(State(), r) == SaveJournal(old(State()), e, inputs)
    {
      var saved := SaveEntry(e);
      if saved.Err? {
        return saved;
      }
      var written := SaveLines(saved.value, inputs);
      if written.Err? {
        return Err(written.error);
      }
      return saved;
    }

    method CreateWork(companyId: nat, userId: nat, dto: NewJournal, now: int) returns (r: Result<nat, Error>)
      modifies this
      ensures Attempt(State(), r) == CreateBody(old(State()), companyId, userId, dto, now)
    {
      var denied := DirectoryError(State(), companyId, dto.branchId);
      if denied.Some? {
        return Err(denied.value);
      }
      var entryDate := if dto.entryDate.Some? then dto.entryDate.value else now;
      var unusable := AssertLinesReferenceValidAccounts(dto.lines, companyId);
      if unusable.Some? {
        return Err(unusable.value);
      }
      var period := ResolveOpenPeriod(companyId, entryDate);
      if period.Err? {
        return period;
      }
      var number := GenerateJournalNumber(companyId, YearOf(entryDate));
      var totalDebit, totalCredit := DraftTotals(dto.lines);
      var draft := Entry(number, companyId, dto.branchId, period.value, entryDate, Draft, Manual, None,
                         totalDebit, totalCredit, userId, None, None);
      r := SaveNumbered(draft, dto.lines);
    }

    method Create(companyId: nat, userId: nat, dto: NewJournal, now: int) returns (r: Result<nat, Error>)
      modifies this
      ensures Attempt(State(), r) == LedgerModel.Create(old(State()), companyId, userId, dto, now)
      ensures r.Err? ==> State() == old(State())
      ensures old(Inv(State())) ==> Inv(State())
    {
      var saved := State();
      r := CreateWork(companyId, userId, dto, now);
      if r.Err? {
        Rollback(saved);
      }
      if Inv(saved) {
        CreateKeepsInv(saved, companyId, userId, dto, now);
      }
    }

    method Post(id: nat, companyId: nat, userId: nat, now: int) returns (r: Result<(), Error>)
      modifies `entries
      ensures Attempt(State(), r) == LedgerModel.Post(old(State()), id, companyId, userId, now)
      ensures r.Err? ==> State() == old(State())
      ensures old(Inv(State())) ==> Inv(State())
    {
      ghost var before := State();
      if Inv(before) {
        PostKeepsInv(before, id, companyId, userId, now);
      }
      if !LedgerModel.InCompany(State(), id, companyId) {
        return Err(NotFound);
      }
      var entry := entries[id];
      if entry.status != Draft {
        return Err(NotDraft);
      }
      var totals := DoubleEntry.AssertBalanced(AmountsOf(EntryLines(State(), id)));
      if totals.Err? {
        return Err(totals.error);
      }
      var shut := PostableError(State(), entry.periodId);
      if shut.Some? {
        return Err(shut.value);
      }
      if !FitsColumn(totals.value.totalDebit) {
        return Err(OutOfRange);
      }
      entries := entries[id := entry.(status := Posted, totalDebit := totals.value.totalDebit,
                                      totalCredit := totals.value.totalCredit,
                                      postedBy := Some(userId), postedAt := Some(now))];
      return Ok(());
    }

    method Cancel(id: nat, companyId: nat) returns (r: Result<(), Error>)
      modifies `entries
      ensures Attempt(State(), r) == LedgerModel.Cancel(old(State()), id, companyId)
      ensures r.Err? ==> State() == old(State())
      ensures old(Inv(State())) ==> Inv(State())
    {
      ghost var before := State();
      if Inv(before) {
        CancelKeepsInv(before, id, companyId);
      }
      if !LedgerModel.InCompany(State(), id, companyId) {
        return Err(NotFound);
      }
      var entry := entries[id];
      if entry.status != Draft {
        return Err(NotDraft);
      }
      entries := entries[id := entry.(status := Cancelled)];
      return Ok(());
    }

    method CreateInternal(j: InternalJournal, now: int) returns (r: Result<nat, Error>)
      modifies this
      ensures Attempt(State(), r) == LedgerModel.CreateInternal(old(State()), j, now)
    {
      var totals := DoubleEntry.AssertBalanced(InputAmounts(j.lines));
      if totals.Err? {
        return Err(totals.error);
      }
      var period := ResolveOpenPeriod(j.companyId, j.entryDate);
      if period.Err? {
        return period;
      }
      var number := GenerateJournalNumber(j.companyId, YearOf(j.entryDate));
      var posted := Entry(number, j.companyId, j.branchId, period.value, j.entryDate, Posted, j.sourceType,
                          Some(j.sourceId), totals.value.totalDebit, totals.value.totalCredit,
                          j.userId, Some(j.userId), Some(now));
      r := SaveNumbered(posted, j.lines);
    }

    // ---- accounting-posting.service ----

    method PostPaymentWork(p: PaymentRow, parties: Parties, userId: nat, now: int) returns (r: Result<nat, Error>)
      modifies this
      ensures Attempt(State(), r) == PostPaymentBody(old(State()), p, parties, userId, now)
    {
      var existing := FindBySource(State(), p.companyId, Payment, p.id);
      if existing.Some? {
        return Ok(existing.value);
      }
      var cash := ResolveAccount(State(), p.companyId, parties.glAccountId, NoCashAccount, CashAccountUnresolved);
      if cash.Err? {
        return cash;
      }
      var debitAccountId, creditAccountId: nat;
      match p.direction {
        case Receipt =>
          if parties.customer == None {
            return Err(NoCustomer);
          }
          var receivable := ResolveAccount(State(), p.companyId, parties.customer.value.receivableAccountId,
                                           NoReceivableAccount, ReceivableAccountUnresolved);
          if receivable.Err? {
            return receivable;
          }
          debitAccountId, creditAccountId := cash.value, receivable.value;
        case Payout =>
          if parties.supplier == None {
            return Err(NoSupplier);
          }
          var payable := ResolveAccount(State(), p.companyId, parties.supplier.value.payableAccountId,
                                        NoPayableAccount, PayableAccountUnresolved);
          if payable.Err? {
            return payable;
          }
          debitAccountId, creditAccountId := payable.value, cash.value;
        case Refund =>
          return Err(RefundNotPostable);
      }
      r := CreateInternal(PaymentJournal(p, Mapping(debitAccountId, creditAccountId), userId), now);
      if r == Err(DuplicateSource) {
        var winner := FindBySource(State(), p.companyId, Payment, p.id);
        if winner.Some? {
          return Ok(winner.value);
        }
      }
    }

    /** A transaction that posts a payment. */
    method PostPayment(p: PaymentRow, parties: Parties, userId: nat, now: int) returns (r: Result<nat, Error>)
      modifies this
      ensures Attempt(State(), r) == LedgerModel.PostPayment(old(State()), p, parties, userId, now)
      ensures r.Err? ==> State() == old(State())
      ensures old(Inv(State())) ==> Inv(State())
    {
      var saved := State();
      r := PostPaymentWork(p, parties, userId, now);
      if r.Err? {
        Rollback(saved);
      }
      if Inv(saved) {
        PostPaymentKeepsInv(saved, p, parties, userId, now);
      }
    }

    method ReversePaymentWork(p: PaymentRow, userId: nat, now: int, uuid: nat) returns (r: Result<Option<nat>, Error>)
      modifies this
      ensures Attempt(State(), r) == ReversePaymentBody(old(State()), p, userId, now, uuid)
    {
      if p.direction == Refund {
        return Ok(None);
      }
      var original := FindBySource(State(), p.companyId, Payment, p.id);
      if original == None {
        return Ok(None);
      }
      var originalLines := EntryLines(State(), original.value);
      if originalLines == [] {
        return Ok(None);
      }
      var created := CreateInternal(ReversalJournal(p, originalLines, userId, now, uuid), now);
      if created.Err? {
        return Err(created.error);
      }
      return Ok(Some(created.value));
    }

    /** A transaction that reverses a payment. */
    method ReversePayment(p: PaymentRow, userId: nat, now: int, uuid: nat) returns (r: Result<Option<nat>, Error>)
      modifies this
      ensures Attempt(State(), r) == LedgerModel.ReversePayment(old(State()), p, userId, now, uuid)
      ensures r.Err? ==> State() == old(State())
      ensures old(Inv(State())) ==> Inv(State())
    {
      var saved := State();
      r := ReversePaymentWork(p, userId, now, uuid);
      if r.Err? {
        Rollback(saved);
      }
      if Inv(saved) {
        ReversePaymentKeepsInv(saved, p, userId, now, uuid);
      }
    }

    // ---- accounts.service ----

    /** Walks up from the proposed parent, at most as many steps as the company has accounts. On a
        forest the steps never run out, and the walk rejects exactly the accounts below the one
        moved; on any table, cyclic ones included, it stops within one step more than that. */
    method AssertNoCycle(accountId: nat, newParentId: nat, companyId: nat) returns (ok: bool, steps: nat)
      ensures ok == Accounts.WalkAccepts(accounts, accountId, Some(newParentId), Accounts.Count(accounts, companyId))
      ensures steps <= Accounts.Count(accounts, companyId) + 1
      ensures Accounts.Forest(accounts) && Accounts.InCompany(accounts, newParentId, companyId) ==>
                && steps <= Accounts.Count(accounts, companyId)
                && (ok <==> !Accounts.IsAtOrAbove(accounts, accountId, newParentId))
    {
      var maxDepth := Accounts.Count(accounts, companyId);
      var currentId: Option<nat> := Some(newParentId);
      steps := 0;
      ok := true;
      assert Accounts.Ancestor(accounts, newParentId, 0) == Some(newParentId);
      if Accounts.Forest(accounts) && Accounts.InCompany(accounts, newParentId, companyId) {
        Accounts.WalkIsExact(accounts, accountId, newParentId, companyId);
        Accounts.ChainEnds(accounts, newParentId, companyId);
      }
      while currentId.Some?
        invariant ok && steps <= maxDepth
        invariant currentId == Accounts.Ancestor(accounts, newParentId, steps)
        invariant Accounts.WalkAccepts(accounts, accountId, Some(newParentId), maxDepth)
                  == Accounts.WalkAccepts(accounts, accountId, currentId, maxDepth - steps)
        decreases maxDepth - steps
      {
        if currentId.value == accountId {
          return false, steps;
        }
        steps := steps + 1;
        if steps > maxDepth {
          return false, steps;
        }
        currentId := Accounts.ParentOf(accounts, currentId.value);
      }
    }

    method CreateAccount(companyId: nat, dto: Accounts.NewAccount) returns (r: Result<(), Error>)
      modifies `accounts
      ensures State() == Apply(old(State()), CreateAccountStep(companyId, dto))
      ensures r.Ok? <==> Accounts.CreateAccount(old(accounts), companyId in companies, companyId, dto).Ok?
      ensures r.Err? ==>
        && accounts == old(accounts)
        && r.error == Accounts.CreateAccount(old(accounts), companyId in companies, companyId, dto).error
      ensures old(Accounts.Forest(accounts)) ==> Accounts.Forest(accounts)
    {
      if Accounts.Forest(accounts) && Accounts.CreateAccount(accounts, companyId in companies, companyId, dto).Ok? {
        Accounts.CreateKeepsForest(accounts, companyId in companies, companyId, dto);
      }
      if companyId !in companies {
        return Err(CompanyNotActive);
      }
      if dto.parentId.Some? && !Accounts.InCompany(accounts, dto.parentId.value, companyId) {
        return Err(ParentNotInCompany);
      }
      if Accounts.CodeTaken(accounts, companyId, dto.code) {
        return Err(CodeExists);
      }
      accounts := accounts + [Accounts.Account(companyId, dto.code, dto.name, dto.accountType, dto.parentId, true)];
      return Ok(());
    }

    method CheckParent(id: nat, companyId: nat, parentId: nat) returns (e: Option<Error>)
      ensures e == Accounts.ParentError(accounts, id, companyId, Accounts.SetTo(parentId))
    {
      if parentId == id {
        return Some(OwnParent);
      }
      if !Accounts.InCompany(accounts, parentId, companyId) {
        return Some(ParentNotInCompany);
      }
      var ok, steps := AssertNoCycle(id, parentId, companyId);
      return if ok then None else Some(CircularHierarchy);
    }

    method UpdateAccount(id: nat, companyId: nat, dto: Accounts.Patch) returns (r: Result<(), Error>)
      modifies `accounts
      ensures State() == Apply(old(State()), UpdateAccountStep(id, companyId, dto))
      ensures r.Ok? <==> Accounts.UpdateAccount(old(accounts), id, companyId, dto).Ok?
      ensures r.Err? ==>
        && accounts == old(accounts)
        && r.error == Accounts.UpdateAccount(old(accounts), id, companyId, dto).error
      ensures old(Accounts.Forest(accounts)) ==> Accounts.Forest(accounts)
    {
      if Accounts.Forest(accounts) && Accounts.UpdateAccount(accounts, id, companyId, dto).Ok? {
        Accounts.UpdateKeepsForest(accounts, id, companyId, dto);
      }
      if !Accounts.InCompany(accounts, id, companyId) {
        return Err(NotFound);
      }
      var account := accounts[id];
      match dto.parentId {
        case Keep =>
        case Clear =>
          account := account.(parentId := None);
        case SetTo(p) =>
          var error := CheckParent(id, companyId, p);
          if error.Some? {
            return Err(error.value);
          }
          account := account.(parentId := Some(p));
      }
      if dto.name.Some? {
        account := account.(name := dto.name.value);
      }
      if dto.isActive.Some? {
        account := account.(isActive := dto.isActive.value);
      }
      accounts := accounts[id := account];
      return Ok(());
    }
  }

  /** The draft totals, added up line by line without any check. */
  method DraftTotals(inputs: seq<LineInput>) returns (totalDebit: int, totalCredit: int)
    ensures totalDebit == Sum(inputs, InputDebit) && totalCredit == Sum(inputs, InputCredit)
  {
    totalDebit, totalCredit := 0, 0;
    for i := 0 to |inputs|
      invariant totalDebit == Sum(inputs[..i], InputDebit)
      invariant totalCredit == Sum(inputs[..i], InputCredit)
    {
      assert inputs[..i + 1][..i] == inputs[..i];
      totalDebit := totalDebit + inputs[i].debit;
      totalCredit := totalCredit + inputs[i].credit;
    }
    assert inputs[..|inputs|] == inputs;
  }

  lemma {:induction false} AccountErrorOfPrefix(db: Db, companyId: nat, inputs: seq<LineInput>, i: nat)
    requires i <= |inputs| && LinesAccountError(db, companyId, inputs[..i]).Some?
    ensures LinesAccountError(db, companyId, inputs) == LinesAccountError(db, companyId, inputs[..i])
    decreases |inputs| - i
  {
    if i < |inputs| {
      assert inputs[..i + 1][..i] == inputs[..i];
      AccountErrorOfPrefix(db, companyId, inputs, i + 1);
    } else {
      assert inputs[..i] == inputs;
    }
  }

  lemma {:induction false} InsertErrorOfPrefix(db: Db, id: nat, inputs: seq<LineInput>, i: nat)
    requires i <= |inputs| && InsertLines(db, id, inputs[..i]).result.Err?
    ensures InsertLines(db, id, inputs) == InsertLines(db, id, inputs[..i])
    decreases |inputs| - i
  {
    if i < |inputs| {
      assert inputs[..i + 1][..i] == inputs[..i];
      InsertErrorOfPrefix(db, id, inputs, i + 1);
    } else {
      assert inputs[..i] == inputs;
    }
  }
}
