/** What each accounting service writes and when it succeeds, said of the tables alone: row by row and
    field by field, in terms of what the caller asked for. */
module LedgerEffects {
  import opened Wrappers
  import opened Errors
  import opened Sums
  import opened Calendar
  import opened Decimals
  import DoubleEntry
  import opened LedgerModel
  import opened LedgerInvariant

  // ---- The period resolver ----

  /** No period of the company that holds the instant is locked or in a closed year. */
  predicate DayAdmitsPostings(db: Db, companyId: nat, at: int) {
    forall p: nat :: p < |db.periods| && Covers(db, p, companyId, DayOf(at)) ==>
      && db.periods[p].status == OpenPeriod
      && db.years[db.periods[p].fiscalYearId].status == OpenYear
  }

  /** The resolver succeeds exactly for days whose period, if there is one, is open; otherwise it names
      the closed year before the locked period. */
  lemma ResolverAccepts(db: Db, companyId: nat, at: int)
    requires Inv(db)
    ensures ResolveOpenPeriod(db, companyId, at).result.Ok? <==> DayAdmitsPostings(db, companyId, at)
    ensures forall p: nat :: Covers(db, p, companyId, DayOf(at)) && !DayAdmitsPostings(db, companyId, at) ==>
              ResolveOpenPeriod(db, companyId, at).result
              == Err(if db.years[db.periods[p].fiscalYearId].status == ClosedYear then YearClosed else PeriodLocked)
  {
    match FindPeriod(db, companyId, DayOf(at))
    case Some(p) =>
      forall q: nat | Covers(db, q, companyId, DayOf(at)) ensures q == p {
        CoveringPeriodUnique(db, p, q, companyId, DayOf(at));
      }
    case None =>
  }

  /** The period of a day that had one is found; a day without one gets its calendar year, open, in a
      new open fiscal year of the company. */
  lemma ResolverWrites(db: Db, companyId: nat, at: int)
    requires Inv(db) && ResolveOpenPeriod(db, companyId, at).result.Ok?
    ensures var d, p := ResolveOpenPeriod(db, companyId, at).db, ResolveOpenPeriod(db, companyId, at).result.value;
      if exists q: nat :: Covers(db, q, companyId, DayOf(at)) then d == db && Covers(db, p, companyId, DayOf(at))
      else
        && d == db.(years := d.years, periods := d.periods) && p == |db.periods|
        && var y, first, last := |db.years|, YearStart(YearOf(at)), YearEnd(YearOf(at));
           && d.years == db.years + [FiscalYear(companyId, first, last, OpenYear)]
           && d.periods == db.periods + [Period(y, first, last, OpenPeriod)]
           && first <= DayOf(at) <= last
  {
    if FindPeriod(db, companyId, DayOf(at)) == None {
      SecondLookupFindsNothing(db, companyId, at);
    }
  }

  // ---- What a new journal looks like ----

  /** Row k of the journal's lines is line k of the request. */
  predicate RowsWritten(rows: seq<Line>, id: nat, lines: seq<LineInput>) {
    && |rows| == |lines|
    && forall k :: 0 <= k < |lines| ==>
         && rows[k].entryId == id && rows[k].accountId == lines[k].accountId
         && rows[k].debit == lines[k].debit && rows[k].credit == lines[k].credit
         && rows[k].referenceType == lines[k].referenceType && rows[k].referenceId == lines[k].referenceId
  }

  /** The older rows of every table stay; periods and years can only have been added. */
  predicate OlderRowsStay(db: Db, d: Db) {
    && d.companies == db.companies && d.branches == db.branches && d.accounts == db.accounts
    && |d.entries| == |db.entries| + 1 && d.entries[..|db.entries|] == db.entries
    && |db.lines| <= |d.lines| && d.lines[..|db.lines|] == db.lines
    && |db.periods| <= |d.periods| && d.periods[..|db.periods|] == db.periods
    && |db.years| <= |d.years| && d.years[..|db.years|] == db.years
  }

  /** The header is of this company, branch and instant, has the next number of its year and the sums
      of the lines, and lies in an open period of its company and day. */
  ghost predicate HeaderWritten(db: Db, d: Db, companyId: nat, branchId: Option<nat>, at: int, lines: seq<LineInput>)
    requires |db.entries| < |d.entries|
  {
    var e := d.entries[|db.entries|];
    && e.companyId == companyId && e.branchId == branchId && e.entryDate == at
    && e.number.year == YearOf(at)
    && e.number.sequence == Counter(db, companyId, YearOf(at)) + 1
    && d.counters == db.counters[(companyId, YearOf(at)) := e.number.sequence]
    && e.totalDebit == Sum(lines, InputDebit) && e.totalCredit == Sum(lines, InputCredit)
    && Covers(d, e.periodId, companyId, DayOf(at)) && Postable(d, e.periodId)
  }

  /** One journal with these lines was added for the company, the branch and the instant. */
  ghost predicate JournalWritten(db: Db, d: Db, companyId: nat, branchId: Option<nat>, at: int, lines: seq<LineInput>) {
    && OlderRowsStay(db, d)
    && HeaderWritten(db, d, companyId, branchId, at, lines)
    && RowsWritten(d.lines[|db.lines|..], |db.entries|, lines)
    && EntryLines(d, |db.entries|) == d.lines[|db.lines|..]
  }

  lemma SavedIsWritten(db: Db, p: Db, e: Entry, lines: seq<LineInput>)
    requires LinesOk(db)
    requires p == db.(years := p.years, periods := p.periods)
    requires |db.periods| <= |p.periods| && p.periods[..|db.periods|] == db.periods
    requires |db.years| <= |p.years| && p.years[..|db.years|] == db.years
    requires e.number.year == YearOf(e.entryDate)
    requires e.totalDebit == Sum(lines, InputDebit) && e.totalCredit == Sum(lines, InputCredit)
    requires Covers(p, e.periodId, e.companyId, DayOf(e.entryDate)) && Postable(p, e.periodId)
    ensures JournalWritten(db, WithJournal(p, e, lines), e.companyId, e.branchId, e.entryDate, lines)
  {
    var d := WithJournal(p, e, lines);
    assert d.lines[|db.lines|..] == RowsOf(|db.entries|, lines);
    AppendedLines(db, d, RowsOf(|db.entries|, lines));
  }

  lemma ResolverAddsRows(db: Db, companyId: nat, at: int)
    ensures var p := ResolveOpenPeriod(db, companyId, at).db;
      && p == db.(years := p.years, periods := p.periods)
      && |db.periods| <= |p.periods| && p.periods[..|db.periods|] == db.periods
      && |db.years| <= |p.years| && p.years[..|db.years|] == db.years
  {
  }

  // ---- Manual journals ----

  function DateOf(dto: NewJournal, now: int): int {
    match dto.entryDate
    case Some(at) => at
    case None => now
  }

  lemma CreateSaves(db: Db, companyId: nat, userId: nat, dto: NewJournal, now: int) returns (p: Db, e: Entry)
    requires Inv(db) && Create(db, companyId, userId, dto, now).result.Ok?
    ensures p == ResolveOpenPeriod(db, companyId, DateOf(dto, now)).db
    ensures e.companyId == companyId && e.branchId == dto.branchId && e.entryDate == DateOf(dto, now)
    ensures e.number.year == YearOf(e.entryDate)
    ensures e.status == Draft && e.sourceType == Manual && e.sourceId == None
    ensures e.createdBy == userId && e.postedBy == None && e.postedAt == None
    ensures e.totalDebit == Sum(dto.lines, InputDebit) && e.totalCredit == Sum(dto.lines, InputCredit)
    ensures Covers(p, e.periodId, e.companyId, DayOf(e.entryDate)) && Postable(p, e.periodId)
    ensures p.entries == db.entries && p.lines == db.lines && p.counters == db.counters
    ensures Create(db, companyId, userId, dto, now) == Attempt(WithJournal(p, e, dto.lines), Ok(|db.entries|))
  {
    var r := ResolveOpenPeriod(db, companyId, DateOf(dto, now));
    ResolveOpenPeriodCorrect(db, companyId, DateOf(dto, now));
    p, e := r.db, DraftEntry(companyId, userId, dto, DateOf(dto, now), r.result.value);
    NumberAndSaveEffect(p, e, dto.lines);
  }

  /** A created journal is a draft that holds exactly what was asked for; a refused one leaves the
      tables as they were. */
  lemma CreateWrites(db: Db, companyId: nat, userId: nat, dto: NewJournal, now: int)
    requires Inv(db)
    ensures var a := Create(db, companyId, userId, dto, now);
      && (a.result.Err? ==> a.db == db)
      && (a.result.Ok? ==>
            && a.result.value == |db.entries|
            && JournalWritten(db, a.db, companyId, dto.branchId, DateOf(dto, now), dto.lines)
            && var e := a.db.entries[|db.entries|];
               && e.status == Draft && e.sourceType == Manual && e.sourceId == None
               && e.createdBy == userId && e.postedBy == None && e.postedAt == None)
  {
    if Create(db, companyId, userId, dto, now).result.Ok? {
      var p, e := CreateSaves(db, companyId, userId, dto, now);
      ResolverAddsRows(db, companyId, DateOf(dto, now));
      SavedIsWritten(db, p, e, dto.lines);
    }
  }

  /** The company is active, and so is the branch, if one is named, and it is the company's. */
  predicate BranchUsable(db: Db, companyId: nat, branchId: Option<nat>) {
    && companyId in db.companies
    && (branchId.Some? ==>
          && branchId.value in db.branches
          && db.branches[branchId.value].isActive
          && db.branches[branchId.value].companyId == companyId)
  }

  predicate AccountUsable(db: Db, companyId: nat, id: nat) {
    id < |db.accounts| && db.accounts[id].companyId == companyId && db.accounts[id].isActive
  }

  /** Amounts and their sums fit their columns. */
  predicate AmountsFit(lines: seq<LineInput>) {
    && (forall k :: 0 <= k < |lines| ==> FitsColumn(lines[k].debit) && FitsColumn(lines[k].credit))
    && FitsColumn(Sum(lines, InputDebit)) && FitsColumn(Sum(lines, InputCredit))
  }

  lemma SaveSucceedsIff(db: Db, e: Entry, lines: seq<LineInput>)
    requires EntriesOk(db) && CountersOk(db) && !SourceTaken(db, e)
    requires e.totalDebit == Sum(lines, InputDebit) && e.totalCredit == Sum(lines, InputCredit)
    requires forall k :: 0 <= k < |lines| ==> lines[k].accountId < |db.accounts|
    ensures NumberAndSave(db, e, lines).result.Ok? <==> AmountsFit(lines)
  {
    NumberAndSaveEffect(db, e, lines);
    if AmountsFit(lines) {
      NumberAndSaveSucceeds(db, e, lines);
    }
  }

  /** A draft is created exactly when company, branch and accounts can be used, the day admits
      postings and the amounts fit; whether it balances does not matter. */
  lemma CreateSucceedsIff(db: Db, companyId: nat, userId: nat, dto: NewJournal, now: int)
    requires Inv(db)
    ensures Create(db, companyId, userId, dto, now).result.Ok? <==>
            && BranchUsable(db, companyId, dto.branchId)
            && (forall k :: 0 <= k < |dto.lines| ==> AccountUsable(db, companyId, dto.lines[k].accountId))
            && DayAdmitsPostings(db, companyId, DateOf(dto, now))
            && AmountsFit(dto.lines)
  {
    var at := DateOf(dto, now);
    ResolverAccepts(db, companyId, at);
    UsableLines(db, companyId, dto.lines);
    if DirectoryError(db, companyId, dto.branchId) == None && LinesUsable(db, companyId, dto.lines)
       && ResolveOpenPeriod(db, companyId, at).result.Ok? {
      var p := ResolveOpenPeriod(db, companyId, at);
      ResolveOpenPeriodCorrect(db, companyId, at);
      SaveSucceedsIff(p.db, DraftEntry(companyId, userId, dto, at, p.result.value), dto.lines);
    }
  }

  /** What a refused draft is told: the first check that fails, in this order. */
  lemma CreateRefusals(db: Db, companyId: nat, userId: nat, dto: NewJournal, now: int)
    requires Inv(db) && Create(db, companyId, userId, dto, now).result.Err?
    ensures var e := Create(db, companyId, userId, dto, now).result.error;
      if companyId !in db.companies then e == CompanyNotActive
      else if dto.branchId.Some? && (dto.branchId.value !in db.branches || !db.branches[dto.branchId.value].isActive)
      then e == BranchNotActive
      else if dto.branchId.Some? && db.branches[dto.branchId.value].companyId != companyId
      then e == BranchOfOtherCompany
      else if exists k :: 0 <= k < |dto.lines| && !AccountUsable(db, companyId, dto.lines[k].accountId)
      then e in {AccountNotInCompany, AccountInactive}
      else if !DayAdmitsPostings(db, companyId, DateOf(dto, now)) then e in {YearClosed, PeriodLocked}
      else e == OutOfRange
  {
    var at := DateOf(dto, now);
    ResolverAccepts(db, companyId, at);
    UsableLines(db, companyId, dto.lines);
    AccountErrors(db, companyId, dto.lines);
    ResolveOpenPeriodCorrect(db, companyId, at);
    if DirectoryError(db, companyId, dto.branchId) == None && LinesUsable(db, companyId, dto.lines)
       && ResolveOpenPeriod(db, companyId, at).result.Ok? {
      var p := ResolveOpenPeriod(db, companyId, at);
      SaveRefusal(p.db, DraftEntry(companyId, userId, dto, at, p.result.value), dto.lines);
    }
  }

  lemma SaveRefusal(db: Db, e: Entry, lines: seq<LineInput>)
    requires EntriesOk(db) && CountersOk(db) && e.sourceId == None && NumberAndSave(db, e, lines).result.Err?
    requires forall k :: 0 <= k < |lines| ==> lines[k].accountId < |db.accounts|
    ensures NumberAndSave(db, e, lines).result.error == OutOfRange
  {
    NumberAndSaveRefusals(db, e, lines);
    var d := BumpCounter(db, e.companyId, e.number.year);
    var n := Numbered(db, e);
    assert NumberAndSave(db, e, lines) == SaveJournal(d, n, lines);
    if InsertEntry(d, n).Ok? {
      LineRefusal(InsertEntry(d, n).value, |db.entries|, lines);
    }
  }

  lemma {:induction false} LineRefusal(db: Db, id: nat, lines: seq<LineInput>)
    requires forall k :: 0 <= k < |lines| ==> lines[k].accountId < |db.accounts|
    ensures InsertLines(db, id, lines).result.Err? ==> InsertLines(db, id, lines).result.error == OutOfRange
  {
    if lines != [] {
      LineRefusal(db, id, lines[..|lines| - 1]);
      InsertLinesEffect(db, id, lines[..|lines| - 1]);
    }
  }

  lemma {:induction false} AccountErrors(db: Db, companyId: nat, lines: seq<LineInput>)
    ensures LinesAccountError(db, companyId, lines) in {None, Some(AccountNotInCompany), Some(AccountInactive)}
  {
    if lines != [] {
      AccountErrors(db, companyId, lines[..|lines| - 1]);
    }
  }

  lemma UsableLines(db: Db, companyId: nat, lines: seq<LineInput>)
    ensures LinesUsable(db, companyId, lines) <==>
            forall k :: 0 <= k < |lines| ==> AccountUsable(db, companyId, lines[k].accountId)
  {
    forall k | 0 <= k < |lines|
      ensures LineAccountError(db, companyId, lines[k]) == None <==>
              AccountUsable(db, companyId, lines[k].accountId)
    {
    }
  }

  // ---- Deciding a draft ----

  /** Nothing but the header of one entry changed. */
  predicate OnlyHeader(db: Db, d: Db, id: nat) {
    && d == db.(entries := d.entries)
    && id < |db.entries| && |d.entries| == |db.entries|
    && forall i :: 0 <= i < |db.entries| && i != id ==> d.entries[i] == db.entries[i]
  }

  /** A draft of the company is posted exactly when its stored lines balance and its period and year
      are open; entries of other companies are not found. */
  lemma PostSucceedsIff(db: Db, id: nat, companyId: nat, userId: nat, now: int)
    requires Inv(db)
    ensures var r := Post(db, id, companyId, userId, now).result;
      && (r.Ok? <==>
            && id < |db.entries| && db.entries[id].companyId == companyId && db.entries[id].status == Draft
            && DoubleEntry.Balanced(AmountsOf(EntryLines(db, id)))
            && DayAdmitsPostings(db, companyId, db.entries[id].entryDate))
      && (id >= |db.entries| || db.entries[id].companyId != companyId <==> r == Err(NotFound))
      && (id < |db.entries| && db.entries[id].companyId == companyId && db.entries[id].status != Draft <==>
            r == Err(NotDraft))
  {
    if id < |db.entries| && db.entries[id].companyId == companyId {
      assert HeaderOk(db, id) && TotalsOk(db, id);
      AmountSums(EntryLines(db, id));
      EntryDayAdmits(db, id);
    }
  }

  lemma EntryDayAdmits(db: Db, id: nat)
    requires Inv(db) && id < |db.entries|
    ensures Postable(db, db.entries[id].periodId)
       <==> DayAdmitsPostings(db, db.entries[id].companyId, db.entries[id].entryDate)
    ensures YearOfPeriod(db, db.entries[id].periodId).Some?
  {
    var e := db.entries[id];
    assert HeaderOk(db, id);
    forall q: nat | Covers(db, q, e.companyId, DayOf(e.entryDate)) ensures q == e.periodId {
      CoveringPeriodUnique(db, e.periodId, q, e.companyId, DayOf(e.entryDate));
    }
  }

  /** Posting sets status, user, instant and totals of the one header. */
  lemma PostWrites(db: Db, id: nat, companyId: nat, userId: nat, now: int)
    requires Inv(db)
    ensures var a := Post(db, id, companyId, userId, now);
      && (a.result.Err? ==> a.db == db)
      && (a.result.Ok? ==>
            && OnlyHeader(db, a.db, id)
            && var e, was := a.db.entries[id], db.entries[id];
               && e.status == Posted && e.postedBy == Some(userId) && e.postedAt == Some(now)
               && e.totalDebit == Sum(EntryLines(db, id), LineDebit) == e.totalCredit
               && e == was.(status := e.status, postedBy := e.postedBy, postedAt := e.postedAt,
                            totalDebit := e.totalDebit, totalCredit := e.totalCredit))
  {
    if Post(db, id, companyId, userId, now).result.Ok? {
      AmountSums(EntryLines(db, id));
    }
  }

  /** A draft of the company is cancelled, and nothing else; only its status changes. */
  lemma CancelWrites(db: Db, id: nat, companyId: nat)
    ensures var a := Cancel(db, id, companyId);
      && (id >= |db.entries| || db.entries[id].companyId != companyId <==> a.result == Err(NotFound))
      && (id < |db.entries| && db.entries[id].companyId == companyId && db.entries[id].status != Draft <==>
            a.result == Err(NotDraft))
      && (a.result.Err? ==> a.db == db)
      && (a.result.Ok? ==>
            && OnlyHeader(db, a.db, id)
            && a.db.entries[id].status == Cancelled
            && a.db.entries[id].(status := Draft) == db.entries[id])
  {
  }

  // ---- Administrative changes ----

  /** Locking or opening a period, and closing or opening a year, changes that one status; a change of the
      directory replaces companies and branches. */
  lemma AdministrationWrites(db: Db, s: Step)
    ensures s.SetPeriodStatus? && s.periodId < |db.periods| ==>
              var d := Apply(db, s);
              && d == db.(periods := d.periods) && |d.periods| == |db.periods|
              && d.periods[s.periodId] == db.periods[s.periodId].(status := s.periodStatus)
              && forall p :: 0 <= p < |db.periods| && p != s.periodId ==> d.periods[p] == db.periods[p]
    ensures s.SetYearStatus? && s.yearId < |db.years| ==>
              var d := Apply(db, s);
              && d == db.(years := d.years) && |d.years| == |db.years|
              && d.years[s.yearId] == db.years[s.yearId].(status := s.yearStatus)
              && forall y :: 0 <= y < |db.years| && y != s.yearId ==> d.years[y] == db.years[y]
    ensures s.SetDirectory? ==> Apply(db, s) == db.(companies := s.companies, branches := s.branches)
  {
  }
}
