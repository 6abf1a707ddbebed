/** The accounting tables as values, and what each accounting service does to them.
    A table is a sequence of rows and a row's id is its position; rows are never deleted.
    Amounts are integer cents, days and instants are those of `Calendar`. */
module LedgerModel {
  import opened Wrappers
  import opened Errors
  import opened Sums
  import opened Lookup
  import opened Calendar
  import opened Decimals
  import DoubleEntry
  import Accounts

  datatype Branch = Branch(companyId: nat, isActive: bool)

  datatype YearStatus = OpenYear | ClosedYear

  datatype FiscalYear = FiscalYear(companyId: nat, startDay: int, endDay: int, status: YearStatus)

  datatype PeriodStatus = OpenPeriod | LockedPeriod

  datatype Period = Period(fiscalYearId: nat, startDay: int, endDay: int, status: PeriodStatus)

  datatype Status = Draft | Posted | Cancelled

  datatype SourceType = Manual | Payment | OpeningBalance

  datatype ReferenceType = PaymentReference | SaleReference | PurchaseOrderReference

  /** A journal number: `JE-<year>-<sequence>`. */
  datatype JournalNumber = JournalNumber(year: int, sequence: nat)

  datatype Entry = Entry(
    number: JournalNumber,
    companyId: nat,
    branchId: Option<nat>,
    periodId: nat,
    entryDate: int,
    status: Status,
    sourceType: SourceType,
    sourceId: Option<nat>,
    totalDebit: int,
    totalCredit: int,
    createdBy: nat,
    postedBy: Option<nat>,
    postedAt: Option<int>)

  datatype Line = Line(
    entryId: nat,
    accountId: nat,
    debit: int,
    credit: int,
    referenceType: Option<ReferenceType>,
    referenceId: Option<nat>)

  datatype LineInput = LineInput(
    accountId: nat,
    debit: int,
    credit: int,
    referenceType: Option<ReferenceType>,
    referenceId: Option<nat>)

  datatype Db = Db(
    companies: set<nat>,
    branches: map<nat, Branch>,
    accounts: Accounts.Table,
    years: seq<FiscalYear>,
    periods: seq<Period>,
    counters: map<(nat, int), nat>,
    entries: seq<Entry>,
    lines: seq<Line>)

  /** What a service call leaves behind before its transaction ends: the tables as its statements
      changed them, and its outcome. */
  datatype Attempt<+T> = Attempt(db: Db, result: Result<T, Error>)

  /** A transaction keeps its writes when the work succeeds and undoes all of them otherwise. */
  function Atomic<T>(db: Db, a: Attempt<T>): Attempt<T> {
    if a.result.Ok? then a else Attempt(db, a.result)
  }

  function Empty(): Db {
    Db({}, map[], [], [], [], map[], [], [])
  }

  // ---- Lines of an entry ----

  function OfEntry(id: nat): Line -> bool {
    (l: Line) => l.entryId == id
  }

  function EntryLines(db: Db, id: nat): seq<Line> {
    Filter(db.lines, OfEntry(id))
  }

  function LineAmounts(l: Line): DoubleEntry.Amounts {
    DoubleEntry.Amounts(l.debit, l.credit)
  }

  function AmountsOf(lines: seq<Line>): seq<DoubleEntry.Amounts> {
    seq(|lines|, i requires 0 <= i < |lines| => LineAmounts(lines[i]))
  }

  function InputAmounts(lines: seq<LineInput>): seq<DoubleEntry.Amounts> {
    seq(|lines|, i requires 0 <= i < |lines| => DoubleEntry.Amounts(lines[i].debit, lines[i].credit))
  }

  function RowOf(id: nat, l: LineInput): Line {
    Line(id, l.accountId, l.debit, l.credit, l.referenceType, l.referenceId)
  }

  function RowsOf(id: nat, lines: seq<LineInput>): seq<Line> {
    seq(|lines|, i requires 0 <= i < |lines| => RowOf(id, lines[i]))
  }

  // ---- Accounting periods ----

  predicate Covers(db: Db, p: nat, companyId: nat, day: int) {
    && p < |db.periods|
    && db.periods[p].fiscalYearId < |db.years|
    && db.years[db.periods[p].fiscalYearId].companyId == companyId
    && db.periods[p].startDay <= day <= db.periods[p].endDay
  }

  predicate IsCalendarYear(db: Db, p: nat, companyId: nat, year: int) {
    && p < |db.periods|
    && db.periods[p].fiscalYearId < |db.years|
    && db.years[db.periods[p].fiscalYearId].companyId == companyId
    && db.periods[p].startDay == YearStart(year)
    && db.periods[p].endDay == YearEnd(year)
  }

  function FindPeriod(db: Db, companyId: nat, day: int): (r: Option<nat>)
    ensures r.Some? ==> Covers(db, r.value, companyId, day)
    ensures r.None? ==> forall p: nat :: !Covers(db, p, companyId, day)
  {
    var found := (p: nat) => Covers(db, p, companyId, day);
    var r := First(|db.periods|, found);
    assert r.None? ==> forall j: nat :: j < |db.periods| ==> !Covers(db, j, companyId, day) by {
      forall j: nat | r.None? && j < |db.periods| ensures !Covers(db, j, companyId, day) {
        assert !found(j);
      }
    }
    r
  }

  function FindCalendarYear(db: Db, companyId: nat, year: int): (r: Option<nat>)
    ensures r.Some? ==> IsCalendarYear(db, r.value, companyId, year)
    ensures r.None? ==> forall p: nat :: !IsCalendarYear(db, p, companyId, year)
  {
    var found := (p: nat) => IsCalendarYear(db, p, companyId, year);
    var r := First(|db.periods|, found);
    assert r.None? ==> forall j: nat :: j < |db.periods| ==> !IsCalendarYear(db, j, companyId, year) by {
      forall j: nat | r.None? && j < |db.periods| ensures !IsCalendarYear(db, j, companyId, year) {
        assert !found(j);
      }
    }
    r
  }

  function YearOfPeriod(db: Db, p: nat): Option<FiscalYear> {
    if p < |db.periods| && db.periods[p].fiscalYearId < |db.years|
    then Some(db.years[db.periods[p].fiscalYearId]) else None
  }

  /** The period and its fiscal year both admit postings. */
  predicate Postable(db: Db, p: nat) {
    && YearOfPeriod(db, p).Some?
    && YearOfPeriod(db, p).value.status == OpenYear
    && db.periods[p].status == OpenPeriod
  }

  function PostableError(db: Db, p: nat): (e: Option<Error>)
    ensures e == None <==> Postable(db, p)
    ensures e.Some? ==> e.value in {NotFound, YearClosed, PeriodLocked}
  {
    match YearOfPeriod(db, p)
    case None => Some(NotFound)
    case Some(y) =>
      if y.status == ClosedYear then Some(YearClosed)
      else if db.periods[p].status == LockedPeriod then Some(PeriodLocked)
      else None
  }

  function AddCalendarYear(db: Db, companyId: nat, year: int): Db {
    db.(years := db.years + [FiscalYear(companyId, YearStart(year), YearEnd(year), OpenYear)],
        periods := db.periods + [Period(|db.years|, YearStart(year), YearEnd(year), OpenPeriod)])
  }

  function ResolveOpenPeriod(db: Db, companyId: nat, at: int): Attempt<nat> {
    match FindPeriod(db, companyId, DayOf(at))
    case Some(p) =>
      (match PostableError(db, p)
       case Some(e) => Attempt(db, Err(e))
       case None => Attempt(db, Ok(p)))
    case None =>
      match FindCalendarYear(db, companyId, YearOf(at))
      case Some(p) => Attempt(db, Ok(p))
      case None => Attempt(AddCalendarYear(db, companyId, YearOf(at)), Ok(|db.periods|))
  }

  // ---- Journal numbers ----

  function Counter(db: Db, companyId: nat, year: int): nat {
    if (companyId, year) in db.counters then db.counters[(companyId, year)] else 0
  }

  /** Upsert, read and increment the counter row: the new tables; the number is the new counter. */
  function BumpCounter(db: Db, companyId: nat, year: int): Db {
    db.(counters := db.counters[(companyId, year) := Counter(db, companyId, year) + 1])
  }

  // ---- Writing journals ----

  predicate SourceIs(e: Entry, companyId: nat, sourceType: SourceType, sourceId: nat) {
    e.companyId == companyId && e.sourceType == sourceType && e.sourceId == Some(sourceId)
  }

  predicate SourceTaken(db: Db, e: Entry) {
    e.sourceId.Some? &&
    exists i :: 0 <= i < |db.entries| && SourceIs(db.entries[i], e.companyId, e.sourceType, e.sourceId.value)
  }

  predicate NumberTaken(db: Db, e: Entry) {
    exists i :: 0 <= i < |db.entries| && db.entries[i].companyId == e.companyId && db.entries[i].number == e.number
  }

  /** Inserting a header row: two unique indexes and two DECIMAL(14,2) columns. */
  function InsertEntry(db: Db, e: Entry): Result<Db, Error> {
    if NumberTaken(db, e) then Err(DuplicateNumber)
    else if SourceTaken(db, e) then Err(DuplicateSource)
    else if !FitsColumn(e.totalDebit) || !FitsColumn(e.totalCredit) then Err(OutOfRange)
    else Ok(db.(entries := db.entries + [e]))
  }

  function LineRowError(db: Db, l: LineInput): Option<Error> {
    if !FitsColumn(l.debit) || !FitsColumn(l.credit) then Some(OutOfRange)
    else if l.accountId >= |db.accounts| then Some(ForeignKey)
    else None
  }

  function InsertLines(db: Db, id: nat, lines: seq<LineInput>): (a: Attempt<()>)
    ensures a.result.Err? ==> a.result.error in {OutOfRange, ForeignKey}
  {
    if lines == [] then Attempt(db, Ok(()))
    else
      var a := InsertLines(db, id, lines[..|lines| - 1]);
      if a.result.Err? then a
      else
        var l := lines[|lines| - 1];
        match LineRowError(a.db, l)
        case Some(e) => Attempt(a.db, Err(e))
        case None => Attempt(a.db.(lines := a.db.lines + [RowOf(id, l)]), Ok(()))
  }

  function SaveJournal(db: Db, e: Entry, lines: seq<LineInput>): Attempt<nat> {
    match InsertEntry(db, e)
    case Err(x) => Attempt(db, Err(x))
    case Ok(d) =>
      var a := InsertLines(d, |db.entries|, lines);
      match a.result
      case Err(x) => Attempt(a.db, Err(x))
      case Ok(_) => Attempt(a.db, Ok(|db.entries|))
  }

  /** Draw the next number of the company and year, then save the journal under it. */
  function NumberAndSave(db: Db, e: Entry, lines: seq<LineInput>): Attempt<nat> {
    var d := BumpCounter(db, e.companyId, e.number.year);
    SaveJournal(d, e.(number := JournalNumber(e.number.year, Counter(d, e.companyId, e.number.year))), lines)
  }

  // ---- Manual journals ----

  datatype NewJournal = NewJournal(branchId: Option<nat>, entryDate: Option<int>, lines: seq<LineInput>)

  function DirectoryError(db: Db, companyId: nat, branchId: Option<nat>): Option<Error> {
    if companyId !in db.companies then Some(CompanyNotActive)
    else
      match branchId
      case None => None
      case Some(b) =>
        if b !in db.branches || !db.branches[b].isActive then Some(BranchNotActive)
        else if db.branches[b].companyId != companyId then Some(BranchOfOtherCompany)
        else None
  }

  function LineAccountError(db: Db, companyId: nat, l: LineInput): Option<Error> {
    if !Accounts.InCompany(db.accounts, l.accountId, companyId) then Some(AccountNotInCompany)
    else if !db.accounts[l.accountId].isActive then Some(AccountInactive)
    else None
  }

  /** Every account of a draft exists, is active and belongs to the company. */
  predicate LinesUsable(db: Db, companyId: nat, lines: seq<LineInput>) {
    forall i :: 0 <= i < |lines| ==> LineAccountError(db, companyId, lines[i]) == None
  }

  function LinesAccountError(db: Db, companyId: nat, lines: seq<LineInput>): (e: Option<Error>)
    ensures e == None <==> LinesUsable(db, companyId, lines)
  {
    if lines == [] then None
    else
      var front, last := lines[..|lines| - 1], lines[|lines| - 1];
      assert lines == front + [last];
      match LinesAccountError(db, companyId, front)
      case Some(e) => Some(e)
      case None => LineAccountError(db, companyId, last)
  }

  function InputDebit(l: LineInput): int { l.debit }

  function InputCredit(l: LineInput): int { l.credit }

  function DraftEntry(companyId: nat, userId: nat, dto: NewJournal, at: int, periodId: nat): Entry {
    Entry(JournalNumber(YearOf(at), 0), companyId, dto.branchId, periodId, at, Draft, Manual, None,
          Sum(dto.lines, InputDebit), Sum(dto.lines, InputCredit), userId, None, None)
  }

  function CreateBody(db: Db, companyId: nat, userId: nat, dto: NewJournal, now: int): Attempt<nat> {
    var at := if dto.entryDate.Some? then dto.entryDate.value else now;
    match DirectoryError(db, companyId, dto.branchId)
    case Some(e) => Attempt(db, Err(e))
    case None =>
      match LinesAccountError(db, companyId, dto.lines)
      case Some(e) => Attempt(db, Err(e))
      case None =>
        var p := ResolveOpenPeriod(db, companyId, at);
        match p.result
        case Err(e) => Attempt(p.db, Err(e))
        case Ok(periodId) => NumberAndSave(p.db, DraftEntry(companyId, userId, dto, at, periodId), dto.lines)
  }

  /** `create`: a draft, balanced or not. */
  function Create(db: Db, companyId: nat, userId: nat, dto: NewJournal, now: int): Attempt<nat> {
    Atomic(db, CreateBody(db, companyId, userId, dto, now))
  }

  predicate InCompany(db: Db, id: nat, companyId: nat) {
    id < |db.entries| && db.entries[id].companyId == companyId
  }

  function PostedVersion(e: Entry, totals: DoubleEntry.Totals, userId: nat, now: int): Entry {
    e.(status := Posted, totalDebit := totals.totalDebit, totalCredit := totals.totalCredit,
       postedBy := Some(userId), postedAt := Some(now))
  }

  /** `post`: DRAFT to POSTED, re-checking the balance of the stored lines and the period. */
  function Post(db: Db, id: nat, companyId: nat, userId: nat, now: int): Attempt<()> {
    if !InCompany(db, id, companyId) then Attempt(db, Err(NotFound))
    else if db.entries[id].status != Draft then Attempt(db, Err(NotDraft))
    else
      match DoubleEntry.CheckBalanced(AmountsOf(EntryLines(db, id)))
      case Err(e) => Attempt(db, Err(e))
      case Ok(totals) =>
        match PostableError(db, db.entries[id].periodId)
        case Some(e) => Attempt(db, Err(e))
        case None =>
          if !FitsColumn(totals.totalDebit) then Attempt(db, Err(OutOfRange))
          else
            Attempt(db.(entries := db.entries[id := PostedVersion(db.entries[id], totals, userId, now)]), Ok(()))
  }

  /** `cancel`: DRAFT to CANCELLED. */
  function Cancel(db: Db, id: nat, companyId: nat): Attempt<()> {
    if !InCompany(db, id, companyId) then Attempt(db, Err(NotFound))
    else if db.entries[id].status != Draft then Attempt(db, Err(NotDraft))
    else Attempt(db.(entries := db.entries[id := db.entries[id].(status := Cancelled)]), Ok(()))
  }

  // ---- Automatic journals ----

  datatype InternalJournal = InternalJournal(
    companyId: nat,
    branchId: Option<nat>,
    entryDate: int,
    sourceType: SourceType,
    sourceId: nat,
    userId: nat,
    lines: seq<LineInput>)

  function InternalEntry(j: InternalJournal, totals: DoubleEntry.Totals, periodId: nat, now: int): Entry {
    Entry(JournalNumber(YearOf(j.entryDate), 0), j.companyId, j.branchId, periodId, j.entryDate, Posted,
          j.sourceType, Some(j.sourceId), totals.totalDebit, totals.totalCredit,
          j.userId, Some(j.userId), Some(now))
  }

  /** `createInternal`: a journal that is POSTED from the start. */
  function CreateInternal(db: Db, j: InternalJournal, now: int): Attempt<nat> {
    match DoubleEntry.CheckBalanced(InputAmounts(j.lines))
    case Err(e) => Attempt(db, Err(e))
    case Ok(totals) =>
      var p := ResolveOpenPeriod(db, j.companyId, j.entryDate);
      match p.result
      case Err(e) => Attempt(p.db, Err(e))
      case Ok(periodId) => NumberAndSave(p.db, InternalEntry(j, totals, periodId, now), j.lines)
  }

  function FindBySource(db: Db, companyId: nat, sourceType: SourceType, sourceId: nat): (r: Option<nat>)
    ensures r.Some? ==> r.value < |db.entries| && SourceIs(db.entries[r.value], companyId, sourceType, sourceId)
    ensures r.None? ==> forall i :: 0 <= i < |db.entries| ==> !SourceIs(db.entries[i], companyId, sourceType, sourceId)
  {
    var found := (i: nat) => i < |db.entries| && SourceIs(db.entries[i], companyId, sourceType, sourceId);
    var r := First(|db.entries|, found);
    assert r.None? ==>
      forall j: nat :: j < |db.entries| ==> !SourceIs(db.entries[j], companyId, sourceType, sourceId) by {
      forall j: nat | r.None? && j < |db.entries| ensures !SourceIs(db.entries[j], companyId, sourceType, sourceId) {
        assert !found(j);
      }
    }
    r
  }

  datatype Direction = Receipt | Payout | Refund

  datatype PaymentRow = PaymentRow(
    id: nat,
    companyId: nat,
    branchId: Option<nat>,
    amount: int,
    direction: Direction,
    paymentDate: int)

  /** What a payment posts with: its method's cash account, and the customer's or supplier's account. */
  datatype Parties = Parties(glAccountId: Option<nat>, customer: Option<Customer>, supplier: Option<Supplier>)

  datatype Customer = Customer(receivableAccountId: Option<nat>)

  datatype Supplier = Supplier(payableAccountId: Option<nat>)

  function ResolveAccount(db: Db, companyId: nat, id: Option<nat>, missing: Error, unresolved: Error)
    : Result<nat, Error>
  {
    match id
    case None => Err(missing)
    case Some(a) =>
      if Accounts.InCompany(db.accounts, a, companyId) && db.accounts[a].isActive then Ok(a) else Err(unresolved)
  }

  /** The accounts a payment debits and credits. */
  datatype Mapping = Mapping(debitAccountId: nat, creditAccountId: nat)

  function MapPayment(db: Db, p: PaymentRow, parties: Parties): Result<Mapping, Error> {
    var cash :- ResolveAccount(db, p.companyId, parties.glAccountId, NoCashAccount, CashAccountUnresolved);
    match p.direction
    case Receipt =>
      (match parties.customer
       case None => Err(NoCustomer)
       case Some(c) =>
         var receivable :- ResolveAccount(db, p.companyId, c.receivableAccountId, NoReceivableAccount,
                                          ReceivableAccountUnresolved);
         Ok(Mapping(cash, receivable)))
    case Payout =>
      (match parties.supplier
       case None => Err(NoSupplier)
       case Some(s) =>
         var payable :- ResolveAccount(db, p.companyId, s.payableAccountId, NoPayableAccount, PayableAccountUnresolved);
         Ok(Mapping(payable, cash)))
    case Refund => Err(RefundNotPostable)
  }

  function PaymentLines(p: PaymentRow, m: Mapping): seq<LineInput> {
    [LineInput(m.debitAccountId, p.amount, 0, Some(PaymentReference), Some(p.id)),
     LineInput(m.creditAccountId, 0, p.amount, Some(PaymentReference), Some(p.id))]
  }

  function PaymentJournal(p: PaymentRow, m: Mapping, userId: nat): InternalJournal {
    InternalJournal(p.companyId, p.branchId, p.paymentDate, Payment, p.id, userId, PaymentLines(p, m))
  }

  /** `postPayment`, inside the caller's transaction. */
  function PostPaymentBody(db: Db, p: PaymentRow, parties: Parties, userId: nat, now: int): Attempt<nat> {
    match FindBySource(db, p.companyId, Payment, p.id)
    case Some(id) => Attempt(db, Ok(id))
    case None =>
      match MapPayment(db, p, parties)
      case Err(e) => Attempt(db, Err(e))
      case Ok(m) =>
        var a := CreateInternal(db, PaymentJournal(p, m, userId), now);
        if a.result == Err(DuplicateSource) then
          match FindBySource(a.db, p.companyId, Payment, p.id)
          case Some(id) => Attempt(a.db, Ok(id))
          case None => a
        else a
  }

  function PostPayment(db: Db, p: PaymentRow, parties: Parties, userId: nat, now: int): Attempt<nat> {
    Atomic(db, PostPaymentBody(db, p, parties, userId, now))
  }

  function ReversedLine(l: Line, paymentId: nat): LineInput {
    LineInput(l.accountId, l.credit, l.debit, Some(PaymentReference), Some(paymentId))
  }

  function ReversedLines(lines: seq<Line>, paymentId: nat): seq<LineInput> {
    seq(|lines|, i requires 0 <= i < |lines| => ReversedLine(lines[i], paymentId))
  }

  function ReversalJournal(p: PaymentRow, lines: seq<Line>, userId: nat, now: int, uuid: nat): InternalJournal {
    InternalJournal(p.companyId, p.branchId, now, Manual, uuid, userId, ReversedLines(lines, p.id))
  }

  /** `reversePayment`: a new journal with the sides of the original exchanged, or nothing when
      there is no journal to reverse. uuid is the random source id it draws. */
  function ReversePaymentBody(db: Db, p: PaymentRow, userId: nat, now: int, uuid: nat): Attempt<Option<nat>> {
    if p.direction == Refund then Attempt(db, Ok(None))
    else
      match FindBySource(db, p.companyId, Payment, p.id)
      case None => Attempt(db, Ok(None))
      case Some(id) =>
        var lines := EntryLines(db, id);
        if lines == [] then Attempt(db, Ok(None))
        else
          var a := CreateInternal(db, ReversalJournal(p, lines, userId, now, uuid), now);
          match a.result
          case Err(e) => Attempt(a.db, Err(e))
          case Ok(r) => Attempt(a.db, Ok(Some(r)))
  }

  function ReversePayment(db: Db, p: PaymentRow, userId: nat, now: int, uuid: nat): Attempt<Option<nat>> {
    Atomic(db, ReversePaymentBody(db, p, userId, now, uuid))
  }

  // ---- Serial runs ----

  datatype Step =
    | CreateStep(companyId: nat, userId: nat, dto: NewJournal, now: int)
    | PostStep(id: nat, companyId: nat, userId: nat, now: int)
    | CancelStep(id: nat, companyId: nat)
    | PostPaymentStep(payment: PaymentRow, parties: Parties, userId: nat, now: int)
    | ReversePaymentStep(payment: PaymentRow, userId: nat, now: int, uuid: nat)
    | CreateAccountStep(companyId: nat, account: Accounts.NewAccount)
    | UpdateAccountStep(id: nat, companyId: nat, patch: Accounts.Patch)
    | SetPeriodStatus(periodId: nat, periodStatus: PeriodStatus)
    | SetYearStatus(yearId: nat, yearStatus: YearStatus)
    | SetDirectory(companies: set<nat>, branches: map<nat, Branch>)

  function OrSame(t: Accounts.Table, r: Result<Accounts.Table, Error>): Accounts.Table {
    if r.Ok? then r.value else t
  }

  /** One whole transaction, or one administrative change of a status or of the directory. */
  function Apply(db: Db, s: Step): Db {
    match s
    case CreateStep(c, u, dto, now) => Create(db, c, u, dto, now).db
    case PostStep(id, c, u, now) => Post(db, id, c, u, now).db
    case CancelStep(id, c) => Cancel(db, id, c).db
    case PostPaymentStep(p, parties, u, now) => PostPayment(db, p, parties, u, now).db
    case ReversePaymentStep(p, u, now, uuid) => ReversePayment(db, p, u, now, uuid).db
    case CreateAccountStep(c, a) =>
      db.(accounts := OrSame(db.accounts, Accounts.CreateAccount(db.accounts, c in db.companies, c, a)))
    case UpdateAccountStep(id, c, patch) =>
      db.(accounts := OrSame(db.accounts, Accounts.UpdateAccount(db.accounts, id, c, patch)))
    case SetPeriodStatus(p, status) =>
      if p < |db.periods| then db.(periods := db.periods[p := db.periods[p].(status := status)]) else db
    case SetYearStatus(y, status) =>
      if y < |db.years| then db.(years := db.years[y := db.years[y].(status := status)]) else db
    case SetDirectory(companies, branches) => db.(companies := companies, branches := branches)
  }

  function Run(db: Db, steps: seq<Step>): Db {
    if steps == [] then db else Apply(Run(db, steps[..|steps| - 1]), steps[|steps| - 1])
  }
}
