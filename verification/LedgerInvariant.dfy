/** What holds of the accounting tables in every state a serial run reaches. */
module LedgerInvariant {
  import opened Wrappers
  import opened Errors
  import opened Sums
  import opened Calendar
  import opened Decimals
  import DoubleEntry
  import Accounts
  import opened LedgerModel

  // ---- The invariant ----

  /** A line belongs to an existing entry and posts to an account of that entry's company. */
  predicate LineOk(db: Db, l: Line) {
    && l.entryId < |db.entries|
    && Accounts.InCompany(db.accounts, l.accountId, db.entries[l.entryId].companyId)
    && FitsColumn(l.debit) && FitsColumn(l.credit)
  }

  predicate LinesOk(db: Db) {
    forall i :: 0 <= i < |db.lines| ==> LineOk(db, db.lines[i])
  }

  function LineDebit(l: Line): int { l.debit }

  function LineCredit(l: Line): int { l.credit }

  /** The cached header totals are those of the stored lines, and a posted entry is balanced. */
  predicate TotalsOk(db: Db, id: nat)
    requires id < |db.entries|
  {
    var lines := EntryLines(db, id);
    && db.entries[id].totalDebit == Sum(lines, LineDebit)
    && db.entries[id].totalCredit == Sum(lines, LineCredit)
    && FitsColumn(db.entries[id].totalDebit) && FitsColumn(db.entries[id].totalCredit)
    && (db.entries[id].status == Posted ==> DoubleEntry.Balanced(AmountsOf(lines)))
  }

  /** How many of these entries carry a number of the company and year. */
  function NumbersDrawn(entries: seq<Entry>, companyId: nat, year: int): nat {
    if entries == [] then 0
    else
      var last := entries[|entries| - 1];
      NumbersDrawn(entries[..|entries| - 1], companyId, year) +
      if last.companyId == companyId && last.number.year == year then 1 else 0
  }

  /** An entry's number is of the year of its date and continues the numbers drawn before it; its
      period covers its day; only posted entries name a source. */
  predicate HeaderOk(db: Db, id: nat)
    requires id < |db.entries|
  {
    var e := db.entries[id];
    && e.number.year == YearOf(e.entryDate)
    && e.number.sequence == 1 + NumbersDrawn(db.entries[..id], e.companyId, e.number.year)
    && Covers(db, e.periodId, e.companyId, DayOf(e.entryDate))
    && (e.sourceId.Some? ==> e.status == Posted)
    && (e.sourceType != Manual ==> e.sourceId.Some?)
  }

  predicate EntriesOk(db: Db) {
    forall id: nat :: id < |db.entries| ==> TotalsOk(db, id) && HeaderOk(db, id)
  }

  predicate SameSource(a: Entry, b: Entry) {
    a.sourceId.Some? && SourceIs(b, a.companyId, a.sourceType, a.sourceId.value)
  }

  predicate SourcesUnique(db: Db) {
    forall i: nat, j: nat :: i < j < |db.entries| ==> !SameSource(db.entries[i], db.entries[j])
  }

  ghost predicate CountersOk(db: Db) {
    forall companyId: nat, year: int :: Counter(db, companyId, year) == NumbersDrawn(db.entries, companyId, year)
  }

  /** Every period is the whole calendar year of an existing fiscal year of the same days. */
  predicate PeriodOk(db: Db, p: nat)
    requires p < |db.periods|
  {
    var row := db.periods[p];
    && row.fiscalYearId < |db.years|
    && row.startDay == YearStart(YearOfDay(row.startDay))
    && row.endDay == YearEnd(YearOfDay(row.startDay))
    && db.years[row.fiscalYearId].startDay == row.startDay
    && db.years[row.fiscalYearId].endDay == row.endDay
  }

  function Owner(db: Db, p: nat): Option<nat> {
    match YearOfPeriod(db, p)
    case Some(y) => Some(y.companyId)
    case None => None
  }

  /** Two periods of one company never share a day. */
  predicate Apart(db: Db, p: nat, q: nat)
    requires p < |db.periods| && q < |db.periods|
  {
    Owner(db, p) == Owner(db, q) ==>
      db.periods[p].endDay < db.periods[q].startDay || db.periods[q].endDay < db.periods[p].startDay
  }

  predicate PeriodsOk(db: Db) {
    && (forall p: nat :: p < |db.periods| ==> PeriodOk(db, p))
    && (forall p: nat, q: nat :: p < q < |db.periods| ==> Apart(db, p, q))
  }

  ghost predicate Inv(db: Db) {
    && LinesOk(db)
    && EntriesOk(db)
    && SourcesUnique(db)
    && CountersOk(db)
    && PeriodsOk(db)
    && Accounts.Forest(db.accounts)
  }

  // ---- Periods ----

  /** Any two ways of naming the covering period agree. */
  lemma CoveringPeriodUnique(db: Db, p: nat, q: nat, companyId: nat, day: int)
    requires PeriodsOk(db) && Covers(db, p, companyId, day) && Covers(db, q, companyId, day)
    ensures p == q
  {
    assert p < q ==> Apart(db, p, q);
    assert q < p ==> Apart(db, q, p);
  }

  /** A company has at most one period in a calendar year. */
  lemma OnePeriodPerYear(db: Db, p: nat, q: nat)
    requires PeriodsOk(db) && p < |db.periods| && q < |db.periods|
    requires Owner(db, p) == Owner(db, q) && YearOfDay(db.periods[p].startDay) == YearOfDay(db.periods[q].startDay)
    ensures p == q
  {
    assert PeriodOk(db, p) && PeriodOk(db, q);
    YearLength(YearOfDay(db.periods[p].startDay));
    CoveringPeriodUnique(db, p, q, Owner(db, p).value, db.periods[p].startDay);
  }

  /** When no period covers the day, none has the exact calendar year either: the second lookup
      of the resolver never answers, so no period skips the status checks. */
  lemma SecondLookupFindsNothing(db: Db, companyId: nat, at: int)
    requires FindPeriod(db, companyId, DayOf(at)) == None
    ensures FindCalendarYear(db, companyId, YearOf(at)) == None
  {
    var r := FindCalendarYear(db, companyId, YearOf(at));
    if r.Some? {
      assert Covers(db, r.value, companyId, DayOf(at));
    }
  }

  lemma AddCalendarYearKeepsPeriods(db: Db, companyId: nat, at: int)
    requires PeriodsOk(db) && FindPeriod(db, companyId, DayOf(at)) == None
    ensures PeriodsOk(AddCalendarYear(db, companyId, YearOf(at)))
  {
    var y, n := YearOf(at), |db.periods|;
    var d := AddCalendarYear(db, companyId, y);
    YearLength(y);
    YearUnique(YearStart(y), y);
    forall p: nat | p < n ensures PeriodOk(d, p) {
      assert PeriodOk(db, p);
    }
    forall p: nat, q: nat | p < q <= n ensures Apart(d, p, q) {
      assert PeriodOk(db, p);
      if q < n {
        assert PeriodOk(db, q) && Apart(db, p, q);
      } else if Owner(db, p) == Some(companyId) {
        assert !Covers(db, p, companyId, DayOf(at));
        YearsApart(YearOfDay(db.periods[p].startDay), y, DayOf(at));
      }
    }
  }

  lemma YearsApart(x: int, y: int, day: int)
    requires YearStart(y) <= day <= YearEnd(y)
    requires !(YearStart(x) <= day <= YearEnd(x))
    ensures YearEnd(x) < YearStart(y) || YearEnd(y) < YearStart(x)
  {
    if x < y {
      YearsAreOrdered(x + 1, y);
    } else if y < x {
      YearsAreOrdered(y + 1, x);
    }
  }

  lemma AddCalendarYearKeepsEntries(db: Db, companyId: nat, year: int)
    requires EntriesOk(db)
    ensures EntriesOk(AddCalendarYear(db, companyId, year))
  {
    var d := AddCalendarYear(db, companyId, year);
    forall id: nat | id < |d.entries| ensures TotalsOk(d, id) && HeaderOk(d, id) {
      assert TotalsOk(db, id) && HeaderOk(db, id);
    }
  }

  /** The resolver keeps the invariant. When it succeeds the period is open, its year is open, it
      belongs to the company and covers the day of the instant; when it fails nothing was written. */
  lemma ResolveOpenPeriodCorrect(db: Db, companyId: nat, at: int)
    requires Inv(db)
    ensures var a := ResolveOpenPeriod(db, companyId, at);
      && Inv(a.db)
      && a.db.entries == db.entries && a.db.lines == db.lines && a.db.accounts == db.accounts
      && (a.result.Ok? ==> Postable(a.db, a.result.value) && Covers(a.db, a.result.value, companyId, DayOf(at)))
      && (a.result.Err? ==> a.db == db && a.result.error in {YearClosed, PeriodLocked})
  {
    var a := ResolveOpenPeriod(db, companyId, at);
    match FindPeriod(db, companyId, DayOf(at))
    case Some(p) =>
      assert YearOfPeriod(db, p).Some?;
    case None =>
      SecondLookupFindsNothing(db, companyId, at);
      AddCalendarYearKeepsPeriods(db, companyId, at);
      AddCalendarYearKeepsEntries(db, companyId, YearOf(at));
      forall c: nat, y: int ensures Counter(a.db, c, y) == NumbersDrawn(a.db.entries, c, y) {
        assert Counter(db, c, y) == NumbersDrawn(db.entries, c, y);
      }
      forall i | 0 <= i < |a.db.lines| ensures LineOk(a.db, a.db.lines[i]) {
        assert LineOk(db, db.lines[i]);
      }
  }

  // ---- Saving a journal ----

  lemma {:induction false} InsertLinesEffect(db: Db, id: nat, lines: seq<LineInput>)
    ensures var a := InsertLines(db, id, lines);
      a.result.Ok? ==>
        && a.db == db.(lines := db.lines + RowsOf(id, lines))
        && forall i :: 0 <= i < |lines| ==> LineRowError(db, lines[i]) == None
  {
    if lines == [] {
      assert db.lines + RowsOf(id, lines) == db.lines;
    } else {
      var n := |lines| - 1;
      InsertLinesEffect(db, id, lines[..n]);
      assert RowsOf(id, lines) == RowsOf(id, lines[..n]) + [RowOf(id, lines[n])];
      assert db.lines + RowsOf(id, lines) == db.lines + RowsOf(id, lines[..n]) + [RowOf(id, lines[n])];
    }
  }

  function Numbered(db: Db, e: Entry): Entry {
    e.(number := JournalNumber(e.number.year, Counter(db, e.companyId, e.number.year) + 1))
  }

  /** The tables after a journal was numbered and saved. */
  function WithJournal(db: Db, e: Entry, lines: seq<LineInput>): Db {
    BumpCounter(db, e.companyId, e.number.year).(
      entries := db.entries + [Numbered(db, e)],
      lines := db.lines + RowsOf(|db.entries|, lines))
  }

  lemma NumberAndSaveEffect(db: Db, e: Entry, lines: seq<LineInput>)
    ensures var a := NumberAndSave(db, e, lines);
      a.result.Ok? ==>
        && a.db == WithJournal(db, e, lines) && a.result.value == |db.entries|
        && !SourceTaken(db, e)
        && FitsColumn(e.totalDebit) && FitsColumn(e.totalCredit)
        && forall i :: 0 <= i < |lines| ==> LineRowError(db, lines[i]) == None
  {
    var d := BumpCounter(db, e.companyId, e.number.year);
    var n := Numbered(db, e);
    assert Counter(d, e.companyId, e.number.year) == Counter(db, e.companyId, e.number.year) + 1;
    var a := SaveJournal(d, n, lines);
    assert NumberAndSave(db, e, lines) == a;
    if a.result.Ok? {
      var inserted := InsertEntry(d, n).value;
      InsertLinesEffect(inserted, |db.entries|, lines);
      assert SourceTaken(d, n) == SourceTaken(db, e);
      forall i | 0 <= i < |lines| ensures LineRowError(db, lines[i]) == None {
        assert LineRowError(inserted, lines[i]) == None;
      }
    }
  }

  lemma {:induction false} FilterAll(lines: seq<Line>, id: nat)
    requires forall i :: 0 <= i < |lines| ==> lines[i].entryId == id
    ensures Filter(lines, OfEntry(id)) == lines
  {
    if lines != [] {
      FilterAll(lines[..|lines| - 1], id);
      assert lines == lines[..|lines| - 1] + [lines[|lines| - 1]];
    }
  }

  /** Appending rows of a new entry leaves the lines of the others, and gives it exactly those rows. */
  lemma AppendedLines(db: Db, d: Db, rows: seq<Line>)
    requires LinesOk(db) && d.lines == db.lines + rows
    requires forall i :: 0 <= i < |rows| ==> rows[i].entryId == |db.entries|
    ensures forall id: nat :: id < |db.entries| ==> EntryLines(d, id) == EntryLines(db, id)
    ensures EntryLines(d, |db.entries|) == rows
  {
    forall id: nat | id < |db.entries| ensures EntryLines(d, id) == EntryLines(db, id) {
      FilterConcat(db.lines, rows, OfEntry(id));
      FilterNone(rows, OfEntry(id));
    }
    var id := |db.entries|;
    FilterConcat(db.lines, rows, OfEntry(id));
    FilterNone(db.lines, OfEntry(id));
    FilterAll(rows, id);
  }

  lemma {:induction false} RowSums(id: nat, lines: seq<LineInput>)
    ensures Sum(RowsOf(id, lines), LineDebit) == Sum(lines, InputDebit)
    ensures Sum(RowsOf(id, lines), LineCredit) == Sum(lines, InputCredit)
    ensures Sum(InputAmounts(lines), DoubleEntry.Debit) == Sum(lines, InputDebit)
    ensures Sum(InputAmounts(lines), DoubleEntry.Credit) == Sum(lines, InputCredit)
    ensures AmountsOf(RowsOf(id, lines)) == InputAmounts(lines)
  {
    if lines != [] {
      var n := |lines| - 1;
      assert RowsOf(id, lines)[..n] == RowsOf(id, lines[..n]);
      assert InputAmounts(lines)[..n] == InputAmounts(lines[..n]);
      RowSums(id, lines[..n]);
    }
  }

  /** What a journal must satisfy to be added to consistent tables. */
  ghost predicate Addable(db: Db, e: Entry, lines: seq<LineInput>) {
    && e.totalDebit == Sum(lines, InputDebit)
    && e.totalCredit == Sum(lines, InputCredit)
    && FitsColumn(e.totalDebit) && FitsColumn(e.totalCredit)
    && (e.status == Posted ==> DoubleEntry.Balanced(InputAmounts(lines)))
    && e.number.year == YearOf(e.entryDate)
    && Covers(db, e.periodId, e.companyId, DayOf(e.entryDate))
    && (e.sourceId.Some? ==> e.status == Posted)
    && (e.sourceType != Manual ==> e.sourceId.Some?)
    && !SourceTaken(db, e)
    && forall i :: 0 <= i < |lines| ==>
         LineRowError(db, lines[i]) == None && Accounts.InCompany(db.accounts, lines[i].accountId, e.companyId)
  }

  lemma WithJournalLines(db: Db, e: Entry, lines: seq<LineInput>)
    requires Inv(db) && Addable(db, e, lines)
    ensures LinesOk(WithJournal(db, e, lines))
  {
    var d := WithJournal(db, e, lines);
    forall i | 0 <= i < |d.lines| ensures LineOk(d, d.lines[i]) {
      if i < |db.lines| {
        assert LineOk(db, db.lines[i]);
      }
    }
  }

  lemma OldEntryOk(db: Db, e: Entry, lines: seq<LineInput>, id: nat)
    requires Inv(db) && id < |db.entries|
    ensures var d := WithJournal(db, e, lines); TotalsOk(d, id) && HeaderOk(d, id)
  {
    var d := WithJournal(db, e, lines);
    AppendedLines(db, d, RowsOf(|db.entries|, lines));
    assert TotalsOk(db, id) && HeaderOk(db, id);
    assert d.entries[..id] == db.entries[..id];
  }

  lemma NewEntryOk(db: Db, e: Entry, lines: seq<LineInput>)
    requires Inv(db) && Addable(db, e, lines)
    ensures var d := WithJournal(db, e, lines); TotalsOk(d, |db.entries|) && HeaderOk(d, |db.entries|)
  {
    var d := WithJournal(db, e, lines);
    AppendedLines(db, d, RowsOf(|db.entries|, lines));
    RowSums(|db.entries|, lines);
    assert d.entries[..|db.entries|] == db.entries;
  }

  lemma WithJournalEntries(db: Db, e: Entry, lines: seq<LineInput>)
    requires Inv(db) && Addable(db, e, lines)
    ensures EntriesOk(WithJournal(db, e, lines))
  {
    var d := WithJournal(db, e, lines);
    forall id: nat | id < |d.entries| ensures TotalsOk(d, id) && HeaderOk(d, id) {
      if id < |db.entries| {
        OldEntryOk(db, e, lines, id);
      } else {
        NewEntryOk(db, e, lines);
      }
    }
  }

  lemma WithJournalCounters(db: Db, e: Entry, lines: seq<LineInput>)
    requires CountersOk(db)
    ensures CountersOk(WithJournal(db, e, lines))
  {
    var d := WithJournal(db, e, lines);
    assert d.entries[..|db.entries|] == db.entries;
  }

  lemma WithJournalKeepsInv(db: Db, e: Entry, lines: seq<LineInput>)
    requires Inv(db) && Addable(db, e, lines)
    ensures Inv(WithJournal(db, e, lines))
  {
    var d := WithJournal(db, e, lines);
    WithJournalLines(db, e, lines);
    WithJournalEntries(db, e, lines);
    WithJournalCounters(db, e, lines);
    WithJournalSources(db, e, lines);
    SamePeriodsOk(db, d);
  }

  lemma WithJournalSources(db: Db, e: Entry, lines: seq<LineInput>)
    requires SourcesUnique(db) && !SourceTaken(db, e)
    ensures SourcesUnique(WithJournal(db, e, lines))
  {
    var d, n := WithJournal(db, e, lines), |db.entries|;
    forall i: nat | i < n ensures !SameSource(d.entries[i], d.entries[n]) {
      NewSource(db, e, i);
    }
    assert forall i: nat, j: nat :: i < j < n ==> !SameSource(db.entries[i], db.entries[j]);
  }

  lemma NewSource(db: Db, e: Entry, i: nat)
    requires i < |db.entries| && !SourceTaken(db, e)
    ensures !SameSource(db.entries[i], Numbered(db, e))
  {
    var o := db.entries[i];
    assert e.sourceId == None || !SourceIs(o, e.companyId, e.sourceType, e.sourceId.value);
  }

  // ---- Each service keeps the invariant ----

  lemma CreateKeepsInv(db: Db, companyId: nat, userId: nat, dto: NewJournal, now: int)
    requires Inv(db)
    ensures Inv(Create(db, companyId, userId, dto, now).db)
  {
    var at := if dto.entryDate.Some? then dto.entryDate.value else now;
    var a := CreateBody(db, companyId, userId, dto, now);
    if a.result.Ok? {
      ResolveOpenPeriodCorrect(db, companyId, at);
      var p := ResolveOpenPeriod(db, companyId, at);
      var e := DraftEntry(companyId, userId, dto, at, p.result.value);
      NumberAndSaveEffect(p.db, e, dto.lines);
      assert LinesUsable(db, companyId, dto.lines);
      forall i | 0 <= i < |dto.lines| ensures Accounts.InCompany(p.db.accounts, dto.lines[i].accountId, companyId) {
        assert LineAccountError(db, companyId, dto.lines[i]) == None;
      }
      WithJournalKeepsInv(p.db, e, dto.lines);
    }
  }

  /** A header that changes only its status, totals and posting marks, and names no source. */
  predicate Redrafted(db: Db, d: Db, id: nat) {
    && id < |db.entries| && |d.entries| == |db.entries|
    && d == db.(entries := db.entries[id := d.entries[id]])
    && d.entries[id].companyId == db.entries[id].companyId && d.entries[id].number == db.entries[id].number
    && d.entries[id].entryDate == db.entries[id].entryDate && d.entries[id].periodId == db.entries[id].periodId
    && d.entries[id].sourceType == db.entries[id].sourceType
    && d.entries[id].sourceId == db.entries[id].sourceId == None
  }

  lemma RedraftedEntries(db: Db, d: Db, id: nat)
    requires EntriesOk(db) && Redrafted(db, d, id) && TotalsOk(d, id)
    ensures EntriesOk(d)
  {
    forall i: nat | i < |d.entries| ensures TotalsOk(d, i) && HeaderOk(d, i) {
      assert TotalsOk(db, i) && HeaderOk(db, i);
      assert EntryLines(d, i) == EntryLines(db, i);
      SameNumbersDrawn(db.entries[..i], d.entries[..i], db.entries[i].companyId, db.entries[i].number.year);
    }
  }

  lemma RedraftedCounters(db: Db, d: Db, id: nat)
    requires CountersOk(db) && Redrafted(db, d, id)
    ensures CountersOk(d)
  {
    forall c: nat, y: int ensures Counter(d, c, y) == NumbersDrawn(d.entries, c, y) {
      assert Counter(db, c, y) == NumbersDrawn(db.entries, c, y);
      SameNumbersDrawn(db.entries, d.entries, c, y);
    }
  }

  /** Replacing a header without touching what the tables link by keeps everything but its totals. */
  lemma RedraftedKeepsInv(db: Db, d: Db, id: nat)
    requires Inv(db) && Redrafted(db, d, id) && TotalsOk(d, id)
    ensures Inv(d)
  {
    RedraftedEntries(db, d, id);
    RedraftedCounters(db, d, id);
    forall i: nat, j: nat | i < j < |d.entries| ensures !SameSource(d.entries[i], d.entries[j]) {
      assert !SameSource(db.entries[i], db.entries[j]);
    }
    forall i | 0 <= i < |d.lines| ensures LineOk(d, d.lines[i]) {
      assert LineOk(db, db.lines[i]);
    }
    SamePeriodsOk(db, d);
  }

  lemma SamePeriodsOk(db: Db, d: Db)
    requires PeriodsOk(db) && d.periods == db.periods && d.years == db.years
    ensures PeriodsOk(d)
  {
    forall p: nat | p < |d.periods| ensures PeriodOk(d, p) {
      assert PeriodOk(db, p);
    }
    forall p: nat, q: nat | p < q < |d.periods| ensures Apart(d, p, q) {
      assert PeriodOk(db, p) && PeriodOk(db, q) && Apart(db, p, q);
    }
  }

  lemma {:induction false} SameNumbersDrawn(a: seq<Entry>, b: seq<Entry>, companyId: nat, year: int)
    requires |a| == |b|
    requires forall i :: 0 <= i < |a| ==> a[i].companyId == b[i].companyId && a[i].number == b[i].number
    ensures NumbersDrawn(a, companyId, year) == NumbersDrawn(b, companyId, year)
  {
    if a != [] {
      SameNumbersDrawn(a[..|a| - 1], b[..|b| - 1], companyId, year);
    }
  }

  lemma {:induction false} AmountSums(lines: seq<Line>)
    ensures Sum(AmountsOf(lines), DoubleEntry.Debit) == Sum(lines, LineDebit)
    ensures Sum(AmountsOf(lines), DoubleEntry.Credit) == Sum(lines, LineCredit)
  {
    if lines != [] {
      var n := |lines| - 1;
      assert AmountsOf(lines)[..n] == AmountsOf(lines[..n]);
      AmountSums(lines[..n]);
    }
  }

  lemma PostKeepsInv(db: Db, id: nat, companyId: nat, userId: nat, now: int)
    requires Inv(db)
    ensures Inv(Post(db, id, companyId, userId, now).db)
  {
    if Post(db, id, companyId, userId, now).result.Ok? {
      var lines := EntryLines(db, id);
      var totals := DoubleEntry.CheckBalanced(AmountsOf(lines)).value;
      AmountSums(lines);
      assert HeaderOk(db, id);
      RedraftedKeepsInv(db, Post(db, id, companyId, userId, now).db, id);
    }
  }

  lemma CancelKeepsInv(db: Db, id: nat, companyId: nat)
    requires Inv(db)
    ensures Inv(Cancel(db, id, companyId).db)
  {
    if Cancel(db, id, companyId).result.Ok? {
      assert HeaderOk(db, id) && TotalsOk(db, id);
      RedraftedKeepsInv(db, Cancel(db, id, companyId).db, id);
    }
  }

  lemma CreateInternalKeepsInv(db: Db, j: InternalJournal, now: int)
    requires Inv(db)
    requires forall i :: 0 <= i < |j.lines| ==> Accounts.InCompany(db.accounts, j.lines[i].accountId, j.companyId)
    ensures CreateInternal(db, j, now).result.Ok? ==> Inv(CreateInternal(db, j, now).db)
  {
    var a := CreateInternal(db, j, now);
    if a.result.Ok? {
      ResolveOpenPeriodCorrect(db, j.companyId, j.entryDate);
      var p := ResolveOpenPeriod(db, j.companyId, j.entryDate);
      var totals := DoubleEntry.CheckBalanced(InputAmounts(j.lines)).value;
      var e := InternalEntry(j, totals, p.result.value, now);
      NumberAndSaveEffect(p.db, e, j.lines);
      RowSums(0, j.lines);
      WithJournalKeepsInv(p.db, e, j.lines);
    }
  }

  lemma {:induction false} DrawnAtMost(entries: seq<Entry>, i: nat, companyId: nat, year: int)
    requires i <= |entries|
    ensures NumbersDrawn(entries[..i], companyId, year) <= NumbersDrawn(entries, companyId, year)
    ensures i < |entries| && entries[i].companyId == companyId && entries[i].number.year == year ==>
              NumbersDrawn(entries[..i], companyId, year) < NumbersDrawn(entries, companyId, year)
  {
    if i < |entries| {
      var n := |entries| - 1;
      assert entries[..n][..i] == entries[..i];
      DrawnAtMost(entries[..n], i, companyId, year);
    } else {
      assert entries[..i] == entries;
    }
  }

  /** The number drawn for a journal is never taken. */
  lemma DrawnNumberIsFree(db: Db, e: Entry)
    requires EntriesOk(db) && CountersOk(db)
    ensures !NumberTaken(db, Numbered(db, e))
  {
    forall i: nat |
      && i < |db.entries|
      && db.entries[i].companyId == e.companyId
      && db.entries[i].number.year == e.number.year
      ensures db.entries[i].number.sequence <= Counter(db, e.companyId, e.number.year)
    {
      assert HeaderOk(db, i);
      DrawnAtMost(db.entries, i, e.companyId, e.number.year);
    }
  }

  /** A journal with a new source, amounts that fit and existing accounts is saved. */
  lemma NumberAndSaveSucceeds(db: Db, e: Entry, lines: seq<LineInput>)
    requires EntriesOk(db) && CountersOk(db) && !SourceTaken(db, e)
    requires FitsColumn(e.totalDebit) && FitsColumn(e.totalCredit)
    requires forall i :: 0 <= i < |lines| ==> LineRowError(db, lines[i]) == None
    ensures NumberAndSave(db, e, lines).result.Ok?
  {
    var d := BumpCounter(db, e.companyId, e.number.year);
    var n := Numbered(db, e);
    DrawnNumberIsFree(db, e);
    assert !NumberTaken(d, n);
    assert SourceTaken(d, n) == SourceTaken(db, e);
    var inserted := InsertEntry(d, n).value;
    forall i | 0 <= i < |lines| ensures LineRowError(inserted, lines[i]) == None {
      assert LineRowError(db, lines[i]) == None;
    }
    InsertLinesSucceed(inserted, |db.entries|, lines);
    assert NumberAndSave(db, e, lines) == SaveJournal(d, n, lines);
  }

  lemma NumberAndSaveRefusals(db: Db, e: Entry, lines: seq<LineInput>)
    requires EntriesOk(db) && CountersOk(db) && NumberAndSave(db, e, lines).result.Err?
    ensures NumberAndSave(db, e, lines).result.error in {DuplicateSource, OutOfRange, ForeignKey}
    ensures NumberAndSave(db, e, lines).result.error == DuplicateSource <==> SourceTaken(db, e)
  {
    var d := BumpCounter(db, e.companyId, e.number.year);
    var n := Numbered(db, e);
    assert NumberAndSave(db, e, lines) == SaveJournal(d, n, lines);
    DrawnNumberIsFree(db, e);
    assert !NumberTaken(d, n);
    assert SourceTaken(d, n) == SourceTaken(db, e);
  }

  lemma {:induction false} InsertLinesSucceed(db: Db, id: nat, lines: seq<LineInput>)
    ensures (forall i :: 0 <= i < |lines| ==> LineRowError(db, lines[i]) == None) ==>
      InsertLines(db, id, lines).result.Ok?
  {
    if lines != [] && forall i :: 0 <= i < |lines| ==> LineRowError(db, lines[i]) == None {
      var front, last := lines[..|lines| - 1], lines[|lines| - 1];
      InsertLinesSucceed(db, id, front);
      InsertLinesEffect(db, id, front);
      var d := InsertLines(db, id, front).db;
      assert LineRowError(d, last) == LineRowError(db, last);
    }
  }

  /** A balanced journal whose amounts fit and whose accounts exist is refused only for a shut
      period or a source in use. */
  lemma InternalRefusals(db: Db, j: InternalJournal, now: int)
    requires Inv(db) && CreateInternal(db, j, now).result.Err?
    requires DoubleEntry.CheckBalanced(InputAmounts(j.lines)).Ok?
    requires FitsColumn(DoubleEntry.CheckBalanced(InputAmounts(j.lines)).value.totalDebit)
    requires forall i :: 0 <= i < |j.lines| ==> LineRowError(db, j.lines[i]) == None
    ensures CreateInternal(db, j, now).result.error in {YearClosed, PeriodLocked, DuplicateSource}
  {
    ResolveOpenPeriodCorrect(db, j.companyId, j.entryDate);
    var p := ResolveOpenPeriod(db, j.companyId, j.entryDate);
    if p.result.Ok? {
      var e := InternalEntry(j, DoubleEntry.CheckBalanced(InputAmounts(j.lines)).value, p.result.value, now);
      assert forall i :: 0 <= i < |j.lines| ==> LineRowError(p.db, j.lines[i]) == LineRowError(db, j.lines[i]);
      OnlySourceRefused(p.db, e, j.lines);
    }
  }

  lemma OnlySourceRefused(db: Db, e: Entry, lines: seq<LineInput>)
    requires EntriesOk(db) && CountersOk(db) && NumberAndSave(db, e, lines).result.Err?
    requires FitsColumn(e.totalDebit) && FitsColumn(e.totalCredit)
    requires forall i :: 0 <= i < |lines| ==> LineRowError(db, lines[i]) == None
    ensures NumberAndSave(db, e, lines).result.error == DuplicateSource
  {
    NumberAndSaveRefusals(db, e, lines);
    if !SourceTaken(db, e) {
      NumberAndSaveSucceeds(db, e, lines);
    }
  }

  /** While the source is new no insert meets the source index: in serial runs the
      duplicate-source handler of `postPayment` has nothing to catch. */
  lemma NoDuplicateSource(db: Db, j: InternalJournal, now: int)
    requires Inv(db)
    requires FindBySource(db, j.companyId, j.sourceType, j.sourceId) == None
    ensures CreateInternal(db, j, now).result != Err(DuplicateSource)
  {
    var p := ResolveOpenPeriod(db, j.companyId, j.entryDate);
    ResolveOpenPeriodCorrect(db, j.companyId, j.entryDate);
    if DoubleEntry.CheckBalanced(InputAmounts(j.lines)).Ok? && p.result.Ok? {
      var e := InternalEntry(j, DoubleEntry.CheckBalanced(InputAmounts(j.lines)).value, p.result.value, now);
      assert !SourceTaken(p.db, e);
      if NumberAndSave(p.db, e, j.lines).result.Err? {
        NumberAndSaveRefusals(p.db, e, j.lines);
      }
    }
  }

  /** What a first posting does, seen from outside: map the payment, then write its journal. */
  lemma FirstPosting(db: Db, p: PaymentRow, parties: Parties, userId: nat, now: int)
    requires Inv(db) && FindBySource(db, p.companyId, Payment, p.id) == None
    ensures var m := MapPayment(db, p, parties);
      PostPayment(db, p, parties, userId, now) ==
        if m.Err? then Attempt(db, Err(m.error))
        else Atomic(db, CreateInternal(db, PaymentJournal(p, m.value, userId), now))
  {
    var m := MapPayment(db, p, parties);
    if m.Ok? {
      NoDuplicateSource(db, PaymentJournal(p, m.value, userId), now);
    }
  }

  lemma MappedAccounts(db: Db, p: PaymentRow, parties: Parties)
    ensures var m := MapPayment(db, p, parties);
      m.Ok? ==>
        && Accounts.InCompany(db.accounts, m.value.debitAccountId, p.companyId)
        && Accounts.InCompany(db.accounts, m.value.creditAccountId, p.companyId)
  {
  }

  lemma PostPaymentKeepsInv(db: Db, p: PaymentRow, parties: Parties, userId: nat, now: int)
    requires Inv(db)
    ensures Inv(PostPayment(db, p, parties, userId, now).db)
  {
    if FindBySource(db, p.companyId, Payment, p.id) == None {
      FirstPosting(db, p, parties, userId, now);
      var m := MapPayment(db, p, parties);
      if m.Ok? {
        MappedAccounts(db, p, parties);
        CreateInternalKeepsInv(db, PaymentJournal(p, m.value, userId), now);
      }
    }
  }

  lemma ReversePaymentKeepsInv(db: Db, p: PaymentRow, userId: nat, now: int, uuid: nat)
    requires Inv(db)
    ensures Inv(ReversePayment(db, p, userId, now, uuid).db)
  {
    match FindBySource(db, p.companyId, Payment, p.id)
    case None =>
    case Some(id) =>
      var lines := EntryLines(db, id);
      var j := ReversalJournal(p, lines, userId, now, uuid);
      forall i | 0 <= i < |j.lines| ensures Accounts.InCompany(db.accounts, j.lines[i].accountId, j.companyId) {
        assert lines[i] in lines;
        assert LineOk(db, lines[i]);
      }
      CreateInternalKeepsInv(db, j, now);
  }

  /** Account changes keep companies, so lines still post within their company. */
  lemma AccountsKeepInv(db: Db, t: Accounts.Table)
    requires Inv(db) && Accounts.Forest(t) && |db.accounts| <= |t|
    requires forall i :: 0 <= i < |db.accounts| ==> t[i].companyId == db.accounts[i].companyId
    ensures Inv(db.(accounts := t))
  {
    var d := db.(accounts := t);
    forall i | 0 <= i < |d.lines| ensures LineOk(d, d.lines[i]) {
      assert LineOk(db, db.lines[i]);
    }
    forall id: nat | id < |d.entries| ensures TotalsOk(d, id) && HeaderOk(d, id) {
      assert TotalsOk(db, id) && HeaderOk(db, id);
    }
    forall c: nat, y: int ensures Counter(d, c, y) == NumbersDrawn(d.entries, c, y) {
      assert Counter(db, c, y) == NumbersDrawn(db.entries, c, y);
    }
    SamePeriodsOk(db, d);
  }

  /** Locking, closing and their opposites move no days. */
  lemma StatusesKeepInv(db: Db, d: Db)
    requires Inv(db)
    requires d == db.(periods := d.periods, years := d.years, companies := d.companies, branches := d.branches)
    requires |d.periods| == |db.periods| && |d.years| == |db.years|
    requires forall p :: 0 <= p < |d.periods| ==> d.periods[p] == db.periods[p].(status := d.periods[p].status)
    requires forall y :: 0 <= y < |d.years| ==> d.years[y] == db.years[y].(status := d.years[y].status)
    ensures Inv(d)
  {
    forall p: nat | p < |d.periods| ensures PeriodOk(d, p) {
      assert PeriodOk(db, p);
    }
    forall p: nat, q: nat | p < q < |d.periods| ensures Apart(d, p, q) {
      assert PeriodOk(db, p) && PeriodOk(db, q) && Apart(db, p, q);
    }
    forall id: nat | id < |d.entries| ensures TotalsOk(d, id) && HeaderOk(d, id) {
      assert TotalsOk(db, id) && HeaderOk(db, id);
    }
    forall c: nat, y: int ensures Counter(d, c, y) == NumbersDrawn(d.entries, c, y) {
      assert Counter(db, c, y) == NumbersDrawn(db.entries, c, y);
    }
    forall i | 0 <= i < |d.lines| ensures LineOk(d, d.lines[i]) {
      assert LineOk(db, db.lines[i]);
    }
  }

  lemma StepKeepsInv(db: Db, s: Step)
    requires Inv(db)
    ensures Inv(Apply(db, s))
  {
    match s
    case CreateStep(c, u, dto, now) => CreateKeepsInv(db, c, u, dto, now);
    case PostStep(id, c, u, now) => PostKeepsInv(db, id, c, u, now);
    case CancelStep(id, c) => CancelKeepsInv(db, id, c);
    case PostPaymentStep(p, parties, u, now) => PostPaymentKeepsInv(db, p, parties, u, now);
    case ReversePaymentStep(p, u, now, uuid) => ReversePaymentKeepsInv(db, p, u, now, uuid);
    case CreateAccountStep(c, a) =>
      var r := Accounts.CreateAccount(db.accounts, c in db.companies, c, a);
      if r.Ok? {
        Accounts.CreateKeepsForest(db.accounts, c in db.companies, c, a);
        AccountsKeepInv(db, r.value);
      }
    case UpdateAccountStep(id, c, patch) =>
      var r := Accounts.UpdateAccount(db.accounts, id, c, patch);
      if r.Ok? {
        Accounts.UpdateKeepsForest(db.accounts, id, c, patch);
        AccountsKeepInv(db, r.value);
      }
    case SetPeriodStatus(p, status) => StatusesKeepInv(db, Apply(db, s));
    case SetYearStatus(y, status) => StatusesKeepInv(db, Apply(db, s));
    case SetDirectory(companies, branches) => StatusesKeepInv(db, Apply(db, s));
  }

  lemma EmptyInv()
    ensures Inv(Empty())
  {
    forall id: nat, n: nat | n > 0 ensures Accounts.Ancestor(Empty().accounts, id, n) != Some(id) {
      Accounts.ChainStaysEnded(Empty().accounts, id, 1, n);
    }
  }

  /** Every state of every serial run that starts consistent is consistent. */
  lemma {:induction false} RunKeepsInv(db: Db, steps: seq<Step>)
    requires Inv(db)
    ensures Inv(Run(db, steps))
  {
    if steps != [] {
      RunKeepsInv(db, steps[..|steps| - 1]);
      StepKeepsInv(Run(db, steps[..|steps| - 1]), steps[|steps| - 1]);
    }
  }
}
