/** What serial runs of the accounting services never do: number twice or skip a number, touch a
    posted journal, post into a shut period, or post a payment a second time. */
module LedgerHistory {
  import opened Wrappers
  import opened Sums
  import opened Calendar
  import opened DocumentNumbers
  import Accounts
  import DoubleEntry
  import opened LedgerModel
  import opened LedgerInvariant

  // ---- Journal numbers ----

  predicate Carries(e: Entry, companyId: nat, year: int, sequence: nat) {
    e.companyId == companyId && e.number == JournalNumber(year, sequence)
  }

  lemma {:induction false} EveryNumberIsCarried(db: Db, n: nat, companyId: nat, year: int, sequence: nat)
    returns (id: nat)
    requires EntriesOk(db) && n <= |db.entries|
    requires 1 <= sequence <= NumbersDrawn(db.entries[..n], companyId, year)
    ensures id < n && Carries(db.entries[id], companyId, year, sequence)
  {
    assert db.entries[..n][..n - 1] == db.entries[..n - 1];
    assert HeaderOk(db, n - 1);
    if sequence <= NumbersDrawn(db.entries[..n - 1], companyId, year) {
      id := EveryNumberIsCarried(db, n - 1, companyId, year, sequence);
    } else {
      id := n - 1;
    }
  }

  /** The numbers of a company and year are exactly 1 to the counter: none missing, none beyond. */
  lemma NumbersGapless(db: Db, companyId: nat, year: int, sequence: nat)
    requires Inv(db)
    ensures 1 <= sequence <= Counter(db, companyId, year) <==>
            exists id :: 0 <= id < |db.entries| && Carries(db.entries[id], companyId, year, sequence)
  {
    assert db.entries[..|db.entries|] == db.entries;
    if 1 <= sequence <= Counter(db, companyId, year) {
      var id := EveryNumberIsCarried(db, |db.entries|, companyId, year, sequence);
    }
    forall id | 0 <= id < |db.entries| && Carries(db.entries[id], companyId, year, sequence)
      ensures 1 <= sequence <= Counter(db, companyId, year)
    {
      assert HeaderOk(db, id);
      DrawnAtMost(db.entries, id, companyId, year);
    }
  }

  /** No two entries of a company share a number, nor the text it is printed as. */
  lemma NumbersDistinct(db: Db, i: nat, j: nat)
    requires Inv(db) && i < j < |db.entries| && db.entries[i].companyId == db.entries[j].companyId
    ensures db.entries[i].number != db.entries[j].number
    ensures db.entries[i].number.year >= 0 && db.entries[j].number.year >= 0 ==>
              FormatDocumentNumber("JE", db.entries[i].number.year, db.entries[i].number.sequence)
              != FormatDocumentNumber("JE", db.entries[j].number.year, db.entries[j].number.sequence)
  {
    var a, b := db.entries[i], db.entries[j];
    assert HeaderOk(db, i) && HeaderOk(db, j);
    assert db.entries[..j][..i] == db.entries[..i];
    DrawnAtMost(db.entries[..j], i, a.companyId, a.number.year);
    if a.number.year >= 0 && b.number.year >= 0 {
      FormatDocumentNumberInjective("JE", a.number.year, a.number.sequence, b.number.year, b.number.sequence);
    }
  }

  // ---- The three things a step can do to the journal ----

  ghost predicate SameJournal(db: Db, d: Db) {
    d.entries == db.entries && d.lines == db.lines
  }

  /** One draft became posted, in a period open for posting, or cancelled. */
  ghost predicate DraftDecided(db: Db, d: Db, id: nat) {
    && id < |db.entries| && db.entries[id].status == Draft && db.entries[id].sourceId == None
    && d.lines == db.lines && |d.entries| == |db.entries|
    && d.entries == db.entries[id := d.entries[id]]
    && d.entries[id].companyId == db.entries[id].companyId && d.entries[id].number == db.entries[id].number
    && d.entries[id].periodId == db.entries[id].periodId && d.entries[id].entryDate == db.entries[id].entryDate
    && d.entries[id].sourceType == db.entries[id].sourceType && d.entries[id].sourceId == None
    && d.entries[id].branchId == db.entries[id].branchId
    && (d.entries[id].status == Cancelled
        || (d.entries[id].status == Posted && Postable(db, db.entries[id].periodId)))
  }

  /** One journal was appended, in a period that is open for posting or was created with it. */
  ghost predicate JournalAdded(db: Db, d: Db) {
    && |d.entries| == |db.entries| + 1
    && d.entries[..|db.entries|] == db.entries
    && |d.lines| >= |db.lines| && d.lines[..|db.lines|] == db.lines
    && (forall i :: |db.lines| <= i < |d.lines| ==> d.lines[i].entryId == |db.entries|)
    && (d.entries[|db.entries|].periodId >= |db.periods| || Postable(db, d.entries[|db.entries|].periodId))
  }

  ghost predicate StepShape(db: Db, d: Db) {
    SameJournal(db, d) || (exists id: nat :: DraftDecided(db, d, id)) || JournalAdded(db, d)
  }

  lemma AddedShape(db: Db, p: Db, e: Entry, lines: seq<LineInput>)
    requires p.entries == db.entries && p.lines == db.lines
    requires e.periodId >= |db.periods| || Postable(db, e.periodId)
    ensures JournalAdded(db, WithJournal(p, e, lines))
  {
  }

  lemma ResolvedPeriod(db: Db, companyId: nat, at: int)
    ensures var a := ResolveOpenPeriod(db, companyId, at);
      a.result.Ok? ==> a.result.value >= |db.periods| || Postable(db, a.result.value)
  {
    if FindPeriod(db, companyId, DayOf(at)) == None {
      SecondLookupFindsNothing(db, companyId, at);
    }
  }

  lemma InternalShape(db: Db, j: InternalJournal, now: int)
    requires Inv(db)
    ensures var a := CreateInternal(db, j, now);
      a.result.Ok? ==> JournalAdded(db, a.db) && a.result.value == |db.entries|
  {
    var a := CreateInternal(db, j, now);
    if a.result.Ok? {
      ResolveOpenPeriodCorrect(db, j.companyId, j.entryDate);
      ResolvedPeriod(db, j.companyId, j.entryDate);
      var p := ResolveOpenPeriod(db, j.companyId, j.entryDate);
      var e := InternalEntry(j, DoubleEntry.CheckBalanced(InputAmounts(j.lines)).value, p.result.value, now);
      NumberAndSaveEffect(p.db, e, j.lines);
      AddedShape(db, p.db, e, j.lines);
    }
  }

  lemma CreateShape(db: Db, companyId: nat, userId: nat, dto: NewJournal, now: int)
    requires Inv(db)
    ensures StepShape(db, Create(db, companyId, userId, dto, now).db)
  {
    var at := if dto.entryDate.Some? then dto.entryDate.value else now;
    var a := CreateBody(db, companyId, userId, dto, now);
    if a.result.Ok? {
      ResolveOpenPeriodCorrect(db, companyId, at);
      ResolvedPeriod(db, companyId, at);
      var p := ResolveOpenPeriod(db, companyId, at);
      var e := DraftEntry(companyId, userId, dto, at, p.result.value);
      NumberAndSaveEffect(p.db, e, dto.lines);
      AddedShape(db, p.db, e, dto.lines);
    }
  }

  lemma PostPaymentShape(db: Db, p: PaymentRow, parties: Parties, userId: nat, now: int)
    requires Inv(db)
    ensures var d := PostPayment(db, p, parties, userId, now).db;
      SameJournal(db, d) || JournalAdded(db, d)
  {
    if FindBySource(db, p.companyId, Payment, p.id) == None && MapPayment(db, p, parties).Ok? {
      var j := PaymentJournal(p, MapPayment(db, p, parties).value, userId);
      FirstPosting(db, p, parties, userId, now);
      InternalShape(db, j, now);
    } else if FindBySource(db, p.companyId, Payment, p.id) == None {
      FirstPosting(db, p, parties, userId, now);
    }
  }

  lemma ReversePaymentShape(db: Db, p: PaymentRow, userId: nat, now: int, uuid: nat)
    requires Inv(db)
    ensures var d := ReversePayment(db, p, userId, now, uuid).db;
      SameJournal(db, d) || JournalAdded(db, d)
  {
    var original := FindBySource(db, p.companyId, Payment, p.id);
    if original.Some? {
      InternalShape(db, ReversalJournal(p, EntryLines(db, original.value), userId, now, uuid), now);
    }
  }

  lemma PostShape(db: Db, id: nat, companyId: nat, userId: nat, now: int)
    requires Inv(db) && Post(db, id, companyId, userId, now).result.Ok?
    ensures DraftDecided(db, Post(db, id, companyId, userId, now).db, id)
  {
    assert HeaderOk(db, id);
  }

  lemma CancelShape(db: Db, id: nat, companyId: nat)
    requires Inv(db) && Cancel(db, id, companyId).result.Ok?
    ensures DraftDecided(db, Cancel(db, id, companyId).db, id)
  {
    assert HeaderOk(db, id);
  }

  lemma ShapeOfStep(db: Db, s: Step)
    requires Inv(db)
    ensures StepShape(db, Apply(db, s))
  {
    match s
    case CreateStep(c, u, dto, now) => CreateShape(db, c, u, dto, now);
    case PostStep(id, c, u, now) =>
      if Post(db, id, c, u, now).result.Ok? {
        PostShape(db, id, c, u, now);
      }
    case CancelStep(id, c) =>
      if Cancel(db, id, c).result.Ok? {
        CancelShape(db, id, c);
      }
    case PostPaymentStep(p, parties, u, now) => PostPaymentShape(db, p, parties, u, now);
    case ReversePaymentStep(p, u, now, uuid) => ReversePaymentShape(db, p, u, now, uuid);
    case _ =>
  }

  // ---- Decided entries are final ----

  /** Lines of existing entries are neither added, changed nor removed. */
  lemma LinesOfEntryKept(db: Db, d: Db, id: nat)
    requires LinesOk(db) && StepShape(db, d) && id < |db.entries|
    ensures EntryLines(d, id) == EntryLines(db, id)
  {
    if JournalAdded(db, d) {
      AppendedLines(db, d, d.lines[|db.lines|..]);
    }
  }

  predicate EntryKept(db: Db, d: Db, id: nat) {
    && id < |db.entries| && id < |d.entries|
    && EntryLines(d, id) == EntryLines(db, id)
    && (db.entries[id].status != Draft ==> d.entries[id] == db.entries[id])
    && d.entries[id].companyId == db.entries[id].companyId
    && d.entries[id].number == db.entries[id].number
    && d.entries[id].periodId == db.entries[id].periodId
    && d.entries[id].entryDate == db.entries[id].entryDate
  }

  lemma EntryKeptByStep(db: Db, d: Db, id: nat)
    requires LinesOk(db) && StepShape(db, d) && id < |db.entries|
    ensures EntryKept(db, d, id)
  {
    LinesOfEntryKept(db, d, id);
    if JournalAdded(db, d) {
      assert d.entries[id] == d.entries[..|db.entries|][id];
    }
  }

  /** In every run an entry that is POSTED or CANCELLED, and every line it has, stays as it is;
      a draft keeps its lines, number, period, date and company. */
  lemma {:induction false} DecidedIsFinal(db: Db, steps: seq<Step>, id: nat)
    requires Inv(db) && id < |db.entries|
    ensures EntryKept(db, Run(db, steps), id)
  {
    if steps != [] {
      var n := |steps| - 1;
      DecidedIsFinal(db, steps[..n], id);
      LaterStepKeeps(db, steps[..n], steps[n], id);
    }
  }

  lemma LaterStepKeeps(db: Db, before: seq<Step>, s: Step, id: nat)
    requires Inv(db) && EntryKept(db, Run(db, before), id)
    ensures EntryKept(db, Apply(Run(db, before), s), id)
  {
    RunKeepsInv(db, before);
    ShapeOfStep(Run(db, before), s);
    EntryKeptByStep(Run(db, before), Apply(Run(db, before), s), id);
  }

  // ---- Shut periods are frozen ----

  function PostedInPeriod(entries: seq<Entry>, p: nat): Line -> bool {
    (l: Line) => l.entryId < |entries| && entries[l.entryId].status == Posted && entries[l.entryId].periodId == p
  }

  /** The posted lines of a period, in table order. */
  function PeriodLines(db: Db, p: nat): seq<Line> {
    Filter(db.lines, PostedInPeriod(db.entries, p))
  }

  function PostedOnDays(entries: seq<Entry>, companyId: nat, from: int, to: int): Line -> bool {
    (l: Line) =>
      && l.entryId < |entries| && entries[l.entryId].status == Posted
      && entries[l.entryId].companyId == companyId && from <= DayOf(entries[l.entryId].entryDate) <= to
  }

  /** The posted lines of a company dated on given days. */
  function DayLines(db: Db, companyId: nat, from: int, to: int): seq<Line> {
    Filter(db.lines, PostedOnDays(db.entries, companyId, from, to))
  }

  /** The two ways of saying which lines a period holds agree. */
  lemma PeriodLinesAreDayLines(db: Db, p: nat)
    requires Inv(db) && p < |db.periods|
    ensures Owner(db, p).Some?
    ensures PeriodLines(db, p) == DayLines(db, Owner(db, p).value, db.periods[p].startDay, db.periods[p].endDay)
  {
    assert PeriodOk(db, p);
    var c, from, to := Owner(db, p).value, db.periods[p].startDay, db.periods[p].endDay;
    forall l | l in db.lines
      ensures PostedInPeriod(db.entries, p)(l) == PostedOnDays(db.entries, c, from, to)(l)
    {
      var i :| 0 <= i < |db.lines| && db.lines[i] == l;
      assert LineOk(db, db.lines[i]);
      assert HeaderOk(db, l.entryId);
      var e := db.entries[l.entryId];
      if Covers(db, p, e.companyId, DayOf(e.entryDate)) {
        CoveringPeriodUnique(db, p, e.periodId, e.companyId, DayOf(e.entryDate));
      }
    }
    FilterSame(db.lines, PostedInPeriod(db.entries, p), PostedOnDays(db.entries, c, from, to));
  }

  lemma ShutStepFrozen(db: Db, d: Db, p: nat)
    requires LinesOk(db) && StepShape(db, d) && p < |db.periods| && !Postable(db, p)
    ensures PeriodLines(d, p) == PeriodLines(db, p)
  {
    var f, g := PostedInPeriod(db.entries, p), PostedInPeriod(d.entries, p);
    forall l | l in db.lines ensures f(l) == g(l) {
      var i :| 0 <= i < |db.lines| && db.lines[i] == l;
      assert LineOk(db, db.lines[i]);
    }
    FilterSame(db.lines, f, g);
    if JournalAdded(db, d) {
      var rows := d.lines[|db.lines|..];
      assert d.lines == db.lines + rows;
      FilterConcat(db.lines, rows, g);
      FilterNone(rows, g);
    }
  }

  /** Before every step of the run the period is locked or its fiscal year is closed. */
  ghost predicate StaysShut(db: Db, steps: seq<Step>, p: nat) {
    forall k :: 0 <= k < |steps| ==> !Postable(Run(db, steps[..k]), p)
  }

  ghost predicate PeriodKept(db: Db, d: Db, p: nat)
    requires p < |db.periods|
  {
    && p < |d.periods|
    && d.periods[p] == db.periods[p].(status := d.periods[p].status)
    && (YearOfPeriod(db, p).Some? ==> Owner(d, p) == Owner(db, p))
  }

  lemma SavingKeepsPeriods(db: Db, e: Entry, lines: seq<LineInput>)
    ensures NumberAndSave(db, e, lines).result.Ok? ==>
              && NumberAndSave(db, e, lines).db.periods == db.periods
              && NumberAndSave(db, e, lines).db.years == db.years
  {
    NumberAndSaveEffect(db, e, lines);
  }

  lemma InternalKeepsPeriod(db: Db, j: InternalJournal, now: int, p: nat)
    requires p < |db.periods|
    ensures CreateInternal(db, j, now).result.Ok? ==> PeriodKept(db, CreateInternal(db, j, now).db, p)
  {
    var a := CreateInternal(db, j, now);
    if a.result.Ok? {
      var r := ResolveOpenPeriod(db, j.companyId, j.entryDate);
      var total := DoubleEntry.CheckBalanced(InputAmounts(j.lines)).value;
      SavingKeepsPeriods(r.db, InternalEntry(j, total, r.result.value, now), j.lines);
    }
  }

  lemma CreateKeepsPeriod(db: Db, companyId: nat, userId: nat, dto: NewJournal, now: int, p: nat)
    requires p < |db.periods|
    ensures PeriodKept(db, Create(db, companyId, userId, dto, now).db, p)
  {
    var at := if dto.entryDate.Some? then dto.entryDate.value else now;
    if CreateBody(db, companyId, userId, dto, now).result.Ok? {
      var r := ResolveOpenPeriod(db, companyId, at);
      SavingKeepsPeriods(r.db, DraftEntry(companyId, userId, dto, at, r.result.value), dto.lines);
    }
  }

  lemma PostPaymentKeepsPeriod(db: Db, pay: PaymentRow, parties: Parties, userId: nat, now: int, p: nat)
    requires Inv(db) && p < |db.periods|
    ensures PeriodKept(db, PostPayment(db, pay, parties, userId, now).db, p)
  {
    if FindBySource(db, pay.companyId, Payment, pay.id) == None && MapPayment(db, pay, parties).Ok? {
      var j := PaymentJournal(pay, MapPayment(db, pay, parties).value, userId);
      FirstPosting(db, pay, parties, userId, now);
      InternalKeepsPeriod(db, j, now, p);
    }
  }

  lemma ReversePaymentKeepsPeriod(db: Db, pay: PaymentRow, userId: nat, now: int, uuid: nat, p: nat)
    requires p < |db.periods|
    ensures PeriodKept(db, ReversePayment(db, pay, userId, now, uuid).db, p)
  {
    var original := FindBySource(db, pay.companyId, Payment, pay.id);
    if original.Some? {
      InternalKeepsPeriod(db, ReversalJournal(pay, EntryLines(db, original.value), userId, now, uuid), now, p);
    }
  }

  lemma PeriodPersistsStep(db: Db, s: Step, p: nat)
    requires Inv(db) && p < |db.periods|
    ensures PeriodKept(db, Apply(db, s), p)
  {
    match s
    case CreateStep(c, u, dto, now) => CreateKeepsPeriod(db, c, u, dto, now, p);
    case PostPaymentStep(pay, parties, u, now) => PostPaymentKeepsPeriod(db, pay, parties, u, now, p);
    case ReversePaymentStep(pay, u, now, uuid) => ReversePaymentKeepsPeriod(db, pay, u, now, uuid, p);
    case _ =>
  }

  lemma {:induction false} PeriodsPersist(db: Db, steps: seq<Step>, p: nat)
    requires Inv(db) && p < |db.periods|
    ensures PeriodKept(db, Run(db, steps), p)
  {
    if steps != [] {
      var before := steps[..|steps| - 1];
      PeriodsPersist(db, before, p);
      RunKeepsInv(db, before);
      PeriodPersistsStep(Run(db, before), steps[|steps| - 1], p);
      assert PeriodOk(Run(db, before), p);
    }
  }

  lemma ShutPrefix(db: Db, steps: seq<Step>, p: nat)
    requires steps != [] && StaysShut(db, steps, p)
    ensures StaysShut(db, steps[..|steps| - 1], p) && !Postable(Run(db, steps[..|steps| - 1]), p)
  {
    var n := |steps| - 1;
    forall k | 0 <= k < n ensures !Postable(Run(db, steps[..n][..k]), p) {
      assert steps[..n][..k] == steps[..k];
    }
  }

  /** Over any run segment in which a period stays shut, its posted lines do not change: not as a
      sequence, not as the posted lines dated on its days. */
  lemma {:induction false} ShutPeriodFrozen(db: Db, steps: seq<Step>, p: nat)
    requires Inv(db) && p < |db.periods| && StaysShut(db, steps, p)
    ensures PeriodLines(Run(db, steps), p) == PeriodLines(db, p)
  {
    if steps != [] {
      var before := steps[..|steps| - 1];
      ShutPrefix(db, steps, p);
      ShutPeriodFrozen(db, before, p);
      RunKeepsInv(db, before);
      PeriodsPersist(db, before, p);
      ShapeOfStep(Run(db, before), steps[|steps| - 1]);
      ShutStepFrozen(Run(db, before), Run(db, steps), p);
    }
  }

  lemma ShutDaysFrozen(db: Db, steps: seq<Step>, p: nat)
    requires Inv(db) && p < |db.periods| && StaysShut(db, steps, p)
    ensures Owner(db, p).Some?
    ensures var c, from, to := Owner(db, p).value, db.periods[p].startDay, db.periods[p].endDay;
      DayLines(Run(db, steps), c, from, to) == DayLines(db, c, from, to)
  {
    PeriodLinesAreDayLines(db, p);
    RunKeepsInv(db, steps);
    PeriodsPersist(db, steps, p);
    PeriodLinesAreDayLines(Run(db, steps), p);
    ShutPeriodFrozen(db, steps, p);
  }

  // ---- Payments are posted once ----

  /** In consistent tables at most one entry has a given source. */
  lemma SameSourceSameEntry(db: Db, i: nat, j: nat, companyId: nat, sourceType: SourceType, sourceId: nat)
    requires SourcesUnique(db) && i < |db.entries| && j < |db.entries|
    requires SourceIs(db.entries[i], companyId, sourceType, sourceId)
    requires SourceIs(db.entries[j], companyId, sourceType, sourceId)
    ensures i == j
  {
    assert i < j ==> SameSource(db.entries[i], db.entries[j]);
    assert j < i ==> SameSource(db.entries[j], db.entries[i]);
  }

  /** In every reachable state two entries never share company, source type and source id. */
  lemma SourceUnique(steps: seq<Step>, i: nat, j: nat, companyId: nat, sourceType: SourceType, sourceId: nat)
    requires i < |Run(Empty(), steps).entries| && j < |Run(Empty(), steps).entries|
    requires SourceIs(Run(Empty(), steps).entries[i], companyId, sourceType, sourceId)
    requires SourceIs(Run(Empty(), steps).entries[j], companyId, sourceType, sourceId)
    ensures i == j
  {
    EmptyInv();
    RunKeepsInv(Empty(), steps);
    SameSourceSameEntry(Run(Empty(), steps), i, j, companyId, sourceType, sourceId);
  }

  /** Once an entry is found by its source, every later state finds the same entry: reversals and
      other journals never shadow it. */
  lemma FoundForever(db: Db, steps: seq<Step>, companyId: nat, sourceType: SourceType, sourceId: nat)
    requires Inv(db) && FindBySource(db, companyId, sourceType, sourceId).Some?
    ensures FindBySource(Run(db, steps), companyId, sourceType, sourceId)
            == FindBySource(db, companyId, sourceType, sourceId)
  {
    var id := FindBySource(db, companyId, sourceType, sourceId).value;
    var d := Run(db, steps);
    RunKeepsInv(db, steps);
    assert HeaderOk(db, id);
    DecidedIsFinal(db, steps, id);
    var found := FindBySource(d, companyId, sourceType, sourceId);
    assert found.Some?;
    SameSourceSameEntry(d, id, found.value, companyId, sourceType, sourceId);
  }

  /** Posting a payment again, at any later time and with any accounts configured by then, returns
      the first entry and writes nothing. */
  lemma PostPaymentIdempotent(db: Db, p: PaymentRow, parties: Parties, userId: nat, now: int,
                              steps: seq<Step>, parties': Parties, userId': nat, now': int)
    requires Inv(db) && PostPayment(db, p, parties, userId, now).result.Ok?
    ensures var first := PostPayment(db, p, parties, userId, now);
      var later := Run(first.db, steps);
      PostPayment(later, p, parties', userId', now') == Attempt(later, first.result)
  {
    var first := PostPayment(db, p, parties, userId, now);
    PostPaymentKeepsInv(db, p, parties, userId, now);
    if FindBySource(db, p.companyId, Payment, p.id) == None {
      PostedPaymentFound(db, p, parties, userId, now);
    }
    FoundForever(first.db, steps, p.companyId, Payment, p.id);
  }

  lemma PostedPaymentFound(db: Db, p: PaymentRow, parties: Parties, userId: nat, now: int)
    requires Inv(db) && FindBySource(db, p.companyId, Payment, p.id) == None
    requires PostPayment(db, p, parties, userId, now).result.Ok?
    ensures var a := PostPayment(db, p, parties, userId, now);
      && a.result == Ok(|db.entries|)
      && FindBySource(a.db, p.companyId, Payment, p.id) == Some(|db.entries|)
  {
    var a := PostPayment(db, p, parties, userId, now);
    FirstPosting(db, p, parties, userId, now);
    var m := MapPayment(db, p, parties).value;
    var j := PaymentJournal(p, m, userId);
    InternalShape(db, j, now);
    InternalSource(db, j, now);
    PostPaymentKeepsInv(db, p, parties, userId, now);
    var found := FindBySource(a.db, p.companyId, Payment, p.id);
    SameSourceSameEntry(a.db, found.value, |db.entries|, p.companyId, Payment, p.id);
  }

  lemma InternalSource(db: Db, j: InternalJournal, now: int)
    requires Inv(db)
    ensures var a := CreateInternal(db, j, now);
      a.result.Ok? ==>
        && |a.db.entries| == |db.entries| + 1
        && SourceIs(a.db.entries[|db.entries|], j.companyId, j.sourceType, j.sourceId)
        && a.db.entries[|db.entries|].entryDate == j.entryDate
        && a.db.lines == db.lines + RowsOf(|db.entries|, j.lines)
  {
    var a := CreateInternal(db, j, now);
    if a.result.Ok? {
      ResolveOpenPeriodCorrect(db, j.companyId, j.entryDate);
      var p := ResolveOpenPeriod(db, j.companyId, j.entryDate);
      var total := DoubleEntry.CheckBalanced(InputAmounts(j.lines)).value;
      NumberAndSaveEffect(p.db, InternalEntry(j, total, p.result.value, now), j.lines);
    }
  }

  /** In every reachable state, for drafts, posted and cancelled entries alike, the header totals
      are the sums of the lines, and every line's account belongs to the entry's company. */
  lemma HeadersMatchLines(steps: seq<Step>, id: nat)
    requires id < |Run(Empty(), steps).entries|
    ensures var db := Run(Empty(), steps);
      && db.entries[id].totalDebit == Sum(EntryLines(db, id), LineDebit)
      && db.entries[id].totalCredit == Sum(EntryLines(db, id), LineCredit)
      && (db.entries[id].status == Posted ==> db.entries[id].totalDebit == db.entries[id].totalCredit)
      && forall l :: l in EntryLines(db, id) ==> Accounts.InCompany(db.accounts, l.accountId, db.entries[id].companyId)
  {
    EmptyInv();
    RunKeepsInv(Empty(), steps);
    var db := Run(Empty(), steps);
    assert TotalsOk(db, id);
    AmountSums(EntryLines(db, id));
    forall l | l in EntryLines(db, id)
      ensures Accounts.InCompany(db.accounts, l.accountId, db.entries[id].companyId)
    {
      var i :| 0 <= i < |db.lines| && db.lines[i] == l;
      assert LineOk(db, db.lines[i]);
    }
  }
}
