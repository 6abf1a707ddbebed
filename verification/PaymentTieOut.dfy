/** Automatic postings tie out to the payments behind them, account by account. */
module PaymentTieOut {
  import opened Wrappers
  import opened Errors
  import opened Sums
  import DoubleEntry
  import opened LedgerModel
  import opened LedgerInvariant
  import opened LedgerHistory
  import opened LedgerQueries
  import LedgerEffects
  import PaymentEffects
  import Decimals

  /** A posted payment: the entry it made, which way the money went, the cash account, the account
      of the customer or supplier, and how often it was reversed since. */
  datatype Item = Item(
    entryId: nat, paymentId: nat, direction: Direction, cash: nat, party: nat, amount: int, reversals: nat)

  /** The payments a run posted, in order. */
  type Log = seq<Item>

  function ItemFor(log: Log, entryId: nat): (k: nat)
    ensures k <= |log|
    ensures k < |log| ==> log[k].entryId == entryId
    ensures k == |log| ==> forall i :: 0 <= i < |log| ==> log[i].entryId != entryId
  {
    if log == [] then 0
    else
      var k := ItemFor(log[..|log| - 1], entryId);
      if k < |log| - 1 then k
      else if log[|log| - 1].entryId == entryId then |log| - 1
      else |log|
  }

  /** The customer's receivable account for money received, the supplier's payable account for money
      paid. */
  function PartyAccount(p: PaymentRow, parties: Parties): Option<nat> {
    match p.direction
    case Receipt => if parties.customer.Some? then parties.customer.value.receivableAccountId else None
    case Payout => if parties.supplier.Some? then parties.supplier.value.payableAccountId else None
    case Refund => None
  }

  /** The item a payment opens when it is posted now. */
  function ItemOf(db: Db, p: PaymentRow, parties: Parties): Option<Item> {
    match (parties.glAccountId, PartyAccount(p, parties))
    case (Some(cash), Some(party)) => Some(Item(|db.entries|, p.id, p.direction, cash, party, p.amount, 0))
    case _ => None
  }

  /** The payment has no entry yet and can be posted: its accounts can be used, its amount is positive
      and fits, and its day admits postings. */
  predicate Opens(db: Db, p: PaymentRow, parties: Parties) {
    && !PaymentEffects.HasSource(db, p.companyId, Payment, p.id)
    && ItemOf(db, p, parties).Some?
    && var i := ItemOf(db, p, parties).value;
       && (if p.direction == Receipt then PaymentEffects.PaysBetween(db, p, parties, i.cash, i.party)
           else PaymentEffects.PaysBetween(db, p, parties, i.party, i.cash))
       && p.amount > 0 && Decimals.FitsColumn(p.amount)
       && LedgerEffects.DayAdmitsPostings(db, p.companyId, p.paymentDate)
  }

  /** The payment can be reversed: it is no refund, it has an entry, today admits postings, and the
      random id is new. */
  predicate Reverses(db: Db, p: PaymentRow, now: int, uuid: nat) {
    && p.direction != Refund
    && PaymentEffects.HasSource(db, p.companyId, Payment, p.id)
    && LedgerEffects.DayAdmitsPostings(db, p.companyId, now)
    && !PaymentEffects.HasSource(db, p.companyId, Manual, uuid)
  }

  /** A request to post a payment that can be posted opens an item; one to reverse a payment that can be
      reversed counts against the item of the payment's entry. The log asks the tables what is to
      happen, not the services what they have done. */
  function Logged(db: Db, log: Log, s: Step): Log {
    match s
    case PostPaymentStep(p, parties, u, now) =>
      if Opens(db, p, parties) then log + [ItemOf(db, p, parties).value] else log
    case ReversePaymentStep(p, u, now, uuid) =>
      var original := FindBySource(db, p.companyId, Payment, p.id);
      if Reverses(db, p, now, uuid) && original.Some? && ItemFor(log, original.value) < |log| then
        var k := ItemFor(log, original.value);
        log[k := log[k].(reversals := log[k].reversals + 1)]
      else log
    case _ => log
  }

  lemma PaysAsItem(db: Db, p: PaymentRow, parties: Parties)
    ensures (exists debited: nat, credited: nat :: PaymentEffects.PaysBetween(db, p, parties, debited, credited))
       <==> && ItemOf(db, p, parties).Some?
            && var i := ItemOf(db, p, parties).value;
               if p.direction == Receipt then PaymentEffects.PaysBetween(db, p, parties, i.cash, i.party)
               else PaymentEffects.PaysBetween(db, p, parties, i.party, i.cash)
  {
  }

  /** The service posts a first time exactly when the payment can be posted. */
  lemma OpensIff(db: Db, p: PaymentRow, parties: Parties, userId: nat, now: int)
    requires Inv(db)
    ensures Opens(db, p, parties) <==>
              && FindBySource(db, p.companyId, Payment, p.id) == None
              && PostPayment(db, p, parties, userId, now).result.Ok?
  {
    PaymentEffects.PostPaymentSucceedsIff(db, p, parties, userId, now);
    PaymentEffects.FindsSource(db, p.companyId, Payment, p.id);
    PaysAsItem(db, p, parties);
  }

  /** The service writes a reversal exactly when the payment can be reversed. */
  lemma ReversesIff(db: Db, p: PaymentRow, userId: nat, now: int, uuid: nat)
    requires Inv(db)
    ensures var r := ReversePayment(db, p, userId, now, uuid).result;
      Reverses(db, p, now, uuid) <==> r.Ok? && r.value.Some?
  {
    PaymentEffects.ReversalAnswers(db, p, userId, now, uuid);
  }

  function LogOf(db: Db, steps: seq<Step>): Log {
    if steps == [] then []
    else
      var before := steps[..|steps| - 1];
      Logged(Run(db, before), LogOf(db, before), steps[|steps| - 1])
  }

  /** Money received raises the cash account, money paid lowers it. */
  function CashSign(d: Direction): int {
    match d
    case Receipt => 1
    case Payout => -1
    case Refund => 0
  }

  /** The sign of a payment in the net debit of an account: that of its cash account, and the
      opposite for the party's; both, so 0, when they are the same account. */
  function Sides(i: Item, accountId: nat): int {
    (if i.cash == accountId then CashSign(i.direction) else 0)
    - (if i.party == accountId then CashSign(i.direction) else 0)
  }

  /** A payment counts once, and each reversal takes it back once. */
  function Signed(accountId: nat): Item -> int {
    (i: Item) => (1 - i.reversals) * i.amount * Sides(i, accountId)
  }

  function Expected(log: Log, accountId: nat): int {
    Sum(log, Signed(accountId))
  }

  /** The net debit of an account over the lines of automatic journals: those that name a source. */
  function AutomaticNet(entries: seq<Entry>, accountId: nat): Line -> int {
    (l: Line) =>
      if l.entryId < |entries| && entries[l.entryId].sourceId.Some? && l.accountId == accountId then LineNet(l) else 0
  }

  function Contributed(db: Db, accountId: nat): int {
    Sum(db.lines, AutomaticNet(db.entries, accountId))
  }

  /** The debit line, then the credit line. */
  function ItemRows(i: Item): seq<Line> {
    var (debited, credited) := if i.direction == Receipt then (i.cash, i.party) else (i.party, i.cash);
    [Line(i.entryId, debited, i.amount, 0, Some(PaymentReference), Some(i.paymentId)),
     Line(i.entryId, credited, 0, i.amount, Some(PaymentReference), Some(i.paymentId))]
  }

  predicate ItemOk(db: Db, i: Item) {
    && i.entryId < |db.entries| && i.direction != Refund
    && db.entries[i.entryId].sourceType == Payment
    && db.entries[i.entryId].status == Posted
    && EntryLines(db, i.entryId) == ItemRows(i)
  }

  ghost predicate TiesOut(db: Db, log: Log) {
    && (forall accountId: nat :: Contributed(db, accountId) == Expected(log, accountId))
    && (forall k :: 0 <= k < |log| ==> ItemOk(db, log[k]))
    && (forall id: nat :: id < |db.entries| && db.entries[id].sourceType == Payment ==> ItemFor(log, id) < |log|)
  }

  // ---- What a step adds to an account ----

  function OnAccountNet(accountId: nat): Line -> int {
    (l: Line) => if l.accountId == accountId then LineNet(l) else 0
  }

  lemma ContributedKept(db: Db, d: Db, accountId: nat)
    requires LinesOk(db)
    requires SameJournal(db, d) || exists id: nat :: DraftDecided(db, d, id)
    ensures Contributed(d, accountId) == Contributed(db, accountId)
  {
    forall l | l in db.lines
      ensures AutomaticNet(db.entries, accountId)(l) == AutomaticNet(d.entries, accountId)(l)
    {
      var i :| 0 <= i < |db.lines| && db.lines[i] == l;
      assert LineOk(db, db.lines[i]);
    }
    SumSame(db.lines, AutomaticNet(db.entries, accountId), AutomaticNet(d.entries, accountId));
  }

  lemma ContributedAdded(db: Db, d: Db, accountId: nat)
    requires LinesOk(db) && JournalAdded(db, d)
    ensures Contributed(d, accountId) == Contributed(db, accountId) +
              if d.entries[|db.entries|].sourceId.Some? then Sum(d.lines[|db.lines|..], OnAccountNet(accountId)) else 0
  {
    var rows := d.lines[|db.lines|..];
    var f, g := AutomaticNet(db.entries, accountId), AutomaticNet(d.entries, accountId);
    assert d.lines == db.lines + rows;
    SumConcat(db.lines, rows, g);
    forall l | l in db.lines ensures f(l) == g(l) {
      var i :| 0 <= i < |db.lines| && db.lines[i] == l;
      assert LineOk(db, db.lines[i]);
    }
    SumSame(db.lines, f, g);
    if d.entries[|db.entries|].sourceId.Some? {
      SumSame(rows, g, OnAccountNet(accountId));
    } else {
      SumZero(rows, g);
    }
  }

  lemma TwoLines(a: Line, b: Line, f: Line -> int)
    ensures Sum([a, b], f) == f(a) + f(b)
  {
    assert [a, b][..1] == [a];
    assert Sum([a], f) == f(a);
  }

  lemma ItemNet(i: Item, accountId: nat)
    requires i.direction != Refund
    ensures Sum(ItemRows(i), OnAccountNet(accountId)) == i.amount * Sides(i, accountId)
  {
    var rows := ItemRows(i);
    TwoLines(rows[0], rows[1], OnAccountNet(accountId));
  }

  lemma ReversedNet(i: Item, n: nat, paymentId: nat, accountId: nat)
    requires i.direction != Refund
    ensures Sum(RowsOf(n, ReversedLines(ItemRows(i), paymentId)), OnAccountNet(accountId))
            == -(i.amount * Sides(i, accountId))
  {
    var rows := RowsOf(n, ReversedLines(ItemRows(i), paymentId));
    assert rows == [rows[0], rows[1]];
    TwoLines(rows[0], rows[1], OnAccountNet(accountId));
  }

  // ---- Each step keeps the books tied out ----

  lemma ItemsKept(db: Db, d: Db, log: Log)
    requires Inv(db) && StepShape(db, d)
    requires forall k :: 0 <= k < |log| ==> ItemOk(db, log[k])
    ensures forall k :: 0 <= k < |log| ==> ItemOk(d, log[k])
  {
    forall k | 0 <= k < |log| ensures ItemOk(d, log[k]) {
      assert ItemOk(db, log[k]);
      LinesOfEntryKept(db, d, log[k].entryId);
    }
  }

  /** The journal a first posting writes. */
  ghost predicate PostingWritten(db: Db, d: Db, i: Item) {
    && StepShape(db, d) && JournalAdded(db, d)
    && i.entryId == |db.entries| && i.reversals == 0 && i.direction != Refund
    && d.entries[i.entryId].sourceId.Some? && d.entries[i.entryId].sourceType == Payment
    && d.entries[i.entryId].status == Posted
    && d.lines[|db.lines|..] == ItemRows(i)
  }

  /** A payment that can be mapped debits cash and credits the customer's receivable account when
      money came in; it debits the supplier's payable account and credits cash when money went out. */
  lemma MappedSides(db: Db, p: PaymentRow, parties: Parties)
    ensures var m := MapPayment(db, p, parties);
      m.Ok? ==>
        && ItemOf(db, p, parties).Some? && p.direction != Refund
        && var i := ItemOf(db, p, parties).value;
           m.value == if i.direction == Receipt then Mapping(i.cash, i.party) else Mapping(i.party, i.cash)
  {
  }

  lemma PostingWrites(db: Db, p: PaymentRow, parties: Parties, userId: nat, now: int)
    requires Inv(db) && FindBySource(db, p.companyId, Payment, p.id) == None
    requires PostPayment(db, p, parties, userId, now).result.Ok?
    ensures ItemOf(db, p, parties).Some?
    ensures PostingWritten(db, PostPayment(db, p, parties, userId, now).db, ItemOf(db, p, parties).value)
  {
    FirstPosting(db, p, parties, userId, now);
    MappedSides(db, p, parties);
    var m := MapPayment(db, p, parties).value;
    var j := PaymentJournal(p, m, userId);
    var d := CreateInternal(db, j, now).db;
    InternalShape(db, j, now);
    InternalSource(db, j, now);
    CreatedPosted(db, j, now);
    assert d.lines[|db.lines|..] == RowsOf(|db.entries|, PaymentLines(p, m));
  }

  lemma PostingTiesOut(db: Db, d: Db, log: Log, i: Item)
    requires Inv(db) && TiesOut(db, log) && PostingWritten(db, d, i)
    ensures TiesOut(d, log + [i])
  {
    AppendedLines(db, d, d.lines[|db.lines|..]);
    ItemsKept(db, d, log);
    forall accountId: nat ensures Contributed(d, accountId) == Expected(log + [i], accountId) {
      assert Contributed(db, accountId) == Expected(log, accountId);
      PostingContributes(db, d, log, i, accountId);
    }
    NewPaymentHasItem(db, d, log, i);
  }

  lemma PostingContributes(db: Db, d: Db, log: Log, i: Item, accountId: nat)
    requires LinesOk(db) && PostingWritten(db, d, i)
    requires Contributed(db, accountId) == Expected(log, accountId)
    ensures Contributed(d, accountId) == Expected(log + [i], accountId)
  {
    ContributedAdded(db, d, accountId);
    ItemNet(i, accountId);
    assert (log + [i])[..|log|] == log;
  }

  lemma NewPaymentHasItem(db: Db, d: Db, log: Log, i: Item)
    requires JournalAdded(db, d) && i.entryId == |db.entries|
    requires forall id: nat :: id < |db.entries| && db.entries[id].sourceType == Payment ==> ItemFor(log, id) < |log|
    ensures forall id: nat :: id < |d.entries| && d.entries[id].sourceType == Payment ==>
              ItemFor(log + [i], id) < |log| + 1
  {
    assert (log + [i])[..|log|] == log;
    forall id: nat | id < |d.entries| && d.entries[id].sourceType == Payment
      ensures ItemFor(log + [i], id) < |log| + 1
    {
      if id < |db.entries| {
        assert d.entries[id] == db.entries[id];
      }
    }
  }

  lemma CreatedPosted(db: Db, j: InternalJournal, now: int)
    requires Inv(db)
    ensures var a := CreateInternal(db, j, now);
      a.result.Ok? ==> |a.db.entries| == |db.entries| + 1 && a.db.entries[|db.entries|].status == Posted
  {
    var a := CreateInternal(db, j, now);
    if a.result.Ok? {
      ResolveOpenPeriodCorrect(db, j.companyId, j.entryDate);
      var p := ResolveOpenPeriod(db, j.companyId, j.entryDate);
      var total := DoubleEntry.CheckBalanced(InputAmounts(j.lines)).value;
      NumberAndSaveEffect(p.db, InternalEntry(j, total, p.result.value, now), j.lines);
    }
  }

  function Reversed(log: Log, k: nat): Log
    requires k < |log|
  {
    log[k := log[k].(reversals := log[k].reversals + 1)]
  }

  lemma ReversedExpectation(log: Log, k: nat, accountId: nat)
    requires k < |log|
    ensures Expected(Reversed(log, k), accountId)
            == Expected(log, accountId) - log[k].amount * Sides(log[k], accountId)
  {
    var i := log[k];
    SumReplaced(log, k, i.(reversals := i.reversals + 1), Signed(accountId));
    OneReversalMore(i.reversals, i.amount * Sides(i, accountId), i.amount, Sides(i, accountId));
  }

  /** The journal a reversal writes. */
  ghost predicate ReversalWritten(db: Db, d: Db, i: Item, paymentId: nat) {
    && StepShape(db, d) && JournalAdded(db, d)
    && d.entries[|db.entries|].sourceId.Some? && d.entries[|db.entries|].sourceType == Manual
    && d.lines[|db.lines|..] == RowsOf(|db.entries|, ReversedLines(ItemRows(i), paymentId))
  }

  lemma ReversalWrites(db: Db, i: Item, p: PaymentRow, userId: nat, now: int, uuid: nat)
    requires Inv(db) && ItemOk(db, i)
    requires FindBySource(db, p.companyId, Payment, p.id) == Some(i.entryId)
    requires ReversePayment(db, p, userId, now, uuid).result.Ok?
    requires ReversePayment(db, p, userId, now, uuid).result.value.Some?
    ensures ReversalWritten(db, ReversePayment(db, p, userId, now, uuid).db, i, p.id)
  {
    var j, n := ReversalJournal(p, EntryLines(db, i.entryId), userId, now, uuid), |db.entries|;
    var d := CreateInternal(db, j, now).db;
    InternalShape(db, j, now);
    InternalSource(db, j, now);
    assert d.lines[|db.lines|..] == RowsOf(n, j.lines);
  }

  lemma ReversingTiesOut(db: Db, d: Db, log: Log, k: nat, paymentId: nat)
    requires Inv(db) && TiesOut(db, log) && k < |log|
    requires ReversalWritten(db, d, log[k], paymentId)
    ensures TiesOut(d, Reversed(log, k))
  {
    var after := Reversed(log, k);
    ItemsKept(db, d, log);
    forall i | 0 <= i < |after| ensures ItemOk(d, after[i]) {
      assert ItemOk(d, log[i]);
    }
    forall accountId: nat ensures Contributed(d, accountId) == Expected(after, accountId) {
      assert Contributed(db, accountId) == Expected(log, accountId);
      ContributedAdded(db, d, accountId);
      ReversedNet(log[k], |db.entries|, paymentId, accountId);
      ReversedExpectation(log, k, accountId);
    }
    EveryPaymentHasItem(db, d, log, k);
  }

  lemma EveryPaymentHasItem(db: Db, d: Db, log: Log, k: nat)
    requires JournalAdded(db, d) && d.entries[|db.entries|].sourceType == Manual && k < |log|
    requires forall id: nat :: id < |db.entries| && db.entries[id].sourceType == Payment ==> ItemFor(log, id) < |log|
    ensures forall id: nat :: id < |d.entries| && d.entries[id].sourceType == Payment ==>
              ItemFor(Reversed(log, k), id) < |log|
  {
    forall id: nat | id < |d.entries| && d.entries[id].sourceType == Payment
      ensures ItemFor(Reversed(log, k), id) < |log|
    {
      assert d.entries[id] == d.entries[..|db.entries|][id];
      HasItem(Reversed(log, k), ItemFor(log, id), id);
    }
  }

  lemma HasItem(log: Log, i: nat, id: nat)
    requires i < |log| && log[i].entryId == id
    ensures ItemFor(log, id) < |log|
  {
  }

  lemma OneReversalMore(r: nat, net: int, amount: int, sides: int)
    requires net == amount * sides
    ensures (1 - (r + 1)) * amount * sides == (1 - r) * amount * sides - net
  {
    assert (1 - (r + 1)) * amount == (1 - r) * amount - amount;
    assert ((1 - r) * amount - amount) * sides == (1 - r) * amount * sides - amount * sides;
  }

  lemma QuietStepTiesOut(db: Db, d: Db, log: Log)
    requires Inv(db) && TiesOut(db, log) && StepShape(db, d)
    requires JournalAdded(db, d) ==>
      d.entries[|db.entries|].sourceId == None && d.entries[|db.entries|].sourceType == Manual
    ensures TiesOut(d, log)
  {
    ItemsKept(db, d, log);
    forall accountId: nat ensures Contributed(d, accountId) == Expected(log, accountId) {
      assert Contributed(db, accountId) == Expected(log, accountId);
      if JournalAdded(db, d) {
        ContributedAdded(db, d, accountId);
      } else {
        ContributedKept(db, d, accountId);
      }
    }
  }

  lemma DraftIsManual(db: Db, companyId: nat, userId: nat, dto: NewJournal, now: int)
    requires Inv(db)
    ensures var a := Create(db, companyId, userId, dto, now);
      a.result.Ok? ==>
        && |a.db.entries| == |db.entries| + 1
        && a.db.entries[|db.entries|].sourceId == None && a.db.entries[|db.entries|].sourceType == Manual
    ensures var a := Create(db, companyId, userId, dto, now); a.result.Err? ==> a.db == db
  {
    var at := if dto.entryDate.Some? then dto.entryDate.value else now;
    if CreateBody(db, companyId, userId, dto, now).result.Ok? {
      ResolveOpenPeriodCorrect(db, companyId, at);
      var p := ResolveOpenPeriod(db, companyId, at);
      NumberAndSaveEffect(p.db, DraftEntry(companyId, userId, dto, at, p.result.value), dto.lines);
    }
  }

  lemma UnpostedKeeps(db: Db, p: PaymentRow, parties: Parties, userId: nat, now: int)
    requires FindBySource(db, p.companyId, Payment, p.id).Some? || PostPayment(db, p, parties, userId, now).result.Err?
    ensures PostPayment(db, p, parties, userId, now).db == db
  {
  }

  lemma PostPaymentTiesOut(db: Db, log: Log, p: PaymentRow, parties: Parties, userId: nat, now: int)
    requires Inv(db) && TiesOut(db, log)
    ensures TiesOut(PostPayment(db, p, parties, userId, now).db,
                    Logged(db, log, PostPaymentStep(p, parties, userId, now)))
  {
    OpensIff(db, p, parties, userId, now);
    if Opens(db, p, parties) {
      PostingWrites(db, p, parties, userId, now);
      PostingTiesOut(db, PostPayment(db, p, parties, userId, now).db, log,
                     ItemOf(db, p, parties).value);
    } else {
      UnpostedKeeps(db, p, parties, userId, now);
    }
  }

  /** A reversal that writes a journal has an original, whose item is in the log. */
  lemma FoundIsPayment(db: Db, companyId: nat, paymentId: nat)
    ensures var r := FindBySource(db, companyId, Payment, paymentId);
      r.Some? ==> r.value < |db.entries| && db.entries[r.value].sourceType == Payment
  {
  }

  lemma ReversedFound(db: Db, p: PaymentRow, userId: nat, now: int, uuid: nat)
    requires ReversePayment(db, p, userId, now, uuid).result.Ok?
    requires ReversePayment(db, p, userId, now, uuid).result.value.Some?
    ensures FindBySource(db, p.companyId, Payment, p.id).Some?
  {
  }

  lemma LoggedReversal(db: Db, log: Log, p: PaymentRow, userId: nat, now: int, uuid: nat, id: nat)
    requires Reverses(db, p, now, uuid) && FindBySource(db, p.companyId, Payment, p.id) == Some(id)
    requires ItemFor(log, id) < |log|
    ensures Logged(db, log, ReversePaymentStep(p, userId, now, uuid)) == Reversed(log, ItemFor(log, id))
  {
  }

  lemma ItemOfFound(db: Db, log: Log, companyId: nat, paymentId: nat, id: nat)
    requires TiesOut(db, log) && FindBySource(db, companyId, Payment, paymentId) == Some(id)
    ensures ItemFor(log, id) < |log| && ItemOk(db, log[ItemFor(log, id)])
  {
    FoundIsPayment(db, companyId, paymentId);
  }

  lemma ReversedItem(db: Db, log: Log, p: PaymentRow, userId: nat, now: int, uuid: nat) returns (k: nat)
    requires Inv(db) && TiesOut(db, log)
    requires ReversePayment(db, p, userId, now, uuid).result.Ok?
    requires ReversePayment(db, p, userId, now, uuid).result.value.Some?
    ensures k < |log| && ItemOk(db, log[k])
    ensures FindBySource(db, p.companyId, Payment, p.id) == Some(log[k].entryId)
    ensures Logged(db, log, ReversePaymentStep(p, userId, now, uuid)) == Reversed(log, k)
  {
    ReversesIff(db, p, userId, now, uuid);
    ReversedFound(db, p, userId, now, uuid);
    var id := FindBySource(db, p.companyId, Payment, p.id).value;
    ItemOfFound(db, log, p.companyId, p.id, id);
    LoggedReversal(db, log, p, userId, now, uuid, id);
    k := ItemFor(log, id);
  }

  lemma ReversePaymentTiesOut(db: Db, log: Log, p: PaymentRow, userId: nat, now: int, uuid: nat)
    requires Inv(db) && TiesOut(db, log)
    ensures TiesOut(ReversePayment(db, p, userId, now, uuid).db,
                    Logged(db, log, ReversePaymentStep(p, userId, now, uuid)))
  {
    var a := ReversePayment(db, p, userId, now, uuid);
    ReversesIff(db, p, userId, now, uuid);
    if a.result.Ok? && a.result.value.Some? {
      var k := ReversedItem(db, log, p, userId, now, uuid);
      ReversalWrites(db, log[k], p, userId, now, uuid);
      ReversingTiesOut(db, a.db, log, k, p.id);
    } else {
      UnreversedKeeps(db, p, userId, now, uuid);
    }
  }

  lemma UnreversedKeeps(db: Db, p: PaymentRow, userId: nat, now: int, uuid: nat)
    requires var r := ReversePayment(db, p, userId, now, uuid).result; r.Err? || r.value == None
    ensures ReversePayment(db, p, userId, now, uuid).db == db
  {
  }

  lemma CreateTiesOut(db: Db, log: Log, companyId: nat, userId: nat, dto: NewJournal, now: int)
    requires Inv(db) && TiesOut(db, log)
    ensures TiesOut(Create(db, companyId, userId, dto, now).db, log)
  {
    ShapeOfStep(db, CreateStep(companyId, userId, dto, now));
    DraftIsManual(db, companyId, userId, dto, now);
    QuietStepTiesOut(db, Create(db, companyId, userId, dto, now).db, log);
  }

  /** The other steps add no journal. */
  lemma OtherTiesOut(db: Db, log: Log, s: Step)
    requires Inv(db) && TiesOut(db, log)
    requires !s.PostPaymentStep? && !s.ReversePaymentStep? && !s.CreateStep?
    ensures TiesOut(Apply(db, s), log)
  {
    ShapeOfStep(db, s);
    QuietStepTiesOut(db, Apply(db, s), log);
  }

  lemma StepTiesOut(db: Db, log: Log, s: Step)
    requires Inv(db) && TiesOut(db, log)
    ensures TiesOut(Apply(db, s), Logged(db, log, s))
  {
    match s
    case PostPaymentStep(p, parties, u, now) => PostPaymentTiesOut(db, log, p, parties, u, now);
    case ReversePaymentStep(p, u, now, uuid) => ReversePaymentTiesOut(db, log, p, u, now, uuid);
    case CreateStep(c, u, dto, now) => CreateTiesOut(db, log, c, u, dto, now);
    case _ => OtherTiesOut(db, log, s);
  }

  /** After any run from empty tables the net debit that automatic journals contribute to each
      account is the signed sum of the payments posted to it, each taken back once per reversal;
      with at most one reversal each, that is the sum of the payments not reversed. */
  lemma {:induction false} PaymentsTieOut(steps: seq<Step>)
    ensures TiesOut(Run(Empty(), steps), LogOf(Empty(), steps))
  {
    if steps != [] {
      var before := steps[..|steps| - 1];
      PaymentsTieOut(before);
      EmptyInv();
      RunKeepsInv(Empty(), before);
      StepTiesOut(Run(Empty(), before), LogOf(Empty(), before), steps[|steps| - 1]);
    }
  }

  predicate InOrder(log: Log) {
    forall i, k :: 0 <= i < k < |log| ==> log[i].entryId < log[k].entryId
  }

  lemma LoggedInOrder(db: Db, log: Log, s: Step)
    requires InOrder(log) && forall k :: 0 <= k < |log| ==> log[k].entryId < |db.entries|
    ensures InOrder(Logged(db, log, s))
  {
    var after := Logged(db, log, s);
    if s.PostPaymentStep? && |after| > |log| {
      assert after[|log|].entryId == |db.entries|;
    }
  }

  /** A payment has one item: no two items of a run are of the same entry. */
  lemma {:induction false} ItemsDistinct(steps: seq<Step>)
    ensures InOrder(LogOf(Empty(), steps))
  {
    if steps != [] {
      var before := steps[..|steps| - 1];
      ItemsDistinct(before);
      PaymentsTieOut(before);
      var db, log := Run(Empty(), before), LogOf(Empty(), before);
      forall k | 0 <= k < |log| ensures log[k].entryId < |db.entries| {
        assert ItemOk(db, log[k]);
      }
      LoggedInOrder(db, log, steps[|steps| - 1]);
    }
  }

  /** Reversing a payment leaves every trial balance as of an earlier instant unchanged. */
  lemma ReversalLeavesEarlierBalances(db: Db, p: PaymentRow, userId: nat, now: int, uuid: nat, q: Scope, instant: int)
    requires Inv(db) && instant < now
    ensures Balance(ReversePayment(db, p, userId, now, uuid).db, AsOf(q, instant)) == Balance(db, AsOf(q, instant))
  {
    var a := ReversePayment(db, p, userId, now, uuid);
    if a.result.Ok? && a.result.value.Some? {
      var id := FindBySource(db, p.companyId, Payment, p.id).value;
      var j := ReversalJournal(p, EntryLines(db, id), userId, now, uuid);
      InternalShape(db, j, now);
      InternalSource(db, j, now);
      ResolveOpenPeriodCorrect(db, j.companyId, j.entryDate);
      var r := ResolveOpenPeriod(db, j.companyId, j.entryDate);
      var total := DoubleEntry.CheckBalanced(InputAmounts(j.lines)).value;
      NumberAndSaveEffect(r.db, InternalEntry(j, total, r.result.value, now), j.lines);
      LaterJournalInvisible(db, a.db, q, instant);
    }
  }

  /** In consistent tables a reversal is refused only for a shut period or a random id already in
      use: it balances, its amounts fit, its accounts exist and its number is free. */
  lemma ReversalRefusals(db: Db, p: PaymentRow, userId: nat, now: int, uuid: nat)
    requires Inv(db) && ReversePayment(db, p, userId, now, uuid).result.Err?
    ensures ReversePayment(db, p, userId, now, uuid).result.error in {YearClosed, PeriodLocked, DuplicateSource}
  {
    var id := FindBySource(db, p.companyId, Payment, p.id).value;
    var lines := EntryLines(db, id);
    assert TotalsOk(db, id) && HeaderOk(db, id);
    var j := ReversalJournal(p, lines, userId, now, uuid);
    ReversedTotals(lines, p.id);
    forall i | 0 <= i < |j.lines| ensures LineRowError(db, j.lines[i]) == None {
      assert lines[i] in lines;
      assert LineOk(db, lines[i]);
    }
    InternalRefusals(db, j, now);
  }

  lemma ReversedTotals(lines: seq<Line>, paymentId: nat)
    requires DoubleEntry.Balanced(AmountsOf(lines))
    ensures DoubleEntry.CheckBalanced(InputAmounts(ReversedLines(lines, paymentId)))
            == DoubleEntry.CheckBalanced(AmountsOf(lines))
    ensures DoubleEntry.CheckBalanced(AmountsOf(lines)).value.totalDebit == Sum(lines, LineDebit)
  {
    DoubleEntry.ReversalBalances(AmountsOf(lines));
    assert InputAmounts(ReversedLines(lines, paymentId)) == DoubleEntry.SwapAll(AmountsOf(lines));
    AmountSums(lines);
  }
}
