/** Drawing journal numbers in concurrent transactions. Every statement of `generateJournalNumber`
    and of the posting around it is a step of its own, and steps of different transactions
    interleave in any order. The row lock of `SELECT ... FOR UPDATE` keeps the draws of one counter
    apart, and the unique index on company, source type and source id keeps a source from being
    posted twice. */
module Numbering {
  import opened Wrappers
  import opened Runs
  import opened Isolation

  /** A counter row: a company and a year. */
  type Key = (nat, int)

  /** A company and the payment it posts. */
  type Source = (nat, nat)

  /** A number drawn from a counter. */
  datatype Issued = Issued(key: Key, sequence: nat)

  /** A journal to be numbered. A manual journal names no source, and the random source of a
      reversal is new, so neither is looked up nor refused. */
  datatype Posting = Posting(key: Key, source: Option<Source>)

  /** How far a transaction is with its posting: the search by source found nothing, the draw, the
      number drawn, and an insert refused by the unique source index. */
  datatype Stage =
    | Idle
    | Searched(source: Source)
    | Upserted(p: Posting)
    | Locked(p: Posting)
    | HasRead(p: Posting, lastSequence: nat)
    | Incremented(p: Posting, sequence: nat)
    | Refused(p: Posting, sequence: nat)
  {
    /** The source that is being posted. */
    function Pending(): Option<Source> {
      match this
      case Idle => None
      case Searched(source) => Some(source)
      case _ => p.source
    }
  }

  /** A transaction: the counter rows it wrote, the sources and numbers of the journals it inserted,
      the numbers it drew for an insert that was refused and answered with the existing journal, and
      the sources that were committed when it first read anything. */
  datatype Txn = Txn(
    rows: map<Key, nat>,
    sources: set<Source>,
    inserted: multiset<Issued>,
    dropped: multiset<Issued>,
    snapshot: Option<set<Source>>,
    stage: Stage)

  /** The committed tables, the row locks and the open transactions. */
  datatype State = State(
    mode: Reads,
    counters: map<Key, nat>,
    journal: multiset<Issued>,
    sources: set<Source>,
    dropped: multiset<Issued>,
    locks: map<Key, nat>,
    txns: map<nat, Txn>)

  datatype Step =
    | Begin(t: nat)
    | ReadOther(t: nat)
    | Search(t: nat, source: Source)
    | Upsert(t: nat, p: Posting)
    | Lock(t: nat)
    | Read(t: nat)
    | Write(t: nat)
    | Insert(t: nat)
    | AnswerExisting(t: nat)
    | Commit(t: nat)
    | Abort(t: nat)

  function Initial(mode: Reads): State {
    State(mode, map[], multiset{}, {}, multiset{}, map[], map[])
  }

  function Last(s: State, key: Key): nat {
    if key in s.counters then s.counters[key] else 0
  }

  /** The counter as the transaction sees it under its lock: its own write, or the committed row. */
  function View(s: State, t: nat, key: Key): nat
    requires t in s.txns
  {
    if key in s.txns[t].rows then s.txns[t].rows[key] else Last(s, key)
  }

  /** The sources a plain read of the transaction finds: its own and those of other transactions. */
  function Visible(s: State, x: Txn): set<Source> {
    x.sources + if s.mode.Snapshot? && x.snapshot.Some? then x.snapshot.value else s.sources
  }

  /** The first plain read fixes the snapshot. */
  function Reading(s: State, x: Txn): Txn {
    if x.snapshot == None then x.(snapshot := Some(s.sources)) else x
  }

  predicate Free(s: State, t: nat, key: Key) {
    key in s.locks ==> s.locks[key] == t
  }

  /** Another open transaction has inserted the source: the index makes the insert wait for it. */
  predicate Waits(s: State, t: nat, source: Option<Source>) {
    source.Some? && exists u :: u in s.txns && u != t && source.value in s.txns[u].sources
  }

  predicate Taken(s: State, x: Txn, source: Option<Source>) {
    source.Some? && (source.value in s.sources || source.value in x.sources)
  }

  predicate Enabled(s: State, step: Step) {
    match step
    case Begin(t) => t !in s.txns
    case ReadOther(t) => t in s.txns
    case Search(t, _) => t in s.txns && s.txns[t].stage == Idle
    case Upsert(t, p) =>
      && t in s.txns && s.txns[t].stage == (if p.source.Some? then Searched(p.source.value) else Idle)
      && (p.key in s.counters || Free(s, t, p.key))
    case Lock(t) => t in s.txns && s.txns[t].stage.Upserted? && Free(s, t, s.txns[t].stage.p.key)
    case Read(t) => t in s.txns && s.txns[t].stage.Locked?
    case Write(t) => t in s.txns && s.txns[t].stage.HasRead?
    case Insert(t) => t in s.txns && s.txns[t].stage.Incremented? && !Waits(s, t, s.txns[t].stage.p.source)
    case AnswerExisting(t) =>
      && t in s.txns && s.txns[t].stage.Refused?
      && s.txns[t].stage.p.source.Some? && s.txns[t].stage.p.source.value in Visible(s, s.txns[t])
    case Commit(t) => t in s.txns && s.txns[t].stage == Idle
    case Abort(t) => t in s.txns
  }

  function Without<V>(m: map<nat, V>, t: nat): map<nat, V> {
    m - {t}
  }

  function Released(locks: map<Key, nat>, t: nat): map<Key, nat> {
    map key | key in locks && locks[key] != t :: locks[key]
  }

  function With(s: State, t: nat, txn: Txn): State {
    s.(txns := s.txns[t := txn])
  }

  function Drawn(x: Txn): Issued
    requires x.stage.Incremented? || x.stage.Refused?
  {
    Issued(x.stage.p.key, x.stage.sequence)
  }

  function OwnSource(p: Posting): set<Source> {
    if p.source.Some? then {p.source.value} else {}
  }

  function Next(s: State, step: Step): State
    requires Enabled(s, step)
  {
    match step
    case Begin(t) => With(s, t, Txn(map[], {}, multiset{}, multiset{}, None, Idle))
    case ReadOther(t) => With(s, t, Reading(s, s.txns[t]))
    case Search(t, source) =>
      var x := Reading(s, s.txns[t]);
      With(s, t, x.(stage := if source in Visible(s, x) then Idle else Searched(source)))
    case Upsert(t, p) =>
      var x := s.txns[t];
      if p.key in s.counters || p.key in x.rows then With(s, t, x.(stage := Upserted(p)))
      else With(s, t, x.(rows := x.rows[p.key := 0], stage := Upserted(p))).(locks := s.locks[p.key := t])
    case Lock(t) =>
      var x := s.txns[t];
      With(s, t, x.(stage := Locked(x.stage.p))).(locks := s.locks[x.stage.p.key := t])
    case Read(t) =>
      var x := s.txns[t];
      With(s, t, x.(stage := HasRead(x.stage.p, View(s, t, x.stage.p.key))))
    case Write(t) =>
      var x := s.txns[t];
      var n := x.stage.lastSequence + 1;
      With(s, t, x.(rows := x.rows[x.stage.p.key := n], stage := Incremented(x.stage.p, n)))
    case Insert(t) =>
      var x := s.txns[t];
      if Taken(s, x, x.stage.p.source) then With(s, t, x.(stage := Refused(x.stage.p, x.stage.sequence)))
      else
        With(s, t, x.(sources := x.sources + OwnSource(x.stage.p), inserted := x.inserted + multiset{Drawn(x)},
                      stage := Idle))
    case AnswerExisting(t) =>
      var x := s.txns[t];
      With(s, t, x.(dropped := x.dropped + multiset{Drawn(x)}, stage := Idle))
    case Commit(t) =>
      var x := s.txns[t];
      State(s.mode, s.counters + x.rows, s.journal + x.inserted, s.sources + x.sources, s.dropped + x.dropped,
            Released(s.locks, t), Without(s.txns, t))
    case Abort(t) =>
      s.(locks := Released(s.locks, t), txns := Without(s.txns, t))
  }

  /** A step that is not possible yet, or blocked by a lock, does not happen. */
  function Try(s: State, step: Step): State {
    if Enabled(s, step) then Next(s, step) else s
  }

  function Run(s: State, steps: seq<Step>): State {
    Fold(s, steps, Try)
  }

  // ---- The invariant ----

  /** 1 for the numbers above low and up to high, 0 for the others. */
  function OneIn(low: nat, high: nat, n: nat): nat {
    if low < n <= high then 1 else 0
  }

  /** The number drawn whose journal is neither inserted nor answered with the existing one. */
  function InFlight(x: Txn, i: Issued): nat {
    if (x.stage.Incremented? || x.stage.Refused?) && i == Drawn(x) then 1 else 0
  }

  ghost predicate TxnOk(s: State, t: nat)
    requires t in s.txns
  {
    var x := s.txns[t];
    && (forall key :: key in x.rows ==> key in s.locks && s.locks[key] == t && x.rows[key] >= Last(s, key))
    && (x.stage.Locked? || x.stage.HasRead? || x.stage.Incremented? ==>
          x.stage.p.key in s.locks && s.locks[x.stage.p.key] == t)
    && (x.stage.HasRead? ==> x.stage.lastSequence == View(s, t, x.stage.p.key))
    && (forall key: Key, n: nat ::
          x.inserted[Issued(key, n)] + x.dropped[Issued(key, n)] + InFlight(x, Issued(key, n))
          == OneIn(Last(s, key), View(s, t, key), n))
  }

  ghost predicate CommittedOk(s: State) {
    forall key: Key, n: nat :: s.journal[Issued(key, n)] + s.dropped[Issued(key, n)] == OneIn(0, Last(s, key), n)
  }

  ghost predicate Inv(s: State) {
    && CommittedOk(s)
    && (forall key :: key in s.locks ==> s.locks[key] in s.txns)
    && (forall t :: t in s.txns ==> TxnOk(s, t))
  }

  /** A transaction is not affected by what another one does to rows it has not locked. */
  lemma OthersKept(s: State, s': State, u: nat)
    requires Inv(s) && u in s.txns && u in s'.txns && s'.txns[u] == s.txns[u]
    requires forall key :: key in s.locks && s.locks[key] == u ==> key in s'.locks && s'.locks[key] == u
    requires forall key :: key in s.locks && s.locks[key] == u ==> Last(s', key) == Last(s, key)
    ensures TxnOk(s', u)
  {
    var x := s.txns[u];
    assert TxnOk(s, u);
    forall key: Key, n: nat
      ensures x.inserted[Issued(key, n)] + x.dropped[Issued(key, n)] + InFlight(x, Issued(key, n))
              == OneIn(Last(s', key), View(s', u, key), n)
    {
      assert x.inserted[Issued(key, n)] + x.dropped[Issued(key, n)] + InFlight(x, Issued(key, n))
             == OneIn(Last(s, key), View(s, u, key), n);
    }
  }

  lemma OthersAfterCommit(s: State, t: nat, u: nat)
    requires Inv(s) && Enabled(s, Commit(t)) && u in s.txns && u != t
    ensures TxnOk(Next(s, Commit(t)), u)
  {
    assert TxnOk(s, u) && TxnOk(s, t);
    OthersKept(s, Next(s, Commit(t)), u);
  }

  lemma OtherTxnKept(s: State, step: Step, u: nat)
    requires Enabled(s, step) && !step.Commit? && u in s.txns && u != step.t
    ensures u in Next(s, step).txns && Next(s, step).txns[u] == s.txns[u]
    ensures Next(s, step).counters == s.counters
  {
  }

  lemma OtherLocksKept(s: State, step: Step, u: nat, key: Key)
    requires Enabled(s, step) && !step.Commit? && u != step.t && key in s.locks && s.locks[key] == u
    ensures key in Next(s, step).locks && Next(s, step).locks[key] == u
  {
  }

  lemma OthersAfterStep(s: State, step: Step, u: nat)
    requires Inv(s) && Enabled(s, step) && u in s.txns && u != step.t
    ensures u in Next(s, step).txns && TxnOk(Next(s, step), u)
  {
    if step.Commit? {
      OthersAfterCommit(s, step.t, u);
    } else {
      OtherTxnKept(s, step, u);
      forall key | key in s.locks && s.locks[key] == u
        ensures key in Next(s, step).locks && Next(s, step).locks[key] == u
      {
        OtherLocksKept(s, step, u, key);
      }
      OthersKept(s, Next(s, step), u);
    }
  }

  /** How many times a number is inserted, dropped or in flight in a transaction. */
  function Holds(x: Txn, i: Issued): nat {
    x.inserted[i] + x.dropped[i] + InFlight(x, i)
  }

  /** A step of a transaction that draws no number and leaves its rows as they look. */
  lemma SelfKept(s: State, s': State, t: nat)
    requires t in s.txns && TxnOk(s, t) && t in s'.txns
    requires s'.counters == s.counters
    requires forall i: Issued :: Holds(s'.txns[t], i) == Holds(s.txns[t], i)
    requires forall key :: View(s', t, key) == View(s, t, key)
    requires forall key :: key in s'.txns[t].rows ==>
      key in s'.locks && s'.locks[key] == t && s'.txns[t].rows[key] >= Last(s', key)
    requires var stage := s'.txns[t].stage; stage.Locked? || stage.HasRead? || stage.Incremented? ==>
      stage.p.key in s'.locks && s'.locks[stage.p.key] == t
    requires s'.txns[t].stage.HasRead? ==> s'.txns[t].stage.lastSequence == View(s', t, s'.txns[t].stage.p.key)
    ensures TxnOk(s', t)
  {
    var x, x' := s.txns[t], s'.txns[t];
    forall key: Key, n: nat
      ensures x'.inserted[Issued(key, n)] + x'.dropped[Issued(key, n)] + InFlight(x', Issued(key, n))
              == OneIn(Last(s', key), View(s', t, key), n)
    {
      assert Holds(x', Issued(key, n)) == Holds(x, Issued(key, n));
      assert x.inserted[Issued(key, n)] + x.dropped[Issued(key, n)] + InFlight(x, Issued(key, n))
             == OneIn(Last(s, key), View(s, t, key), n);
    }
  }

  /** Writing one more than what was seen puts exactly that number in flight. */
  lemma WrittenCount(x: Txn, i: Issued, last: nat, seen: nat)
    requires x.stage.HasRead? && x.stage.lastSequence == seen && seen >= last && i.key == x.stage.p.key
    ensures var x' := x.(rows := x.rows[x.stage.p.key := seen + 1], stage := Incremented(x.stage.p, seen + 1));
      InFlight(x', i) + OneIn(last, seen, i.sequence) == InFlight(x, i) + OneIn(last, seen + 1, i.sequence)
  {
  }

  lemma WrittenBalance(s: State, t: nat, key: Key, n: nat)
    requires Inv(s) && Enabled(s, Write(t))
    ensures var s' := Next(s, Write(t));
      Holds(s'.txns[t], Issued(key, n)) == OneIn(Last(s', key), View(s', t, key), n)
  {
    var x := s.txns[t];
    assert TxnOk(s, t);
    assert x.inserted[Issued(key, n)] + x.dropped[Issued(key, n)] + InFlight(x, Issued(key, n))
           == OneIn(Last(s, key), View(s, t, key), n);
    if key == x.stage.p.key {
      SeenAtLeastLast(s, t, key);
      WrittenCount(x, Issued(key, n), Last(s, key), x.stage.lastSequence);
    }
  }

  lemma WriteKeepsSelf(s: State, t: nat)
    requires Inv(s) && Enabled(s, Write(t))
    ensures TxnOk(Next(s, Write(t)), t)
  {
    var s' := Next(s, Write(t));
    var x' := s'.txns[t];
    assert TxnOk(s, t);
    SeenAtLeastLast(s, t, s.txns[t].stage.p.key);
    forall key: Key, n: nat
      ensures x'.inserted[Issued(key, n)] + x'.dropped[Issued(key, n)] + InFlight(x', Issued(key, n))
              == OneIn(Last(s', key), View(s', t, key), n)
    {
      WrittenBalance(s, t, key, n);
    }
  }

  lemma SeenAtLeastLast(s: State, t: nat, key: Key)
    requires t in s.txns && TxnOk(s, t)
    ensures View(s, t, key) >= Last(s, key)
  {
  }

  /** Whether its journal was inserted or its source was taken, the number drawn is accounted for. */
  lemma DrawnCount(x: Txn, i: Issued, sources: set<Source>)
    requires x.stage.Incremented? || x.stage.Refused?
    ensures Holds(x.(sources := sources, inserted := x.inserted + multiset{Drawn(x)}, stage := Idle), i) == Holds(x, i)
    ensures Holds(x.(dropped := x.dropped + multiset{Drawn(x)}, stage := Idle), i) == Holds(x, i)
    ensures Holds(x.(stage := Refused(x.stage.p, x.stage.sequence)), i) == Holds(x, i)
  {
  }

  lemma InsertKeepsSelf(s: State, t: nat)
    requires Inv(s) && Enabled(s, Insert(t))
    ensures TxnOk(Next(s, Insert(t)), t)
  {
    var s', x := Next(s, Insert(t)), s.txns[t];
    assert TxnOk(s, t);
    forall i: Issued ensures Holds(s'.txns[t], i) == Holds(x, i) {
      DrawnCount(x, i, s'.txns[t].sources);
    }
    SelfKept(s, s', t);
  }

  lemma AnswerKeepsSelf(s: State, t: nat)
    requires Inv(s) && Enabled(s, AnswerExisting(t))
    ensures TxnOk(Next(s, AnswerExisting(t)), t)
  {
    var s', x := Next(s, AnswerExisting(t)), s.txns[t];
    assert TxnOk(s, t);
    forall i: Issued ensures Holds(s'.txns[t], i) == Holds(x, i) {
      DrawnCount(x, i, x.sources);
    }
    SelfKept(s, s', t);
  }

  lemma SearchKeepsSelf(s: State, t: nat, source: Source)
    requires Inv(s) && Enabled(s, Search(t, source))
    ensures TxnOk(Next(s, Search(t, source)), t)
  {
    assert TxnOk(s, t);
    SelfKept(s, Next(s, Search(t, source)), t);
  }

  lemma ReadOtherKeepsSelf(s: State, t: nat)
    requires Inv(s) && Enabled(s, ReadOther(t))
    ensures TxnOk(Next(s, ReadOther(t)), t)
  {
    assert TxnOk(s, t);
    SelfKept(s, Next(s, ReadOther(t)), t);
  }

  lemma UpsertKeepsSelf(s: State, t: nat, p: Posting)
    requires Inv(s) && Enabled(s, Upsert(t, p))
    ensures TxnOk(Next(s, Upsert(t, p)), t)
  {
    assert TxnOk(s, t);
    SelfKept(s, Next(s, Upsert(t, p)), t);
  }

  lemma LockKeepsSelf(s: State, t: nat)
    requires Inv(s) && Enabled(s, Lock(t))
    ensures TxnOk(Next(s, Lock(t)), t)
  {
    assert TxnOk(s, t);
    SelfKept(s, Next(s, Lock(t)), t);
  }

  lemma ReadKeepsSelf(s: State, t: nat)
    requires Inv(s) && Enabled(s, Read(t))
    ensures TxnOk(Next(s, Read(t)), t)
  {
    assert TxnOk(s, t);
    SelfKept(s, Next(s, Read(t)), t);
  }

  lemma SelfAfterStep(s: State, step: Step)
    requires Inv(s) && Enabled(s, step) && !step.Commit? && !step.Abort? && !step.Begin?
    ensures step.t in Next(s, step).txns && TxnOk(Next(s, step), step.t)
  {
    match step
    case Write(t) => WriteKeepsSelf(s, t);
    case Insert(t) => InsertKeepsSelf(s, t);
    case AnswerExisting(t) => AnswerKeepsSelf(s, t);
    case ReadOther(t) => ReadOtherKeepsSelf(s, t);
    case Search(t, source) => SearchKeepsSelf(s, t, source);
    case Upsert(t, p) => UpsertKeepsSelf(s, t, p);
    case Lock(t) => LockKeepsSelf(s, t);
    case Read(t) => ReadKeepsSelf(s, t);
  }

  lemma CommitKeepsCommitted(s: State, t: nat)
    requires Inv(s) && Enabled(s, Commit(t))
    ensures CommittedOk(Next(s, Commit(t)))
  {
    var s', x := Next(s, Commit(t)), s.txns[t];
    assert TxnOk(s, t);
    forall key: Key, n: nat
      ensures s'.journal[Issued(key, n)] + s'.dropped[Issued(key, n)] == OneIn(0, Last(s', key), n)
    {
      assert s.journal[Issued(key, n)] + s.dropped[Issued(key, n)] == OneIn(0, Last(s, key), n);
      assert x.inserted[Issued(key, n)] + x.dropped[Issued(key, n)] + InFlight(x, Issued(key, n))
             == OneIn(Last(s, key), View(s, t, key), n);
      assert Last(s', key) == View(s, t, key);
      assert View(s, t, key) >= Last(s, key);
    }
  }

  lemma StepKeepsCommitted(s: State, step: Step)
    requires Inv(s) && Enabled(s, step)
    ensures CommittedOk(Next(s, step))
  {
    if step.Commit? {
      CommitKeepsCommitted(s, step.t);
    } else {
      var s' := Next(s, step);
      assert s'.journal == s.journal && s'.dropped == s.dropped && s'.counters == s.counters;
      assert forall key: Key :: Last(s', key) == Last(s, key);
      assert CommittedOk(s);
    }
  }

  lemma BegunOk(s: State, t: nat)
    requires Enabled(s, Begin(t))
    ensures TxnOk(Next(s, Begin(t)), t)
  {
  }

  lemma StepKeepsTxns(s: State, step: Step, u: nat)
    requires Inv(s) && Enabled(s, step) && u in Next(s, step).txns
    ensures TxnOk(Next(s, step), u)
  {
    if u != step.t {
      OthersAfterStep(s, step, u);
    } else if step.Begin? {
      BegunOk(s, u);
    } else {
      SelfAfterStep(s, step);
    }
  }

  lemma StepKeepsLocks(s: State, step: Step)
    requires Inv(s) && Enabled(s, step)
    ensures var s' := Next(s, step); forall key :: key in s'.locks ==> s'.locks[key] in s'.txns
  {
  }

  lemma StepKeepsInv(s: State, step: Step)
    requires Inv(s) && Enabled(s, step)
    ensures Inv(Next(s, step))
  {
    var s' := Next(s, step);
    StepKeepsCommitted(s, step);
    StepKeepsLocks(s, step);
    forall u | u in s'.txns ensures TxnOk(s', u) {
      StepKeepsTxns(s, step, u);
    }
  }

  lemma {:induction false} RunKeepsInv(s: State, steps: seq<Step>)
    requires Inv(s)
    ensures Inv(Run(s, steps))
  {
    if steps != [] {
      var before, step := Run(s, steps[..|steps| - 1]), steps[|steps| - 1];
      RunKeepsInv(s, steps[..|steps| - 1]);
      if Enabled(before, step) {
        StepKeepsInv(before, step);
      }
    }
  }

  lemma InitialOk(mode: Reads)
    ensures Inv(Initial(mode))
  {
  }

  // ---- What every interleaving guarantees ----

  /** In every run, every number from 1 to the committed counter was either given to exactly one
      committed journal or dropped exactly once, and no other number was given to anything. */
  lemma EveryNumberAccountedFor(mode: Reads, steps: seq<Step>, key: Key, n: nat)
    ensures var s := Run(Initial(mode), steps);
      s.journal[Issued(key, n)] + s.dropped[Issued(key, n)] == if 1 <= n <= Last(s, key) then 1 else 0
  {
    InitialOk(mode);
    RunKeepsInv(Initial(mode), steps);
    assert CommittedOk(Run(Initial(mode), steps));
  }

  /** No journal number is ever given twice. */
  lemma NumbersNeverRepeat(mode: Reads, steps: seq<Step>, key: Key, n: nat)
    ensures Run(Initial(mode), steps).journal[Issued(key, n)] <= 1
  {
    EveryNumberAccountedFor(mode, steps, key, n);
  }

  /** The committed sequences of a counter are exactly 1 up to its value, each once. */
  ghost predicate Gapless(s: State, key: Key) {
    forall n: nat :: s.journal[Issued(key, n)] == if 1 <= n <= Last(s, key) then 1 else 0
  }

  ghost predicate NothingDropped(s: State) {
    s.dropped == multiset{} && forall t :: t in s.txns ==> s.txns[t].dropped == multiset{}
  }

  /** Only a number that was drawn and then answered with an existing journal can be missing. */
  lemma GaplessIffNothingDropped(mode: Reads, steps: seq<Step>, key: Key)
    ensures var s := Run(Initial(mode), steps);
      Gapless(s, key) <==> forall n: nat :: s.dropped[Issued(key, n)] == 0
  {
    var s := Run(Initial(mode), steps);
    forall n: nat
      ensures s.journal[Issued(key, n)] + s.dropped[Issued(key, n)] == if 1 <= n <= Last(s, key) then 1 else 0
    {
      EveryNumberAccountedFor(mode, steps, key, n);
    }
  }

  lemma NothingDroppedIsGapless(mode: Reads, steps: seq<Step>, key: Key)
    requires NothingDropped(Run(Initial(mode), steps))
    ensures Gapless(Run(Initial(mode), steps), key)
  {
    GaplessIffNothingDropped(mode, steps, key);
  }

  lemma StepDropsNothing(s: State, step: Step)
    requires NothingDropped(s) && Enabled(s, step) && !step.AnswerExisting?
    ensures NothingDropped(Next(s, step))
  {
  }

  /** Nothing is dropped as long as that handler is never taken. */
  lemma {:induction false} DroppedOnlyByHandler(s: State, steps: seq<Step>)
    requires NothingDropped(s)
    requires forall i :: 0 <= i < |steps| ==> !steps[i].AnswerExisting?
    ensures NothingDropped(Run(s, steps))
  {
    if steps != [] {
      var before, step := Run(s, steps[..|steps| - 1]), steps[|steps| - 1];
      DroppedOnlyByHandler(s, steps[..|steps| - 1]);
      if Enabled(before, step) {
        StepDropsNothing(before, step);
      }
    }
  }

  /** Every run without the handler is gapless on every counter. */
  lemma GaplessWithoutHandler(mode: Reads, steps: seq<Step>, key: Key)
    requires forall i :: 0 <= i < |steps| ==> !steps[i].AnswerExisting?
    ensures Gapless(Run(Initial(mode), steps), key)
  {
    DroppedOnlyByHandler(Initial(mode), steps);
    NothingDroppedIsGapless(mode, steps, key);
  }
}
