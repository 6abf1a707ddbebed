/** When concurrent journal numbers can have gaps. A posting that draws a number and is then refused
    by the unique source index is answered with the existing journal if it can see it; the number it
    drew is then in the counter and in no journal. */
module NumberGaps {
  import opened Wrappers
  import opened Runs
  import opened Isolation
  import opened Numbering

  // ---- Snapshot reads ----

  /** What the search did not find in the snapshot, no later read of the transaction finds. */
  predicate SearchedInSnapshot(x: Txn) {
    x.stage.Pending().Some? ==>
      && x.snapshot.Some?
      && x.stage.Pending().value !in x.snapshot.value && x.stage.Pending().value !in x.sources
  }

  ghost predicate SnapshotInv(s: State) {
    s.mode.Snapshot? && NothingDropped(s) && forall t :: t in s.txns ==> SearchedInSnapshot(s.txns[t])
  }

  /** The handler does not see the journal that refused its insert. */
  lemma NeverAnswers(s: State, t: nat)
    requires SnapshotInv(s)
    ensures !Enabled(s, AnswerExisting(t))
  {
    if t in s.txns {
      assert SearchedInSnapshot(s.txns[t]);
    }
  }

  /** How a step changes what its transaction is posting and has seen. */
  lemma PendingAfter(s: State, step: Step)
    requires Enabled(s, step) && step.t in s.txns && step.t in Next(s, step).txns
    ensures var x, x' := s.txns[step.t], Next(s, step).txns[step.t];
      && (x.snapshot.Some? ==> x'.snapshot == x.snapshot)
      && (x'.stage.Pending().Some? ==>
            && x'.sources == x.sources
            && if step.Search? then x'.snapshot.Some? && x'.stage.Pending().value !in Visible(s, x')
               else x'.stage.Pending() == x.stage.Pending())
  {
  }

  lemma SnapshotStep(s: State, step: Step)
    requires SnapshotInv(s) && Enabled(s, step) && step.t in Next(s, step).txns
    ensures SearchedInSnapshot(Next(s, step).txns[step.t])
  {
    if step.t in s.txns {
      PendingAfter(s, step);
      assert SearchedInSnapshot(s.txns[step.t]);
    }
  }

  lemma OthersUntouched(s: State, step: Step, u: nat)
    requires Enabled(s, step) && u != step.t
    ensures u in Next(s, step).txns <==> u in s.txns
    ensures u in s.txns ==> Next(s, step).txns[u] == s.txns[u]
  {
  }

  lemma {:induction false} SnapshotRun(s: State, steps: seq<Step>)
    requires SnapshotInv(s)
    ensures SnapshotInv(Run(s, steps))
  {
    if steps != [] {
      var before, step := Run(s, steps[..|steps| - 1]), steps[|steps| - 1];
      SnapshotRun(s, steps[..|steps| - 1]);
      if Enabled(before, step) {
        NeverAnswers(before, step.t);
        StepDropsNothing(before, step);
        forall u | u in Next(before, step).txns ensures SearchedInSnapshot(Next(before, step).txns[u]) {
          if u == step.t {
            SnapshotStep(before, step);
          } else {
            OthersUntouched(before, step, u);
            assert SearchedInSnapshot(before.txns[u]);
          }
        }
      }
    }
  }

  /** With snapshot reads, the default of the database, every interleaving of any transactions is
      gapless on every counter. */
  lemma SnapshotReadsAreGapless(steps: seq<Step>, key: Key)
    ensures Gapless(Run(Initial(Snapshot), steps), key)
  {
    SnapshotRun(Initial(Snapshot), steps);
    NothingDroppedIsGapless(Snapshot, steps, key);
  }

  // ---- Latest reads ----

  /** Each transaction posts what is planned for it. */
  predicate StepAsPlanned(plans: seq<Posting>, step: Step) {
    match step
    case Search(t, source) => t < |plans| && plans[t].source == Some(source)
    case Upsert(t, p) => t < |plans| && plans[t] == p
    case _ => true
  }

  ghost predicate AsPlanned(plans: seq<Posting>, steps: seq<Step>) {
    forall i :: 0 <= i < |steps| ==> StepAsPlanned(plans, steps[i])
  }

  /** No two of the postings name the same source. */
  predicate SourcesDiffer(plans: seq<Posting>) {
    forall i, j :: 0 <= i < j < |plans| && plans[i].source.Some? ==> plans[i].source != plans[j].source
  }

  predicate Planned(plans: seq<Posting>, t: nat, source: Source) {
    t < |plans| && plans[t].source == Some(source)
  }

  ghost predicate TxnAsPlanned(s: State, plans: seq<Posting>, t: nat)
    requires t in s.txns
  {
    var x := s.txns[t];
    && (forall source :: source in x.sources ==> Planned(plans, t, source))
    && (x.stage.Pending().Some? ==>
          && Planned(plans, t, x.stage.Pending().value)
          && x.stage.Pending().value !in s.sources && x.stage.Pending().value !in x.sources)
    && !x.stage.Refused?
  }

  ghost predicate LatestInv(s: State, plans: seq<Posting>) {
    s.mode.Latest? && NothingDropped(s) && forall t :: t in s.txns ==> TxnAsPlanned(s, plans, t)
  }

  lemma OtherAsPlanned(s: State, plans: seq<Posting>, step: Step, u: nat)
    requires LatestInv(s, plans) && SourcesDiffer(plans) && Enabled(s, step) && u in s.txns && u != step.t
    ensures TxnAsPlanned(Next(s, step), plans, u)
  {
    assert TxnAsPlanned(s, plans, u);
    if step.Commit? {
      assert TxnAsPlanned(s, plans, step.t);
    }
  }

  lemma OwnAsPlanned(s: State, plans: seq<Posting>, step: Step)
    requires LatestInv(s, plans) && StepAsPlanned(plans, step) && Enabled(s, step) && step.t in Next(s, step).txns
    ensures TxnAsPlanned(Next(s, step), plans, step.t)
  {
    if step.t in s.txns {
      PendingAfter(s, step);
      assert TxnAsPlanned(s, plans, step.t);
    }
  }

  lemma NeverRefused(s: State, plans: seq<Posting>, t: nat)
    requires LatestInv(s, plans)
    ensures !Enabled(s, AnswerExisting(t))
  {
    if t in s.txns {
      assert TxnAsPlanned(s, plans, t);
    }
  }

  lemma LatestStep(s: State, plans: seq<Posting>, step: Step)
    requires LatestInv(s, plans) && SourcesDiffer(plans) && StepAsPlanned(plans, step) && Enabled(s, step)
    ensures LatestInv(Next(s, step), plans)
  {
    var s' := Next(s, step);
    NeverRefused(s, plans, step.t);
    StepDropsNothing(s, step);
    forall u | u in s'.txns ensures TxnAsPlanned(s', plans, u) {
      if u == step.t {
        OwnAsPlanned(s, plans, step);
      } else {
        OtherAsPlanned(s, plans, step, u);
      }
    }
  }

  lemma {:induction false} LatestRun(s: State, plans: seq<Posting>, steps: seq<Step>)
    requires LatestInv(s, plans) && SourcesDiffer(plans) && AsPlanned(plans, steps)
    ensures LatestInv(Run(s, steps), plans)
  {
    if steps != [] {
      var before, step := Run(s, steps[..|steps| - 1]), steps[|steps| - 1];
      LatestRun(s, plans, steps[..|steps| - 1]);
      if Enabled(before, step) {
        LatestStep(before, plans, step);
      }
    }
  }

  // ---- Draws without interference ----

  /** The statements of one draw. */
  function Draw(t: nat, p: Posting): seq<Step> {
    [Upsert(t, p), Lock(t), Read(t), Write(t)]
  }

  /** The stage in which a posting may draw its number. */
  function ReadyStage(p: Posting): Stage {
    if p.source.Some? then Searched(p.source.value) else Idle
  }

  predicate AtStage(s: State, t: nat, stage: Stage) {
    t in s.txns && s.txns[t].stage == stage
  }

  lemma UpsertAlone(s: State, t: nat, p: Posting) returns (s': State)
    requires AtStage(s, t, ReadyStage(p)) && Free(s, t, p.key)
    ensures s' == Try(s, Upsert(t, p)) && AtStage(s', t, Upserted(p)) && View(s', t, p.key) == View(s, t, p.key)
    ensures s' == s.(txns := s'.txns, locks := s'.locks) && Free(s', t, p.key)
    ensures s'.locks[p.key := t] == s.locks[p.key := t]
    ensures s'.txns == s.txns[t := s.txns[t].(rows := s'.txns[t].rows, stage := Upserted(p))]
    ensures s'.txns[t].rows == s.txns[t].rows || s'.txns[t].rows == s.txns[t].rows[p.key := 0]
  {
    s' := Next(s, Upsert(t, p));
  }

  lemma LockAlone(s: State, t: nat, p: Posting) returns (s': State)
    requires AtStage(s, t, Upserted(p)) && Free(s, t, p.key)
    ensures s' == Try(s, Lock(t)) && AtStage(s', t, Locked(p)) && View(s', t, p.key) == View(s, t, p.key)
    ensures s' == s.(txns := s.txns[t := s.txns[t].(stage := Locked(p))], locks := s.locks[p.key := t])
  {
    s' := Next(s, Lock(t));
  }

  lemma WriteAlone(s: State, t: nat, p: Posting) returns (s': State)
    requires AtStage(s, t, Locked(p))
    ensures s' == Try(Try(s, Read(t)), Write(t))
    ensures s' == s.(txns := s.txns[t := s.txns[t].(
              rows := s.txns[t].rows[p.key := View(s, t, p.key) + 1],
              stage := Incremented(p, View(s, t, p.key) + 1))])
  {
    var s1 := Next(s, Read(t));
    assert AtStage(s1, t, HasRead(p, View(s, t, p.key)));
    s' := Next(s1, Write(t));
  }

  /** A draw whose counter nobody else has locked, run back to back. */
  lemma DrawAlone(s: State, t: nat, p: Posting) returns (s': State)
    requires AtStage(s, t, ReadyStage(p)) && Free(s, t, p.key)
    ensures s' == Run(s, Draw(t, p))
    ensures s' == s.(txns := s.txns[t := s.txns[t].(
                       rows := s.txns[t].rows[p.key := View(s, t, p.key) + 1],
                       stage := Incremented(p, View(s, t, p.key) + 1))],
                     locks := s.locks[p.key := t])
  {
    FoldFour(s, Upsert(t, p), Lock(t), Read(t), Write(t), Try);
    var s1 := UpsertAlone(s, t, p);
    var s2 := LockAlone(s1, t, p);
    s' := WriteAlone(s2, t, p);
    SameRow(s.txns[t].rows, s1.txns[t].rows, p.key, View(s, t, p.key) + 1);
  }

  lemma SameRow(rows: map<Key, nat>, rows': map<Key, nat>, key: Key, n: nat)
    requires rows' == rows || rows' == rows[key := 0]
    ensures rows'[key := n] == rows[key := n]
  {
  }

  /** A transaction that has drawn its only number. */
  function HasDrawn(p: Posting, n: nat, snapshot: Option<set<Source>>): Txn {
    Txn(map[p.key := n], {}, multiset{}, multiset{}, snapshot, Incremented(p, n))
  }

  lemma CommitAlone(s: State, t: nat, x: Txn, others: map<nat, Txn>)
    requires t !in others && s.txns == others[t := x] && x.stage == Idle
    ensures Try(s, Commit(t)) == State(s.mode, s.counters + x.rows, s.journal + x.inserted, s.sources + x.sources,
                                       s.dropped + x.dropped, Released(s.locks, t), others)
  {
    assert Without(s.txns, t) == others;
  }

  lemma Replaced(others: map<nat, Txn>, t: nat, x: Txn, x': Txn)
    ensures others[t := x][t := x'] == others[t := x']
  {
  }

  function HasInserted(p: Posting, n: nat, snapshot: Option<set<Source>>): Txn {
    Txn(map[p.key := n], OwnSource(p), multiset{Issued(p.key, n)}, multiset{}, snapshot, Idle)
  }

  lemma InsertAlone(s: State, t: nat, p: Posting, n: nat, snapshot: Option<set<Source>>, others: map<nat, Txn>)
    requires t !in others && s.txns == others[t := HasDrawn(p, n, snapshot)]
    requires p.source.Some? ==> p.source.value !in s.sources
    requires forall u :: u in others ==> others[u].sources == {}
    ensures Try(s, Insert(t)) == s.(txns := others[t := HasInserted(p, n, snapshot)])
  {
    var x := s.txns[t];
    assert !Waits(s, t, p.source) && !Taken(s, x, p.source);
    assert x.sources + OwnSource(p) == OwnSource(p);
    assert x.inserted + multiset{Issued(p.key, n)} == multiset{Issued(p.key, n)};
    Replaced(others, t, x, HasInserted(p, n, snapshot));
  }

  /** Its insert and commit, when its source is free. */
  lemma FinishAlone(s: State, t: nat, p: Posting, n: nat, snapshot: Option<set<Source>>, others: map<nat, Txn>)
    requires t !in others && s.txns == others[t := HasDrawn(p, n, snapshot)]
    requires p.source.Some? ==> p.source.value !in s.sources
    requires forall u :: u in others ==> others[u].sources == {}
    ensures Run(s, [Insert(t), Commit(t)])
         == State(s.mode, s.counters + map[p.key := n], s.journal + multiset{Issued(p.key, n)},
                  s.sources + OwnSource(p), s.dropped, Released(s.locks, t), others)
  {
    FoldTwo(s, Insert(t), Commit(t), Try);
    InsertAlone(s, t, p, n, snapshot, others);
    CommitAlone(s.(txns := others[t := HasInserted(p, n, snapshot)]), t, HasInserted(p, n, snapshot), others);
    assert s.dropped + multiset{} == s.dropped;
  }

  function WasRefused(p: Posting, n: nat, snapshot: Option<set<Source>>): Txn {
    Txn(map[p.key := n], {}, multiset{}, multiset{}, snapshot, Refused(p, n))
  }

  function HasDropped(p: Posting, n: nat, snapshot: Option<set<Source>>): Txn {
    Txn(map[p.key := n], {}, multiset{}, multiset{Issued(p.key, n)}, snapshot, Idle)
  }

  lemma RefuseAlone(s: State, t: nat, p: Posting, n: nat, snapshot: Option<set<Source>>)
    requires s.txns == map[t := HasDrawn(p, n, snapshot)]
    requires p.source.Some? && p.source.value in s.sources
    ensures Try(s, Insert(t)) == s.(txns := map[t := WasRefused(p, n, snapshot)])
  {
    assert !Waits(s, t, p.source) && Taken(s, s.txns[t], p.source);
    Replaced(map[], t, s.txns[t], WasRefused(p, n, snapshot));
  }

  lemma AnswerAlone(s: State, t: nat, p: Posting, n: nat, snapshot: Option<set<Source>>)
    requires s.mode.Latest? && s.txns == map[t := WasRefused(p, n, snapshot)]
    requires p.source.Some? && p.source.value in s.sources
    ensures Try(s, AnswerExisting(t)) == s.(txns := map[t := HasDropped(p, n, snapshot)])
  {
    assert p.source.value in Visible(s, s.txns[t]);
    assert multiset{} + multiset{Issued(p.key, n)} == multiset{Issued(p.key, n)};
    Replaced(map[], t, s.txns[t], HasDropped(p, n, snapshot));
  }

  /** Its insert, the handler's answer and its commit, when its source was committed meanwhile. */
  lemma RefusedAlone(s: State, t: nat, p: Posting, n: nat, snapshot: Option<set<Source>>)
    requires s.mode.Latest? && s.txns == map[t := HasDrawn(p, n, snapshot)]
    requires p.source.Some? && p.source.value in s.sources
    ensures var s' := Run(s, [Insert(t)] + [AnswerExisting(t), Commit(t)]);
      s'.counters == s.counters + map[p.key := n] && s'.dropped == s.dropped + multiset{Issued(p.key, n)}
  {
    FoldConcat(s, [Insert(t)], [AnswerExisting(t), Commit(t)], Try);
    FoldOne(s, Insert(t), Try);
    RefuseAlone(s, t, p, n, snapshot);
    var s1 := s.(txns := map[t := WasRefused(p, n, snapshot)]);
    FoldTwo(s1, AnswerExisting(t), Commit(t), Try);
    AnswerAlone(s1, t, p, n, snapshot);
    var s2 := s1.(txns := map[t := HasDropped(p, n, snapshot)]);
    assert s2.txns == map[][t := HasDropped(p, n, snapshot)];
    CommitAlone(s2, t, HasDropped(p, n, snapshot), map[]);
  }

  /** The first statements of a posting: its search, or some other read. */
  function Opening(t: nat, p: Posting): seq<Step> {
    [Begin(t), if p.source.Some? then Search(t, p.source.value) else ReadOther(t)]
  }

  function Opened(s: State, p: Posting): Txn {
    Txn(map[], {}, multiset{}, multiset{}, Some(s.sources), ReadyStage(p))
  }

  lemma OpensAlone(s: State, t: nat, p: Posting)
    requires t !in s.txns && (p.source.Some? ==> p.source.value !in s.sources)
    ensures Run(s, Opening(t, p)) == s.(txns := s.txns[t := Opened(s, p)])
  {
    var search := if p.source.Some? then Search(t, p.source.value) else ReadOther(t);
    FoldTwo(s, Begin(t), search, Try);
    var begun := Txn(map[], {}, multiset{}, multiset{}, None, Idle);
    assert Try(s, Begin(t)) == s.(txns := s.txns[t := begun]);
    assert s.txns[t := begun][t := Opened(s, p)] == s.txns[t := Opened(s, p)];
  }

  /** The whole of one posting. */
  function Alone(t: nat, p: Posting): seq<Step> {
    Opening(t, p) + Draw(t, p) + [Insert(t), Commit(t)]
  }

  /** With no other transaction open, posting a new source, or a journal without one, is the serial
      step: the counter goes up by one and the journal gets that number. */
  lemma AloneIsSerial(s: State, t: nat, p: Posting)
    requires s.txns == map[] && s.locks == map[] && (p.source.Some? ==> p.source.value !in s.sources)
    ensures Run(s, Alone(t, p))
         == State(s.mode, s.counters[p.key := Last(s, p.key) + 1],
                  s.journal + multiset{Issued(p.key, Last(s, p.key) + 1)}, s.sources + OwnSource(p), s.dropped,
                  map[], map[])
  {
    var n := Last(s, p.key) + 1;
    FoldThree(s, Opening(t, p), Draw(t, p), [Insert(t), Commit(t)], Try);
    OpensAlone(s, t, p);
    var s2 := DrawAlone(s.(txns := map[t := Opened(s, p)]), t, p);
    assert s2.txns == map[][t := HasDrawn(p, n, Some(s.sources))];
    FinishAlone(s2, t, p, n, Some(s.sources), map[]);
    assert Released(s2.locks, t) == map[];
    assert s.counters + map[p.key := n] == s.counters[p.key := n];
  }

  // ---- Two postings of one source ----

  /** Both transactions search before either inserts; then the first posts, and the second is
      refused and answered with the first one's journal. */
  function GapRun(t: nat, p: Posting, u: nat, q: Posting): seq<Step> {
    Opening(t, p) + Opening(u, q) + (Draw(t, p) + [Insert(t), Commit(t)])
    + (Draw(u, q) + ([Insert(u)] + [AnswerExisting(u), Commit(u)]))
  }

  lemma BothOpen(t: nat, p: Posting, u: nat, q: Posting)
    requires t != u
    ensures var s := Initial(Latest);
      Run(s, Opening(t, p) + Opening(u, q)) == s.(txns := map[t := Opened(s, p), u := Opened(s, q)])
  {
    var s := Initial(Latest);
    FoldConcat(s, Opening(t, p), Opening(u, q), Try);
    OpensAlone(s, t, p);
    var s1 := s.(txns := map[t := Opened(s, p)]);
    assert s.txns[t := Opened(s, p)] == s1.txns;
    OpensAlone(s1, u, q);
    assert s1.txns[u := Opened(s1, q)] == map[t := Opened(s, p), u := Opened(s, q)];
  }

  lemma FirstPosts(t: nat, p: Posting, u: nat, q: Posting)
    requires t != u
    ensures var s := Initial(Latest);
      Run(s.(txns := map[t := Opened(s, p), u := Opened(s, q)]), Draw(t, p) + [Insert(t), Commit(t)])
      == State(Latest, map[p.key := 1], multiset{Issued(p.key, 1)}, OwnSource(p), multiset{}, map[],
               map[u := Opened(s, q)])
  {
    var s, others := Initial(Latest), map[u := Opened(Initial(Latest), q)];
    var s1 := s.(txns := map[t := Opened(s, p), u := Opened(s, q)]);
    FoldConcat(s1, Draw(t, p), [Insert(t), Commit(t)], Try);
    var s2 := DrawAlone(s1, t, p);
    assert s2.txns == others[t := HasDrawn(p, 1, Some({}))];
    FinishAlone(s2, t, p, 1, Some({}), others);
    assert Released(s2.locks, t) == map[];
    assert s.counters + map[p.key := 1] == map[p.key := 1];
  }

  lemma SecondDrops(s: State, u: nat, q: Posting)
    requires s.mode.Latest? && s.locks == map[] && q.source.Some? && q.source.value in s.sources
    requires s.txns == map[u := Opened(Initial(Latest), q)]
    ensures var s' := Run(s, Draw(u, q) + ([Insert(u)] + [AnswerExisting(u), Commit(u)]));
      Last(s', q.key) == Last(s, q.key) + 1 && s'.dropped == s.dropped + multiset{Issued(q.key, Last(s, q.key) + 1)}
  {
    var n := Last(s, q.key) + 1;
    FoldConcat(s, Draw(u, q), [Insert(u)] + [AnswerExisting(u), Commit(u)], Try);
    var s1 := DrawAlone(s, u, q);
    assert s1.txns == map[u := HasDrawn(q, n, Some({}))];
    RefusedAlone(s1, u, q, n, Some({}));
  }

  /** With latest reads, two transactions that post the same source can leave a gap: the number the
      second one drew is committed in the counter and no journal has it. */
  lemma LatestReadsLeaveGap(t: nat, p: Posting, u: nat, q: Posting)
    requires t != u && p.source.Some? && p.source == q.source
    ensures !Gapless(Run(Initial(Latest), GapRun(t, p, u, q)), q.key)
  {
    var s := Initial(Latest);
    FoldThree(s, Opening(t, p) + Opening(u, q), Draw(t, p) + [Insert(t), Commit(t)],
              Draw(u, q) + ([Insert(u)] + [AnswerExisting(u), Commit(u)]), Try);
    BothOpen(t, p, u, q);
    FirstPosts(t, p, u, q);
    var s2 := State(Latest, map[p.key := 1], multiset{Issued(p.key, 1)}, OwnSource(p), multiset{}, map[],
               map[u := Opened(s, q)]);
    SecondDrops(s2, u, q);
    EveryNumberAccountedFor(Latest, GapRun(t, p, u, q), q.key, Last(s2, q.key) + 1);
  }

  lemma GapRunAsPlanned(plans: seq<Posting>, t: nat, u: nat)
    requires t < |plans| && u < |plans| && plans[t].source.Some? && plans[u].source.Some?
    ensures AsPlanned(plans, GapRun(t, plans[t], u, plans[u]))
  {
  }

  /** With latest reads, every interleaving of the planned postings is gapless if and only if no two
      transactions are to post the same source. */
  lemma GaplessIffSourcesDiffer(plans: seq<Posting>)
    ensures SourcesDiffer(plans)
       <==> forall steps, key :: AsPlanned(plans, steps) ==> Gapless(Run(Initial(Latest), steps), key)
  {
    if SourcesDiffer(plans) {
      forall steps, key | AsPlanned(plans, steps) ensures Gapless(Run(Initial(Latest), steps), key) {
        LatestRun(Initial(Latest), plans, steps);
        NothingDroppedIsGapless(Latest, steps, key);
      }
    } else {
      var t: nat, u: nat :| t < u < |plans| && plans[t].source.Some? && plans[t].source == plans[u].source;
      GapRunAsPlanned(plans, t, u);
      LatestReadsLeaveGap(t, plans[t], u, plans[u]);
    }
  }
}
