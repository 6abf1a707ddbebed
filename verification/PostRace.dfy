/** Concurrent `post` transactions and `cancel` calls on one draft journal. Every statement of
    `post` is a step of its own; the row lock keeps a second `post` waiting. `cancel` takes no lock:
    it reads the draft, and the save of its copy reloads the row and then writes the columns in which
    the copy differs from what was reloaded. The lines, the period and its fiscal year are read
    without a lock, one after the other. */
module PostRace {
  import opened Wrappers
  import opened Errors
  import opened Runs
  import opened Isolation
  import DoubleEntry
  import Decimals
  import opened LedgerModel

  /** Why a period and its fiscal year do not admit postings, as committed at some moment. A row that
      is missing refuses as the year. */
  datatype Shut = Shut(period: Option<Error>, year: Option<Error>)
  {
    /** The year is looked at first. */
    function Refusal(): Option<Error> {
      if year.Some? then year else period
    }
  }

  /** How far a `post` transaction is; a failed one still holds the row until it rolls back. Its first
      read without a lock is that of the lines, which fixes its snapshot. */
  datatype Stage =
    | Begun
    | HoldsDraft
    | HasTotals(totals: DoubleEntry.Totals, snapshot: Shut)
    | HasPeriod(totals: DoubleEntry.Totals, snapshot: Shut, period: Option<Error>)
    | Cleared(totals: DoubleEntry.Totals)
    | Written(totals: DoubleEntry.Totals, at: int)
    | Failed(error: Error)

  datatype Posting = Posting(userId: nat, stage: Stage)

  /** How a `post` ended; rolled back without an error when its connection was lost. */
  datatype Outcome = Committed(userId: nat, at: int) | RolledBack(error: Option<Error>)

  /** A `cancel` that has read a draft and not written yet: its copy, and the row as reloaded. */
  datatype Cancelling = Cancelling(copy: Entry, reloaded: Option<Entry>)

  /** What plain reads see, the committed row, its stored lines, its period and year, the row lock,
      the open `post` transactions, how the others ended, the `cancel` calls under way, and, for the
      record, the row a `post` has committed. */
  datatype State = State(
    mode: Reads,
    row: Entry,
    lines: seq<DoubleEntry.Amounts>,
    shut: Shut,
    lock: Option<nat>,
    posts: map<nat, Posting>,
    outcomes: map<nat, Outcome>,
    cancels: map<nat, Cancelling>,
    posted: Option<Entry>)

  datatype Step =
    | Begin(t: nat, userId: nat)
    | LockRow(t: nat)
    | CheckLines(t: nat)
    | ReadPeriod(t: nat)
    | ReadYear(t: nat)
    | Write(t: nat, at: int)
    | Commit(t: nat)
    | Abort(t: nat)
    | CancelRead(c: nat)
    | CancelReload(c: nat)
    | CancelWrite(c: nat)
    | CancelWhole
    | SetPeriod(refusal: Option<Error>)
    | SetYear(refusal: Option<Error>)

  function Initial(mode: Reads, row: Entry, lines: seq<DoubleEntry.Amounts>, shut: Shut): State {
    State(mode, row, lines, shut, None, map[], map[], map[], None)
  }

  predicate At(s: State, t: nat, p: Stage -> bool) {
    t in s.posts && p(s.posts[t].stage)
  }

  predicate Enabled(s: State, step: Step) {
    match step
    case Begin(t, _) => t !in s.posts && t !in s.outcomes
    case LockRow(t) => At(s, t, (x: Stage) => x.Begun?) && s.lock == None
    case CheckLines(t) => At(s, t, (x: Stage) => x.HoldsDraft?)
    case ReadPeriod(t) => At(s, t, (x: Stage) => x.HasTotals?)
    case ReadYear(t) => At(s, t, (x: Stage) => x.HasPeriod?)
    case Write(t, _) => At(s, t, (x: Stage) => x.Cleared?)
    case Commit(t) => At(s, t, (x: Stage) => x.Written?)
    case Abort(t) => t in s.posts
    case CancelRead(c) => c !in s.cancels && s.row.status == Draft
    case CancelReload(c) => c in s.cancels && s.cancels[c].reloaded == None
    case CancelWrite(c) => c in s.cancels && s.cancels[c].reloaded.Some? && s.lock == None
    case CancelWhole => s.lock == None && s.row.status == Draft
    case SetPeriod(_) => true
    case SetYear(_) => true
  }

  function Move(s: State, t: nat, stage: Stage): State
    requires t in s.posts
  {
    s.(posts := s.posts[t := s.posts[t].(stage := stage)])
  }

  /** What a transaction with this snapshot reads of period and year. */
  function Seen(s: State, snapshot: Shut): Shut {
    if s.mode.Snapshot? then snapshot else s.shut
  }

  /** The transaction ends and gives its lock back. */
  function End(s: State, t: nat, outcome: Outcome): State {
    s.(posts := s.posts - {t}, outcomes := s.outcomes[t := outcome],
       lock := if s.lock == Some(t) then None else s.lock)
  }

  /** The row after a save of e: the columns in which e differs from the reloaded row are written.
      No step changes the columns that are not named here. */
  function Saved(row: Entry, e: Entry, reloaded: Entry): Entry {
    row.(status := if e.status != reloaded.status then e.status else row.status,
         totalDebit := if e.totalDebit != reloaded.totalDebit then e.totalDebit else row.totalDebit,
         totalCredit := if e.totalCredit != reloaded.totalCredit then e.totalCredit else row.totalCredit,
         postedBy := if e.postedBy != reloaded.postedBy then e.postedBy else row.postedBy,
         postedAt := if e.postedAt != reloaded.postedAt then e.postedAt else row.postedAt)
  }

  function CancelledCopy(e: Entry): Entry {
    e.(status := Cancelled)
  }

  function Next(s: State, step: Step): State
    requires Enabled(s, step)
  {
    match step
    case Begin(t, userId) => s.(posts := s.posts[t := Posting(userId, Begun)])
    case LockRow(t) =>
      Move(s, t, if s.row.status == Draft then HoldsDraft else Failed(NotDraft)).(lock := Some(t))
    case CheckLines(t) =>
      (match DoubleEntry.CheckBalanced(s.lines)
       case Ok(totals) => Move(s, t, HasTotals(totals, s.shut))
       case Err(e) => Move(s, t, Failed(e)))
    case ReadPeriod(t) =>
      var x := s.posts[t].stage;
      Move(s, t, HasPeriod(x.totals, x.snapshot, Seen(s, x.snapshot).period))
    case ReadYear(t) =>
      var x := s.posts[t].stage;
      (match Shut(x.period, Seen(s, x.snapshot).year).Refusal()
       case None => Move(s, t, Cleared(x.totals))
       case Some(e) => Move(s, t, Failed(e)))
    case Write(t, at) =>
      var totals := s.posts[t].stage.totals;
      Move(s, t, if Decimals.FitsColumn(totals.totalDebit) then Written(totals, at) else Failed(OutOfRange))
    case Commit(t) =>
      var x := s.posts[t];
      var row := PostedVersion(s.row, x.stage.totals, x.userId, x.stage.at);
      End(s, t, Committed(x.userId, x.stage.at)).(row := row, posted := Some(row))
    case Abort(t) =>
      var stage := s.posts[t].stage;
      End(s, t, RolledBack(if stage.Failed? then Some(stage.error) else None))
    case CancelRead(c) => s.(cancels := s.cancels[c := Cancelling(s.row, None)])
    case CancelReload(c) => s.(cancels := s.cancels[c := s.cancels[c].(reloaded := Some(s.row))])
    case CancelWrite(c) =>
      var x := s.cancels[c];
      s.(row := Saved(s.row, CancelledCopy(x.copy), x.reloaded.value), cancels := s.cancels - {c})
    case CancelWhole => s.(row := CancelledCopy(s.row))
    case SetPeriod(refusal) => s.(shut := s.shut.(period := refusal))
    case SetYear(refusal) => s.(shut := s.shut.(year := refusal))
  }

  /** A step that is not possible, or waits for the lock, does not happen. */
  function Try(s: State, step: Step): State {
    if Enabled(s, step) then Next(s, step) else s
  }

  function Run(s: State, steps: seq<Step>): State {
    Fold(s, steps, Try)
  }

  // ---- The invariant ----

  /** Whoever got past the lock holds it, and found a draft unless it failed for that. */
  ghost predicate LockDiscipline(s: State) {
    && (s.lock.Some? ==> s.lock.value in s.posts && !s.posts[s.lock.value].stage.Begun?)
    && (forall t :: t in s.posts && !s.posts[t].stage.Begun? ==> s.lock == Some(t))
    && (forall t :: t in s.posts && s.posts[t].stage.Begun? ==> s.lock != Some(t))
    && (forall t :: t in s.posts && s.posts[t].stage !in {Begun, Failed(NotDraft)} ==> s.row.status == Draft)
    && s.posts.Keys !! s.outcomes.Keys
  }

  predicate TotalsOf(stage: Stage, lines: seq<DoubleEntry.Amounts>) {
    stage.HasTotals? || stage.HasPeriod? || stage.Cleared? || stage.Written? ==>
      DoubleEntry.CheckBalanced(lines) == Ok(stage.totals)
  }

  /** The row the committed `post` was to write. */
  predicate IsPosting(e: Entry, original: Entry, lines: seq<DoubleEntry.Amounts>, done: Outcome)
    requires done.Committed?
  {
    var check := DoubleEntry.CheckBalanced(lines);
    check.Ok? && e == PostedVersion(original, check.value, done.userId, done.at)
  }

  /** What the row can be, at any moment: the draft or the posting, as such or marked CANCELLED. */
  predicate Possible(s: State, original: Entry, e: Entry) {
    || e == original || e == CancelledCopy(original)
    || (s.posted.Some? && (e == s.posted.value || e == CancelledCopy(s.posted.value)))
  }

  ghost predicate RowOk(s: State, original: Entry) {
    && Possible(s, original, s.row)
    && (s.posted.Some? ==>
          && s.posted.value.status == Posted && s.row.status != Draft
          && exists t :: t in s.outcomes && s.outcomes[t].Committed?)
  }

  /** A `cancel` works on a copy of the draft. What it reloaded was the row at that time, and a
      cancelled row stays cancelled. */
  predicate CancelOk(s: State, original: Entry, x: Cancelling) {
    && x.copy == original
    && (x.reloaded.Some? ==>
          && Possible(s, original, x.reloaded.value)
          && (x.reloaded.value.status == Cancelled ==> s.row.status == Cancelled))
  }

  ghost predicate OutcomesOk(s: State, original: Entry) {
    && (forall t :: t in s.outcomes && s.outcomes[t].Committed? ==>
          s.posted.Some? && IsPosting(s.posted.value, original, s.lines, s.outcomes[t]))
    && (forall t, u :: t in s.outcomes && u in s.outcomes ==>
          s.outcomes[t].Committed? && s.outcomes[u].Committed? ==> t == u)
  }

  ghost predicate CancelsOk(s: State, original: Entry) {
    forall c :: c in s.cancels ==> CancelOk(s, original, s.cancels[c])
  }

  ghost predicate PostsOk(s: State) {
    LockDiscipline(s) && forall t :: t in s.posts ==> TotalsOf(s.posts[t].stage, s.lines)
  }

  ghost predicate Inv(s: State, original: Entry) {
    PostsOk(s) && RowOk(s, original) && OutcomesOk(s, original) && CancelsOk(s, original)
  }

  lemma StepKeepsTotals(s: State, step: Step)
    requires PostsOk(s) && Enabled(s, step)
    ensures forall t :: t in Next(s, step).posts ==> TotalsOf(Next(s, step).posts[t].stage, Next(s, step).lines)
  {
  }

  lemma StepKeepsPosts(s: State, step: Step)
    requires PostsOk(s) && Enabled(s, step)
    ensures PostsOk(Next(s, step))
  {
    StepKeepsTotals(s, step);
    if step.Abort? || step.Commit? {
      EndKeepsLocks(s, step);
    } else {
      OtherKeepsLocks(s, step);
    }
  }

  lemma EndKeepsLocks(s: State, step: Step)
    requires LockDiscipline(s) && Enabled(s, step) && (step.Abort? || step.Commit?)
    ensures LockDiscipline(Next(s, step))
  {
  }

  lemma OtherKeepsLocks(s: State, step: Step)
    requires LockDiscipline(s) && Enabled(s, step) && !step.Abort? && !step.Commit?
    ensures LockDiscipline(Next(s, step))
  {
  }

  /** Whoever commits holds the draft as it was created, and nobody has committed before. */
  lemma CommitsTheDraft(s: State, original: Entry, t: nat)
    requires Inv(s, original) && Enabled(s, Commit(t))
    ensures s.row == original && s.posted == None
    ensures forall u :: u in s.outcomes ==> s.outcomes[u].RolledBack?
  {
  }

  lemma CommitKeepsRow(s: State, original: Entry, t: nat)
    requires Inv(s, original) && Enabled(s, Commit(t))
    ensures RowOk(Next(s, Commit(t)), original) && OutcomesOk(Next(s, Commit(t)), original)
    ensures CancelsOk(Next(s, Commit(t)), original)
  {
    var s' := Next(s, Commit(t));
    CommitsTheDraft(s, original, t);
    assert s'.outcomes[t].Committed?;
    forall c | c in s'.cancels ensures CancelOk(s', original, s'.cancels[c]) {
      assert CancelOk(s, original, s.cancels[c]);
    }
  }

  /** A save leaves the draft or the posting, marked CANCELLED, whenever it reloaded the row. */
  lemma SavedIsPossible(s: State, original: Entry, x: Cancelling)
    requires original.status == Draft && RowOk(s, original) && CancelOk(s, original, x) && x.reloaded.Some?
    requires s.posted.Some? ==>
      exists totals, userId, at :: s.posted.value == PostedVersion(original, totals, userId, at)
    ensures var e := Saved(s.row, CancelledCopy(x.copy), x.reloaded.value);
      e.status == Cancelled && Possible(s, original, e)
  {
  }

  lemma PostedFromDraft(s: State, original: Entry)
    requires Inv(s, original) && s.posted.Some?
    ensures exists totals, userId, at :: s.posted.value == PostedVersion(original, totals, userId, at)
  {
    var t :| t in s.outcomes && s.outcomes[t].Committed?;
    assert IsPosting(s.posted.value, original, s.lines, s.outcomes[t]);
  }

  lemma CancelWriteKeepsRow(s: State, original: Entry, c: nat)
    requires original.status == Draft && Inv(s, original) && Enabled(s, CancelWrite(c))
    ensures RowOk(Next(s, CancelWrite(c)), original) && OutcomesOk(Next(s, CancelWrite(c)), original)
    ensures CancelsOk(Next(s, CancelWrite(c)), original)
  {
    var s' := Next(s, CancelWrite(c));
    assert CancelOk(s, original, s.cancels[c]);
    if s.posted.Some? {
      PostedFromDraft(s, original);
    }
    SavedIsPossible(s, original, s.cancels[c]);
    forall d | d in s'.cancels ensures CancelOk(s', original, s'.cancels[d]) {
      assert CancelOk(s, original, s.cancels[d]);
    }
  }

  /** Reading, and beginning or preparing a `post`, leaves the row as it is. */
  lemma QuietStepKeepsRow(s: State, original: Entry, step: Step)
    requires Inv(s, original) && Enabled(s, step)
    requires Next(s, step).row == s.row && Next(s, step).posted == s.posted
    requires Next(s, step).outcomes == s.outcomes && Next(s, step).cancels == s.cancels
    ensures RowOk(Next(s, step), original) && OutcomesOk(Next(s, step), original) && CancelsOk(Next(s, step), original)
  {
    var s' := Next(s, step);
    assert s'.lines == s.lines;
    forall c | c in s'.cancels ensures CancelOk(s', original, s'.cancels[c]) {
      assert CancelOk(s, original, s.cancels[c]);
    }
  }

  /** A `cancel` that does not save yet, or cancels the draft as one step. */
  lemma CancelStepKeepsRow(s: State, original: Entry, step: Step)
    requires original.status == Draft && Inv(s, original) && Enabled(s, step)
    requires step.CancelRead? || step.CancelReload? || step.CancelWhole?
    ensures RowOk(Next(s, step), original) && OutcomesOk(Next(s, step), original) && CancelsOk(Next(s, step), original)
  {
    var s' := Next(s, step);
    forall c | c in s'.cancels ensures CancelOk(s', original, s'.cancels[c]) {
      if c in s.cancels {
        assert CancelOk(s, original, s.cancels[c]);
      }
    }
  }

  lemma OtherStepsAreQuiet(s: State, step: Step)
    requires Enabled(s, step) && !step.Commit? && !step.CancelWrite? && !step.Abort?
    requires !step.CancelRead? && !step.CancelReload? && !step.CancelWhole?
    ensures Next(s, step).row == s.row && Next(s, step).posted == s.posted
    ensures Next(s, step).outcomes == s.outcomes && Next(s, step).cancels == s.cancels
  {
  }

  lemma AbortKeepsRow(s: State, original: Entry, t: nat)
    requires Inv(s, original) && Enabled(s, Abort(t))
    ensures RowOk(Next(s, Abort(t)), original) && OutcomesOk(Next(s, Abort(t)), original)
    ensures CancelsOk(Next(s, Abort(t)), original)
  {
    var s' := Next(s, Abort(t));
    if s.posted.Some? {
      var u :| u in s.outcomes && s.outcomes[u].Committed?;
      assert u in s'.outcomes && s'.outcomes[u].Committed?;
    }
    forall c | c in s'.cancels ensures CancelOk(s', original, s'.cancels[c]) {
      assert CancelOk(s, original, s.cancels[c]);
    }
  }

  lemma StepKeepsInv(s: State, original: Entry, step: Step)
    requires original.status == Draft && Inv(s, original) && Enabled(s, step)
    ensures Inv(Next(s, step), original)
  {
    StepKeepsPosts(s, step);
    match step
    case Commit(t) => CommitKeepsRow(s, original, t);
    case Abort(t) => AbortKeepsRow(s, original, t);
    case CancelWrite(c) => CancelWriteKeepsRow(s, original, c);
    case CancelRead(_) => CancelStepKeepsRow(s, original, step);
    case CancelReload(_) => CancelStepKeepsRow(s, original, step);
    case CancelWhole => CancelStepKeepsRow(s, original, step);
    case _ =>
      OtherStepsAreQuiet(s, step);
      QuietStepKeepsRow(s, original, step);
  }

  lemma {:induction false} RunKeepsInv(s: State, original: Entry, steps: seq<Step>)
    requires original.status == Draft && Inv(s, original)
    ensures Inv(Run(s, steps), original)
  {
    if steps != [] {
      RunKeepsInv(s, original, steps[..|steps| - 1]);
      var before := Run(s, steps[..|steps| - 1]);
      if Enabled(before, steps[|steps| - 1]) {
        StepKeepsInv(before, original, steps[|steps| - 1]);
      }
    }
  }

  lemma {:induction false} LinesStay(s: State, steps: seq<Step>)
    ensures Run(s, steps).lines == s.lines
  {
    if steps != [] {
      LinesStay(s, steps[..|steps| - 1]);
    }
  }

  // ---- At most one post commits ----

  /** Whatever the interleaving of posts, cancels and period changes, at most one `post` of the
      draft commits. Its posting has the totals of the lines, that call's user and instant, and every
      other field of the draft; the row is that posting, or that posting or the draft as it was
      before, marked CANCELLED. */
  lemma AtMostOneCommits(mode: Reads, original: Entry, lines: seq<DoubleEntry.Amounts>, shut: Shut, steps: seq<Step>)
    requires original.status == Draft
    ensures var s := Run(Initial(mode, original, lines, shut), steps);
      && (forall t, u :: t in s.outcomes && u in s.outcomes ==>
            s.outcomes[t].Committed? && s.outcomes[u].Committed? ==> t == u)
      && (forall t :: t in s.outcomes && s.outcomes[t].Committed? ==>
            && DoubleEntry.Balanced(lines)
            && var posting := PostedVersion(original, DoubleEntry.CheckBalanced(lines).value,
                                            s.outcomes[t].userId, s.outcomes[t].at);
               s.row in {posting, CancelledCopy(posting), CancelledCopy(original)})
  {
    RunKeepsInv(Initial(mode, original, lines, shut), original, steps);
    LinesStay(Initial(mode, original, lines, shut), steps);
    var s := Run(Initial(mode, original, lines, shut), steps);
    forall t | t in s.outcomes && s.outcomes[t].Committed?
      ensures IsPosting(s.posted.value, original, lines, s.outcomes[t])
    {
    }
  }

  /** A POSTED row carries exactly the posting of a committed `post`. */
  lemma PostedMeansCommitted(mode: Reads, original: Entry, lines: seq<DoubleEntry.Amounts>, shut: Shut,
                             steps: seq<Step>)
    requires original.status == Draft
    ensures var s := Run(Initial(mode, original, lines, shut), steps);
      s.row.status == Posted ==>
        exists t :: t in s.outcomes && s.outcomes[t].Committed? && IsPosting(s.row, original, lines, s.outcomes[t])
  {
    RunKeepsInv(Initial(mode, original, lines, shut), original, steps);
    LinesStay(Initial(mode, original, lines, shut), steps);
    var s := Run(Initial(mode, original, lines, shut), steps);
    if s.row.status == Posted {
      assert s.posted.Some? && s.row == s.posted.value;
      var t :| t in s.outcomes && s.outcomes[t].Committed?;
      assert IsPosting(s.row, original, lines, s.outcomes[t]);
    }
  }

  /** A `post` whose work has not failed for another reason while the row was still a draft. */
  predicate Late(s: State, t: nat) {
    && (t in s.posts ==> s.posts[t].stage in {Begun, Failed(NotDraft)})
    && (t in s.outcomes ==> s.outcomes[t] in {RolledBack(None), RolledBack(Some(NotDraft))})
  }

  lemma LateStep(s: State, original: Entry, step: Step, t: nat)
    requires original.status == Draft && Inv(s, original) && s.row.status != Draft && Late(s, t) && Enabled(s, step)
    ensures Late(Next(s, step), t)
  {
  }

  lemma DecidedStays(s: State, original: Entry, step: Step)
    requires original.status == Draft && Inv(s, original) && s.row.status != Draft && Enabled(s, step)
    ensures Next(s, step).row.status != Draft
  {
    if step.CancelWrite? {
      assert CancelOk(s, original, s.cancels[step.c]);
      if s.posted.Some? {
        PostedFromDraft(s, original);
      }
      SavedIsPossible(s, original, s.cancels[step.c]);
    }
  }

  lemma {:induction false} LateRun(s: State, original: Entry, steps: seq<Step>, t: nat)
    requires original.status == Draft && Inv(s, original) && s.row.status != Draft && Late(s, t)
    ensures Late(Run(s, steps), t) && Run(s, steps).row.status != Draft
  {
    if steps != [] {
      var before, step := Run(s, steps[..|steps| - 1]), steps[|steps| - 1];
      LateRun(s, original, steps[..|steps| - 1], t);
      RunKeepsInv(s, original, steps[..|steps| - 1]);
      if Enabled(before, step) {
        LateStep(before, original, step, t);
        DecidedStays(before, original, step);
      }
    }
  }

  /** Once the row has left DRAFT, every `post` still open or begun later ends in a conflict, or
      without an error when its connection is lost. */
  lemma OthersConflict(mode: Reads, original: Entry, lines: seq<DoubleEntry.Amounts>, shut: Shut, steps: seq<Step>,
                       rest: seq<Step>, t: nat)
    requires original.status == Draft
    ensures var s := Run(Initial(mode, original, lines, shut), steps);
      var s' := Run(s, rest);
      s.row.status != Draft && t !in s.outcomes && t in s'.outcomes ==>
        s'.outcomes[t] == RolledBack(None) || s'.outcomes[t] == RolledBack(Some(NotDraft))
  {
    var s := Run(Initial(mode, original, lines, shut), steps);
    RunKeepsInv(Initial(mode, original, lines, shut), original, steps);
    if s.row.status != Draft && t !in s.outcomes {
      LateRun(s, original, rest, t);
    }
  }

  // ---- Is POSTED terminal? ----

  predicate Sealed(s: State, row: Entry) {
    s.row == row && s.cancels == map[] && row.status != Draft
  }

  lemma SealedStep(s: State, original: Entry, step: Step, row: Entry)
    requires Inv(s, original) && Sealed(s, row) && Enabled(s, step)
    ensures Sealed(Next(s, step), row)
  {
  }

  lemma {:induction false} SealedRun(s: State, original: Entry, steps: seq<Step>)
    requires original.status == Draft && Inv(s, original) && Sealed(s, s.row)
    ensures Sealed(Run(s, steps), s.row)
  {
    if steps != [] {
      var before, step := Run(s, steps[..|steps| - 1]), steps[|steps| - 1];
      SealedRun(s, original, steps[..|steps| - 1]);
      RunKeepsInv(s, original, steps[..|steps| - 1]);
      if Enabled(before, step) {
        SealedStep(before, original, step, s.row);
      }
    }
  }

  /** The holder of the row, if any, gives it up. */
  function FreeRow(s: State): seq<Step> {
    if s.lock.Some? then [Abort(s.lock.value)] else []
  }

  function Reload(s: State, c: nat): seq<Step> {
    if c in s.cancels && s.cancels[c].reloaded == None then [CancelReload(c)] else []
  }

  /** Steps that let a `cancel` that is under way write now. */
  function LetWrite(s: State, c: nat): seq<Step> {
    FreeRow(s) + Reload(s, c) + [CancelWrite(c)]
  }

  lemma RowFreed(s: State, original: Entry)
    requires Inv(s, original)
    ensures var s' := Run(s, FreeRow(s));
      s'.lock == None && s'.cancels == s.cancels && s'.row == s.row && s'.posted == s.posted
  {
    if s.lock.Some? {
      FoldOne(s, Abort(s.lock.value), Try);
    }
  }

  lemma Reloaded(s: State, c: nat)
    requires s.lock == None && c in s.cancels
    ensures var s' := Run(s, Reload(s, c));
      s'.lock == None && c in s'.cancels && s'.cancels[c].reloaded.Some? && s'.row == s.row && s'.posted == s.posted
  {
    if s.cancels[c].reloaded == None {
      FoldOne(s, CancelReload(c), Try);
    }
  }

  lemma PendingCancelWrites(s: State, original: Entry, c: nat)
    requires original.status == Draft && Inv(s, original) && c in s.cancels
    ensures Run(s, LetWrite(s, c)).row.status == Cancelled
  {
    FoldThree(s, FreeRow(s), Reload(s, c), [CancelWrite(c)], Try);
    var s1 := Run(s, FreeRow(s));
    RowFreed(s, original);
    RunKeepsInv(s, original, FreeRow(s));
    assert Reload(s, c) == Reload(s1, c);
    var s2 := Run(s1, Reload(s1, c));
    Reloaded(s1, c);
    RunKeepsInv(s1, original, Reload(s1, c));
    FoldOne(s2, CancelWrite(c), Try);
    assert CancelOk(s2, original, s2.cancels[c]);
    if s2.posted.Some? {
      PostedFromDraft(s2, original);
    }
    SavedIsPossible(s2, original, s2.cancels[c]);
  }

  /** A POSTED row stays as it is in every continuation exactly when no `cancel` is between its
      read and its write. */
  lemma TerminalIffNoPendingCancel(mode: Reads, original: Entry, lines: seq<DoubleEntry.Amounts>, shut: Shut,
                                   steps: seq<Step>)
    requires original.status == Draft
    ensures var s := Run(Initial(mode, original, lines, shut), steps);
      s.row.status == Posted ==>
        (s.cancels == map[] <==> forall rest :: Run(s, rest).row == s.row)
  {
    var s := Run(Initial(mode, original, lines, shut), steps);
    RunKeepsInv(Initial(mode, original, lines, shut), original, steps);
    if s.row.status == Posted {
      if s.cancels == map[] {
        forall rest ensures Run(s, rest).row == s.row {
          SealedRun(s, original, rest);
        }
      } else {
        var c :| c in s.cancels;
        PendingCancelWrites(s, original, c);
        assert Run(s, LetWrite(s, c)).row != s.row;
      }
    }
  }

  lemma {:induction false} NoSplitNoPending(s: State, steps: seq<Step>)
    requires s.cancels == map[] && forall i :: 0 <= i < |steps| ==> !steps[i].CancelRead?
    ensures Run(s, steps).cancels == map[]
  {
    if steps != [] {
      NoSplitNoPending(s, steps[..|steps| - 1]);
    }
  }

  /** With `cancel` as one atomic step, POSTED is terminal in every run. */
  lemma AtomicCancelMakesPostedTerminal(mode: Reads, original: Entry, lines: seq<DoubleEntry.Amounts>, shut: Shut,
                                        steps: seq<Step>, rest: seq<Step>)
    requires original.status == Draft
    requires forall i :: 0 <= i < |steps| ==> !steps[i].CancelRead?
    ensures var s := Run(Initial(mode, original, lines, shut), steps);
      s.row.status == Posted ==> Run(s, rest).row == s.row
  {
    NoSplitNoPending(Initial(mode, original, lines, shut), steps);
    TerminalIffNoPendingCancel(mode, original, lines, shut, steps);
  }

  // ---- Runs without interference ----

  /** A `post` up to its read of the period. */
  function Opening(t: nat, userId: nat): seq<Step> {
    [Begin(t, userId), LockRow(t), CheckLines(t), ReadPeriod(t)]
  }

  /** The rest of it: a step that its own failure rules out does not happen, and the final rollback
      only happens to a transaction that has not committed. */
  function Closing(t: nat, at: int): seq<Step> {
    [ReadYear(t), Write(t, at), Commit(t), Abort(t)]
  }

  function WholePost(t: nat, userId: nat, at: int): seq<Step> {
    Opening(t, userId) + Closing(t, at)
  }

  function Opened(s: State, t: nat, userId: nat): State {
    Try(Try(Try(Try(s, Begin(t, userId)), LockRow(t)), CheckLines(t)), ReadPeriod(t))
  }

  function Closed(s: State, t: nat, at: int): State {
    Try(Try(Try(Try(s, ReadYear(t)), Write(t, at)), Commit(t)), Abort(t))
  }

  lemma WholePostUnrolled(s: State, t: nat, userId: nat, at: int)
    ensures Run(s, Opening(t, userId)) == Opened(s, t, userId)
    ensures Run(s, WholePost(t, userId, at)) == Closed(Opened(s, t, userId), t, at)
  {
    FoldConcat(s, Opening(t, userId), Closing(t, at), Try);
    FoldFour(s, Begin(t, userId), LockRow(t), CheckLines(t), ReadPeriod(t), Try);
    FoldFour(Opened(s, t, userId), ReadYear(t), Write(t, at), Commit(t), Abort(t), Try);
  }

  function Ended(s: State, t: nat, outcome: Outcome): State {
    s.(outcomes := s.outcomes[t := outcome])
  }

  predicate Balances(s: State) {
    s.row.status == Draft && DoubleEntry.CheckBalanced(s.lines).Ok?
  }

  function TotalsIn(s: State): DoubleEntry.Totals
    requires Balances(s)
  {
    DoubleEntry.CheckBalanced(s.lines).value
  }

  lemma OpensThrough(s: State, t: nat, userId: nat)
    requires s.lock == None && t !in s.posts && t !in s.outcomes && Balances(s)
    ensures Opened(s, t, userId) == s.(lock := Some(t),
              posts := s.posts[t := Posting(userId, HasPeriod(TotalsIn(s), s.shut, s.shut.period))])
  {
    var s2 := Try(Try(s, Begin(t, userId)), LockRow(t));
    assert s2 == s.(lock := Some(t), posts := s.posts[t := Posting(userId, HoldsDraft)]);
    var s3 := Try(s2, CheckLines(t));
    assert s3.posts == s.posts[t := Posting(userId, HasTotals(TotalsIn(s), s.shut))];
    assert Try(s3, ReadPeriod(t)).posts
        == s.posts[t := Posting(userId, HasPeriod(TotalsIn(s), s.shut, s.shut.period))];
  }

  lemma FailedStays(s: State, t: nat, e: Error)
    requires t in s.posts && s.posts[t].stage == Failed(e)
    ensures Try(s, CheckLines(t)) == s && Try(s, ReadPeriod(t)) == s && Try(s, ReadYear(t)) == s
  {
  }

  lemma FailsEarly(s: State, t: nat, userId: nat, at: int)
    requires s.lock == None && t !in s.posts && t !in s.outcomes && !Balances(s)
    ensures Run(s, WholePost(t, userId, at)) == Ended(s, t, RolledBack(Some(
              if s.row.status != Draft then NotDraft else DoubleEntry.CheckBalanced(s.lines).error)))
  {
    WholePostUnrolled(s, t, userId, at);
    var s2 := Try(Try(s, Begin(t, userId)), LockRow(t));
    var e := if s.row.status != Draft then NotDraft else DoubleEntry.CheckBalanced(s.lines).error;
    if s.row.status != Draft {
      FailedStays(s2, t, e);
    }
    var s3 := Try(s2, CheckLines(t));
    FailedStays(s3, t, e);
    FailedEnds(s3, t, at, e);
    assert s3.posts - {t} == s.posts;
  }

  lemma FailedEnds(s: State, t: nat, at: int, e: Error)
    requires t in s.posts && s.posts[t].stage == Failed(e)
    ensures Try(Try(Try(s, Write(t, at)), Commit(t)), Abort(t)) == End(s, t, RolledBack(Some(e)))
  {
    assert Try(Try(s, Write(t, at)), Commit(t)) == s;
  }

  lemma FailsLate(s: State, t: nat, userId: nat, at: int)
    requires s.lock == None && t !in s.posts && t !in s.outcomes && Balances(s)
    requires s.shut.Refusal().Some? || !Decimals.FitsColumn(TotalsIn(s).totalDebit)
    ensures Run(s, WholePost(t, userId, at)) == Ended(s, t, RolledBack(Some(
              if s.shut.Refusal().Some? then s.shut.Refusal().value else OutOfRange)))
  {
    WholePostUnrolled(s, t, userId, at);
    OpensThrough(s, t, userId);
    var s5 := Try(Opened(s, t, userId), ReadYear(t));
    if s.shut.Refusal().Some? {
      FailedEnds(s5, t, at, s.shut.Refusal().value);
    } else {
      FailedEnds(Try(s5, Write(t, at)), t, at, OutOfRange);
    }
    assert Try(s5, Write(t, at)).posts - {t} == s.posts;
  }

  predicate Postworthy(s: State) {
    Balances(s) && s.shut.Refusal() == None && Decimals.FitsColumn(TotalsIn(s).totalDebit)
  }

  function Checked(s: State, t: nat, userId: nat): State
    requires Balances(s)
  {
    s.(lock := Some(t), posts := s.posts[t := Posting(userId, Cleared(TotalsIn(s)))])
  }

  lemma PassesYear(s: State, t: nat, userId: nat, totals: DoubleEntry.Totals, snapshot: Shut)
    requires t in s.posts && s.posts[t] == Posting(userId, HasPeriod(totals, snapshot, None))
    requires Seen(s, snapshot).year == None
    ensures Try(s, ReadYear(t)) == s.(posts := s.posts[t := Posting(userId, Cleared(totals))])
  {
  }

  lemma ChecksThrough(s: State, t: nat, userId: nat)
    requires s.lock == None && t !in s.posts && t !in s.outcomes && Balances(s) && s.shut.Refusal() == None
    ensures Try(Opened(s, t, userId), ReadYear(t)) == Checked(s, t, userId)
  {
    OpensThrough(s, t, userId);
    var s4 := s.(lock := Some(t), posts := s.posts[t := Posting(userId, HasPeriod(TotalsIn(s), s.shut, None))]);
    PassesYear(s4, t, userId, TotalsIn(s), s.shut);
    assert s4.posts[t := Posting(userId, Cleared(TotalsIn(s)))] == Checked(s, t, userId).posts;
  }

  /** What a `post` that commits now leaves. */
  function PostedState(s: State, t: nat, userId: nat, at: int, totals: DoubleEntry.Totals): State {
    var row := PostedVersion(s.row, totals, userId, at);
    s.(row := row, posted := Some(row), lock := None, posts := s.posts - {t},
       outcomes := s.outcomes[t := Committed(userId, at)])
  }

  lemma WritesThrough(s: State, t: nat, userId: nat, at: int, totals: DoubleEntry.Totals)
    requires s.lock == Some(t) && t in s.posts && s.posts[t] == Posting(userId, Cleared(totals))
    requires Decimals.FitsColumn(totals.totalDebit)
    ensures Try(Try(s, Write(t, at)), Commit(t)) == PostedState(s, t, userId, at, totals)
  {
    var s1 := Try(s, Write(t, at));
    assert s1 == s.(posts := s.posts[t := Posting(userId, Written(totals, at))]);
    assert s1.posts - {t} == s.posts - {t};
  }

  lemma RunsThrough(s: State, t: nat, userId: nat, at: int)
    requires s.lock == None && t !in s.posts && t !in s.outcomes && Postworthy(s)
    ensures Run(s, WholePost(t, userId, at)) == PostedState(s, t, userId, at, TotalsIn(s))
  {
    WholePostUnrolled(s, t, userId, at);
    ChecksThrough(s, t, userId);
    var s5 := Checked(s, t, userId);
    WritesThrough(s5, t, userId, at, TotalsIn(s));
    assert s5.posts - {t} == s.posts - {t};
    assert t !in PostedState(s, t, userId, at, TotalsIn(s)).posts;
  }

  function ShutOf(db: Db, p: nat): (shut: Shut)
    ensures shut.Refusal() == PostableError(db, p)
  {
    match YearOfPeriod(db, p)
    case None => Shut(None, Some(NotFound))
    case Some(y) =>
      Shut(if db.periods[p].status == LockedPeriod then Some(PeriodLocked) else None,
           if y.status == ClosedYear then Some(YearClosed) else None)
  }

  /** The state of one stored journal with nothing open. */
  function Quiet(mode: Reads, db: Db, id: nat): State
    requires id < |db.entries|
  {
    Initial(mode, db.entries[id], AmountsOf(EntryLines(db, id)), ShutOf(db, db.entries[id].periodId))
  }

  /** Without interference, the steps of one `post` do what the serial `Post` does. */
  lemma AlonePostIsSerial(mode: Reads, db: Db, id: nat, companyId: nat, t: nat, userId: nat, at: int)
    requires InCompany(db, id, companyId)
    ensures var s := Run(Quiet(mode, db, id), WholePost(t, userId, at));
      var a := Post(db, id, companyId, userId, at);
      && s.row == a.db.entries[id]
      && s.lock == None && s.posts == map[]
      && s.outcomes == map[t := if a.result.Ok? then Committed(userId, at) else RolledBack(Some(a.result.error))]
  {
    var s := Quiet(mode, db, id);
    var check := DoubleEntry.CheckBalanced(s.lines);
    if s.row.status != Draft || check.Err? {
      FailsEarly(s, t, userId, at);
    } else if s.shut.Refusal().Some? || !Decimals.FitsColumn(check.value.totalDebit) {
      FailsLate(s, t, userId, at);
    } else {
      RunsThrough(s, t, userId, at);
    }
  }

  /** What a serial `Post` that succeeds needs and writes. */
  lemma PostWrites(mode: Reads, db: Db, id: nat, companyId: nat, userId: nat, at: int)
    requires InCompany(db, id, companyId) && Post(db, id, companyId, userId, at).result.Ok?
    ensures var s := Quiet(mode, db, id);
      && Postworthy(s)
      && Post(db, id, companyId, userId, at).db.entries[id] == PostedVersion(s.row, TotalsIn(s), userId, at)
  {
  }

  /** The save of a draft that was reloaded before the `post` keeps the posting's columns. */
  lemma SavesOverPosting(s: State, t: nat, userId: nat, at: int, c: nat)
    requires s.lock == None && t !in s.posts && t !in s.outcomes && Postworthy(s)
    requires c in s.cancels && s.cancels[c] == Cancelling(s.row, Some(s.row))
    ensures var s' := Run(Run(s, WholePost(t, userId, at)), [CancelWrite(c)]);
      && s'.row == CancelledCopy(PostedVersion(s.row, TotalsIn(s), userId, at))
      && t in s'.outcomes && s'.outcomes[t] == Committed(userId, at)
  {
    RunsThrough(s, t, userId, at);
    FoldOne(PostedState(s, t, userId, at, TotalsIn(s)), CancelWrite(c), Try);
  }

  /** A `cancel` that read and reloaded the draft before a `post` committed turns the POSTED row into
      a CANCELLED one, with the totals, user and instant of the posting still in it. */
  lemma StaleCancelUndoesPost(mode: Reads, db: Db, id: nat, companyId: nat, t: nat, userId: nat, at: int, c: nat)
    requires InCompany(db, id, companyId)
    requires Post(db, id, companyId, userId, at).result.Ok?
    ensures var posted := Post(db, id, companyId, userId, at).db.entries[id];
      var s := Run(Quiet(mode, db, id),
                   [CancelRead(c), CancelReload(c)] + WholePost(t, userId, at) + [CancelWrite(c)]);
      && posted.status == Posted && t in s.outcomes && s.outcomes[t] == Committed(userId, at)
      && s.row == CancelledCopy(posted)
  {
    var s0 := Quiet(mode, db, id);
    PostWrites(mode, db, id, companyId, userId, at);
    FoldThree(s0, [CancelRead(c), CancelReload(c)], WholePost(t, userId, at), [CancelWrite(c)], Try);
    FoldTwo(s0, CancelRead(c), CancelReload(c), Try);
    var s1 := s0.(cancels := map[c := Cancelling(s0.row, Some(s0.row))]);
    assert Run(s0, [CancelRead(c), CancelReload(c)]) == s1;
    SavesOverPosting(s1, t, userId, at, c);
  }

  /** One that read the draft before but reloaded the row after the commit also takes the totals,
      user and instant of the posting back: the row is the draft of before, marked CANCELLED. */
  lemma StaleCancelErasesPost(mode: Reads, db: Db, id: nat, companyId: nat, t: nat, userId: nat, at: int, c: nat)
    requires InCompany(db, id, companyId)
    requires Post(db, id, companyId, userId, at).result.Ok?
    ensures var s := Run(Quiet(mode, db, id),
                         [CancelRead(c)] + WholePost(t, userId, at) + [CancelReload(c), CancelWrite(c)]);
      && t in s.outcomes && s.outcomes[t] == Committed(userId, at)
      && s.row == CancelledCopy(db.entries[id])
  {
    var s0 := Quiet(mode, db, id);
    PostWrites(mode, db, id, companyId, userId, at);
    FoldThree(s0, [CancelRead(c)], WholePost(t, userId, at), [CancelReload(c), CancelWrite(c)], Try);
    FoldOne(s0, CancelRead(c), Try);
    var s1 := s0.(cancels := map[c := Cancelling(s0.row, None)]);
    assert Run(s0, [CancelRead(c)]) == s1;
    RunsThrough(s1, t, userId, at);
    FoldTwo(PostedState(s1, t, userId, at, TotalsIn(s1)), CancelReload(c), CancelWrite(c), Try);
  }

  /** Without interference, the two reads and the write of one `cancel` do what the serial `Cancel` does,
      for an entry of the company. */
  lemma AloneCancelIsSerial(mode: Reads, db: Db, id: nat, companyId: nat, c: nat)
    requires InCompany(db, id, companyId)
    ensures var s := Run(Quiet(mode, db, id), [CancelRead(c)] + [CancelReload(c), CancelWrite(c)]);
      s.row == Cancel(db, id, companyId).db.entries[id] && s.cancels == map[] && s.lock == None
  {
    var s0 := Quiet(mode, db, id);
    FoldConcat(s0, [CancelRead(c)], [CancelReload(c), CancelWrite(c)], Try);
    FoldOne(s0, CancelRead(c), Try);
    FoldTwo(Try(s0, CancelRead(c)), CancelReload(c), CancelWrite(c), Try);
    if s0.row.status == Draft {
      var s2 := Try(Try(s0, CancelRead(c)), CancelReload(c));
      assert s2.cancels == map[c := Cancelling(s0.row, Some(s0.row))];
      assert s2.cancels - {c} == map[];
    }
  }
}
