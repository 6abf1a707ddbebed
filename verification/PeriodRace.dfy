/** A period or fiscal year that is shut while a `post` is under way. The `post` reads both without a
    lock: with snapshot reads as they were when it read the lines, with latest reads one after the
    other as they are. */
module PeriodRace {
  import opened Wrappers
  import opened Errors
  import opened Runs
  import opened Isolation
  import DoubleEntry
  import LedgerModel
  import opened PostRace

  /** The step that decides what the `post` learns of the period. */
  function PeriodStep(mode: Reads, t: nat): Step {
    if mode.Snapshot? then CheckLines(t) else ReadPeriod(t)
  }

  /** The step that decides what it learns of the fiscal year. */
  function YearStep(mode: Reads, t: nat): Step {
    if mode.Snapshot? then CheckLines(t) else ReadYear(t)
  }

  /** The step happens as the k-th of the run. */
  ghost predicate HappensAt(s: State, steps: seq<Step>, k: nat, step: Step) {
    k < |steps| && steps[k] == step && Enabled(Run(s, steps[..k]), step)
  }

  /** What the `post` learned, of the period at step k and of the year at step m, let it go on. */
  ghost predicate SawOpen(s: State, steps: seq<Step>, t: nat, k: nat, m: nat) {
    && HappensAt(s, steps, k, PeriodStep(s.mode, t)) && Run(s, steps[..k]).shut.period == None
    && HappensAt(s, steps, m, YearStep(s.mode, t)) && Run(s, steps[..m]).shut.year == None
  }

  /** Some of the steps set the period, and the last one that does locks it. */
  predicate EndsLocked(steps: seq<Step>) {
    && steps != []
    && var last := steps[|steps| - 1];
       if last.SetPeriod? then last.refusal.Some? else EndsLocked(steps[..|steps| - 1])
  }

  /** Some of the steps set the fiscal year, and the last one that does closes it. */
  predicate EndsClosed(steps: seq<Step>) {
    && steps != []
    && var last := steps[|steps| - 1];
       if last.SetYear? then last.refusal.Some? else EndsClosed(steps[..|steps| - 1])
  }

  // ---- Each read happens once ----

  /** How far the `post` is. */
  function Progress(s: State, t: nat): nat {
    if t !in s.posts then (if t in s.outcomes then 7 else 0)
    else
      match s.posts[t].stage
      case Begun => 1
      case HoldsDraft => 2
      case HasTotals(_, _) => 3
      case HasPeriod(_, _, _) => 4
      case Cleared(_) => 5
      case Written(_, _) => 6
      case Failed(_) => 6
  }

  lemma ProgressGrows(s: State, step: Step, t: nat)
    ensures Progress(s, t) <= Progress(Try(s, step), t)
    ensures Enabled(s, step) && step in {CheckLines(t), ReadPeriod(t), ReadYear(t)} ==>
              Progress(s, t) < Progress(Try(s, step), t)
  {
  }

  lemma {:induction false} ProgressAfter(s: State, steps: seq<Step>, t: nat, k: nat)
    requires k <= |steps|
    ensures Progress(Run(s, steps[..k]), t) <= Progress(Run(s, steps), t)
    decreases |steps|
  {
    if k < |steps| {
      var front := steps[..|steps| - 1];
      ProgressAfter(s, front, t, k);
      assert front[..k] == steps[..k];
      ProgressGrows(Run(s, front), steps[|steps| - 1], t);
    } else {
      assert steps[..k] == steps;
    }
  }

  lemma NotAgain(s: State, steps: seq<Step>, t: nat, step: Step, k: nat, m: nat)
    requires step in {CheckLines(t), ReadPeriod(t), ReadYear(t)} && k < m
    requires HappensAt(s, steps, k, step)
    ensures !HappensAt(s, steps, m, step)
  {
    if m < |steps| {
      var before := Run(s, steps[..k]);
      assert steps[..k + 1][..k] == steps[..k];
      assert Run(s, steps[..k + 1]) == Try(before, step);
      ProgressGrows(before, step, t);
      assert steps[..m][..k + 1] == steps[..k + 1];
      ProgressAfter(s, steps[..m], t, k + 1);
    }
  }

  /** A `post` reads its lines, its period and its year once each. */
  lemma ReadOnce(s: State, steps: seq<Step>, t: nat, step: Step, k: nat, m: nat)
    requires step in {CheckLines(t), ReadPeriod(t), ReadYear(t)}
    requires HappensAt(s, steps, k, step) && HappensAt(s, steps, m, step)
    ensures k == m
  {
    if k < m {
      NotAgain(s, steps, t, step, k, m);
    } else if m < k {
      NotAgain(s, steps, t, step, m, k);
    }
  }

  // ---- What a post about to commit has seen ----

  lemma {:induction false} ModeStays(s: State, steps: seq<Step>)
    ensures Run(s, steps).mode == s.mode
  {
    if steps != [] {
      ModeStays(s, steps[..|steps| - 1]);
    }
  }

  lemma EarlierStep(s: State, front: seq<Step>, last: Step, k: nat, step: Step)
    requires HappensAt(s, front, k, step)
    ensures HappensAt(s, front + [last], k, step) && (front + [last])[..k] == front[..k]
  {
    assert (front + [last])[..k] == front[..k];
  }

  lemma LastStep(s: State, front: seq<Step>, last: Step)
    requires Enabled(Run(s, front), last)
    ensures HappensAt(s, front + [last], |front|, last) && (front + [last])[..|front|] == front
  {
    assert (front + [last])[..|front|] == front;
  }

  predicate HasSnapshot(s: State, t: nat) {
    t in s.posts && (s.posts[t].stage.HasTotals? || s.posts[t].stage.HasPeriod?)
  }

  lemma SnapshotNow(s: State, step: Step, t: nat)
    requires HasSnapshot(Try(s, step), t)
    ensures if HasSnapshot(s, t) then Try(s, step).posts[t].stage.snapshot == s.posts[t].stage.snapshot
            else step == CheckLines(t) && Enabled(s, step) && Try(s, step).posts[t].stage.snapshot == s.shut
  {
  }

  /** The snapshot of a `post` is what was committed when it read its lines. */
  lemma {:induction false} SnapshotTaken(s: State, steps: seq<Step>, t: nat) returns (k: nat)
    requires s.posts == map[] && HasSnapshot(Run(s, steps), t)
    ensures HappensAt(s, steps, k, CheckLines(t))
    ensures Run(s, steps).posts[t].stage.snapshot == Run(s, steps[..k]).shut
  {
    var front, last := steps[..|steps| - 1], steps[|steps| - 1];
    assert steps == front + [last];
    SnapshotNow(Run(s, front), last, t);
    if HasSnapshot(Run(s, front), t) {
      k := SnapshotTaken(s, front, t);
      EarlierStep(s, front, last, k, CheckLines(t));
    } else {
      k := |front|;
      LastStep(s, front, last);
    }
  }

  predicate HasPeriodRead(s: State, t: nat) {
    t in s.posts && s.posts[t].stage.HasPeriod?
  }

  lemma PeriodNow(s: State, step: Step, t: nat)
    requires HasPeriodRead(Try(s, step), t)
    ensures if HasPeriodRead(s, t) then Try(s, step).posts[t] == s.posts[t]
            else
              && step == ReadPeriod(t) && Enabled(s, step) && HasSnapshot(s, t)
              && Try(s, step).posts[t].stage.period == Seen(s, s.posts[t].stage.snapshot).period
  {
  }

  lemma {:induction false} PeriodTaken(s: State, steps: seq<Step>, t: nat) returns (k: nat)
    requires s.posts == map[] && HasPeriodRead(Run(s, steps), t)
    ensures HappensAt(s, steps, k, PeriodStep(s.mode, t))
    ensures Run(s, steps).posts[t].stage.period == Run(s, steps[..k]).shut.period
  {
    var front, last := steps[..|steps| - 1], steps[|steps| - 1];
    assert steps == front + [last];
    PeriodNow(Run(s, front), last, t);
    ModeStays(s, front);
    if HasPeriodRead(Run(s, front), t) {
      k := PeriodTaken(s, front, t);
      EarlierStep(s, front, last, k, PeriodStep(s.mode, t));
    } else if s.mode.Snapshot? {
      k := SnapshotTaken(s, front, t);
      EarlierStep(s, front, last, k, CheckLines(t));
    } else {
      k := |front|;
      LastStep(s, front, last);
    }
  }

  predicate PastCheck(s: State, t: nat) {
    t in s.posts && (s.posts[t].stage.Cleared? || s.posts[t].stage.Written?)
  }

  lemma PassesNow(s: State, step: Step, t: nat)
    requires PastCheck(Try(s, step), t) && !PastCheck(s, t)
    ensures step == ReadYear(t) && Enabled(s, step) && HasPeriodRead(s, t)
    ensures s.posts[t].stage.period == None && Seen(s, s.posts[t].stage.snapshot).year == None
  {
  }

  lemma PassedNow(s: State, front: seq<Step>, last: Step, t: nat) returns (k: nat, m: nat)
    requires s.posts == map[] && PastCheck(Run(s, front + [last]), t) && !PastCheck(Run(s, front), t)
    ensures SawOpen(s, front + [last], t, k, m)
  {
    assert (front + [last])[..|front|] == front;
    PassesNow(Run(s, front), last, t);
    ModeStays(s, front);
    k := PeriodTaken(s, front, t);
    EarlierStep(s, front, last, k, PeriodStep(s.mode, t));
    if s.mode.Snapshot? {
      m := SnapshotTaken(s, front, t);
      EarlierStep(s, front, last, m, CheckLines(t));
    } else {
      m := |front|;
      LastStep(s, front, last);
    }
  }

  lemma {:induction false} SawBothOpen(s: State, steps: seq<Step>, t: nat) returns (k: nat, m: nat)
    requires s.posts == map[] && PastCheck(Run(s, steps), t)
    ensures SawOpen(s, steps, t, k, m)
  {
    var front, last := steps[..|steps| - 1], steps[|steps| - 1];
    assert steps == front + [last];
    if PastCheck(Run(s, front), t) {
      k, m := SawBothOpen(s, front, t);
      EarlierStep(s, front, last, k, PeriodStep(s.mode, t));
      EarlierStep(s, front, last, m, YearStep(s.mode, t));
    } else {
      k, m := PassedNow(s, front, last, t);
    }
  }

  // ---- Commits into a shut period ----

  lemma ShutBy(s: State, step: Step)
    ensures Try(s, step).shut.period == if step.SetPeriod? then step.refusal else s.shut.period
    ensures Try(s, step).shut.year == if step.SetYear? then step.refusal else s.shut.year
  {
  }

  lemma EndsSnoc(front: seq<Step>, step: Step)
    ensures EndsLocked(front + [step]) <==> if step.SetPeriod? then step.refusal.Some? else EndsLocked(front)
    ensures EndsClosed(front + [step]) <==> if step.SetYear? then step.refusal.Some? else EndsClosed(front)
  {
    assert (front + [step])[..|front|] == front;
  }

  lemma {:induction false} LockedSince(s: State, steps: seq<Step>, k: nat)
    requires k <= |steps| && Run(s, steps[..k]).shut.period == None
    ensures Run(s, steps).shut.period.Some? <==> EndsLocked(steps[k..])
  {
    if k < |steps| {
      var front, last := steps[..|steps| - 1], steps[|steps| - 1];
      assert front[..k] == steps[..k] && steps[k..] == front[k..] + [last];
      LockedSince(s, front, k);
      ShutBy(Run(s, front), last);
      EndsSnoc(front[k..], last);
    } else {
      assert steps[..k] == steps;
    }
  }

  lemma {:induction false} ClosedSince(s: State, steps: seq<Step>, k: nat)
    requires k <= |steps| && Run(s, steps[..k]).shut.year == None
    ensures Run(s, steps).shut.year.Some? <==> EndsClosed(steps[k..])
  {
    if k < |steps| {
      var front, last := steps[..|steps| - 1], steps[|steps| - 1];
      assert front[..k] == steps[..k] && steps[k..] == front[k..] + [last];
      ClosedSince(s, front, k);
      ShutBy(Run(s, front), last);
      EndsSnoc(front[k..], last);
    } else {
      assert steps[..k] == steps;
    }
  }

  /** Every `post` about to commit saw its period and its year open, and it commits into a shut period
      if and only if, since the step that decided what it saw, the period was locked or the year
      closed, and not opened again. */
  lemma CommitsIntoShutIff(mode: Reads, original: LedgerModel.Entry, lines: seq<DoubleEntry.Amounts>, shut: Shut,
                           steps: seq<Step>, t: nat)
    requires Enabled(Run(Initial(mode, original, lines, shut), steps), Commit(t))
    ensures var s := Initial(mode, original, lines, shut);
      && (exists k: nat, m: nat :: SawOpen(s, steps, t, k, m))
      && (forall k: nat, m: nat :: SawOpen(s, steps, t, k, m) ==>
            (Run(s, steps).shut.Refusal().Some? <==> EndsLocked(steps[k..]) || EndsClosed(steps[m..])))
  {
    var s := Initial(mode, original, lines, shut);
    var k, m := SawBothOpen(s, steps, t);
    forall k: nat, m: nat | SawOpen(s, steps, t, k, m)
      ensures Run(s, steps).shut.Refusal().Some? <==> EndsLocked(steps[k..]) || EndsClosed(steps[m..])
    {
      LockedSince(s, steps, k);
      ClosedSince(s, steps, m);
    }
  }

  // ---- Runs in which that happens ----

  lemma LockedNext(s: State, s': State, t: nat)
    requires Try(s, ReadYear(t)) == s'
    ensures Run(s, [ReadYear(t), SetPeriod(Some(PeriodLocked))])
         == s'.(shut := Shut(Some(PeriodLocked), s'.shut.year))
  {
    FoldTwo(s, ReadYear(t), SetPeriod(Some(PeriodLocked)), Try);
  }

  lemma LockedAfterReads(s: State, t: nat, userId: nat)
    requires s.lock == None && t !in s.posts && t !in s.outcomes && Balances(s) && s.shut.Refusal() == None
    ensures Run(s, Opening(t, userId) + [ReadYear(t), SetPeriod(Some(PeriodLocked))])
         == Checked(s, t, userId).(shut := Shut(Some(PeriodLocked), None))
  {
    FoldConcat(s, Opening(t, userId), [ReadYear(t), SetPeriod(Some(PeriodLocked))], Try);
    WholePostUnrolled(s, t, userId, 0);
    ChecksThrough(s, t, userId);
    LockedNext(Opened(s, t, userId), Checked(s, t, userId), t);
  }

  /** With either kind of read: the period is locked after both were read. */
  lemma CommitsIntoShut(mode: Reads, db: LedgerModel.Db, id: nat, companyId: nat, t: nat, userId: nat, at: int)
    requires LedgerModel.InCompany(db, id, companyId)
    requires LedgerModel.Post(db, id, companyId, userId, at).result.Ok?
    ensures var s := Run(Quiet(mode, db, id),
                         (Opening(t, userId) + [ReadYear(t), SetPeriod(Some(PeriodLocked))])
                         + [Write(t, at), Commit(t)]);
      && s.shut.Refusal() == Some(PeriodLocked) && s.row.status == LedgerModel.Posted
      && s.row == LedgerModel.Post(db, id, companyId, userId, at).db.entries[id]
  {
    var s0 := Quiet(mode, db, id);
    PostWrites(mode, db, id, companyId, userId, at);
    var first := Opening(t, userId) + [ReadYear(t), SetPeriod(Some(PeriodLocked))];
    FoldConcat(s0, first, [Write(t, at), Commit(t)], Try);
    LockedAfterReads(s0, t, userId);
    FoldTwo(Run(s0, first), Write(t, at), Commit(t), Try);
    WritesThrough(Run(s0, first), t, userId, at, TotalsIn(s0));
  }

  /** The period is locked after the lines are read and before the period is. */
  function LockBetweenReads(t: nat, userId: nat, at: int): seq<Step> {
    [Begin(t, userId), LockRow(t), CheckLines(t), SetPeriod(Some(PeriodLocked))]
    + [ReadPeriod(t), ReadYear(t), Write(t, at), Commit(t)]
  }

  lemma LockedBetween(s: State, t: nat, userId: nat)
    requires s.lock == None && t !in s.posts && t !in s.outcomes && Balances(s) && s.shut.Refusal() == None
    ensures Run(s, [Begin(t, userId), LockRow(t), CheckLines(t), SetPeriod(Some(PeriodLocked))])
         == s.(lock := Some(t), shut := Shut(Some(PeriodLocked), None),
               posts := s.posts[t := Posting(userId, HasTotals(TotalsIn(s), s.shut))])
  {
    FoldFour(s, Begin(t, userId), LockRow(t), CheckLines(t), SetPeriod(Some(PeriodLocked)), Try);
    var s2 := Try(Try(s, Begin(t, userId)), LockRow(t));
    assert s2 == s.(lock := Some(t), posts := s.posts[t := Posting(userId, HoldsDraft)]);
    assert Try(s2, CheckLines(t)).posts == s.posts[t := Posting(userId, HasTotals(TotalsIn(s), s.shut))];
  }

  /** Snapshot reads do not see that lock: the `post` commits into the shut period, although nothing
      was shut after it had read the period. */
  lemma SnapshotMissesLock(db: LedgerModel.Db, id: nat, companyId: nat, t: nat, userId: nat, at: int)
    requires LedgerModel.InCompany(db, id, companyId)
    requires LedgerModel.Post(db, id, companyId, userId, at).result.Ok?
    ensures var s := Run(Quiet(Snapshot, db, id), LockBetweenReads(t, userId, at));
      && s.shut.Refusal() == Some(PeriodLocked) && s.row.status == LedgerModel.Posted
      && s.row == LedgerModel.Post(db, id, companyId, userId, at).db.entries[id]
  {
    var s0 := Quiet(Snapshot, db, id);
    PostWrites(Snapshot, db, id, companyId, userId, at);
    FoldConcat(s0, [Begin(t, userId), LockRow(t), CheckLines(t), SetPeriod(Some(PeriodLocked))],
               [ReadPeriod(t), ReadYear(t), Write(t, at), Commit(t)], Try);
    LockedBetween(s0, t, userId);
    var s4 := Run(s0, [Begin(t, userId), LockRow(t), CheckLines(t), SetPeriod(Some(PeriodLocked))]);
    FoldFour(s4, ReadPeriod(t), ReadYear(t), Write(t, at), Commit(t), Try);
    var s6 := Try(Try(s4, ReadPeriod(t)), ReadYear(t));
    assert s6.posts[t] == Posting(userId, Cleared(TotalsIn(s0)));
    WritesThrough(s6, t, userId, at, TotalsIn(s0));
  }

  /** Latest reads see it: the `post` fails and the draft stays. */
  lemma LatestSeesLock(db: LedgerModel.Db, id: nat, companyId: nat, t: nat, userId: nat, at: int)
    requires LedgerModel.InCompany(db, id, companyId)
    requires LedgerModel.Post(db, id, companyId, userId, at).result.Ok?
    ensures var s := Run(Quiet(Latest, db, id), LockBetweenReads(t, userId, at));
      s.row == db.entries[id] && t in s.posts && s.posts[t].stage == Failed(PeriodLocked)
  {
    var s0 := Quiet(Latest, db, id);
    PostWrites(Latest, db, id, companyId, userId, at);
    FoldConcat(s0, [Begin(t, userId), LockRow(t), CheckLines(t), SetPeriod(Some(PeriodLocked))],
               [ReadPeriod(t), ReadYear(t), Write(t, at), Commit(t)], Try);
    LockedBetween(s0, t, userId);
    var s4 := Run(s0, [Begin(t, userId), LockRow(t), CheckLines(t), SetPeriod(Some(PeriodLocked))]);
    FoldFour(s4, ReadPeriod(t), ReadYear(t), Write(t, at), Commit(t), Try);
    var s6 := Try(Try(s4, ReadPeriod(t)), ReadYear(t));
    assert s6.posts[t] == Posting(userId, Failed(PeriodLocked));
    assert Try(Try(s6, Write(t, at)), Commit(t)) == s6;
  }
}
