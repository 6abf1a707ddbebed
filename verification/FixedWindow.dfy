/** The expiring counter behind the rate limits, as a timed trace of Redis commands. `INCR` and
    `EXPIRE` are separate commands: other clients' commands and any amount of time may come in
    between. Instants and times to live are in milliseconds. */
module FixedWindow {
  import opened Wrappers
  import opened Runs
  import opened Sets

  type Key = string

  /** A counter without a deadline lives until it gets one. */
  datatype Counter = Counter(count: nat, deadline: Option<int>)

  type Store = map<Key, Counter>

  /** An answered `INCR`: when it ran and what it returned. */
  datatype Hit = Hit(at: int, count: nat)

  /** The counters, the clients that got 1 and have not sent `EXPIRE` yet, the clock, and every
      answered `INCR` of each key. */
  datatype State = State(store: Store, pending: multiset<Key>, now: int, hits: map<Key, seq<Hit>>)

  datatype Command = Incr(at: int, key: Key) | Expire(at: int, key: Key)

  predicate Live(store: Store, key: Key, at: int) {
    key in store && (store[key].deadline.Some? ==> at < store[key].deadline.value)
  }

  /** `INCR key`: one more, or 1 when the key is missing or expired. The deadline stays. */
  function Incremented(store: Store, key: Key, at: int): (r: Store)
    ensures key in r && r[key].count >= 1
  {
    store[key := if Live(store, key, at) then store[key].(count := store[key].count + 1) else Counter(1, None)]
  }

  /** `EXPIRE key ttl`. */
  function Expiring(store: Store, key: Key, at: int, ttl: nat): Store {
    if Live(store, key, at) then store[key := store[key].(deadline := Some(at + ttl))] else store
  }

  function HitsOf(s: State, key: Key): seq<Hit> {
    if key in s.hits then s.hits[key] else []
  }

  function Initial(now: int): State {
    State(map[], multiset{}, now, map[])
  }

  predicate Enabled(s: State, c: Command) {
    c.at >= s.now && (c.Expire? ==> c.key in s.pending)
  }

  function Next(s: State, c: Command, ttl: Key -> nat): State
    requires Enabled(s, c)
  {
    match c
    case Incr(at, key) =>
      var store := Incremented(s.store, key, at);
      var count := store[key].count;
      State(store, if count == 1 then s.pending + multiset{key} else s.pending, at,
            s.hits[key := HitsOf(s, key) + [Hit(at, count)]])
    case Expire(at, key) =>
      State(Expiring(s.store, key, at, ttl(key)), s.pending - multiset{key}, at, s.hits)
  }

  /** A command that is not possible yet does not happen. */
  function Trying(ttl: Key -> nat): (State, Command) -> State {
    (s: State, c: Command) => if Enabled(s, c) then Next(s, c, ttl) else s
  }

  function Run(s: State, commands: seq<Command>, ttl: Key -> nat): State {
    Fold(s, commands, Trying(ttl))
  }

  // ---- The windows of a key's hits ----

  /** Counts go up by one or start again at 1, and time does not run backwards. */
  ghost predicate Counted(h: seq<Hit>) {
    && (forall i :: 0 <= i < |h| ==> 1 <= h[i].count <= i + 1)
    && (forall i, j :: 0 <= i && j == i + 1 < |h| ==> h[j].count == 1 || h[j].count == h[i].count + 1)
    && (forall i, j :: 0 <= i <= j < |h| ==> h[i].at <= h[j].at)
  }

  /** The first hit of the window a hit belongs to. */
  function StartOf(h: seq<Hit>, i: nat): int
    requires i < |h|
  {
    i + 1 - h[i].count
  }

  /** Two windows start at least w apart. */
  ghost predicate Spaced(h: seq<Hit>, w: nat) {
    forall i, j :: 0 <= i < j < |h| && h[i].count == 1 && h[j].count == 1 ==> h[i].at + w <= h[j].at
  }

  /** A window is a contiguous stretch of hits counted 1, 2, 3, and so on. */
  lemma {:induction false} WindowIsContiguous(h: seq<Hit>, i: nat, k: nat)
    requires Counted(h) && i < |h| && StartOf(h, i) <= k <= i
    ensures StartOf(h, k) == StartOf(h, i)
    ensures h[StartOf(h, i)].count == 1
    decreases i
  {
    if h[i].count > 1 {
      assert h[i].count == h[i - 1].count + 1;
      if k < i {
        WindowIsContiguous(h, i - 1, k);
      } else {
        WindowIsContiguous(h, i - 1, i - 1);
      }
    }
  }

  /** Hits of different windows: the earlier window ends before the later one starts. */
  lemma WindowsDisjoint(h: seq<Hit>, i: nat, j: nat)
    requires Counted(h) && i < j < |h| && StartOf(h, i) != StartOf(h, j)
    ensures 0 <= StartOf(h, i) <= i < StartOf(h, j) <= j
    ensures h[StartOf(h, i)].count == 1 && h[StartOf(h, j)].count == 1
  {
    WindowIsContiguous(h, i, i);
    WindowIsContiguous(h, j, j);
    if StartOf(h, j) <= i {
      WindowIsContiguous(h, j, i);
    }
  }

  // ---- The invariant ----

  ghost predicate KeyOk(s: State, key: Key, w: nat) {
    var h := HitsOf(s, key);
    && Counted(h) && Spaced(h, w)
    && (forall i :: 0 <= i < |h| ==> h[i].at <= s.now)
    && (key in s.store <==> h != [])
    && s.pending[key] == (if key in s.store && s.store[key].deadline.None? then 1 else 0)
    && (key in s.store ==>
          && s.store[key].count == h[|h| - 1].count
          && (s.store[key].deadline.Some? ==> h[StartOf(h, |h| - 1)].at + w <= s.store[key].deadline.value))
  }

  ghost predicate Inv(s: State, ttl: Key -> nat) {
    forall key :: KeyOk(s, key, ttl(key))
  }

  /** Every start so far lies at least w before the end of the current window. */
  lemma StartsBefore(h: seq<Hit>, w: nat, i: nat, end: int)
    requires Counted(h) && i < |h| && h[i].count == 1
    requires h[StartOf(h, |h| - 1)].at + w <= end
    ensures h[i].at + w <= end
  {
    var n := |h| - 1;
    var start := StartOf(h, n);
    WindowIsContiguous(h, n, n);
    if i > start {
      WindowIsContiguous(h, n, i);
      assert false;
    }
    assert h[i].at <= h[start].at;
  }

  /** A hit that starts a window once the deadline of the current one is over. */
  lemma NewWindowSpaced(h: seq<Hit>, w: nat, at: int, end: int)
    requires Counted(h) && Spaced(h, w) && end <= at
    requires h != [] ==> h[StartOf(h, |h| - 1)].at + w <= end
    ensures Spaced(h + [Hit(at, 1)], w)
  {
    var h' := h + [Hit(at, 1)];
    forall i, j | 0 <= i < j < |h'| && h'[i].count == 1 && h'[j].count == 1 ensures h'[i].at + w <= h'[j].at {
      if j == |h| {
        StartsBefore(h, w, i, end);
      }
    }
  }

  /** A new hit either continues the current window or, once its deadline is over, starts one at
      least w after every earlier start. */
  lemma HitKeepsLog(s: State, key: Key, at: int, w: nat)
    requires KeyOk(s, key, w) && at >= s.now
    ensures var h := HitsOf(s, key) + [Hit(at, Incremented(s.store, key, at)[key].count)];
      Counted(h) && Spaced(h, w)
  {
    var h := HitsOf(s, key);
    if !Live(s.store, key, at) {
      NewWindowSpaced(h, w, at, if key in s.store then s.store[key].deadline.value else at);
    }
  }

  /** A request in a live window: one more of the same window, the deadline stays. */
  lemma IncrContinues(s: State, at: int, key: Key, ttl: Key -> nat)
    requires KeyOk(s, key, ttl(key)) && at >= s.now && Live(s.store, key, at)
    ensures KeyOk(Next(s, Incr(at, key), ttl), key, ttl(key))
  {
    HitKeepsLog(s, key, at, ttl(key));
    var h, s' := HitsOf(s, key), Next(s, Incr(at, key), ttl);
    WindowIsContiguous(h, |h| - 1, |h| - 1);
    assert HitsOf(s', key) == h + [Hit(at, h[|h| - 1].count + 1)];
    assert s'.pending == s.pending;
    assert StartOf(HitsOf(s', key), |h|) == StartOf(h, |h| - 1);
  }

  /** A request without a live window: the first of a new one, its `EXPIRE` still to come. */
  lemma IncrOpens(s: State, at: int, key: Key, ttl: Key -> nat)
    requires KeyOk(s, key, ttl(key)) && at >= s.now && !Live(s.store, key, at)
    ensures KeyOk(Next(s, Incr(at, key), ttl), key, ttl(key))
  {
    HitKeepsLog(s, key, at, ttl(key));
    var s' := Next(s, Incr(at, key), ttl);
    assert HitsOf(s', key) == HitsOf(s, key) + [Hit(at, 1)];
    assert s'.pending == s.pending + multiset{key} && s.pending[key] == 0;
  }

  lemma ExpireKeepsKey(s: State, at: int, key: Key, ttl: Key -> nat)
    requires KeyOk(s, key, ttl(key)) && at >= s.now && key in s.pending
    ensures KeyOk(Next(s, Expire(at, key), ttl), key, ttl(key))
  {
    var h := HitsOf(s, key);
    WindowIsContiguous(h, |h| - 1, |h| - 1);
    var s' := Next(s, Expire(at, key), ttl);
    assert HitsOf(s', key) == h && s'.pending[key] == 0;
    assert s'.store[key] == s.store[key].(deadline := Some(at + ttl(key)));
    assert h[StartOf(h, |h| - 1)].at <= s.now;
  }

  /** A command says nothing about other keys. */
  lemma OtherKeyKept(s: State, c: Command, key: Key, ttl: Key -> nat)
    requires KeyOk(s, key, ttl(key)) && Enabled(s, c) && key != c.key
    ensures KeyOk(Next(s, c, ttl), key, ttl(key))
  {
    var s' := Next(s, c, ttl);
    assert HitsOf(s', key) == HitsOf(s, key) && s'.pending[key] == s.pending[key];
    assert key in s'.store <==> key in s.store;
    assert key in s.store ==> s'.store[key] == s.store[key];
  }

  lemma StepKeepsInv(s: State, c: Command, ttl: Key -> nat)
    requires Inv(s, ttl) && Enabled(s, c)
    ensures Inv(Next(s, c, ttl), ttl)
  {
    var s' := Next(s, c, ttl);
    forall key ensures KeyOk(s', key, ttl(key)) {
      assert KeyOk(s, key, ttl(key));
      if key == c.key {
        if c.Expire? {
          ExpireKeepsKey(s, c.at, key, ttl);
        } else if Live(s.store, key, c.at) {
          IncrContinues(s, c.at, key, ttl);
        } else {
          IncrOpens(s, c.at, key, ttl);
        }
      } else {
        OtherKeyKept(s, c, key, ttl);
      }
    }
  }

  lemma {:induction false} RunKeepsInv(now: int, commands: seq<Command>, ttl: Key -> nat)
    ensures Inv(Run(Initial(now), commands, ttl), ttl)
  {
    if commands != [] {
      var front, c := commands[..|commands| - 1], commands[|commands| - 1];
      RunKeepsInv(now, front, ttl);
      if Enabled(Run(Initial(now), front, ttl), c) {
        StepKeepsInv(Run(Initial(now), front, ttl), c, ttl);
      }
    }
  }

  // ---- What the windows admit ----

  /** Every guard admits a request exactly when its count is at most max. */
  predicate Admitted(h: Hit, max: nat) {
    h.count <= max
  }

  function Range(from: int, size: nat): (r: set<int>)
    ensures |r| == size
    ensures forall i :: i in r <==> from <= i < from + size
  {
    if size == 0 then {} else Range(from, size - 1) + {from + size - 1}
  }

  function AdmittedInWindow(h: seq<Hit>, start: int, max: nat): set<int> {
    set i | 0 <= i < |h| && Admitted(h[i], max) && StartOf(h, i) == start
  }

  /** The requests admitted at or after an instant and before another. */
  function AdmittedBetween(h: seq<Hit>, from: int, to: int, max: nat): set<int> {
    set i | 0 <= i < |h| && Admitted(h[i], max) && from <= h[i].at < to
  }

  /** Of each window exactly the first max requests are admitted, so never more than max. */
  lemma WindowAdmitsAtMostMax(now: int, commands: seq<Command>, ttl: Key -> nat, key: Key, start: int, max: nat)
    ensures var h := HitsOf(Run(Initial(now), commands, ttl), key);
      && |AdmittedInWindow(h, start, max)| <= max
      && (forall i :: 0 <= i < |h| && StartOf(h, i) == start ==>
            (i in AdmittedInWindow(h, start, max) <==> start <= i < start + max))
  {
    RunKeepsInv(now, commands, ttl);
    var s := Run(Initial(now), commands, ttl);
    assert KeyOk(s, key, ttl(key));
    SubsetSize(AdmittedInWindow(HitsOf(s, key), start, max), Range(start, max));
  }

  /** Hits less than w apart belong to two windows at most; when there are two, the first hit of
      the earlier window comes before all of them. */
  lemma InOneOfTwo(h: seq<Hit>, w: nat, from: int, first: nat, i: nat, last: nat)
    requires Counted(h) && Spaced(h, w) && first <= i <= last < |h|
    requires from <= h[first].at && h[last].at < from + w
    ensures StartOf(h, i) == StartOf(h, last) || (StartOf(h, i) == StartOf(h, first) && i != StartOf(h, first))
  {
    var s, s2 := StartOf(h, i), StartOf(h, last);
    if s != s2 {
      WindowsDisjoint(h, i, last);
      assert h[s].at + w <= h[s2].at <= h[last].at;
      assert s < first;
      WindowIsContiguous(h, i, first);
    }
  }

  ghost predicate Between(all: set<int>, first: int, last: int) {
    first in all && last in all && forall i {:trigger i in all} :: i in all ==> first <= i <= last
  }

  lemma OneWindow(h: seq<Hit>, all: set<int>, start: int, max: nat)
    requires forall i {:trigger i in all} :: i in all ==>
      0 <= i < |h| && 1 <= h[i].count <= max && StartOf(h, i) == start
    ensures |all| <= max
  {
    SubsetSize(all, Range(start, max));
  }

  /** The earlier of two windows leaves its first hit outside the interval. */
  lemma TwoWindows(h: seq<Hit>, w: nat, from: int, max: nat, all: set<int>, first: nat, last: nat)
    requires Counted(h) && Spaced(h, w) && max > 0 && last < |h|
    requires all == AdmittedBetween(h, from, from + w, max) && Between(all, first, last)
    ensures |all| <= 2 * max - 1
  {
    var s1, s2 := StartOf(h, first), StartOf(h, last);
    var late := set i | i in all && StartOf(h, i) == s2;
    OneWindow(h, late, s2, max);
    forall i | i in all - late ensures i in Range(s1 + 1, max - 1) {
      InOneOfTwo(h, w, from, first, i, last);
    }
    SubsetSize(all - late, Range(s1 + 1, max - 1));
    assert all == late + (all - late);
  }

  /** The smallest and the largest index of a nonempty set. */
  lemma {:induction false} Extremes(a: set<int>, x: int) returns (first: int, last: int)
    requires x in a
    ensures Between(a, first, last)
    decreases |a|
  {
    var rest := a - {x};
    assert forall i {:trigger i in a} :: i in a ==> i == x || i in rest;
    if y :| y in rest {
      var low, high := Extremes(rest, y);
      first, last := if x < low then x else low, if x > high then x else high;
    } else {
      first, last := x, x;
    }
  }

  /** Over any trace, any interval as long as the key's window admits at most 2 * max - 1 of the
      key's requests. */
  lemma AnyIntervalAdmitsLessThanTwiceMax(now: int, commands: seq<Command>, ttl: Key -> nat,
                                          key: Key, from: int, max: nat)
    ensures var h := HitsOf(Run(Initial(now), commands, ttl), key);
      |AdmittedBetween(h, from, from + ttl(key), max)| <= if max == 0 then 0 else 2 * max - 1
  {
    RunKeepsInv(now, commands, ttl);
    var s := Run(Initial(now), commands, ttl);
    assert KeyOk(s, key, ttl(key));
    var all := AdmittedBetween(HitsOf(s, key), from, from + ttl(key), max);
    if all != {} {
      var x :| x in all;
      var first, last := Extremes(all, x);
      TwoWindows(HitsOf(s, key), ttl(key), from, max, all, first, last);
    }
  }

  /** The windows of a key start at least its time to live apart and do not overlap. */
  lemma WindowsApart(now: int, commands: seq<Command>, ttl: Key -> nat, key: Key, i: nat, j: nat)
    requires i < j < |HitsOf(Run(Initial(now), commands, ttl), key)|
    ensures var h := HitsOf(Run(Initial(now), commands, ttl), key);
      var s1, s2 := StartOf(h, i), StartOf(h, j);
      && 0 <= s1 <= i && 0 <= s2 <= j
      && (s1 != s2 ==> i < s2 && h[s1].at + ttl(key) <= h[s2].at)
  {
    RunKeepsInv(now, commands, ttl);
    var s := Run(Initial(now), commands, ttl);
    assert KeyOk(s, key, ttl(key));
    var h := HitsOf(s, key);
    WindowIsContiguous(h, i, i);
    WindowIsContiguous(h, j, j);
    if StartOf(h, i) != StartOf(h, j) {
      WindowsDisjoint(h, i, j);
    }
  }

  /** The next request of a key is admitted exactly when its current window, if it is not over,
      has had fewer than max requests; after the deadline a new window admits it if max >= 1. */
  lemma NextRequestAdmittedIff(now: int, commands: seq<Command>, ttl: Key -> nat, key: Key, at: int, max: nat)
    requires at >= Run(Initial(now), commands, ttl).now
    ensures var s := Run(Initial(now), commands, ttl);
      var h, h' := HitsOf(s, key), HitsOf(Next(s, Incr(at, key), ttl), key);
      && |h'| == |h| + 1
      && (!Live(s.store, key, at) ==> StartOf(h', |h|) == |h| && (Admitted(h'[|h|], max) <==> max >= 1))
      && (Live(s.store, key, at) ==>
            && |h| > 0 && StartOf(h', |h|) == StartOf(h, |h| - 1)
            && (Admitted(h'[|h|], max) <==> |h| - StartOf(h, |h| - 1) < max))
  {
    RunKeepsInv(now, commands, ttl);
    var s := Run(Initial(now), commands, ttl);
    assert KeyOk(s, key, ttl(key));
  }

  /** Once `EXPIRE` has run, the window is over no later than its time to live after that; and
      before `EXPIRE` has run it is never over. */
  lemma WindowEnds(now: int, commands: seq<Command>, ttl: Key -> nat, key: Key, expireAt: int, at: int)
    requires expireAt >= Run(Initial(now), commands, ttl).now
    ensures var s := Run(Initial(now), commands, ttl);
      && (key in s.pending ==> Live(s.store, key, at))
      && (key in s.pending ==> (Live(Next(s, Expire(expireAt, key), ttl).store, key, at) <==> at < expireAt + ttl(key)))
  {
    RunKeepsInv(now, commands, ttl);
    assert KeyOk(Run(Initial(now), commands, ttl), key, ttl(key));
  }
}
