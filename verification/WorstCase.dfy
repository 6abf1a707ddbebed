/** The bound on what any interval admits is reached: one request opens a window, the others of it
    come just before its end, and a full window follows. */
module WorstCase {
  import opened Wrappers
  import opened Runs
  import opened FixedWindow

  /** n requests of one key at one instant. */
  function Burst(at: int, key: Key, n: nat): seq<Command> {
    seq(n, _ => Incr(at, key))
  }

  /** The hits of a burst in a window that has counted some already. */
  function BurstHits(at: int, counted: nat, n: nat): seq<Hit> {
    seq(n, i requires 0 <= i < n => Hit(at, counted + i + 1))
  }

  lemma BurstSnoc(at: int, key: Key, counted: nat, n: nat)
    requires n > 0
    ensures Burst(at, key, n) == Burst(at, key, n - 1) + [Incr(at, key)]
    ensures BurstHits(at, counted, n) == BurstHits(at, counted, n - 1) + [Hit(at, counted + n)]
  {
  }

  /** What a burst in a live window leaves. */
  ghost predicate Counts(s: State, s': State, at: int, key: Key, n: nat) {
    && s'.now <= at && key in s.store && Live(s'.store, key, at)
    && s'.store[key] == Counter(s.store[key].count + n, s.store[key].deadline)
    && HitsOf(s', key) == HitsOf(s, key) + BurstHits(at, s.store[key].count, n)
  }

  lemma OneMore(s: State, s1: State, s2: State, at: int, key: Key, n: nat)
    requires Counts(s, s1, at, key, n) && Counts(s1, s2, at, key, 1)
    ensures Counts(s, s2, at, key, n + 1)
  {
    BurstSnoc(at, key, s.store[key].count, n + 1);
    assert BurstHits(at, s1.store[key].count, 1) == [Hit(at, s.store[key].count + n + 1)];
    assert HitsOf(s2, key) ==
        HitsOf(s, key) + (BurstHits(at, s.store[key].count, n) + [Hit(at, s.store[key].count + n + 1)]);
  }

  lemma LiveHit(s: State, at: int, key: Key, ttl: Key -> nat)
    requires s.now <= at && Live(s.store, key, at)
    ensures Counts(s, Next(s, Incr(at, key), ttl), at, key, 1)
  {
    assert BurstHits(at, s.store[key].count, 1) == [Hit(at, s.store[key].count + 1)];
  }

  lemma BurstEmpty(s: State, at: int, key: Key, ttl: Key -> nat)
    requires s.now <= at && Live(s.store, key, at)
    ensures Counts(s, Run(s, Burst(at, key, 0), ttl), at, key, 0)
  {
    assert Burst(at, key, 0) == [];
    assert BurstHits(at, s.store[key].count, 0) == [];
    assert HitsOf(s, key) + [] == HitsOf(s, key);
  }

  lemma BurstGrows(s: State, at: int, key: Key, n: nat, ttl: Key -> nat)
    requires n > 0 && Run(s, Burst(at, key, n - 1), ttl).now <= at
    ensures Run(s, Burst(at, key, n), ttl) == Next(Run(s, Burst(at, key, n - 1), ttl), Incr(at, key), ttl)
  {
    BurstSnoc(at, key, 0, n);
    FoldConcat(s, Burst(at, key, n - 1), [Incr(at, key)], Trying(ttl));
    FoldOne(Run(s, Burst(at, key, n - 1), ttl), Incr(at, key), Trying(ttl));
  }

  lemma {:induction false} BurstCounts(s: State, at: int, key: Key, n: nat, ttl: Key -> nat)
    requires s.now <= at && Live(s.store, key, at)
    ensures Counts(s, Run(s, Burst(at, key, n), ttl), at, key, n)
  {
    if n == 0 {
      BurstEmpty(s, at, key, ttl);
    } else {
      var s1 := Run(s, Burst(at, key, n - 1), ttl);
      BurstCounts(s, at, key, n - 1, ttl);
      BurstGrows(s, at, key, n, ttl);
      LiveHit(s1, at, key, ttl);
      OneMore(s, s1, Next(s1, Incr(at, key), ttl), at, key, n - 1);
    }
  }

  /** One request opens a window; the others of it come just before its end. */
  function FirstPart(key: Key, w: nat, max: nat): seq<Command>
    requires max >= 1
  {
    [Incr(0, key), Expire(0, key)] + Burst(w - 1, key, max - 1)
  }

  /** Right after its end come max more. */
  function WorstCase(key: Key, w: nat, max: nat): seq<Command>
    requires max >= 1
  {
    FirstPart(key, w, max) + [Incr(w, key)] + Burst(w, key, max - 1)
  }

  lemma WorstCaseOpens(key: Key, ttl: Key -> nat)
    requires ttl(key) >= 2
    ensures var s := Run(Initial(0), [Incr(0, key), Expire(0, key)], ttl);
      s.now == 0 && s.store == map[key := Counter(1, Some(ttl(key)))] && HitsOf(s, key) == [Hit(0, 1)]
  {
    FoldOne(Initial(0), Incr(0, key), Trying(ttl));
    var s1 := Next(Initial(0), Incr(0, key), ttl);
    assert [Incr(0, key), Expire(0, key)] == [Incr(0, key)] + [Expire(0, key)];
    FoldConcat(Initial(0), [Incr(0, key)], [Expire(0, key)], Trying(ttl));
    FoldOne(s1, Expire(0, key), Trying(ttl));
    assert key in s1.pending;
  }

  /** The first window after its last burst. */
  lemma FirstWindow(key: Key, max: nat, ttl: Key -> nat)
    requires max >= 1 && ttl(key) >= 2
    ensures var w := ttl(key);
      var s := Run(Initial(0), FirstPart(key, w, max), ttl);
      && s.now <= w - 1 && key in s.store && s.store[key].deadline == Some(w)
      && HitsOf(s, key) == [Hit(0, 1)] + BurstHits(w - 1, 1, max - 1)
  {
    WorstCaseOpens(key, ttl);
    BurstCounts(Run(Initial(0), [Incr(0, key), Expire(0, key)], ttl), ttl(key) - 1, key, max - 1, ttl);
    FoldConcat(Initial(0), [Incr(0, key), Expire(0, key)], Burst(ttl(key) - 1, key, max - 1), Trying(ttl));
  }

  /** A request at the deadline opens the next window, which the last burst fills. */
  lemma SecondWindow(s: State, key: Key, n: nat, w: nat, ttl: Key -> nat)
    requires s.now <= w && key in s.store && s.store[key].deadline == Some(w)
    ensures HitsOf(Run(Run(s, [Incr(w, key)], ttl), Burst(w, key, n), ttl), key)
         == HitsOf(s, key) + [Hit(w, 1)] + BurstHits(w, 1, n)
  {
    FoldOne(s, Incr(w, key), Trying(ttl));
    BurstCounts(Next(s, Incr(w, key), ttl), w, key, n, ttl);
  }

  lemma WorstCaseHits(key: Key, max: nat, ttl: Key -> nat)
    requires max >= 1 && ttl(key) >= 2
    ensures var w := ttl(key);
      HitsOf(Run(Initial(0), WorstCase(key, w, max), ttl), key)
      == [Hit(0, 1)] + BurstHits(w - 1, 1, max - 1) + [Hit(w, 1)] + BurstHits(w, 1, max - 1)
  {
    var w := ttl(key);
    var s := Run(Initial(0), FirstPart(key, w, max), ttl);
    FirstWindow(key, max, ttl);
    SecondWindow(s, key, max - 1, w, ttl);
    FoldThree(Initial(0), FirstPart(key, w, max), [Incr(w, key)], Burst(w, key, max - 1), Trying(ttl));
  }

  /** The bound cannot be lowered: in that trace an interval as long as the window admits exactly
      2 * max - 1 requests. */
  lemma BoundIsReached(key: Key, max: nat, ttl: Key -> nat)
    requires max >= 1 && ttl(key) >= 2
    ensures var h := HitsOf(Run(Initial(0), WorstCase(key, ttl(key), max), ttl), key);
      |AdmittedBetween(h, 1, 1 + ttl(key), max)| == 2 * max - 1
  {
    WorstCaseHits(key, max, ttl);
    Filled(HitsOf(Run(Initial(0), WorstCase(key, ttl(key), max), ttl), key), ttl(key), max);
  }

  lemma Filled(h: seq<Hit>, w: nat, max: nat)
    requires max >= 1 && w >= 2
    requires h == [Hit(0, 1)] + BurstHits(w - 1, 1, max - 1) + [Hit(w, 1)] + BurstHits(w, 1, max - 1)
    ensures |AdmittedBetween(h, 1, 1 + w, max)| == 2 * max - 1
  {
    var all, range := AdmittedBetween(h, 1, 1 + w, max), Range(1, 2 * max - 1);
    assert forall i {:trigger h[i]} :: 1 <= i < max ==> h[i] == Hit(w - 1, i + 1);
    assert h[max] == Hit(w, 1);
    assert forall i {:trigger h[i]} :: max < i < 2 * max ==> h[i] == Hit(w, i - max + 1);
    assert h[0] == Hit(0, 1) && |h| == 2 * max;
    assert all == range;
  }
}
