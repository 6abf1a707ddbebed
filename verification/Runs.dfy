/** Running a sequence of steps, one after the other. */
module Runs {

  function Fold<S, C>(s: S, steps: seq<C>, next: (S, C) -> S): S {
    if steps == [] then s else next(Fold(s, steps[..|steps| - 1], next), steps[|steps| - 1])
  }

  lemma {:induction false} FoldConcat<S, C>(s: S, a: seq<C>, b: seq<C>, next: (S, C) -> S)
    ensures Fold(s, a + b, next) == Fold(Fold(s, a, next), b, next)
  {
    if b == [] {
      assert a + b == a;
    } else {
      assert (a + b)[..|a + b| - 1] == a + b[..|b| - 1];
      FoldConcat(s, a, b[..|b| - 1], next);
    }
  }

  lemma FoldThree<S, C>(s: S, a: seq<C>, b: seq<C>, c: seq<C>, next: (S, C) -> S)
    ensures Fold(s, a + b + c, next) == Fold(Fold(Fold(s, a, next), b, next), c, next)
  {
    FoldConcat(s, a, b, next);
    FoldConcat(s, a + b, c, next);
  }

  lemma FoldOne<S, C>(s: S, c: C, next: (S, C) -> S)
    ensures Fold(s, [c], next) == next(s, c)
  {
    assert [c][..0] == [];
    assert Fold(s, [], next) == s;
  }

  lemma FoldTwo<S, C>(s: S, a: C, b: C, next: (S, C) -> S)
    ensures Fold(s, [a, b], next) == next(next(s, a), b)
  {
    assert [a, b][..1] == [a];
    FoldOne(s, a, next);
  }

  lemma FoldFour<S, C>(s: S, a: C, b: C, c: C, d: C, next: (S, C) -> S)
    ensures Fold(s, [a, b, c, d], next) == next(next(next(next(s, a), b), c), d)
  {
    FoldTwo(s, a, b, next);
    FoldTwo(next(next(s, a), b), c, d, next);
    FoldConcat(s, [a, b], [c, d], next);
    assert [a, b, c, d] == [a, b] + [c, d];
  }
}
