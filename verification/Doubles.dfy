/** IEEE 754 binary64 numbers as a set of reals, round-to-nearest as a relation
    (any way of breaking ties is allowed), and the two ECMA-262 operations the
    accounting code applies to them: `Math.round` and `toFixed(2)`. */
module Doubles {

  const TWO_53: int := 0x20_0000_0000_0000
  const TWO_51: int := 0x8_0000_0000_0000

  function Pow2(n: nat): (p: nat)
    ensures p > 0
  {
    if n == 0 then 1 else 2 * Pow2(n - 1)
  }

  function Abs(x: real): real {
    if x < 0.0 then -x else x
  }

  /** x is m * 2^e with a 53-bit significand and a binary64 exponent. */
  ghost predicate HasForm(x: real, m: int, e: int) {
    && -TWO_53 <= m <= TWO_53
    && -1074 <= e <= 971
    && if e >= 0 then x == m as real * Pow2(e) as real else x * Pow2(-e) as real == m as real
  }

  ghost predicate IsDouble(x: real) {
    exists m: int, e: int :: HasForm(x, m, e)
  }

  /** d is a correctly rounded result for the exact value x. */
  ghost predicate Nearest(x: real, d: real) {
    && IsDouble(d)
    && forall y: real :: IsDouble(y) ==> Abs(d - x) <= Abs(y - x)
  }

  /** `Math.round` (section 21.3.2.28 of ECMA-262): the closest integer, ties toward +infinity. */
  function Round(x: real): int {
    (x + 0.5).Floor
  }

  /** n is the integer `toFixed(2)` prints for x (section 21.1.3.3 of ECMA-262): n / 100 is as
      close to x as possible, and the larger n is taken when two are equally close. */
  ghost predicate FixedTwo(x: real, n: int) {
    forall k: int :: AtLeastAsClose(x, n, k)
  }

  /** n hundredths print x at least as well as k hundredths do. */
  predicate AtLeastAsClose(x: real, n: int, k: int) {
    var dn, dk := Abs(n as real - 100.0 * x), Abs(k as real - 100.0 * x);
    dn < dk || (dn == dk && k <= n)
  }

  /** An exactly representable value is its own and only rounding. */
  lemma NearestOfDouble(x: real, d: real)
    requires IsDouble(x) && Nearest(x, d)
    ensures d == x
  {
    assert Abs(d - x) <= Abs(x - x);
  }

  lemma IntegerIsDouble(n: int)
    requires -TWO_53 <= n <= TWO_53
    ensures IsDouble(n as real)
  {
    assert HasForm(n as real, n, 0);
  }

  /** x * 2^k rounds to an integer that fits the significand, so some double lies within
      half a grid step of x. */
  lemma GridPoint(x: real, k: nat, s: real) returns (y: real)
    requires 0 < k <= 1074 && s == Pow2(k) as real
    requires -(TWO_53 as real) <= x * s <= TWO_53 as real
    ensures IsDouble(y)
    ensures Abs(y - x) * s <= 0.5
  {
    var p := x * s;
    var m := Round(p);
    y := m as real / s;
    assert y * s == m as real;
    assert HasForm(y, m, -(k as int));
    GridDistance(x, y, s, p, m);
  }

  lemma GridDistance(x: real, y: real, s: real, p: real, m: int)
    requires s > 0.0 && p == x * s && m == Round(p) && y * s == m as real
    ensures Abs(y - x) * s <= 0.5
  {
    assert (y - x) * s == y * s - x * s;
    Scaled(y - x, s);
  }

  lemma NoFartherThan(x: real, d: real, y: real, s: real)
    requires Nearest(x, d) && IsDouble(y) && s > 0.0
    requires Abs(y - x) * s <= 0.5
    ensures Abs(d - x) * s <= 0.5
  {
    ScaledBound(Abs(d - x), Abs(y - x), s);
  }

  lemma ScaledBound(a: real, b: real, s: real)
    requires a <= b && s > 0.0 && b * s <= 0.5
    ensures a * s <= 0.5
  {
  }

  /** If x * 2^k fits the significand then x is rounded with an error of at most 2^-(k+1). */
  lemma NearestError(x: real, d: real, k: nat, s: real)
    requires 0 < k <= 1074 && Nearest(x, d) && s == Pow2(k) as real
    requires -(TWO_53 as real) <= x * s <= TWO_53 as real
    ensures Abs(d - x) * s <= 0.5
  {
    var y := GridPoint(x, k, s);
    NoFartherThan(x, d, y, s);
  }

  // ---- Rounding is total ----

  lemma Cancel(y: real, z: real, p: real, m: real)
    requires p > 0.0 && y * p == m && z * p == m
    ensures y == z
  {
    assert (y - z) * p == 0.0;
  }

  lemma FormUnique(y: real, z: real, m: int, e: int)
    requires HasForm(y, m, e) && HasForm(z, m, e)
    ensures y == z
  {
    if e < 0 {
      Cancel(y, z, Pow2(-e) as real, m as real);
    }
  }

  /** The value of a form. */
  lemma FormValue(m: int, e: int) returns (y: real)
    requires -TWO_53 <= m <= TWO_53 && -1074 <= e <= 971
    ensures HasForm(y, m, e)
  {
    if e >= 0 {
      y := m as real * Pow2(e) as real;
    } else {
      y := m as real / Pow2(-e) as real;
    }
  }

  /** Among the first significands, with one exponent, some value is closest to x. */
  lemma {:induction false} ClosestOfExponent(x: real, e: int, n: nat) returns (d: real)
    requires -1074 <= e <= 971 && n <= 2 * TWO_53
    ensures IsDouble(d)
    ensures forall y: real, m: int :: HasForm(y, m, e) && m <= n - TWO_53 ==> Abs(d - x) <= Abs(y - x)
  {
    var z := FormValue(n - TWO_53, e);
    d := z;
    if n > 0 {
      var before := ClosestOfExponent(x, e, n - 1);
      d := if Abs(before - x) <= Abs(z - x) then before else z;
    }
    forall y: real, m: int | HasForm(y, m, e) && m <= n - TWO_53 ensures Abs(d - x) <= Abs(y - x) {
      if m == n - TWO_53 {
        FormUnique(y, z, m, e);
      }
    }
  }

  /** Among the values with the first exponents, some value is closest to x. */
  lemma {:induction false} ClosestUpTo(x: real, k: nat) returns (d: real)
    requires k <= 971 + 1074
    ensures IsDouble(d)
    ensures forall y: real, m: int, e: int :: HasForm(y, m, e) && e <= k - 1074 ==> Abs(d - x) <= Abs(y - x)
  {
    d := ClosestOfExponent(x, k - 1074, 2 * TWO_53);
    if k > 0 {
      var before := ClosestUpTo(x, k - 1);
      d := if Abs(before - x) <= Abs(d - x) then before else d;
    }
  }

  /** Every value has a correctly rounded result. */
  lemma NearestExists(x: real) returns (d: real)
    ensures Nearest(x, d)
  {
    d := ClosestUpTo(x, 971 + 1074);
    forall y: real | IsDouble(y) ensures Abs(d - x) <= Abs(y - x) {
      var m: int, e: int :| HasForm(y, m, e);
    }
  }

  /** And `toFixed(2)` prints something for it. */
  lemma FixedExists(x: real) returns (n: int)
    ensures FixedTwo(x, n)
  {
    n := Round(100.0 * x);
  }

  lemma Scaled(x: real, s: real)
    requires s > 0.0
    ensures Abs(x) * s == Abs(x * s)
  {
    if x < 0.0 {
      assert x * s < 0.0;
    } else {
      assert x * s >= 0.0;
    }
  }

  lemma PowersOfTwo()
    ensures Pow2(1) == 2 && Pow2(8) == 256
  {
    assert Pow2(1) == 2;
    assert Pow2(2) == 4;
    assert Pow2(4) == 16;
    assert Pow2(6) == 64;
    assert Pow2(8) == 256;
  }
}
