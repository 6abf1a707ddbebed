/** UTC days and years of an instant, as ECMA-262 (section 21.4.1) defines them. Instants are
    milliseconds and days are day numbers, both counted from 1970-01-01. */
module Calendar {

  const MS_PER_DAY: int := 86_400_000

  /** The day an instant falls on: what `toISOString().slice(0, 10)` shows. */
  function DayOf(t: int): int {
    t / MS_PER_DAY
  }

  /** The day number of January 1 of a year in the proleptic Gregorian calendar. */
  function YearStart(y: int): int {
    365 * (y - 1970) + (y - 1969) / 4 - (y - 1901) / 100 + (y - 1601) / 400
  }

  /** The day number of December 31. */
  function YearEnd(y: int): int {
    YearStart(y + 1) - 1
  }

  predicate IsLeap(y: int) {
    y % 4 == 0 && (y % 100 == 0 ==> y % 400 == 0)
  }

  /** A day is 24 hours long and starts at midnight. */
  lemma DayHolds(t: int, d: int)
    ensures d == DayOf(t) <==> d * (24 * 60 * 60 * 1000) <= t < (d + 1) * (24 * 60 * 60 * 1000)
  {
  }

  lemma QuotientStep(a: int, k: int)
    requires k > 0
    ensures (a + 1) / k - a / k == if (a + 1) % k == 0 then 1 else 0
  {
    var q, r := a / k, a % k;
    assert a == q * k + r;
    if r + 1 == k {
      DivisionUnique(a + 1, k, q + 1, 0);
    } else {
      DivisionUnique(a + 1, k, q, r + 1);
    }
  }

  lemma DivisionUnique(a: int, k: int, q: int, r: int)
    requires k > 0 && 0 <= r < k && a == q * k + r
    ensures a / k == q && a % k == r
  {
    var q', r' := a / k, a % k;
    assert (q' - q) * k == r - r';
    MultipleInRange(q' - q, k);
  }

  lemma MultipleInRange(n: int, k: int)
    requires -k < n * k < k
    ensures n == 0
  {
  }

  lemma LeapTerms(y: int)
    ensures (y - 1968) / 4 - (y - 1969) / 4 == if y % 4 == 0 then 1 else 0
    ensures (y - 1900) / 100 - (y - 1901) / 100 == if y % 100 == 0 then 1 else 0
    ensures (y - 1600) / 400 - (y - 1601) / 400 == if y % 400 == 0 then 1 else 0
  {
    LeapTerm(y, 1968, 4, 492);
    LeapTerm(y, 1900, 100, 19);
    LeapTerm(y, 1600, 400, 4);
  }

  lemma LeapTerm(y: int, base: int, k: int, n: int)
    requires k > 0 && base == n * k
    ensures (y - base) / k - (y - (base + 1)) / k == if y % k == 0 then 1 else 0
  {
    QuotientStep(y - (base + 1), k);
    var q, r := y / k, y % k;
    assert y - base == (q - n) * k + r;
    DivisionUnique(y - base, k, q - n, r);
  }

  /** A year has 366 days exactly when it is a Gregorian leap year. */
  lemma YearLength(y: int)
    ensures YearStart(y + 1) - YearStart(y) == if IsLeap(y) then 366 else 365
  {
    LeapTerms(y);
    LeapNesting(y);
  }

  lemma LeapNesting(y: int)
    ensures y % 400 == 0 ==> y % 100 == 0
    ensures y % 100 == 0 ==> y % 4 == 0
  {
    if y % 100 == 0 {
      DivisionUnique(y, 4, 25 * (y / 100), 0);
    }
    if y % 400 == 0 {
      DivisionUnique(y, 100, 4 * (y / 400), 0);
    }
  }

  lemma {:induction false} YearsAreOrdered(y: int, z: int)
    requires y <= z
    ensures YearStart(z) - YearStart(y) >= 365 * (z - y)
    decreases z - y
  {
    if y < z {
      YearsAreOrdered(y, z - 1);
      YearLength(z - 1);
    }
  }

  /** `getUTCFullYear`, on day numbers: the year whose days include the given one. */
  function YearOfDay(d: int): (y: int)
    ensures YearStart(y) <= d <= YearEnd(y)
  {
    assert YearStart(1970) == 0;
    SearchYear(1970, d)
  }

  function SearchYear(y: int, d: int): (r: int)
    ensures YearStart(r) <= d <= YearEnd(r)
    decreases if d < YearStart(y) then YearStart(y) - d else d - YearStart(y)
  {
    YearLength(y);
    YearLength(y - 1);
    if YearStart(y + 1) <= d then SearchYear(y + 1, d)
    else if d < YearStart(y) then SearchDown(y - 1, d)
    else y
  }

  function SearchDown(y: int, d: int): (r: int)
    requires d < YearStart(y + 1)
    ensures YearStart(r) <= d <= YearEnd(r)
    decreases YearStart(y + 1) - d
  {
    YearLength(y);
    if YearStart(y) <= d then y else SearchDown(y - 1, d)
  }

  function YearOf(t: int): int {
    YearOfDay(DayOf(t))
  }

  /** Years partition the days: the year of a day is the only one that contains it. */
  lemma YearUnique(d: int, y: int)
    ensures YearStart(y) <= d <= YearEnd(y) <==> y == YearOfDay(d)
  {
    var z := YearOfDay(d);
    if y < z {
      YearsAreOrdered(y + 1, z);
    } else if z < y {
      YearsAreOrdered(z + 1, y);
    }
  }
}
