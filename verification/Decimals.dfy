/** Amounts: two-decimal strings, the doubles JavaScript reads them as, and integer cents. */
module Decimals {
  import opened Doubles
  import opened Digits
  import opened Strings
  import opened Wrappers
  import opened Sums

  /** A column of type DECIMAL(14,2) holds this many cents. */
  const MAX_CENTS: int := 99_999_999_999_999

  predicate FitsColumn(cents: int) {
    -MAX_CENTS <= cents <= MAX_CENTS
  }

  /** `Number(s)` for a decimal string s worth c cents: the double nearest to c / 100. */
  ghost predicate NumberOf(c: int, d: real) {
    Nearest(c as real / 100.0, d)
  }

  /** `toCents`: d * 100 rounded to a double, then to an integer. */
  ghost predicate ToCents(d: real, c: int) {
    exists p: real :: Nearest(d * 100.0, p) && c == Round(p)
  }

  /** `(c / 100).toFixed(2)`, as the number of hundredths printed. */
  ghost predicate CentsToDecimal(c: int, n: int) {
    exists q: real :: Nearest(c as real / 100.0, q) && FixedTwo(q, n)
  }

  lemma NumberError(c: int, d: real)
    requires -TWO_51 <= c <= TWO_51 && NumberOf(c, d)
    ensures -0.2 < 100.0 * d - c as real < 0.2
  {
    var x := c as real / 100.0;
    assert x * 100.0 == c as real;
    PowersOfTwo();
    NearestError(x, d, 8, 256.0);
  }

  lemma RoundsTo(c: int, d: real, p: real)
    requires -0.2 < 100.0 * d - c as real < 0.2
    requires Abs(p - d * 100.0) * 2.0 <= 0.5
    ensures Round(p) == c
  {
    assert -0.5 < p - c as real < 0.5;
  }

  /** Whatever way ties are broken, `toCents` of a two-decimal amount is its exact number of
      cents. The bound of 2^51 cents lies far above DECIMAL(14,2), so it also covers sums. */
  lemma ToCentsExact(c: int, d: real, r: int)
    requires -TWO_51 <= c <= TWO_51
    requires NumberOf(c, d) && ToCents(d, r)
    ensures r == c
  {
    var p :| Nearest(d * 100.0, p) && r == Round(p);
    PowersOfTwo();
    NumberError(c, d);
    NearestError(d * 100.0, p, 1, 2.0);
    RoundsTo(c, d, p);
  }

  /** `Number(s).toFixed(2)` prints the amount it read. */
  lemma ToFixedExact(c: int, d: real, n: int)
    requires -TWO_51 <= c <= TWO_51
    requires NumberOf(c, d) && FixedTwo(d, n)
    ensures n == c
  {
    NumberError(c, d);
    assert AtLeastAsClose(d, n, c);
  }

  /** `toCents(centsToDecimalString(c))` is c. */
  lemma CentsRoundTrip(c: int, n: int, d: real, r: int)
    requires -TWO_51 <= c <= TWO_51
    requires CentsToDecimal(c, n) && NumberOf(n, d) && ToCents(d, r)
    ensures n == c && r == c
  {
    var q :| Nearest(c as real / 100.0, q) && FixedTwo(q, n);
    ToFixedExact(c, q, n);
    ToCentsExact(c, d, r);
  }

  function Itself(v: int): int { v }

  function SumOf(values: seq<int>): int {
    Sum(values, Itself)
  }

  /** totals are the values a double accumulator takes while values are added to it one by one. */
  ghost predicate Accumulates(values: seq<int>, totals: seq<real>) {
    && |totals| == |values| + 1
    && totals[0] == 0.0
    && forall i :: 0 <= i < |values| ==> Nearest(totals[i] + values[i] as real, totals[i + 1])
  }

  // ---- Every amount has its readings ----

  lemma NumberExists(c: int) returns (d: real)
    ensures NumberOf(c, d)
  {
    d := NearestExists(c as real / 100.0);
  }

  lemma ToCentsExists(d: real) returns (c: int)
    ensures ToCents(d, c)
  {
    var p := NearestExists(d * 100.0);
    c := Round(p);
  }

  lemma CentsToDecimalExists(c: int) returns (n: int)
    ensures CentsToDecimal(c, n)
  {
    var q := NearestExists(c as real / 100.0);
    n := FixedExists(q);
  }

  lemma {:induction false} AccumulatesExists(values: seq<int>) returns (totals: seq<real>)
    ensures Accumulates(values, totals)
  {
    if values == [] {
      totals := [0.0];
    } else {
      var n := |values| - 1;
      var before := AccumulatesExists(values[..n]);
      var next := NearestExists(before[n] + values[n] as real);
      totals := before + [next];
    }
  }

  // ---- Exact totals ----

  /** A double accumulator over integer cents is exact while every running total stays within 2^53. */
  lemma {:induction false} RunningTotalExact(values: seq<int>, totals: seq<real>)
    requires Accumulates(values, totals)
    requires forall i :: 0 <= i <= |values| ==> -TWO_53 <= SumOf(values[..i]) <= TWO_53
    ensures totals[|values|] == SumOf(values) as real
  {
    if values != [] {
      var n := |values| - 1;
      var front := values[..n];
      assert forall i :: 0 <= i <= n ==> front[..i] == values[..i];
      RunningTotalExact(front, totals[..n + 1]);
      assert values[..n + 1] == values;
      IntegerIsDouble(SumOf(values));
      assert totals[n] + values[n] as real == SumOf(values) as real;
      NearestOfDouble(SumOf(values) as real, totals[n + 1]);
    } else {
      assert totals[0] == 0.0;
    }
  }

  /** The accumulators of a journal whose amounts are not negative and whose total fits the
      header column never leave the exact range. */
  lemma {:induction false} PrefixesStayExact(values: seq<int>, i: nat)
    requires i <= |values|
    requires forall k :: 0 <= k < |values| ==> values[k] >= 0
    ensures 0 <= SumOf(values[..i]) <= SumOf(values)
    decreases |values| - i
  {
    if i < |values| {
      PrefixesStayExact(values, i + 1);
      assert values[..i + 1][..i] == values[..i];
      NonNegative(values[..i]);
    } else {
      assert values[..i] == values;
      NonNegative(values);
    }
  }

  lemma {:induction false} NonNegative(values: seq<int>)
    requires forall k :: 0 <= k < |values| ==> values[k] >= 0
    ensures SumOf(values) >= 0
  {
    if values != [] {
      NonNegative(values[..|values| - 1]);
    }
  }

  /** So the double totals of an accepted journal are its exact totals. */
  lemma AcceptedTotalExact(values: seq<int>, totals: seq<real>)
    requires Accumulates(values, totals)
    requires forall k :: 0 <= k < |values| ==> values[k] >= 0
    requires FitsColumn(SumOf(values))
    ensures totals[|values|] == SumOf(values) as real
  {
    forall i | 0 <= i <= |values| ensures -TWO_53 <= SumOf(values[..i]) <= TWO_53 {
      PrefixesStayExact(values, i);
    }
    RunningTotalExact(values, totals);
  }

  /** Two digits after the point, a minus sign before a negative amount. */
  function FormatCents(c: int): string {
    if c < 0 then "-" + FormatUnsigned(-c) else FormatUnsigned(c)
  }

  function FormatUnsigned(c: nat): string {
    Numeral(c / 100) + ['.'] + [DigitOf(c % 100 / 10), DigitOf(c % 10)]
  }

  /** The amounts the request format admits: digits, then possibly a point and one or two digits. */
  function ParseUnsigned(s: string): Option<nat> {
    var i := IndexOf(s, '.');
    var whole := s[..i];
    if i == 0 || !AllDigits(whole) then None
    else if i == |s| then Some(100 * Value(whole))
    else
      var fraction := s[i + 1..];
      if !AllDigits(fraction) then None
      else if |fraction| == 1 then Some(100 * Value(whole) + 10 * Value(fraction))
      else if |fraction| == 2 then Some(100 * Value(whole) + Value(fraction))
      else None
  }

  function ParseCents(s: string): Option<int> {
    if s != "" && s[0] == '-' then
      match ParseUnsigned(s[1..])
      case Some(c) => Some(-(c as int))
      case None => None
    else
      match ParseUnsigned(s)
      case Some(c) => Some(c)
      case None => None
  }

  lemma FormatUnsignedParses(c: nat)
    ensures ParseUnsigned(FormatUnsigned(c)) == Some(c)
    ensures FormatUnsigned(c)[0] != '-'
  {
    var s := FormatUnsigned(c);
    var whole, fraction := Numeral(c / 100), [DigitOf(c % 100 / 10), DigitOf(c % 10)];
    var i := IndexOf(s, '.');
    assert s[|whole|] == '.';
    assert forall k :: 0 <= k < |whole| ==> s[k] == whole[k];
    assert forall k :: 0 <= k < i ==> s[..i][k] == s[k];
    assert i == |whole|;
    assert s[..i] == whole && s[i + 1..] == fraction;
    assert fraction[..1] == [DigitOf(c % 100 / 10)];
    assert Value(fraction[..1]) == c % 100 / 10;
    assert s[0] == whole[0];
  }

  lemma SignedParses(s: string, c: nat)
    requires s != "" && s[0] != '-' && ParseUnsigned(s) == Some(c)
    ensures ParseCents(s) == Some(c) && ParseCents("-" + s) == Some(-(c as int))
  {
    assert ("-" + s)[1..] == s;
  }

  /** Every amount survives being printed and read back. */
  lemma FormatParses(c: int)
    ensures ParseCents(FormatCents(c)) == Some(c)
  {
    var size: nat := if c < 0 then -c else c;
    FormatUnsignedParses(size);
    SignedParses(FormatUnsigned(size), size);
  }
}
