/** Decimal numerals as strings. */
module Digits {

  predicate IsDigit(c: char) {
    '0' <= c <= '9'
  }

  predicate AllDigits(s: string) {
    forall i :: 0 <= i < |s| ==> IsDigit(s[i])
  }

  function DigitOf(d: nat): (c: char)
    requires d < 10
    ensures IsDigit(c)
  {
    '0' + d as char
  }

  function ValueOf(c: char): (d: nat)
    requires IsDigit(c)
    ensures d < 10 && DigitOf(d) == c
  {
    (c - '0') as nat
  }

  /** The number a digit string denotes. */
  function Value(s: string): nat
    requires AllDigits(s)
  {
    if s == "" then 0 else 10 * Value(s[..|s| - 1]) + ValueOf(s[|s| - 1])
  }

  /** `String(n)` for an integer n >= 0. */
  function Numeral(n: nat): (s: string)
    ensures s != "" && AllDigits(s)
    ensures Value(s) == n
  {
    if n < 10 then
      [DigitOf(n)]
    else
      var front := Numeral(n / 10);
      var s := front + [DigitOf(n % 10)];
      assert s[..|s| - 1] == front;
      s
  }

  function Zeros(k: nat): (s: string)
    ensures |s| == k && AllDigits(s)
  {
    if k == 0 then "" else "0" + Zeros(k - 1)
  }

  /** `s.padStart(width, '0')`. */
  function PadStart(s: string, width: nat): (r: string)
    ensures |r| == (if |s| < width then width else |s|)
    ensures AllDigits(s) ==> AllDigits(r)
  {
    if |s| < width then Zeros(width - |s|) + s else s
  }

  lemma {:induction false} LeadingZeros(k: nat, s: string)
    requires AllDigits(s)
    ensures Value(Zeros(k) + s) == Value(s)
    decreases |s| + k
  {
    if s == "" {
      assert Zeros(k) + s == Zeros(k);
      ZerosValue(k);
    } else {
      assert (Zeros(k) + s)[..k + |s| - 1] == Zeros(k) + s[..|s| - 1];
      LeadingZeros(k, s[..|s| - 1]);
    }
  }

  lemma {:induction false} ZerosValue(k: nat)
    ensures Value(Zeros(k)) == 0
  {
    if k > 0 {
      ZerosValue(k - 1);
      ZerosSnoc(k - 1);
      assert Zeros(k)[..k - 1] == Zeros(k - 1);
    }
  }

  lemma {:induction false} ZerosSnoc(k: nat)
    ensures Zeros(k + 1) == Zeros(k) + "0"
  {
    if k > 0 {
      ZerosSnoc(k - 1);
      assert "0" + (Zeros(k - 1) + "0") == ("0" + Zeros(k - 1)) + "0";
    }
  }

  lemma PaddedValue(n: nat, width: nat)
    ensures Value(PadStart(Numeral(n), width)) == n
  {
    PadStartValue(Numeral(n), width);
  }

  lemma PadStartValue(s: string, width: nat)
    requires AllDigits(s)
    ensures Value(PadStart(s, width)) == Value(s)
  {
    if |s| < width {
      LeadingZeros(width - |s|, s);
    }
  }
}

/** Numbers of business documents. */
module DocumentNumbers {
  import opened Digits
  import opened Strings

  /** `<prefix>-<year>-<sequence padded to six digits>`. */
  function FormatDocumentNumber(prefix: string, year: nat, sequence: nat): string {
    prefix + ("-" + (Numeral(year) + ['-'] + PadStart(Numeral(sequence), 6)))
  }

  lemma SuffixDetermines(y: nat, s: nat, y': nat, s': nat)
    requires Numeral(y) + ['-'] + PadStart(Numeral(s), 6) == Numeral(y') + ['-'] + PadStart(Numeral(s'), 6)
    ensures y == y' && s == s'
  {
    CutIsUnique(Numeral(y), PadStart(Numeral(s), 6), Numeral(y'), PadStart(Numeral(s'), 6), '-');
    assert Value(Numeral(y)) == y && Value(Numeral(y')) == y';
    PaddedValue(s, 6);
    PaddedValue(s', 6);
  }

  /** The printed number determines the year and the sequence, also past six digits. */
  lemma FormatDocumentNumberInjective(prefix: string, y: nat, s: nat, y': nat, s': nat)
    ensures FormatDocumentNumber(prefix, y, s) == FormatDocumentNumber(prefix, y', s') <==> y == y' && s == s'
  {
    if FormatDocumentNumber(prefix, y, s) == FormatDocumentNumber(prefix, y', s') {
      var a := Numeral(y) + ['-'] + PadStart(Numeral(s), 6);
      var b := Numeral(y') + ['-'] + PadStart(Numeral(s'), 6);
      CancelPrefix(prefix, "-" + a, "-" + b);
      CancelPrefix("-", a, b);
      SuffixDetermines(y, s, y', s');
    }
  }

  /** The printed number is the prefix, the year and the sequence between dashes; the sequence has at
      least six digits, and exactly six while it is below a million. */
  lemma FormatDocumentNumberText(prefix: string, year: nat, sequence: nat) returns (y: string, s: string)
    ensures FormatDocumentNumber(prefix, year, sequence) == prefix + ("-" + (y + ['-'] + s))
    ensures AllDigits(y) && Value(y) == year && AllDigits(s) && Value(s) == sequence
    ensures |s| >= 6 && (sequence < 1_000_000 ==> |s| == 6)
  {
    y, s := Numeral(year), PadStart(Numeral(sequence), 6);
    PaddedValue(sequence, 6);
    if sequence < 1_000_000 {
      NumeralLength(sequence, 6, 1_000_000);
    }
  }

  lemma {:induction false} NumeralLength(n: nat, k: nat, bound: nat)
    requires k > 0 && bound == Power(k) && n < bound
    ensures |Numeral(n)| <= k
  {
    if n >= 10 {
      NumeralLength(n / 10, k - 1, Power(k - 1));
    }
  }

  function Power(k: nat): nat {
    if k == 0 then 1 else 10 * Power(k - 1)
  }
}
