/** `assertBalanced` as it computes, on doubles: every amount is read as a double and turned into
    cents, and both totals are accumulated in doubles. Together with the column the totals are
    stored in, it decides exactly what the integer check decides. */
module DoubleCheck {
  import opened Doubles
  import opened Decimals
  import opened Sums
  import DoubleEntry

  /** One line as the code sees it: the doubles read from its two amount strings and the cents
      made of them. */
  datatype Read = Read(debit: real, credit: real, cents: DoubleEntry.Amounts)

  function Debits(lines: seq<DoubleEntry.Amounts>): seq<int> {
    seq(|lines|, i requires 0 <= i < |lines| => lines[i].debit)
  }

  function Credits(lines: seq<DoubleEntry.Amounts>): seq<int> {
    seq(|lines|, i requires 0 <= i < |lines| => lines[i].credit)
  }

  function CentsOf(rows: seq<Read>): seq<DoubleEntry.Amounts> {
    seq(|rows|, i requires 0 <= i < |rows| => rows[i].cents)
  }

  /** The amounts of a line are stored in, or on their way to, columns of type DECIMAL(14,2). */
  predicate AmountsFit(l: DoubleEntry.Amounts) {
    FitsColumn(l.debit) && FitsColumn(l.credit)
  }

  ghost predicate ReadAs(l: DoubleEntry.Amounts, r: Read) {
    && NumberOf(l.debit, r.debit) && ToCents(r.debit, r.cents.debit)
    && NumberOf(l.credit, r.credit) && ToCents(r.credit, r.cents.credit)
  }

  ghost predicate AllRead(lines: seq<DoubleEntry.Amounts>, rows: seq<Read>) {
    && |rows| == |lines|
    && forall i :: 0 <= i < |lines| ==> AmountsFit(lines[i]) && ReadAs(lines[i], rows[i])
  }

  lemma LineReads(l: DoubleEntry.Amounts) returns (r: Read)
    ensures ReadAs(l, r)
  {
    var debit := NumberExists(l.debit);
    var credit := NumberExists(l.credit);
    var debitCents := ToCentsExists(debit);
    var creditCents := ToCentsExists(credit);
    r := Read(debit, credit, DoubleEntry.Amounts(debitCents, creditCents));
  }

  lemma {:induction false} LinesRead(lines: seq<DoubleEntry.Amounts>) returns (rows: seq<Read>)
    requires forall i :: 0 <= i < |lines| ==> AmountsFit(lines[i])
    ensures AllRead(lines, rows)
  {
    rows := [];
    if lines != [] {
      var front := LinesRead(lines[..|lines| - 1]);
      var last := LineReads(lines[|lines| - 1]);
      rows := front + [last];
    }
  }

  /** Lines whose amounts fit their columns can be read and added up in doubles: what is proved of all
      readings below is proved of something for each of them. */
  lemma ReadingExists(lines: seq<DoubleEntry.Amounts>)
    returns (rows: seq<Read>, debits: seq<real>, credits: seq<real>)
    requires forall i :: 0 <= i < |lines| ==> AmountsFit(lines[i])
    ensures AllRead(lines, rows)
    ensures Accumulates(Debits(CentsOf(rows)), debits) && Accumulates(Credits(CentsOf(rows)), credits)
  {
    rows := LinesRead(lines);
    debits := AccumulatesExists(Debits(CentsOf(rows)));
    credits := AccumulatesExists(Credits(CentsOf(rows)));
  }

  /** The check on doubles accepts, and the header columns take its totals. */
  predicate AcceptedAndStored(rows: seq<Read>, debitTotal: real, creditTotal: real) {
    && rows != []
    && DoubleEntry.AllOneSided(CentsOf(rows))
    && debitTotal == creditTotal
    && debitTotal <= MAX_CENTS as real
  }

  lemma CentsAreExact(lines: seq<DoubleEntry.Amounts>, rows: seq<Read>)
    requires AllRead(lines, rows)
    ensures CentsOf(rows) == lines
  {
    forall i | 0 <= i < |lines| ensures rows[i].cents == lines[i] {
      ToCentsExact(lines[i].debit, rows[i].debit, rows[i].cents.debit);
      ToCentsExact(lines[i].credit, rows[i].credit, rows[i].cents.credit);
    }
  }

  /** Adding something that is not negative never makes a double accumulator smaller. */
  lemma RoundedSumGrows(x: real, v: real, d: real)
    requires IsDouble(x) && v >= 0.0 && Nearest(x + v, d)
    ensures d >= x
  {
    assert Abs(d - (x + v)) <= Abs(x - (x + v));
  }

  ghost predicate AllNonNegative(values: seq<int>) {
    forall i :: 0 <= i < |values| ==> values[i] >= 0
  }

  lemma {:induction false} TotalsAreDoubles(values: seq<int>, totals: seq<real>, n: nat)
    requires Accumulates(values, totals) && n <= |values|
    ensures IsDouble(totals[n])
  {
    if n == 0 {
      IntegerIsDouble(0);
    } else {
      assert Nearest(totals[n - 1] + values[n - 1] as real, totals[n]);
    }
  }

  lemma TotalsGrow(values: seq<int>, totals: seq<real>, n: nat)
    requires Accumulates(values, totals) && AllNonNegative(values) && n < |values|
    ensures totals[n] <= totals[n + 1]
  {
    TotalsAreDoubles(values, totals, n);
    RoundedSumGrows(totals[n], values[n] as real, totals[n + 1]);
  }

  lemma SmallRoundedIsExact(total: int, d: real)
    requires total >= 0 && Nearest(total as real, d) && d <= MAX_CENTS as real
    ensures d == total as real
  {
    if total <= TWO_53 {
      IntegerIsDouble(total);
      NearestOfDouble(total as real, d);
    } else {
      IntegerIsDouble(TWO_53);
      RoundedSumGrows(TWO_53 as real, (total - TWO_53) as real, d);
    }
  }

  /** An accumulator of amounts that ends within the header column was exact all along. */
  lemma {:induction false} SmallTotalIsExact(values: seq<int>, totals: seq<real>)
    requires Accumulates(values, totals) && AllNonNegative(values)
    requires totals[|values|] <= MAX_CENTS as real
    ensures totals[|values|] == SumOf(values) as real
  {
    if values != [] {
      var n := |values| - 1;
      TotalsGrow(values, totals, n);
      SmallTotalIsExact(values[..n], totals[..n + 1]);
      NonNegative(values);
      var exact := totals[n] + values[n] as real;
      assert exact == SumOf(values) as real;
      SmallRoundedIsExact(SumOf(values), totals[n + 1]);
    }
  }

  /** The double total fits the column exactly when the exact total does, and then equals it. */
  lemma TotalFitsIff(values: seq<int>, totals: seq<real>)
    requires Accumulates(values, totals) && AllNonNegative(values)
    ensures totals[|values|] <= MAX_CENTS as real <==> FitsColumn(SumOf(values))
    ensures FitsColumn(SumOf(values)) ==> totals[|values|] == SumOf(values) as real
  {
    NonNegative(values);
    if totals[|values|] <= MAX_CENTS as real {
      SmallTotalIsExact(values, totals);
    }
    if FitsColumn(SumOf(values)) {
      AcceptedTotalExact(values, totals);
    }
  }

  lemma {:induction false} SumsAgree(lines: seq<DoubleEntry.Amounts>)
    ensures SumOf(Debits(lines)) == Sum(lines, DoubleEntry.Debit)
    ensures SumOf(Credits(lines)) == Sum(lines, DoubleEntry.Credit)
  {
    if lines != [] {
      var front := lines[..|lines| - 1];
      SumsAgree(front);
      assert Debits(lines)[..|lines| - 1] == Debits(front);
      assert Credits(lines)[..|lines| - 1] == Credits(front);
    }
  }

  /** For all lines, with any rounding of ties: the check on doubles accepts and its totals can be
      stored exactly when the lines balance in integers and their total fits the column. */
  lemma DoubleCheckIsExact(lines: seq<DoubleEntry.Amounts>, rows: seq<Read>, debits: seq<real>, credits: seq<real>)
    requires AllRead(lines, rows)
    requires Accumulates(Debits(CentsOf(rows)), debits) && Accumulates(Credits(CentsOf(rows)), credits)
    ensures AcceptedAndStored(rows, debits[|lines|], credits[|lines|])
       <==> DoubleEntry.Balanced(lines) && FitsColumn(Sum(lines, DoubleEntry.Debit))
  {
    CentsAreExact(lines, rows);
    if DoubleEntry.AllOneSided(lines) {
      OneSidedTotals(lines, debits, credits);
    }
  }

  lemma OneSidedTotals(lines: seq<DoubleEntry.Amounts>, debits: seq<real>, credits: seq<real>)
    requires DoubleEntry.AllOneSided(lines)
    requires Accumulates(Debits(lines), debits) && Accumulates(Credits(lines), credits)
    ensures debits[|lines|] == credits[|lines|] && debits[|lines|] <= MAX_CENTS as real
       <==> Sum(lines, DoubleEntry.Debit) == Sum(lines, DoubleEntry.Credit) && FitsColumn(Sum(lines, DoubleEntry.Debit))
  {
    SumsAgree(lines);
    TotalFitsIff(Debits(lines), debits);
    TotalFitsIff(Credits(lines), credits);
  }

  /** What is then written to the header is the exact total: the decimal printed for the double
      total reads back as the sum of the lines. */
  lemma StoredTotalIsExact(lines: seq<DoubleEntry.Amounts>, rows: seq<Read>,
                           debits: seq<real>, credits: seq<real>, total: int, printed: int)
    requires AllRead(lines, rows)
    requires Accumulates(Debits(CentsOf(rows)), debits) && Accumulates(Credits(CentsOf(rows)), credits)
    requires AcceptedAndStored(rows, debits[|lines|], credits[|lines|])
    requires total as real == debits[|lines|] && CentsToDecimal(total, printed)
    ensures printed == Sum(lines, DoubleEntry.Debit) == Sum(lines, DoubleEntry.Credit)
  {
    DoubleCheckIsExact(lines, rows, debits, credits);
    CentsAreExact(lines, rows);
    SumsAgree(lines);
    NonNegative(Debits(lines));
    TotalFitsIff(Debits(lines), debits);
    PrintedExactly(total, printed);
  }

  // ---- The totals of a trial balance ----

  /** The rows' totals as read from the database, in doubles and in cents. */
  ghost predicate TotalsRead(totals: seq<int>, numbers: seq<real>, cents: seq<int>) {
    && |numbers| == |totals| && |cents| == |totals|
    && forall i :: 0 <= i < |totals| ==> NumberOf(totals[i], numbers[i]) && ToCents(numbers[i], cents[i])
  }

  lemma {:induction false} TotalsReadExist(totals: seq<int>) returns (numbers: seq<real>, cents: seq<int>)
    ensures TotalsRead(totals, numbers, cents)
  {
    numbers, cents := [], [];
    if totals != [] {
      var n := |totals| - 1;
      var front, frontCents := TotalsReadExist(totals[..n]);
      var d := NumberExists(totals[n]);
      var c := ToCentsExists(d);
      numbers, cents := front + [d], frontCents + [c];
    }
  }

  lemma {:induction false} PartAtMostSum(values: seq<int>, i: nat)
    requires AllNonNegative(values) && i < |values|
    ensures values[i] <= SumOf(values)
  {
    NonNegative(values[..|values| - 1]);
    if i < |values| - 1 {
      PartAtMostSum(values[..|values| - 1], i);
    }
  }

  /** The total a trial balance accumulates in doubles over its rows, each read as a double, is exact,
      and so is the decimal printed for it, as long as it is at most 2^51 cents. */
  lemma TrialBalanceTotalIsExact(totals: seq<int>, numbers: seq<real>, cents: seq<int>,
                                 running: seq<real>, printed: int)
    requires AllNonNegative(totals) && SumOf(totals) <= TWO_51
    requires TotalsRead(totals, numbers, cents) && Accumulates(cents, running)
    requires CentsToDecimal(SumOf(totals), printed)
    ensures running[|totals|] == SumOf(totals) as real && printed == SumOf(totals)
  {
    forall i | 0 <= i < |totals| ensures cents[i] == totals[i] {
      PartAtMostSum(totals, i);
      ToCentsExact(totals[i], numbers[i], cents[i]);
    }
    assert cents == totals;
    forall i | 0 <= i <= |totals| ensures -TWO_53 <= SumOf(totals[..i]) <= TWO_53 {
      PrefixesStayExact(totals, i);
    }
    RunningTotalExact(totals, running);
    NonNegative(totals);
    PrintedExactly(SumOf(totals), printed);
  }

  lemma PrintedExactly(c: int, printed: int)
    requires 0 <= c <= TWO_51 && CentsToDecimal(c, printed)
    ensures printed == c
  {
    var q :| Nearest(c as real / 100.0, q) && FixedTwo(q, printed);
    ToFixedExact(c, q, printed);
  }
}
