/** The balance check every posted journal passes, over amounts in integer cents. */
module DoubleEntry {
  import opened Wrappers
  import opened Errors
  import opened Sums

  datatype Amounts = Amounts(debit: int, credit: int)

  datatype Totals = Totals(totalDebit: int, totalCredit: int)

  function Debit(l: Amounts): int { l.debit }

  function Credit(l: Amounts): int { l.credit }

  /** Exactly one side is set, and it is positive. */
  predicate OneSided(l: Amounts) {
    (l.debit > 0 && l.credit == 0) || (l.debit == 0 && l.credit > 0)
  }

  predicate AllOneSided(lines: seq<Amounts>) {
    forall i :: 0 <= i < |lines| ==> OneSided(lines[i])
  }

  /** What `assertBalanced` promises about the lines it accepts. */
  predicate Balanced(lines: seq<Amounts>) {
    && lines != []
    && AllOneSided(lines)
    && Sum(lines, Debit) == Sum(lines, Credit)
  }

  function LineError(l: Amounts): (e: Option<Error>)
    ensures e == None <==> OneSided(l)
    ensures e.Some? ==> e.value in {NegativeAmount, NotOneSided}
  {
    if l.debit < 0 || l.credit < 0 then Some(NegativeAmount)
    else if (l.debit > 0) == (l.credit > 0) then Some(NotOneSided)
    else None
  }

  /** The error of the first line that is not one-sided. */
  function FirstLineError(lines: seq<Amounts>): (e: Option<Error>)
    ensures e == None <==> AllOneSided(lines)
    ensures e.Some? ==> e.value in {NegativeAmount, NotOneSided}
  {
    if lines == [] then None
    else
      var front := lines[..|lines| - 1];
      assert AllOneSided(lines) <==> AllOneSided(front) && OneSided(lines[|lines| - 1]) by {
        assert lines == front + [lines[|lines| - 1]];
      }
      match FirstLineError(front)
      case Some(e) => Some(e)
      case None => LineError(lines[|lines| - 1])
  }

  function CheckBalanced(lines: seq<Amounts>): (r: Result<Totals, Error>)
    ensures r.Ok? <==> Balanced(lines)
    ensures r.Ok? ==> r.value.totalDebit == r.value.totalCredit == Sum(lines, Debit)
    ensures r.Err? ==> r.error in {NoLines, NegativeAmount, NotOneSided, Unbalanced}
  {
    if lines == [] then Err(NoLines)
    else
      match FirstLineError(lines)
      case Some(e) => Err(e)
      case None =>
        if Sum(lines, Debit) != Sum(lines, Credit) then Err(Unbalanced)
        else Ok(Totals(Sum(lines, Debit), Sum(lines, Credit)))
  }

  method AssertOneSidedLine(l: Amounts) returns (e: Option<Error>)
    ensures e == LineError(l)
  {
    if l.debit < 0 || l.credit < 0 {
      return Some(NegativeAmount);
    }
    var debitSet := l.debit > 0;
    var creditSet := l.credit > 0;
    if debitSet == creditSet {
      return Some(NotOneSided);
    }
    return None;
  }

  /** Accepts exactly the balanced journals and reports their common total; otherwise the first
      offending line decides the error, before the totals are compared. */
  method AssertBalanced(lines: seq<Amounts>) returns (r: Result<Totals, Error>)
    ensures r.Ok? <==> Balanced(lines)
    ensures r == CheckBalanced(lines)
  {
    if lines == [] {
      return Err(NoLines);
    }
    var totalDebit, totalCredit := 0, 0;
    for i := 0 to |lines|
      invariant FirstLineError(lines[..i]) == None
      invariant totalDebit == Sum(lines[..i], Debit)
      invariant totalCredit == Sum(lines[..i], Credit)
    {
      assert lines[..i + 1][..i] == lines[..i];
      var e := AssertOneSidedLine(lines[i]);
      if e.Some? {
        ErrorOfPrefix(lines, i + 1);
        return Err(e.value);
      }
      totalDebit := totalDebit + lines[i].debit;
      totalCredit := totalCredit + lines[i].credit;
    }
    assert lines[..|lines|] == lines;
    if totalDebit != totalCredit {
      return Err(Unbalanced);
    }
    return Ok(Totals(totalDebit, totalCredit));
  }

  lemma {:induction false} ErrorOfPrefix(lines: seq<Amounts>, i: nat)
    requires i <= |lines| && FirstLineError(lines[..i]).Some?
    ensures FirstLineError(lines) == FirstLineError(lines[..i])
    decreases |lines| - i
  {
    if i < |lines| {
      assert lines[..i + 1][..i] == lines[..i];
      ErrorOfPrefix(lines, i + 1);
    } else {
      assert lines[..i] == lines;
    }
  }

  /** A reversal posts every line with its sides exchanged. */
  function Swap(l: Amounts): Amounts {
    Amounts(l.credit, l.debit)
  }

  function SwapAll(lines: seq<Amounts>): (r: seq<Amounts>)
    ensures |r| == |lines|
    ensures forall i :: 0 <= i < |r| ==> r[i] == Swap(lines[i])
  {
    seq(|lines|, i requires 0 <= i < |lines| => Swap(lines[i]))
  }

  lemma {:induction false} SwapSums(lines: seq<Amounts>)
    ensures Sum(SwapAll(lines), Debit) == Sum(lines, Credit)
    ensures Sum(SwapAll(lines), Credit) == Sum(lines, Debit)
  {
    if lines != [] {
      var n := |lines| - 1;
      assert SwapAll(lines)[..n] == SwapAll(lines[..n]);
      SwapSums(lines[..n]);
    }
  }

  /** The reversal of an accepted journal is accepted with the same totals, and reversing twice
      gives the original lines back. */
  lemma ReversalBalances(lines: seq<Amounts>)
    ensures Balanced(SwapAll(lines)) <==> Balanced(lines)
    ensures Balanced(lines) ==> CheckBalanced(SwapAll(lines)) == CheckBalanced(lines)
    ensures SwapAll(SwapAll(lines)) == lines
  {
    SwapSums(lines);
    var r := SwapAll(lines);
    assert forall i :: 0 <= i < |lines| ==> (OneSided(r[i]) <==> OneSided(lines[i]));
  }
}
