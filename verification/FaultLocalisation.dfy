/**
 * Which misread rows the balance replay finds. The printed balances are the bank's
 * and true; the parsed movements may be wrong in any number of rows.
 */
module FaultLocalisation {
  import opened Common
  import opened BalanceReplay

  /** The true movement of lo..hi. */
  function TrueMoved(truth: seq<int>, lo: nat, hi: nat): int
    requires lo <= hi <= |truth|
  {
    if lo == hi then 0 else TrueMoved(truth, lo, hi - 1) + truth[hi - 1]
  }

  /** Every printed balance is the true one. */
  ghost predicate TrulyPrinted(rows: seq<ParsedRow>, truth: seq<int>, start: int) {
    |truth| == |rows| && forall i | 0 <= i < |rows| && rows[i].balance.Some? :: rows[i].balance.value == start + TrueMoved(truth, 0, i + 1)
  }

  /** How far row `i` was misread. */
  function Fault(rows: seq<ParsedRow>, truth: seq<int>, i: nat): int
    requires i < |rows| == |truth|
  {
    Signed(rows[i]) - truth[i]
  }

  /** The error the running balance carries into row `n`, starting `drift` off. */
  function Drift(rows: seq<ParsedRow>, truth: seq<int>, drift: int, n: nat): int
    requires n <= |rows| == |truth|
  {
    if n == 0 then drift
    else
      var d := Drift(rows, truth, drift, n - 1) + Fault(rows, truth, n - 1);
      if rows[n - 1].balance.Some? && Abs(d) > BALANCE_TOLERANCE then 0 else d
  }

  /** The running balance is the true one plus the drift, and a mismatch is a drift past the tolerance. */
  lemma {:induction false} RunningDrifts(rows: seq<ParsedRow>, truth: seq<int>, start: int, opening: int, n: nat)
    requires TrulyPrinted(rows, truth, start) && n <= |rows|
    ensures Running(rows, opening, n) == start + TrueMoved(truth, 0, n) + Drift(rows, truth, opening - start, n)
    ensures n < |rows| ==>
      (Misses(rows, opening, n) <==> rows[n].balance.Some? && Abs(Drift(rows, truth, opening - start, n) + Fault(rows, truth, n)) > BALANCE_TOLERANCE)
    ensures n < |rows| && rows[n].balance.Some? ==>
      rows[n].balance.value - Expected(rows, opening, n) == -(Drift(rows, truth, opening - start, n) + Fault(rows, truth, n))
  {
    if n > 0 {
      RunningDrifts(rows, truth, start, opening, n - 1);
    }
  }

  /** The faults of lo..hi together. */
  function Faults(rows: seq<ParsedRow>, truth: seq<int>, lo: nat, hi: nat): int
    requires lo <= hi <= |rows| == |truth|
  {
    if lo == hi then 0 else Faults(rows, truth, lo, hi - 1) + Fault(rows, truth, hi - 1)
  }

  lemma {:induction false} FaultsAreMovedLessTrue(rows: seq<ParsedRow>, truth: seq<int>, lo: nat, hi: nat)
    requires lo <= hi <= |rows| == |truth|
    ensures Faults(rows, truth, lo, hi) == Moved(rows, lo, hi) - TrueMoved(truth, lo, hi)
  {
    if lo < hi {
      FaultsAreMovedLessTrue(rows, truth, lo, hi - 1);
    }
  }

  /** The derived opening is off by the faults up to the first printed balance, so that balance always matches. */
  lemma OpeningAbsorbs(rows: seq<ParsedRow>, truth: seq<int>, start: int)
    requires TrulyPrinted(rows, truth, start) && Prints(rows)
    ensures Opening(rows) - start == -Faults(rows, truth, 0, NextPrinted(rows, 0) + 1)
  {
    FaultsAreMovedLessTrue(rows, truth, 0, NextPrinted(rows, 0) + 1);
  }

  /** Over unprinted rows the drift just adds up. */
  lemma {:induction false} DriftAddsUp(rows: seq<ParsedRow>, truth: seq<int>, drift: int, lo: nat, hi: nat)
    requires lo <= hi <= |rows| == |truth| && forall j | lo <= j < hi :: rows[j].balance.None?
    ensures Drift(rows, truth, drift, hi) == Drift(rows, truth, drift, lo) + Faults(rows, truth, lo, hi)
  {
    if lo < hi {
      DriftAddsUp(rows, truth, drift, lo, hi - 1);
    }
  }

  /** The rows a printed balance vouches for start after the previous printed one. */
  ghost predicate Segment(rows: seq<ParsedRow>, lo: nat, i: nat) {
    && lo <= i < |rows| && rows[i].balance.Some?
    && (forall j | lo <= j < i :: rows[j].balance.None?)
    && (lo == 0 || rows[lo - 1].balance.Some?)
  }

  /** Every segment after the first printed balance is read right, or wrong by more than rounding. */
  ghost predicate ClearFaults(rows: seq<ParsedRow>, truth: seq<int>)
    requires |rows| == |truth|
  {
    forall lo: nat, i: nat | Segment(rows, lo, i) && lo > 0 :: Faults(rows, truth, lo, i + 1) == 0 || Abs(Faults(rows, truth, lo, i + 1)) > BALANCE_TOLERANCE
  }

  /** Right after any printed balance the replay is back on the true balance. */
  lemma {:induction false} BackOnTrack(rows: seq<ParsedRow>, truth: seq<int>, start: int, n: nat)
    requires TrulyPrinted(rows, truth, start) && Prints(rows) && ClearFaults(rows, truth)
    requires 0 < n <= |rows| && rows[n - 1].balance.Some?
    ensures Drift(rows, truth, Opening(rows) - start, n) == 0
  {
    var first, drift := NextPrinted(rows, 0), Opening(rows) - start;
    OpeningAbsorbs(rows, truth, start);
    if n - 1 == first {
      DriftAddsUp(rows, truth, drift, 0, first);
    } else {
      var lo := PreviousPrinted(rows, n - 1);
      BackOnTrack(rows, truth, start, lo);
      DriftAddsUp(rows, truth, drift, lo, n - 1);
      assert Segment(rows, lo, n - 1);
    }
  }

  /** Where the segment of a later printed row starts. */
  lemma {:induction false} PreviousPrinted(rows: seq<ParsedRow>, i: nat) returns (lo: nat)
    requires i < |rows| && rows[i].balance.Some? && NextPrinted(rows, 0) < i
    ensures 0 < lo <= i && Segment(rows, lo, i)
  {
    lo := i;
    while rows[lo - 1].balance.None?
      invariant NextPrinted(rows, 0) < lo <= i
      decreases lo
      invariant forall j | lo <= j < i :: rows[j].balance.None?
    {
      lo := lo - 1;
    }
  }

  /**
   * Faults do not cascade: however many rows are misread, a printed balance after the first
   * mismatches exactly when the rows since the previous printed one are wrong together, and
   * the reported difference is exactly the opposite of what they are wrong by.
   */
  lemma EachSegmentAnswersForItself(rows: seq<ParsedRow>, truth: seq<int>, start: int, lo: nat, i: nat)
    requires TrulyPrinted(rows, truth, start) && Prints(rows) && ClearFaults(rows, truth)
    requires Segment(rows, lo, i) && lo > 0
    ensures Misses(rows, Opening(rows), i) <==> Faults(rows, truth, lo, i + 1) != 0
    ensures rows[i].balance.value - Expected(rows, Opening(rows), i) == -Faults(rows, truth, lo, i + 1)
  {
    BackOnTrack(rows, truth, start, lo);
    DriftAddsUp(rows, truth, Opening(rows) - start, lo, i);
    RunningDrifts(rows, truth, start, Opening(rows), i);
  }

  /** The first printed balance never mismatches. */
  lemma FirstPrintedMatches(rows: seq<ParsedRow>, truth: seq<int>, start: int)
    requires TrulyPrinted(rows, truth, start) && Prints(rows)
    ensures forall i | 0 <= i <= NextPrinted(rows, 0) :: !Misses(rows, Opening(rows), i)
  {
    var first := NextPrinted(rows, 0);
    OpeningAbsorbs(rows, truth, start);
    DriftAddsUp(rows, truth, Opening(rows) - start, 0, first);
    RunningDrifts(rows, truth, start, Opening(rows), first);
  }

  // ---------- One misread row ----------

  ghost predicate OnlyFault(rows: seq<ParsedRow>, truth: seq<int>, f: nat) {
    f < |rows| == |truth| && forall i | 0 <= i < |rows| && i != f :: Fault(rows, truth, i) == 0
  }

  lemma {:induction false} FaultsOfOne(rows: seq<ParsedRow>, truth: seq<int>, f: nat, lo: nat, hi: nat)
    requires OnlyFault(rows, truth, f) && lo <= hi <= |rows|
    ensures Faults(rows, truth, lo, hi) == if lo <= f < hi then Fault(rows, truth, f) else 0
  {
    if lo < hi {
      FaultsOfOne(rows, truth, f, lo, hi - 1);
    }
  }

  /** The drift of a statement with one misread row. */
  lemma {:induction false} DriftOfOne(rows: seq<ParsedRow>, truth: seq<int>, start: int, f: nat, n: nat)
    requires TrulyPrinted(rows, truth, start) && Prints(rows) && OnlyFault(rows, truth, f) && n <= |rows|
    ensures var delta := Fault(rows, truth, f);
      Drift(rows, truth, Opening(rows) - start, n) ==
        if f <= NextPrinted(rows, 0) then (if n <= f then -delta else 0)
        else if n <= f then 0
        else if Abs(delta) <= BALANCE_TOLERANCE || n <= NextPrinted(rows, f) then delta
        else 0
  {
    OpeningAbsorbs(rows, truth, start);
    FaultsOfOne(rows, truth, f, 0, NextPrinted(rows, 0) + 1);
    if n > 0 {
      DriftOfOne(rows, truth, start, f, n - 1);
      if f < n - 1 < NextPrinted(rows, f) {
        assert rows[n - 1].balance.None?;
      }
    }
  }

  /**
   * One row misread by `delta` is reported exactly when it lies after the first printed
   * balance, some balance is printed from it on, and `delta` is more than rounding. The one
   * report is then at the first printed balance from the row on, with difference `-delta`.
   */
  lemma {:induction false} OneFaultOneReport(rows: seq<ParsedRow>, truth: seq<int>, start: int, f: nat, n: nat)
    requires TrulyPrinted(rows, truth, start) && Prints(rows) && OnlyFault(rows, truth, f) && n <= |rows|
    ensures var delta, at := Fault(rows, truth, f), NextPrinted(rows, f);
      if f > NextPrinted(rows, 0) && at < n && Abs(delta) > BALANCE_TOLERANCE
      then |Mismatches(rows, Opening(rows), n)| == 1 && Mismatches(rows, Opening(rows), n)[0].index == at && Mismatches(rows, Opening(rows), n)[0].diff == -delta
      else Mismatches(rows, Opening(rows), n) == []
  {
    if n > 0 {
      OneFaultOneReport(rows, truth, start, f, n - 1);
      RunningDrifts(rows, truth, start, Opening(rows), n - 1);
      DriftOfOne(rows, truth, start, f, n - 1);
      if f < n - 1 < NextPrinted(rows, f) {
        assert rows[n - 1].balance.None?;
      }
    }
  }

  /** With no row misread the replay reports nothing and closes on the true balance. */
  lemma FaithfulStatementReconciles(rows: seq<ParsedRow>, truth: seq<int>, start: int)
    requires TrulyPrinted(rows, truth, start) && Prints(rows) && forall i | 0 <= i < |rows| :: Fault(rows, truth, i) == 0
    ensures ReplayOf(rows) == Replay(Some(start), Some(start + TrueMoved(truth, 0, |truth|)), [])
  {
    OneFaultOneReport(rows, truth, start, NextPrinted(rows, 0), |rows|);
    DriftOfOne(rows, truth, start, NextPrinted(rows, 0), |rows|);
    RunningDrifts(rows, truth, start, Opening(rows), |rows|);
    OpeningAbsorbs(rows, truth, start);
    FaultsOfOne(rows, truth, NextPrinted(rows, 0), 0, NextPrinted(rows, 0) + 1);
  }
}
