/**
 * Which steps the balance replay reports when the printed balances may be misread too:
 * no balance is trusted, each is held against the one printed before it.
 */
module MisreadBalance {
  import opened Common
  import opened BalanceReplay
  import opened FaultLocalisation

  // ---------- Any misreadings ----------

  ghost predicate Neighbours(rows: seq<ParsedRow>, i: nat, k: nat) {
    i < k < |rows| && rows[i].balance.Some? && rows[k].balance.Some? && NonePrinted(rows, i, k)
  }

  /** The movements meet every printed step, or miss it by more than rounding. */
  ghost predicate ClearSteps(rows: seq<ParsedRow>) {
    forall i: nat, k: nat | Neighbours(rows, i, k) :: StepGap(rows, i, k) == 0 || Abs(StepGap(rows, i, k)) > BALANCE_TOLERANCE
  }

  lemma OnFirstPrinted(rows: seq<ParsedRow>)
    requires Prints(rows)
    ensures var first := NextPrinted(rows, 0); Expected(rows, Opening(rows), first) == rows[first].balance.value
  {
    RunningMoves(rows, Opening(rows), 0, NextPrinted(rows, 0));
  }

  /** Right after any printed balance the replay stands on it. */
  lemma {:induction false} OnPrinted(rows: seq<ParsedRow>, i: nat)
    requires Prints(rows) && ClearSteps(rows) && i < |rows| && rows[i].balance.Some?
    ensures Running(rows, Opening(rows), i + 1) == rows[i].balance.value
  {
    if i == NextPrinted(rows, 0) {
      OnFirstPrinted(rows);
    } else {
      var lo := PreviousPrinted(rows, i);
      OnPrinted(rows, lo - 1);
      assert Neighbours(rows, lo - 1, i);
      RunningMoves(rows, Opening(rows), lo, i);
    }
  }

  /**
   * Whatever was misread, movements or balances, a printed balance mismatches exactly when the
   * movements since the one printed before it miss the step between the two, and is reported
   * to differ by exactly as much: no misreading reaches past the next printed balance.
   */
  lemma EachStepAnswersForItself(rows: seq<ParsedRow>, i: nat, k: nat)
    requires Prints(rows) && ClearSteps(rows) && Neighbours(rows, i, k)
    ensures Misses(rows, Opening(rows), k) <==> StepGap(rows, i, k) != 0
    ensures rows[k].balance.value - Expected(rows, Opening(rows), k) == -StepGap(rows, i, k)
  {
    OnPrinted(rows, i);
    RunningMoves(rows, Opening(rows), i + 1, k);
  }

  // ---------- One misread balance ----------

  /** The true balance after row `k`. */
  function TrueAfter(truth: seq<int>, start: int, k: nat): int
    requires k < |truth|
  {
    start + TrueMoved(truth, 0, k + 1)
  }

  /** Everything was read right but the balance row `p` prints, which is off by `eps`. */
  ghost predicate OnlyBalanceOff(rows: seq<ParsedRow>, truth: seq<int>, start: int, p: nat, eps: int) {
    && p < |rows| == |truth| && (forall i | 0 <= i < |rows| :: Signed(rows[i]) == truth[i])
    && rows[p].balance == Some(TrueAfter(truth, start, p) + eps)
    && forall i | 0 <= i < |rows| && i != p && rows[i].balance.Some? :: rows[i].balance.value == TrueAfter(truth, start, i)
  }

  /** How far the running balance stands off the true one before row `n`. */
  function Offset(rows: seq<ParsedRow>, p: nat, eps: int, n: nat): int
    requires p < |rows|
  {
    if Abs(eps) <= BALANCE_TOLERANCE then (if p == NextPrinted(rows, 0) then eps else 0)
    else if (p == NextPrinted(rows, 0) || n > p) && n <= NextPrinted(rows, p + 1) then eps
    else 0
  }

  lemma {:induction false} MovedIsTrue(rows: seq<ParsedRow>, truth: seq<int>, n: nat)
    requires n <= |rows| == |truth| && forall i | 0 <= i < |rows| :: Signed(rows[i]) == truth[i]
    ensures Moved(rows, 0, n) == TrueMoved(truth, 0, n)
  {
    if n > 0 {
      MovedIsTrue(rows, truth, n - 1);
    }
  }

  lemma FirstIsPrinted(rows: seq<ParsedRow>, p: nat)
    requires p < |rows| && rows[p].balance.Some?
    ensures Prints(rows) && NextPrinted(rows, 0) <= p
  {
  }

  lemma OpeningOffset(rows: seq<ParsedRow>, truth: seq<int>, start: int, p: nat, eps: int)
    requires OnlyBalanceOff(rows, truth, start, p, eps)
    ensures Prints(rows) && Opening(rows) == start + Offset(rows, p, eps, 0)
  {
    FirstIsPrinted(rows, p);
    MovedIsTrue(rows, truth, NextPrinted(rows, 0) + 1);
  }

  lemma {:induction false} RunningOffset(rows: seq<ParsedRow>, truth: seq<int>, start: int, p: nat, eps: int, n: nat)
    requires OnlyBalanceOff(rows, truth, start, p, eps) && Prints(rows) && n <= |rows|
    ensures Running(rows, Opening(rows), n) == start + TrueMoved(truth, 0, n) + Offset(rows, p, eps, n)
  {
    OpeningOffset(rows, truth, start, p, eps);
    if n > 0 {
      RunningOffset(rows, truth, start, p, eps, n - 1);
      NothingBetween(rows, p, n - 1);
    }
  }

  lemma NothingBetween(rows: seq<ParsedRow>, p: nat, n: nat)
    requires p < |rows| && n < |rows| && rows[p].balance.Some?
    ensures NextPrinted(rows, 0) <= p
    ensures p < n < NextPrinted(rows, p + 1) || n < NextPrinted(rows, 0) ==> rows[n].balance.None?
  {
    FirstIsPrinted(rows, p);
  }

  /** At a printed row, what the replay finds it off by. */
  lemma FoundOff(rows: seq<ParsedRow>, truth: seq<int>, start: int, p: nat, eps: int, n: nat)
    requires OnlyBalanceOff(rows, truth, start, p, eps) && Prints(rows) && n < |rows| && rows[n].balance.Some?
    ensures Expected(rows, Opening(rows), n) == TrueAfter(truth, start, n) + Offset(rows, p, eps, n)
    ensures rows[n].balance.value - Expected(rows, Opening(rows), n) == (if n == p then eps else 0) - Offset(rows, p, eps, n)
  {
    RunningOffset(rows, truth, start, p, eps, n);
  }

  /** The two reports of a misread balance: at itself, unless the opening was derived from it, and at the next printed one. */
  function ReportsOf(rows: seq<ParsedRow>, truth: seq<int>, start: int, p: nat, eps: int, n: nat): seq<Mismatch>
    requires p < |rows| == |truth| && n <= |rows|
  {
    var q := NextPrinted(rows, p + 1);
    if Abs(eps) <= BALANCE_TOLERANCE then []
    else
      (if NextPrinted(rows, 0) < p < n then [Mismatch(p, TrueAfter(truth, start, p), TrueAfter(truth, start, p) + eps, eps)] else []) +
      (if q < n then [Mismatch(q, TrueAfter(truth, start, q) + eps, TrueAfter(truth, start, q), -eps)] else [])
  }

  /** What the replay reports at row `n`. */
  function ReportAt(rows: seq<ParsedRow>, truth: seq<int>, start: int, p: nat, eps: int, n: nat): seq<Mismatch>
    requires p < |rows| == |truth| && n < |rows|
  {
    if Abs(eps) <= BALANCE_TOLERANCE then []
    else if NextPrinted(rows, 0) < p == n then [Mismatch(p, TrueAfter(truth, start, p), TrueAfter(truth, start, p) + eps, eps)]
    else if NextPrinted(rows, p + 1) == n then [Mismatch(n, TrueAfter(truth, start, n) + eps, TrueAfter(truth, start, n), -eps)]
    else []
  }

  lemma ReportsGrow(rows: seq<ParsedRow>, truth: seq<int>, start: int, p: nat, eps: int, n: nat)
    requires p < |rows| == |truth| && n < |rows|
    ensures ReportsOf(rows, truth, start, p, eps, n + 1) == ReportsOf(rows, truth, start, p, eps, n) + ReportAt(rows, truth, start, p, eps, n)
  {
  }

  lemma ReportFound(rows: seq<ParsedRow>, truth: seq<int>, start: int, p: nat, eps: int, n: nat)
    requires OnlyBalanceOff(rows, truth, start, p, eps) && Prints(rows) && n < |rows|
    ensures Mismatches(rows, Opening(rows), n + 1) == Mismatches(rows, Opening(rows), n) + ReportAt(rows, truth, start, p, eps, n)
  {
    NothingBetween(rows, p, n);
    if rows[n].balance.Some? { FoundOff(rows, truth, start, p, eps, n); }
  }

  ghost predicate AllFound(rows: seq<ParsedRow>, truth: seq<int>, start: int, p: nat, eps: int, n: nat)
    requires p < |rows| == |truth| && n <= |rows| && Prints(rows)
  {
    Mismatches(rows, Opening(rows), n) == ReportsOf(rows, truth, start, p, eps, n)
  }

  lemma OneMoreFound(rows: seq<ParsedRow>, truth: seq<int>, start: int, p: nat, eps: int, n: nat)
    requires OnlyBalanceOff(rows, truth, start, p, eps) && Prints(rows) && n < |rows| && AllFound(rows, truth, start, p, eps, n)
    ensures AllFound(rows, truth, start, p, eps, n + 1)
  {
    ReportFound(rows, truth, start, p, eps, n);
    ReportsGrow(rows, truth, start, p, eps, n);
  }

  lemma ReportsFound(rows: seq<ParsedRow>, truth: seq<int>, start: int, p: nat, eps: int, n: nat)
    requires OnlyBalanceOff(rows, truth, start, p, eps) && Prints(rows) && n <= |rows|
    ensures AllFound(rows, truth, start, p, eps, n)
  {
    for i := 0 to n
      invariant AllFound(rows, truth, start, p, eps, i)
    {
      OneMoreFound(rows, truth, start, p, eps, i);
    }
  }

  /**
   * One balance misread by `eps` past rounding gives a report of `eps` there and one of `-eps`
   * at the next printed balance, if any; no other. The first printed balance gives the second
   * alone, and an opening off by `eps`. The closing balance is off only where none is printed
   * after it. A balance off by rounding gives no report.
   */
  lemma OneMisreadBalance(rows: seq<ParsedRow>, truth: seq<int>, start: int, p: nat, eps: int)
    requires OnlyBalanceOff(rows, truth, start, p, eps)
    ensures var first, q := NextPrinted(rows, 0), NextPrinted(rows, p + 1);
      var carried := if Abs(eps) <= BALANCE_TOLERANCE then p == first else q == |rows|;
      ReplayOf(rows) == Replay(
        Some(start + if p == first then eps else 0),
        Some(start + TrueMoved(truth, 0, |truth|) + if carried then eps else 0),
        ReportsOf(rows, truth, start, p, eps, |rows|))
  {
    OpeningOffset(rows, truth, start, p, eps);
    RunningOffset(rows, truth, start, p, eps, |rows|);
    ReportsFound(rows, truth, start, p, eps, |rows|);
    NothingBetween(rows, p, p);
  }
}
