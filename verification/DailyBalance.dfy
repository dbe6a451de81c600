/**
 * One export prints a balance only at the close of each day and a zero on the
 * rows before it. The placeholders are dropped, but only when the statement does
 * not reconcile with them and does reconcile without them.
 */
module DailyBalance {
  import opened Common
  import opened BalanceReplay

  const MIN_DAILY_CLOSES := 3

  /** The next row falls on the same day, so this one is not the day's close. */
  predicate Intermediate(rows: seq<ParsedRow>, i: nat) {
    i + 1 < |rows| && rows[i + 1].day == rows[i].day
  }

  predicate FitsDaily(rows: seq<ParsedRow>, i: nat)
    requires i < |rows|
  {
    && rows[i].balance.Some?
    && (i + 1 < |rows| ==> rows[i].day <= rows[i + 1].day)
    && (Intermediate(rows, i) ==> rows[i].balance == Some(0))
  }

  function Closes(rows: seq<ParsedRow>, n: nat): nat
    requires n <= |rows|
  {
    if n == 0 then 0 else Closes(rows, n - 1) + if Intermediate(rows, n - 1) then 0 else 1
  }

  /** Rows in day order, every one printing a balance, zero on all but the day's last, at least three days, some placeholder. */
  ghost predicate DailyLayout(rows: seq<ParsedRow>) {
    && (forall i {:trigger FitsDaily(rows, i)} | 0 <= i < |rows| :: FitsDaily(rows, i))
    && Closes(rows, |rows|) >= MIN_DAILY_CLOSES
    && (exists i | 0 <= i < |rows| :: Intermediate(rows, i))
  }

  function WithoutPlaceholders(rows: seq<ParsedRow>): (r: seq<ParsedRow>)
    ensures |r| == |rows| && forall i {:trigger r[i]} | 0 <= i < |rows| :: r[i] == if Intermediate(rows, i) then rows[i].(balance := None) else rows[i]
  {
    seq(|rows|, i requires 0 <= i < |rows| => if Intermediate(rows, i) then rows[i].(balance := None) else rows[i])
  }

  ghost predicate Normalizes(rows: seq<ParsedRow>) {
    && ReplayOf(rows).mismatches != []
    && DailyLayout(rows)
    && ReplayOf(WithoutPlaceholders(rows)).mismatches == []
  }

  /** Replay a copy, so that no mark lands on the statement itself. */
  method Reconciles(rows: seq<ParsedRow>) returns (ok: bool)
    ensures ok <==> ReplayOf(rows).mismatches == []
  {
    var copy := new ParsedRow[|rows|](i requires 0 <= i < |rows| => rows[i]);
    assert copy[..] == rows;
    var replay := VerifyRollingBalance(copy);
    ok := replay.mismatches == [];
  }

  /** The layout test, leaving at the first row that does not fit. */
  method FindPlaceholders(rows: seq<ParsedRow>) returns (ok: bool)
    ensures ok <==> DailyLayout(rows)
  {
    var closes, found := 0, false;
    for i := 0 to |rows|
      invariant forall j {:trigger FitsDaily(rows, j)} | 0 <= j < i :: FitsDaily(rows, j)
      invariant closes == Closes(rows, i)
      invariant found <==> exists j | 0 <= j < i :: Intermediate(rows, j)
    {
      var row := rows[i];
      assert FitsDaily(rows, i) || !FitsDaily(rows, i);
      if row.balance.None? || (i + 1 < |rows| && rows[i + 1].day < row.day) { return false; }
      if i + 1 < |rows| && rows[i + 1].day == row.day {
        if row.balance.value != 0 { return false; }
        assert Intermediate(rows, i);
        found := true;
      } else {
        closes := closes + 1;
      }
    }
    ok := closes >= MIN_DAILY_CLOSES && found;
  }

  method NormalizeDailyBalances(a: array<ParsedRow>) returns (done: bool)
    modifies a
    ensures done <==> Normalizes(old(a[..]))
    ensures a[..] == if done then WithoutPlaceholders(old(a[..])) else old(a[..])
  {
    var rows := a[..];
    done := Reconciles(rows);
    if done { return false; }
    done := FindPlaceholders(rows);
    if !done { return; }
    done := Reconciles(WithoutPlaceholders(rows));
    if !done { return; }
    DropPlaceholders(a);
  }

  method DropPlaceholders(a: array<ParsedRow>)
    modifies a
    ensures a[..] == WithoutPlaceholders(old(a[..]))
  {
    var rows := a[..];
    for i := 0 to a.Length
      invariant forall j | 0 <= j < i :: a[j] == WithoutPlaceholders(rows)[j]
      invariant forall j | i <= j < a.Length :: a[j] == rows[j]
    {
      if Intermediate(rows, i) { a[i] := a[i].(balance := None); }
    }
  }

  // ---------- What a normalised statement says ----------

  lemma {:induction false} NoMismatchNoMiss(rows: seq<ParsedRow>, opening: int, n: nat, i: nat)
    requires n <= |rows| && i < n && Mismatches(rows, opening, n) == []
    ensures !Misses(rows, opening, i)
  {
    if i < n - 1 {
      NoMismatchNoMiss(rows, opening, n - 1, i);
    }
  }

  /** Dropping placeholders changes no movement and no day. */
  lemma {:induction false} MovementsStay(rows: seq<ParsedRow>, lo: nat, hi: nat)
    requires lo <= hi <= |rows|
    ensures Moved(WithoutPlaceholders(rows), lo, hi) == Moved(rows, lo, hi)
  {
    if lo < hi {
      MovementsStay(rows, lo, hi - 1);
    }
  }

  /**
   * In a normalised statement every day's movements add up to the step between the
   * closes of the days around it, within two agorot: a misread amount, a wrong sign or
   * a missing row after the first close cannot hide behind the placeholders.
   */
  lemma DaysReconcile(rows: seq<ParsedRow>, i: nat, j: nat)
    requires Normalizes(rows) && i < j < |rows| && !Intermediate(rows, i) && !Intermediate(rows, j)
    ensures rows[i].balance.Some? && rows[j].balance.Some?
    ensures Abs(StepGap(rows, i, j)) <= 2 * BALANCE_TOLERANCE
  {
    ClosesArePrinted(rows, i);
    ClosesArePrinted(rows, j);
    CleanSegment(WithoutPlaceholders(rows), i, j);
    SameGap(rows, WithoutPlaceholders(rows), i, j);
  }

  lemma SameGap(rows: seq<ParsedRow>, clean: seq<ParsedRow>, i: nat, j: nat)
    requires clean == WithoutPlaceholders(rows) && i < j < |rows|
    requires rows[i].balance.Some? && clean[i].balance == rows[i].balance && rows[j].balance.Some? && clean[j].balance == rows[j].balance
    ensures StepGap(clean, i, j) == StepGap(rows, i, j)
  {
    MovementsStay(rows, i + 1, j + 1);
  }

  lemma ClosesArePrinted(rows: seq<ParsedRow>, i: nat)
    requires Normalizes(rows) && i < |rows| && !Intermediate(rows, i)
    ensures rows[i].balance.Some? && WithoutPlaceholders(rows)[i].balance == rows[i].balance
  {
    assert FitsDaily(rows, i);
  }

  /** Between two printed balances of a statement with no mismatch. */
  lemma CleanSegment(clean: seq<ParsedRow>, i: nat, j: nat)
    requires i < j < |clean| && clean[i].balance.Some? && clean[j].balance.Some?
    requires Prints(clean) ==> Mismatches(clean, Opening(clean), |clean|) == []
    ensures Abs(StepGap(clean, i, j)) <= 2 * BALANCE_TOLERANCE
  {
    assert Prints(clean);
    forall k | i < k <= j ensures !Misses(clean, Opening(clean), k) {
      NoMismatchNoMiss(clean, Opening(clean), |clean|, k);
    }
    ToleranceNeverAccumulates(clean, Opening(clean), i, j);
  }
}
