/**
 * The integrity check of a parsed statement: replay the running balance and
 * compare it with what the bank printed, resynchronising after a mismatch.
 */
module BalanceReplay {
  import opened Common
  import opened BankRows

  datatype BalanceCheck = Printed | Chain | Unverified | Mismatched
  datatype ParsedRow = ParsedRow(
    day: nat, description: string, amount: int, direction: Direction, kind: LineKind, loanRef: Option<string>,
    balance: Option<int>, check: BalanceCheck, roundTrip: bool)

  datatype Mismatch = Mismatch(index: nat, expected: int, printed: int, diff: int)
  datatype Replay = Replay(opening: Option<int>, closing: Option<int>, mismatches: seq<Mismatch>)

  /** Two agorot apart is a mismatch, one is rounding. */
  const BALANCE_TOLERANCE := 1

  function Signed(row: ParsedRow): int {
    if row.direction == Deposit then row.amount else -row.amount
  }

  /** The signed sum of rows lo..hi. */
  function Moved(rows: seq<ParsedRow>, lo: nat, hi: nat): int
    requires lo <= hi <= |rows|
  {
    if lo == hi then 0 else Moved(rows, lo, hi - 1) + Signed(rows[hi - 1])
  }

  /** The first row at or after `from` that prints a balance, or the end. */
  function NextPrinted(rows: seq<ParsedRow>, from: nat): (k: nat)
    requires from <= |rows|
    ensures from <= k <= |rows|
    ensures forall j | from <= j < k :: rows[j].balance.None?
    ensures k < |rows| ==> rows[k].balance.Some?
    decreases |rows| - from
  {
    if from == |rows| || rows[from].balance.Some? then from else NextPrinted(rows, from + 1)
  }

  predicate Prints(rows: seq<ParsedRow>) {
    NextPrinted(rows, 0) < |rows|
  }

  /** The opening balance, derived backwards from the first printed one. */
  function Opening(rows: seq<ParsedRow>): int
    requires Prints(rows)
  {
    var first := NextPrinted(rows, 0);
    rows[first].balance.value - Moved(rows, 0, first + 1)
  }

  /** The running balance after `n` rows: a printed balance too far off is taken over. */
  function Running(rows: seq<ParsedRow>, opening: int, n: nat): int
    requires n <= |rows|
  {
    if n == 0 then opening
    else
      var expected := Running(rows, opening, n - 1) + Signed(rows[n - 1]);
      if rows[n - 1].balance.Some? && Abs(rows[n - 1].balance.value - expected) > BALANCE_TOLERANCE then rows[n - 1].balance.value
      else expected
  }

  function Expected(rows: seq<ParsedRow>, opening: int, i: nat): int
    requires i < |rows|
  {
    Running(rows, opening, i) + Signed(rows[i])
  }

  predicate Misses(rows: seq<ParsedRow>, opening: int, i: nat) {
    i < |rows| && rows[i].balance.Some? && Abs(rows[i].balance.value - Expected(rows, opening, i)) > BALANCE_TOLERANCE
  }

  function Mismatches(rows: seq<ParsedRow>, opening: int, n: nat): seq<Mismatch>
    requires n <= |rows|
  {
    if n == 0 then []
    else
      Mismatches(rows, opening, n - 1) +
      if Misses(rows, opening, n - 1)
      then [Mismatch(n - 1, Expected(rows, opening, n - 1), rows[n - 1].balance.value,
                     rows[n - 1].balance.value - Expected(rows, opening, n - 1))]
      else []
  }

  /** A row is confirmed by its own printed balance, or through the next printed one. */
  function CheckOf(rows: seq<ParsedRow>, opening: int, j: nat): BalanceCheck
    requires j < |rows|
  {
    var k := NextPrinted(rows, j);
    if k == |rows| then Unverified
    else if k == j then (if Misses(rows, opening, j) then Mismatched else Printed)
    else if Misses(rows, opening, k) then Unverified
    else Chain
  }

  function ReplayOf(rows: seq<ParsedRow>): Replay {
    if !Prints(rows) then Replay(None, None, [])
    else Replay(Some(Opening(rows)), Some(Running(rows, Opening(rows), |rows|)), Mismatches(rows, Opening(rows), |rows|))
  }

  function Checked(rows: seq<ParsedRow>, opening: int): (r: seq<ParsedRow>)
    ensures |r| == |rows| && forall j | 0 <= j < |rows| :: r[j] == rows[j].(check := CheckOf(rows, opening, j))
  {
    seq(|rows|, j requires 0 <= j < |rows| => rows[j].(check := CheckOf(rows, opening, j)))
  }

  function AllUnverified(rows: seq<ParsedRow>): (r: seq<ParsedRow>)
    ensures |r| == |rows| && forall j | 0 <= j < |rows| :: r[j] == rows[j].(check := Unverified)
  {
    seq(|rows|, j requires 0 <= j < |rows| => rows[j].(check := Unverified))
  }

  /** The rows as the replay leaves them. */
  function Marked(rows: seq<ParsedRow>): (r: seq<ParsedRow>)
    ensures |r| == |rows|
  {
    if Prints(rows) then Checked(rows, Opening(rows)) else AllUnverified(rows)
  }

  method VerifyRollingBalance(a: array<ParsedRow>) returns (r: Replay)
    modifies a
    ensures a[..] == Marked(old(a[..]))
    ensures r == ReplayOf(old(a[..]))
  {
    var first := FindFirstPrinted(a);
    if first == a.Length {
      LeaveUnverified(a);
      r := Replay(None, None, []);
    } else {
      var opening := DeriveOpening(a, first);
      var running, mismatches := ReplayRows(a, opening);
      r := Replay(Some(opening), Some(running), mismatches);
    }
  }

  method FindFirstPrinted(a: array<ParsedRow>) returns (first: nat)
    ensures first == NextPrinted(a[..], 0)
  {
    first := 0;
    while first < a.Length && a[first].balance.None?
      invariant 0 <= first <= a.Length && NextPrinted(a[..], first) == NextPrinted(a[..], 0)
    {
      first := first + 1;
    }
  }

  method LeaveUnverified(a: array<ParsedRow>)
    modifies a
    ensures a[..] == AllUnverified(old(a[..]))
  {
    for i := 0 to a.Length
      invariant forall j | 0 <= j < a.Length :: a[j] == if j < i then old(a[j]).(check := Unverified) else old(a[j])
    {
      a[i] := a[i].(check := Unverified);
    }
  }

  method DeriveOpening(a: array<ParsedRow>, first: nat) returns (opening: int)
    requires first == NextPrinted(a[..], 0) && first < a.Length
    ensures Prints(a[..]) && opening == Opening(a[..])
  {
    opening := a[first].balance.value;
    for i := 0 to first + 1
      invariant opening == a[first].balance.value - Moved(a[..], 0, i)
    {
      opening := opening - Signed(a[i]);
    }
  }

  /** After `i` rows: checks are final before `start`, and unverified from there on. */
  ghost predicate Replayed(now: seq<ParsedRow>, rows: seq<ParsedRow>, opening: int, start: nat, i: nat) {
    && |now| == |rows| && start <= i <= |rows|
    && (forall j | start <= j < i :: rows[j].balance.None?)
    && (forall j | 0 <= j < start :: now[j] == rows[j].(check := CheckOf(rows, opening, j)))
    && (forall j | start <= j < i :: now[j] == rows[j].(check := Unverified))
    && (forall j | i <= j < |rows| :: now[j] == rows[j])
  }

  function Confirmed(now: seq<ParsedRow>, lo: nat, hi: nat): (r: seq<ParsedRow>)
    ensures |r| == |now|
    ensures forall k | 0 <= k < |now| :: r[k] == if lo <= k < hi && now[k].check == Unverified then now[k].(check := Chain) else now[k]
  {
    seq(|now|, k requires 0 <= k < |now| => if lo <= k < hi && now[k].check == Unverified then now[k].(check := Chain) else now[k])
  }

  lemma PrintedStep(now: seq<ParsedRow>, rows: seq<ParsedRow>, opening: int, start: nat, i: nat)
    requires i < |rows| && Replayed(now, rows, opening, start, i) && rows[i].balance.Some?
    ensures Misses(rows, opening, i) ==> Replayed(now[i := rows[i].(check := Mismatched)], rows, opening, i + 1, i + 1)
    ensures !Misses(rows, opening, i) ==> Replayed(Confirmed(now[i := rows[i].(check := Printed)], start, i), rows, opening, i + 1, i + 1)
  {
    SegmentChecks(rows, opening, start, i);
  }

  lemma NullStep(now: seq<ParsedRow>, rows: seq<ParsedRow>, opening: int, start: nat, i: nat)
    requires i < |rows| && Replayed(now, rows, opening, start, i) && rows[i].balance.None?
    ensures Replayed(now[i := rows[i].(check := Unverified)], rows, opening, start, i + 1)
  {
  }

  lemma ReplayedToEnd(now: seq<ParsedRow>, rows: seq<ParsedRow>, opening: int, start: nat)
    requires Replayed(now, rows, opening, start, |rows|)
    ensures now == Checked(rows, opening)
  {
    TailChecks(rows, opening, start);
  }

  /** Add a row to the running balance and compare it with what it prints; a mismatch resynchronises. */
  method CompareRow(row: ParsedRow, i: nat, before: int, found: seq<Mismatch>, ghost rows: seq<ParsedRow>, ghost opening: int)
    returns (missed: bool, running: int, mismatches: seq<Mismatch>)
    requires i < |rows| && row == rows[i] && before == Running(rows, opening, i) && found == Mismatches(rows, opening, i)
    ensures missed == Misses(rows, opening, i)
    ensures running == Running(rows, opening, i + 1) && mismatches == Mismatches(rows, opening, i + 1)
  {
    missed, running, mismatches := false, before + Signed(row), found;
    if row.balance.Some? {
      var diff := row.balance.value - running;
      if Abs(diff) > BALANCE_TOLERANCE {
        mismatches := mismatches + [Mismatch(i, running, row.balance.value, diff)];
        missed, running := true, row.balance.value;
      }
    }
  }

  /** The main loop: `segmentStart` is the first row not yet confirmed by a printed balance. */
  method ReplayRows(a: array<ParsedRow>, opening: int) returns (running: int, mismatches: seq<Mismatch>)
    modifies a
    ensures a[..] == Checked(old(a[..]), opening)
    ensures running == Running(old(a[..]), opening, a.Length)
    ensures mismatches == Mismatches(old(a[..]), opening, a.Length)
  {
    ghost var rows := a[..];
    running, mismatches := opening, [];
    var segmentStart := 0;
    for i := 0 to a.Length
      invariant running == Running(rows, opening, i) && mismatches == Mismatches(rows, opening, i)
      invariant Replayed(a[..], rows, opening, segmentStart, i)
    {
      ghost var now := a[..];
      var row := a[i];
      assert row == rows[i];
      var missed;
      missed, running, mismatches := CompareRow(row, i, running, mismatches, rows, opening);
      if row.balance.None? {
        a[i] := row.(check := Unverified);
        assert a[..] == now[i := row.(check := Unverified)];
        NullStep(now, rows, opening, segmentStart, i);
      } else {
        PrintedStep(now, rows, opening, segmentStart, i);
        if missed {
          a[i] := row.(check := Mismatched);
          assert a[..] == now[i := row.(check := Mismatched)];
        } else {
          a[i] := row.(check := Printed);
          assert a[..] == now[i := row.(check := Printed)];
          ConfirmSegment(a, segmentStart, i);
        }
        segmentStart := i + 1;
      }
    }
    ReplayedToEnd(a[..], rows, opening, segmentStart);
  }

  /** The checks a printed balance settles. */
  lemma SegmentChecks(rows: seq<ParsedRow>, opening: int, lo: nat, i: nat)
    requires lo <= i < |rows| && rows[i].balance.Some? && forall j | lo <= j < i :: rows[j].balance.None?
    ensures forall j | lo <= j < i :: CheckOf(rows, opening, j) == if Misses(rows, opening, i) then Unverified else Chain
    ensures CheckOf(rows, opening, i) == if Misses(rows, opening, i) then Mismatched else Printed
  {
    forall j | lo <= j <= i ensures NextPrinted(rows, j) == i {
      NextPrintedIs(rows, j, i);
    }
  }

  lemma TailChecks(rows: seq<ParsedRow>, opening: int, lo: nat)
    requires lo <= |rows| && forall j | lo <= j < |rows| :: rows[j].balance.None?
    ensures forall j | lo <= j < |rows| :: CheckOf(rows, opening, j) == Unverified
  {
    forall j | lo <= j < |rows| ensures NextPrinted(rows, j) == |rows| {
      NextPrintedIs(rows, j, |rows|);
    }
  }

  method ConfirmSegment(a: array<ParsedRow>, lo: nat, hi: nat)
    requires lo <= hi <= a.Length
    modifies a
    ensures a[..] == Confirmed(old(a[..]), lo, hi)
  {
    for j := lo to hi
      invariant a[..] == Confirmed(old(a[..]), lo, j)
    {
      if a[j].check == Unverified { a[j] := a[j].(check := Chain); }
      assert a[..] == Confirmed(old(a[..]), lo, j + 1);
    }
  }

  lemma {:induction false} NextPrintedIs(rows: seq<ParsedRow>, from: nat, k: nat)
    requires from <= k <= |rows| && (forall j | from <= j < k :: rows[j].balance.None?) && (k < |rows| ==> rows[k].balance.Some?)
    ensures NextPrinted(rows, from) == k
    decreases k - from
  {
    if from < k {
      NextPrintedIs(rows, from + 1, k);
    }
  }

  // ---------- Conservation and tolerance ----------

  function DiffTotal(ms: seq<Mismatch>): int {
    if ms == [] then 0 else DiffTotal(ms[..|ms| - 1]) + ms[|ms| - 1].diff
  }

  lemma {:induction false} RunningConserves(rows: seq<ParsedRow>, opening: int, n: nat)
    requires n <= |rows|
    ensures Running(rows, opening, n) - opening == Moved(rows, 0, n) + DiffTotal(Mismatches(rows, opening, n))
  {
    if n > 0 {
      RunningConserves(rows, opening, n - 1);
      var before, after := Mismatches(rows, opening, n - 1), Mismatches(rows, opening, n);
      if after != before {
        assert after[..|after| - 1] == before;
      }
    }
  }

  /** Closing minus opening is exactly the movements plus every reported difference. */
  lemma ReplayConserves(rows: seq<ParsedRow>)
    requires Prints(rows)
    ensures var r := ReplayOf(rows);
      r.closing.value - r.opening.value == Moved(rows, 0, |rows|) + DiffTotal(r.mismatches)
  {
    RunningConserves(rows, Opening(rows), |rows|);
  }

  /** At a printed row the running balance is the printed one, give or take the tolerance. */
  lemma RunningNearPrinted(rows: seq<ParsedRow>, opening: int, i: nat)
    requires i < |rows| && rows[i].balance.Some?
    ensures Abs(rows[i].balance.value - Running(rows, opening, i + 1)) <= BALANCE_TOLERANCE
    ensures Misses(rows, opening, i) ==> rows[i].balance.value == Running(rows, opening, i + 1)
  {
  }

  lemma {:induction false} RunningMoves(rows: seq<ParsedRow>, opening: int, lo: nat, hi: nat)
    requires lo <= hi <= |rows| && forall k | lo <= k < hi :: !Misses(rows, opening, k)
    ensures Running(rows, opening, hi) == Running(rows, opening, lo) + Moved(rows, lo, hi)
  {
    if lo < hi {
      RunningMoves(rows, opening, lo, hi - 1);
      assert !Misses(rows, opening, hi - 1);
    }
  }

  /**
   * The tolerance never accumulates: between two printed balances with no mismatch after the
   * first, however many rows apart, the parsed movements differ from the printed movement by
   * at most two agorot.
   */
  lemma ToleranceNeverAccumulates(rows: seq<ParsedRow>, opening: int, i: nat, j: nat)
    requires i < j < |rows| && rows[i].balance.Some? && rows[j].balance.Some?
    requires forall k | i < k <= j :: !Misses(rows, opening, k)
    ensures Abs(Moved(rows, i + 1, j + 1) - (rows[j].balance.value - rows[i].balance.value)) <= 2 * BALANCE_TOLERANCE
  {
    RunningNearPrinted(rows, opening, i);
    RunningNearPrinted(rows, opening, j);
    RunningMoves(rows, opening, i + 1, j + 1);
  }

  /** The closing balance is the last printed one plus the tail, within one agora. */
  lemma ClosingNearLastPrinted(rows: seq<ParsedRow>, last: nat)
    requires last < |rows| && rows[last].balance.Some? && (forall k | last < k < |rows| :: rows[k].balance.None?) && Prints(rows)
    ensures Abs(ReplayOf(rows).closing.value - (rows[last].balance.value + Moved(rows, last + 1, |rows|))) <= BALANCE_TOLERANCE
  {
    RunningNearPrinted(rows, Opening(rows), last);
    RunningMoves(rows, Opening(rows), last + 1, |rows|);
  }

  /** By how much the movements between two printed balances miss the printed step. */
  function StepGap(rows: seq<ParsedRow>, i: nat, k: nat): int
    requires i < k < |rows| && rows[i].balance.Some? && rows[k].balance.Some?
  {
    Moved(rows, i + 1, k + 1) - (rows[k].balance.value - rows[i].balance.value)
  }

  ghost predicate NonePrinted(rows: seq<ParsedRow>, i: nat, k: nat) {
    k <= |rows| && forall x | i < x < k :: rows[x].balance.None?
  }

  lemma NeighbourGap(rows: seq<ParsedRow>, opening: int, i: nat, k: nat)
    requires i < k < |rows| && rows[i].balance.Some? && rows[k].balance.Some? && NonePrinted(rows, i, k)
    ensures if Misses(rows, opening, k) then StepGap(rows, i, k) != 0 else Abs(StepGap(rows, i, k)) <= 2 * BALANCE_TOLERANCE
  {
    RunningNearPrinted(rows, opening, i);
    RunningMoves(rows, opening, i + 1, k);
  }

  /**
   * What a mark is worth: a row the replay calls printed or chain stands in a segment whose
   * parsed movements add up to what the bank printed around it; a row it calls mismatch
   * prints a balance the rows before it contradict.
   */
  lemma MarksAreEarned(rows: seq<ParsedRow>, opening: int, i: nat, j: nat, k: nat)
    requires i < j < |rows| && rows[i].balance.Some? && NonePrinted(rows, i, j) && k == NextPrinted(rows, j)
    ensures var mark := CheckOf(rows, opening, j);
      && (mark in {Printed, Chain} ==> k < |rows| && Abs(StepGap(rows, i, k)) <= 2 * BALANCE_TOLERANCE)
      && (mark == Mismatched ==> k == j && StepGap(rows, i, j) != 0)
      && (mark == Printed ==> k == j) && (mark == Chain ==> k > j)
      && (mark == Unverified ==> k > j && (k < |rows| ==> StepGap(rows, i, k) != 0))
  {
    if k < |rows| { NeighbourGap(rows, opening, i, k); }
  }
}
