/** The calendar arithmetic of a monthly payment, and its latest unbroken run. */
module MonthlyRuns {
  import opened Common
  import opened Calendar

  /** A payment of a month: its day and its amount. */
  datatype Occurrence = Occurrence(day: nat, amount: int)

  const DAY_OF_MONTH_TOLERANCE := 4

  function DayOfMonth(day: nat): (d: nat)
    ensures d >= 1
  {
    DateOf(day).day
  }

  // ---------- The next monthly date ----------

  /** That day of the month, or the month's last day when it is shorter. */
  function Clamped(dayOfMonth: nat, month: nat): nat
    requires dayOfMonth >= 1
  {
    var length := MonthLength(month);
    DayNumber(Date(month, if dayOfMonth <= length then dayOfMonth else length))
  }

  function NextMonthly(last: nat, after: nat): nat {
    var candidate := Clamped(DayOfMonth(last), MonthOf(after));
    if candidate > after then candidate else Clamped(DayOfMonth(last), MonthOf(after) + 1)
  }

  method FindNextMonthly(last: nat, after: nat) returns (next: nat)
    ensures next == NextMonthly(last, after)
  {
    var day := DayOfMonth(last);
    var year, month := MonthOf(after) / 12, MonthOf(after) % 12;
    while true
      invariant 0 <= month < 12
      invariant MonthOf(after) <= 12 * year + month <= MonthOf(after) + 1
      invariant 12 * year + month == MonthOf(after) + 1 ==> Clamped(day, MonthOf(after)) <= after
      decreases MonthOf(after) + 1 - (12 * year + month)
    {
      var candidate := Clamped(day, 12 * year + month);
      if candidate > after { return candidate; }
      if 12 * year + month == MonthOf(after) + 1 { NextMonthIsLater(day, after); }
      month := month + 1;
      if month > 11 { month, year := 0, year + 1; }
    }
  }

  lemma NextMonthIsLater(dayOfMonth: nat, after: nat)
    requires dayOfMonth >= 1
    ensures Clamped(dayOfMonth, MonthOf(after) + 1) > after
  {
    var length := MonthLength(MonthOf(after) + 1);
    OrderIsLexicographic(DateOf(after), Date(MonthOf(after) + 1, if dayOfMonth <= length then dayOfMonth else length));
  }

  lemma ClampedGrows(dayOfMonth: nat, a: nat, b: nat)
    requires dayOfMonth >= 1 && a <= b
    ensures Clamped(dayOfMonth, a) <= Clamped(dayOfMonth, b)
  {
    var lengthA, lengthB := MonthLength(a), MonthLength(b);
    OrderIsLexicographic(Date(a, if dayOfMonth <= lengthA then dayOfMonth else lengthA), Date(b, if dayOfMonth <= lengthB then dayOfMonth else lengthB));
  }

  lemma EarlierMonthsArePast(dayOfMonth: nat, month: nat, after: nat)
    requires dayOfMonth >= 1 && month < MonthOf(after)
    ensures Clamped(dayOfMonth, month) < after
  {
    var length := MonthLength(month);
    OrderIsLexicographic(Date(month, if dayOfMonth <= length then dayOfMonth else length), DateOf(after));
  }

  /** Of that day in every month, clamped, the next payment is the first one strictly later. */
  lemma NextMonthlyIsLeast(last: nat, after: nat)
    ensures NextMonthly(last, after) > after
    ensures exists month: nat :: NextMonthly(last, after) == Clamped(DayOfMonth(last), month)
    ensures forall month: nat | Clamped(DayOfMonth(last), month) > after :: NextMonthly(last, after) <= Clamped(DayOfMonth(last), month)
  {
    var d := DayOfMonth(last);
    NextMonthIsLater(d, after);
    forall month: nat | Clamped(d, month) > after ensures NextMonthly(last, after) <= Clamped(d, month) {
      if month < MonthOf(after) {
        EarlierMonthsArePast(d, month, after);
      } else if month == MonthOf(after) {
      } else {
        ClampedGrows(d, MonthOf(after) + 1, month);
      }
    }
  }

  /** After a payment the next one is due in the very next month, however short. */
  lemma DueTheMonthAfter(last: nat)
    ensures NextMonthly(last, last) == Clamped(DayOfMonth(last), MonthOf(last) + 1)
    ensures MonthOf(NextMonthly(last, last)) == MonthOf(last) + 1
  {
    var d, next := DateOf(last), MonthOf(last) + 1;
    assert Clamped(d.day, d.month) == last;
    var length := MonthLength(next);
    DateOfDayNumber(Date(next, if d.day <= length then d.day else length));
  }

  /** The next payment already falls well inside the statement: the series stopped. */
  predicate Stopped(last: nat, statementEnd: nat) {
    NextMonthly(last, last) + DAY_OF_MONTH_TOLERANCE <= statementEnd
  }

  // ---------- The latest run ----------

  function DayDistance(a: nat, b: nat): int {
    var d := Abs(a - b);
    if d <= 31 - d then d else 31 - d
  }

  /** One missing month is tolerated, and a drift of a few days around the month's turn. */
  predicate Follows(earlier: Occurrence, next: Occurrence) {
    && MonthOf(next.day) - MonthOf(earlier.day) <= 2
    && DayDistance(DayOfMonth(next.day), DayOfMonth(earlier.day)) <= DAY_OF_MONTH_TOLERANCE
  }

  /** Amounts agree when the larger is at most 1.15 times the smaller. */
  predicate NotDearer(a: int, b: int) {
    100 * a <= 115 * b
  }

  ghost predicate AgreeingAmounts(run: seq<Occurrence>) {
    forall i, j | 0 <= i < |run| && 0 <= j < |run| :: NotDearer(run[i].amount, run[j].amount)
  }

  ghost predicate Unbroken(run: seq<Occurrence>) {
    forall i, j | 0 <= i < |run| && 0 <= j < |run| && j == i + 1 :: Follows(run[i], run[j])
  }

  ghost predicate IsRun(run: seq<Occurrence>) {
    Unbroken(run) && AgreeingAmounts(run)
  }

  ghost predicate PositiveAmounts(os: seq<Occurrence>) {
    forall i | 0 <= i < |os| :: os[i].amount > 0
  }

  function Highest(run: seq<Occurrence>): int
    requires run != []
  {
    if |run| == 1 then run[0].amount else Max(Highest(run[1..]), run[0].amount)
  }

  function Lowest(run: seq<Occurrence>): int
    requires run != []
  {
    if |run| == 1 then run[0].amount else -Max(-Lowest(run[1..]), -run[0].amount)
  }

  /** The spread of the highest and the lowest amount decides for every pair. */
  lemma {:induction false} SpreadDecides(run: seq<Occurrence>)
    requires run != []
    ensures forall i | 0 <= i < |run| :: Lowest(run) <= run[i].amount <= Highest(run)
    ensures exists i | 0 <= i < |run| :: run[i].amount == Highest(run)
    ensures exists i | 0 <= i < |run| :: run[i].amount == Lowest(run)
    ensures NotDearer(Highest(run), Lowest(run)) <==> AgreeingAmounts(run)
  {
    if |run| == 1 {
      assert run[0].amount == Highest(run) == Lowest(run);
    } else {
      var rest := run[1..];
      SpreadDecides(rest);
      assert forall i | 1 <= i < |run| :: run[i] == rest[i - 1];
      var h :| 0 <= h < |rest| && rest[h].amount == Highest(rest);
      var l :| 0 <= l < |rest| && rest[l].amount == Lowest(rest);
      assert run[h + 1].amount == Highest(rest) && run[l + 1].amount == Lowest(rest);
      var hi := if run[0].amount >= Highest(rest) then 0 else h + 1;
      var lo := if run[0].amount <= Lowest(rest) then 0 else l + 1;
      assert run[hi].amount == Highest(run) && run[lo].amount == Lowest(run);
    }
  }

  /** The occurrence before position k may join the run that starts there. */
  predicate Joins(os: seq<Occurrence>, k: nat)
    requires 0 < k <= |os|
  {
    k == |os| || (Follows(os[k - 1], os[k]) && NotDearer(Highest(os[k - 1..]), Lowest(os[k - 1..])))
  }

  /** Where the run that reaches back from position k starts. */
  function RunStart(os: seq<Occurrence>, k: nat): nat
    requires k <= |os|
  {
    if k == 0 || !Joins(os, k) then k else RunStart(os, k - 1)
  }

  function LatestRunOf(os: seq<Occurrence>): seq<Occurrence> {
    RunStartInRange(os, |os|);
    os[RunStart(os, |os|)..]
  }

  lemma {:induction false} RunStartInRange(os: seq<Occurrence>, k: nat)
    requires k <= |os|
    ensures RunStart(os, k) <= k
  {
    if k > 0 && Joins(os, k) {
      RunStartInRange(os, k - 1);
    }
  }

  lemma LatestRunIsInhabited(os: seq<Occurrence>)
    ensures os != [] ==> LatestRunOf(os) != []
    ensures |LatestRunOf(os)| <= |os|
  {
    RunStartInRange(os, |os|);
    if os != [] {
      RunStartInRange(os, |os| - 1);
    }
  }

  method LatestRun(os: seq<Occurrence>) returns (run: seq<Occurrence>)
    requires PositiveAmounts(os)
    ensures run == LatestRunOf(os)
  {
    RunStartInRange(os, |os|);
    run := [];
    var i := |os|;
    while i > 0
      invariant 0 <= i <= |os| && run == os[i..]
      invariant RunStart(os, |os|) == RunStart(os, i)
    {
      var occ := os[i - 1];
      assert [occ] + run == os[i - 1..];
      if run != [] {
        var amounts := [occ] + run;
        if MonthOf(run[0].day) - MonthOf(occ.day) > 2 { break; }
        if 100 * Highest(amounts) > 115 * Lowest(amounts) { break; }
        if DayDistance(DayOfMonth(run[0].day), DayOfMonth(occ.day)) > DAY_OF_MONTH_TOLERANCE { break; }
      }
      run := [occ] + run;
      i := i - 1;
    }
  }

  lemma RunGrows(os: seq<Occurrence>, k: nat)
    requires 0 < k <= |os| && PositiveAmounts(os) && IsRun(os[k..])
    ensures Joins(os, k) <==> IsRun(os[k - 1..])
  {
    var run := os[k - 1..];
    assert run == [os[k - 1]] + os[k..];
    SpreadDecides(run);
    if k < |os| {
      assert run[0] == os[k - 1] && run[1] == os[k];
      if Joins(os, k) {
        forall i, j | 0 <= i < |run| && 0 <= j < |run| && j == i + 1 ensures Follows(run[i], run[j]) {
          if i > 0 { assert run[i] == os[k..][i - 1] && run[j] == os[k..][j - 1]; }
        }
      }
    } else {
      assert run == [os[k - 1]];
    }
  }

  lemma ShorterIsRun(os: seq<Occurrence>, j: nat, k: nat)
    requires j <= k <= |os|
    ensures IsRun(os[j..]) ==> IsRun(os[k..])
  {
    if !IsRun(os[j..]) { return; }
    var longer, shorter, d := os[j..], os[k..], k - j;
    assert forall i | 0 <= i < |shorter| :: shorter[i] == longer[i + d];
    forall a, b | 0 <= a < |shorter| && 0 <= b < |shorter| && b == a + 1 ensures Follows(shorter[a], shorter[b]) {
      assert Follows(longer[a + d], longer[b + d]);
    }
    forall a, b | 0 <= a < |shorter| && 0 <= b < |shorter| ensures NotDearer(shorter[a].amount, shorter[b].amount) {
      assert NotDearer(longer[a + d].amount, longer[b + d].amount);
    }
  }

  lemma {:induction false} RunStartIsExact(os: seq<Occurrence>, k: nat, j: nat)
    requires j <= k <= |os| && PositiveAmounts(os) && IsRun(os[k..])
    ensures IsRun(os[j..]) <==> RunStart(os, k) <= j
  {
    RunStartInRange(os, k);
    if j < k {
      RunGrows(os, k);
      if Joins(os, k) {
        RunStartIsExact(os, k - 1, j);
      } else {
        ShorterIsRun(os, j, k - 1);
      }
    }
  }

  /** The latest run is the longest suffix that is a run: a suffix is a run exactly when it is no longer. */
  lemma LatestRunIsLongest(os: seq<Occurrence>, j: nat)
    requires j <= |os| && PositiveAmounts(os)
    ensures IsRun(os[j..]) <==> |os| - j <= |LatestRunOf(os)|
    ensures |LatestRunOf(os)| <= |os| && LatestRunOf(os) == os[|os| - |LatestRunOf(os)|..]
  {
    RunStartInRange(os, |os|);
    assert os[|os|..] == [];
    RunStartIsExact(os, |os|, j);
  }
}
