/** Whether a statement's salary credits meet a bank's cumulative monthly condition. */
module MonthlyConditions {
  import opened Common
  import opened Calendar

  /** The agorot of the 7000 a month the condition asks for. */
  const SALARY_CONDITION_THRESHOLD := 700000

  datatype Credit = Credit(day: nat, amount: int, candidate: bool, confirmed: bool)
  datatype Bucket = Bucket(total: int, unconfirmed: bool)
  datatype ConditionState = Met | NotMet | Undecided
  datatype Condition = Condition(month: nat, fullyCovered: bool, state: ConditionState, salaryTotal: int, awaitingConfirmation: bool)

  function LastDayOf(month: nat): nat {
    MonthStart(month) + MonthLength(month) - 1
  }

  predicate FullyCovered(month: nat, from: nat, to: nat) {
    from <= MonthStart(month) && to >= LastDayOf(month)
  }

  /** The month's candidate credits: their sum, and whether any still awaits the user. */
  function BucketOf(rows: seq<Credit>, month: nat): Bucket {
    if rows == [] then Bucket(0, false)
    else
      var before, row := BucketOf(rows[..|rows| - 1], month), rows[|rows| - 1];
      if row.candidate && MonthOf(row.day) == month then Bucket(before.total + row.amount, before.unconfirmed || !row.confirmed) else before
  }

  function Judged(month: nat, bucket: Bucket, from: nat, to: nat): Condition {
    var covered := FullyCovered(month, from, to);
    var state := if !covered then Undecided else if bucket.total >= SALARY_CONDITION_THRESHOLD then Met else NotMet;
    Condition(month, covered, state, bucket.total, state == Met && bucket.unconfirmed)
  }

  function Verdicts(rows: seq<Credit>, first: nat, n: nat, from: nat, to: nat): (cs: seq<Condition>)
    ensures |cs| == n && forall i | 0 <= i < n :: cs[i] == Judged(first + i, BucketOf(rows, first + i), from, to)
  {
    seq(n, i requires 0 <= i < n => Judged(first + i, BucketOf(rows, first + i), from, to))
  }

  /** One verdict for each calendar month the statement touches, in order. */
  function ConditionsOf(rows: seq<Credit>, from: nat, to: nat): (cs: seq<Condition>)
    requires from <= to
    ensures |cs| == MonthOf(to) - MonthOf(from) + 1
    ensures forall i | 0 <= i < |cs| :: cs[i] == Judged(MonthOf(from) + i, BucketOf(rows, MonthOf(from) + i), from, to)
  {
    MonthsInOrder(from, to);
    Verdicts(rows, MonthOf(from), MonthOf(to) - MonthOf(from) + 1, from, to)
  }

  lemma MonthsInOrder(a: nat, b: nat)
    requires a <= b
    ensures MonthOf(a) <= MonthOf(b)
  {
    OrderIsLexicographic(DateOf(b), DateOf(a));
  }

  method SalaryByMonth(rows: seq<Credit>) returns (byMonth: map<nat, Bucket>)
    ensures forall m: nat :: (if m in byMonth then byMonth[m] else Bucket(0, false)) == BucketOf(rows, m)
  {
    byMonth := map[];
    for i := 0 to |rows|
      invariant forall m: nat :: (if m in byMonth then byMonth[m] else Bucket(0, false)) == BucketOf(rows[..i], m)
    {
      assert rows[..i + 1][..i] == rows[..i];
      if !rows[i].candidate { continue; }
      var month := MonthOf(rows[i].day);
      var bucket := if month in byMonth then byMonth[month] else Bucket(0, false);
      bucket := bucket.(total := bucket.total + rows[i].amount);
      if !rows[i].confirmed { bucket := bucket.(unconfirmed := true); }
      byMonth := byMonth[month := bucket];
    }
    assert rows[..|rows|] == rows;
  }

  /** Coverage is absent for an empty statement, and then there is nothing to judge. */
  method EvaluateMonthlyConditions(rows: seq<Credit>, coverage: Option<(nat, nat)>) returns (conditions: seq<Condition>)
    requires coverage.Some? ==> coverage.value.0 <= coverage.value.1
    ensures conditions == if rows == [] || coverage.None? then [] else ConditionsOf(rows, coverage.value.0, coverage.value.1)
  {
    if rows == [] || coverage.None? { return []; }
    var from, to := coverage.value.0, coverage.value.1;
    var byMonth := SalaryByMonth(rows);
    conditions := [];
    MonthsInOrder(from, to);
    var cursor, last := MonthOf(from), MonthOf(to);
    while cursor <= last
      invariant MonthOf(from) <= cursor <= last + 1 && |conditions| == cursor - MonthOf(from)
      invariant forall i | 0 <= i < |conditions| :: conditions[i] == ConditionsOf(rows, from, to)[i]
    {
      var bucket := if cursor in byMonth then byMonth[cursor] else Bucket(0, false);
      conditions := conditions + [Judged(cursor, bucket, from, to)];
      cursor := cursor + 1;
    }
  }

  // ---------- What the verdicts mean ----------

  function CandidateTotal(rows: seq<Credit>): int {
    if rows == [] then 0 else CandidateTotal(rows[..|rows| - 1]) + if rows[|rows| - 1].candidate then rows[|rows| - 1].amount else 0
  }

  /** The sum over `n` months from `first` of the months' totals. */
  function TotalOver(rows: seq<Credit>, first: nat, n: nat): int {
    if n == 0 then 0 else TotalOver(rows, first, n - 1) + BucketOf(rows, first + n - 1).total
  }

  lemma {:induction false} OneMoreCredit(rows: seq<Credit>, row: Credit, first: nat, n: nat)
    ensures TotalOver(rows + [row], first, n) ==
      TotalOver(rows, first, n) + if row.candidate && first <= MonthOf(row.day) < first + n then row.amount else 0
  {
    if n > 0 {
      OneMoreCredit(rows, row, first, n - 1);
      assert (rows + [row])[..|rows|] == rows;
    }
  }

  lemma {:induction false} NoCredits(first: nat, n: nat)
    ensures TotalOver([], first, n) == 0
  {
    if n > 0 {
      NoCredits(first, n - 1);
    }
  }

  /** Every salary credit of the covered period counts towards exactly one month. */
  lemma {:induction false} MonthsShareTheSalary(rows: seq<Credit>, from: nat, to: nat)
    requires from <= to && forall i | 0 <= i < |rows| && rows[i].candidate :: from <= rows[i].day <= to
    ensures TotalOver(rows, MonthOf(from), |ConditionsOf(rows, from, to)|) == CandidateTotal(rows)
  {
    if rows == [] {
      NoCredits(MonthOf(from), |ConditionsOf(rows, from, to)|);
    } else {
      var init, last := rows[..|rows| - 1], rows[|rows| - 1];
      MonthsShareTheSalary(init, from, to);
      OneMoreCredit(init, last, MonthOf(from), |ConditionsOf(rows, from, to)|);
      assert rows == init + [last];
      if last.candidate {
        MonthsInOrder(from, last.day);
        MonthsInOrder(last.day, to);
      }
    }
  }

  lemma DaysOfMonth(day: nat, month: nat)
    ensures MonthOf(day) == month <==> MonthStart(month) <= day <= LastDayOf(month)
  {
    OrderIsLexicographic(DateOf(day), Date(month, 1));
    OrderIsLexicographic(Date(month, MonthLength(month)), DateOf(day));
  }

  lemma {:induction false} OtherMonthsDoNotMatter(rows: seq<Credit>, extra: seq<Credit>, month: nat)
    requires forall i | 0 <= i < |extra| && extra[i].candidate :: MonthOf(extra[i].day) != month
    ensures BucketOf(rows + extra, month) == BucketOf(rows, month)
  {
    if extra == [] {
      assert rows + extra == rows;
    } else {
      OtherMonthsDoNotMatter(rows, extra[..|extra| - 1], month);
      assert (rows + extra)[..|rows + extra| - 1] == rows + extra[..|extra| - 1];
    }
  }

  lemma {:induction false} EarlierMonthsDoNotMatter(extra: seq<Credit>, rows: seq<Credit>, month: nat)
    requires forall i | 0 <= i < |extra| && extra[i].candidate :: MonthOf(extra[i].day) != month
    ensures BucketOf(extra + rows, month) == BucketOf(rows, month)
  {
    if rows == [] {
      OtherMonthsDoNotMatter([], extra, month);
      assert extra + rows == [] + extra;
    } else {
      EarlierMonthsDoNotMatter(extra, rows[..|rows| - 1], month);
      assert (extra + rows)[..|extra + rows| - 1] == extra + rows[..|rows| - 1];
    }
  }

  lemma OtherDays(extra: seq<Credit>, from: nat, to: nat, month: nat)
    requires FullyCovered(month, from, to) && forall i | 0 <= i < |extra| :: !(from <= extra[i].day <= to)
    ensures forall i | 0 <= i < |extra| :: MonthOf(extra[i].day) != month
  {
    forall i | 0 <= i < |extra| ensures MonthOf(extra[i].day) != month { DaysOfMonth(extra[i].day, month); }
  }

  /**
   * A month once decided stays decided: a longer statement, whose further rows come before and
   * after and lie outside what was covered, repeats the verdict of every month covered in full.
   */
  lemma DecidedMonthsStay(before: seq<Credit>, rows: seq<Credit>, later: seq<Credit>, from: nat, to: nat, from': nat, to': nat, month: nat)
    requires from' <= from <= to <= to' && MonthOf(from) <= month <= MonthOf(to)
    requires forall i | 0 <= i < |before| :: !(from <= before[i].day <= to)
    requires forall i | 0 <= i < |later| :: !(from <= later[i].day <= to)
    requires FullyCovered(month, from, to)
    ensures MonthOf(from') <= month <= MonthOf(to')
    ensures ConditionsOf(before + rows + later, from', to')[month - MonthOf(from')] == ConditionsOf(rows, from, to)[month - MonthOf(from)]
    ensures ConditionsOf(rows, from, to)[month - MonthOf(from)].state != Undecided
  {
    MonthsInOrder(from', from);
    MonthsInOrder(to, to');
    OtherDays(before, from, to, month);
    OtherDays(later, from, to, month);
    OtherMonthsDoNotMatter(before + rows, later, month);
    EarlierMonthsDoNotMatter(before, rows, month);
  }
}
