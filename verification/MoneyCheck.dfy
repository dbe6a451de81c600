/** The repository's own money-integrity script, and exactly when its checks pass after a resolve pass. */
module MoneyCheck {
  import opened Common
  import opened BankRows
  import opened DecisionPolicy
  import opened Books
  import opened Resolver
  import opened ResolverTheorems
  import opened Foreseen

  function SumOf(rows: seq<BankRow>, p: BankRow -> bool): int {
    if rows == [] then 0 else SumOf(rows[..|rows| - 1], p) + if p(rows[|rows| - 1]) then rows[|rows| - 1].amount else 0
  }

  function Bucket(rows: seq<BankRow>, r: Resolution): int {
    SumOf(rows, (row: BankRow) => row.resolution == Some(r))
  }

  function ExpenseBuckets(rows: seq<BankRow>): int {
    Bucket(rows, Expense) + Bucket(rows, FinancingCharge) - Bucket(rows, FinancingCredit) + Bucket(rows, CreditCardUnitemized)
  }

  /** Early-payoff fees the bank paid back: charges by resolution, negative by record. */
  predicate FeeRefund(row: BankRow) {
    row.resolution == Some(FinancingCharge) && row.kind == LoanFee && row.direction == Deposit
  }

  function FeeRefunds(rows: seq<BankRow>): int {
    SumOf(rows, FeeRefund)
  }

  function LinkedIds(links: seq<Option<nat>>): set<nat> {
    set i | 0 <= i < |links| && links[i].Some? :: links[i].value
  }

  /** What the records behind the links sum to, link by link. */
  function SumLinked(links: seq<Option<nat>>, table: map<nat, int>): int {
    if links == [] then 0
    else
      var last := links[|links| - 1];
      SumLinked(links[..|links| - 1], table) + if last.Some? && last.value in table then table[last.value] else 0
  }

  /** With no record linked twice, the database's sum over the linked ids is the sum link by link. */
  lemma {:induction false} AggregateIsLinkByLink(links: seq<Option<nat>>, table: map<nat, int>)
    requires forall i, j | 0 <= i < j < |links| && links[i].Some? :: links[i] != links[j]
    ensures SumIds(table, LinkedIds(links)) == SumLinked(links, table)
  {
    if links != [] {
      var init, last := links[..|links| - 1], links[|links| - 1];
      AggregateIsLinkByLink(init, table);
      if last.Some? {
        assert last == links[|links| - 1];
        assert LinkedIds(links) - {last.value} == LinkedIds(init);
        SumIdsRemove(table, LinkedIds(links), last.value);
      } else {
        assert LinkedIds(links) == LinkedIds(init);
      }
    }
  }

  function IncomeAmounts(b: Books): map<nat, int> { map id | id in b.incomes :: b.incomes[id].amount }
  function ExpenseAmounts(b: Books): map<nat, int> { map id | id in b.expenses :: b.expenses[id].amount }

  ghost function LinkedIncomes(b: Books): int { SumIds(IncomeAmounts(b), LinkedIds(IncomeDesk(b).links)) }
  ghost function LinkedExpenses(b: Books): int { SumIds(ExpenseAmounts(b), LinkedIds(ExpenseDesk(b).links)) }

  /** The checks of the script, one field each, in its order. */
  datatype MoneyReport = MoneyReport(
    everyRowResolved: bool, noSilentRow: bool, depositsAddUp: bool, withdrawalsAddUp: bool,
    incomesPresent: bool, expensesPresent: bool, noStrayRecord: bool,
    incomesMatch: bool, expensesMatch: bool, noDoubleCount: bool)

  ghost function VerifyUser(b: Books, creditRows: nat): MoneyReport {
    var rows := b.rows;
    MoneyReport(
      forall i | 0 <= i < |rows| :: rows[i].resolution.Some?,
      forall i | 0 <= i < |rows| :: rows[i].resolution.Some? || rows[i].note.Some?,
      SumOf(rows, (r: BankRow) => r.direction == Deposit) == SumOf(rows, (r: BankRow) => r.direction == Deposit && r.resolution.Some?),
      SumOf(rows, (r: BankRow) => r.direction != Deposit) == SumOf(rows, (r: BankRow) => r.direction != Deposit && r.resolution.Some?),
      forall i | 0 <= i < |rows| && rows[i].resolution == Some(Income) :: rows[i].income.Some?,
      forall i | 0 <= i < |rows| && rows[i].resolution.Some? && rows[i].resolution.value in EXPENSE_RESOLUTIONS :: rows[i].expense.Some?,
      forall i | 0 <= i < |rows| && rows[i].resolution.Some? && rows[i].resolution.value !in EXPENSE_RESOLUTIONS + {Income} ::
        rows[i].expense.None? && rows[i].income.None?,
      Bucket(rows, Income) == LinkedIncomes(b),
      ExpenseBuckets(rows) == LinkedExpenses(b),
      |set i | 0 <= i < |rows| && rows[i].resolution == Some(CreditCardUnitemized)| == 0 || creditRows == 0 ||
        |set i | 0 <= i < |rows| && rows[i].resolution == Some(CreditCardSettled)| >= 0)
  }

  // ---------- Conservation ----------

  /** A row's share of the expense buckets, its fee refund counted as the charge the script takes it for. */
  function BucketShare(row: BankRow): int {
    if row.resolution in {Some(Expense), Some(FinancingCharge), Some(CreditCardUnitemized)} then row.amount
    else if row.resolution == Some(FinancingCredit) then -row.amount
    else 0
  }

  function Shares(rows: seq<BankRow>): int {
    if rows == [] then 0 else Shares(rows[..|rows| - 1]) + BucketShare(rows[|rows| - 1])
  }

  lemma {:induction false} BucketsAreShares(rows: seq<BankRow>)
    ensures ExpenseBuckets(rows) == Shares(rows)
  {
    if rows != [] {
      BucketsAreShares(rows[..|rows| - 1]);
    }
  }

  /** How far a row's linked income stands from the row: what a hand edit made of it, or all of it where the record is gone. */
  function DriftAt(b: Books, env: Env, j: nat): int
    requires j < |b.rows|
  {
    var t, start := DecisionFor(b, env, j), IncomeStart(b, j);
    if t.None? || t.value.record != IncomeRecord then 0
    else (if start.Some? then start.value else 0) - b.rows[j].amount
  }

  /** What a row's expense should say where its record is gone. */
  function MissingAt(b: Books, env: Env, j: nat): int
    requires j < |b.rows|
  {
    var t := DecisionFor(b, env, j);
    if t.None? || t.value.record != ExpenseRecord || !ExpenseMissing(b, j) then 0 else Wanted(b.rows[j], t.value)
  }

  /** Row by row, over the tables before a pass: by how much linked incomes drifted. */
  function IncomeDrifts(b: Books, env: Env): (v: seq<int>)
    ensures |v| == |b.rows| && forall j | 0 <= j < |v| :: v[j] == DriftAt(b, env, j)
  {
    seq(|b.rows|, j requires 0 <= j < |b.rows| => DriftAt(b, env, j))
  }

  /** Row by row, over the tables before a pass: what missing expenses will be short of. */
  function MissingExpenses(b: Books, env: Env): (v: seq<int>)
    ensures |v| == |b.rows| && forall j | 0 <= j < |v| :: v[j] == MissingAt(b, env, j)
  {
    seq(|b.rows|, j requires 0 <= j < |b.rows| => MissingAt(b, env, j))
  }

  /** A resolved row whose expense, if it has one, says what its meaning calls for or is missing. */
  ghost predicate ExpenseRowRight(row: BankRow, table: map<nat, ExpenseRow>, missing: int) {
    && row.resolution.Some?
    && (row.expense.Some? <==> row.resolution.value in EXPENSE_RESOLUTIONS)
    && (row.expense.Some? && row.expense.value in table ==> table[row.expense.value].amount == SignedCost(row) && missing == 0)
    && (row.expense.Some? && row.expense.value !in table ==> missing == SignedCost(row))
    && (row.expense.None? ==> missing == 0)
  }

  /** A row whose income, if it has one, is off by `drift`. */
  ghost predicate IncomeRowOff(row: BankRow, table: map<nat, IncomeRow>, drift: int) {
    && (row.income.Some? <==> row.resolution == Some(Income))
    && drift == if row.income.None? then 0 else (if row.income.value in table then table[row.income.value].amount else 0) - row.amount
  }

  function ExpenseLinksOf(rows: seq<BankRow>): (l: seq<Option<nat>>)
    ensures |l| == |rows| && forall i | 0 <= i < |rows| :: l[i] == rows[i].expense
  {
    seq(|rows|, i requires 0 <= i < |rows| => rows[i].expense)
  }

  function IncomeLinksOf(rows: seq<BankRow>): (l: seq<Option<nat>>)
    ensures |l| == |rows| && forall i | 0 <= i < |rows| :: l[i] == rows[i].income
  {
    seq(|rows|, i requires 0 <= i < |rows| => rows[i].income)
  }

  lemma {:induction false} ExpensesAddUp(rows: seq<BankRow>, table: map<nat, ExpenseRow>, missing: seq<int>)
    requires |missing| == |rows| && forall i | 0 <= i < |rows| :: ExpenseRowRight(rows[i], table, missing[i])
    ensures SumLinked(ExpenseLinksOf(rows), map id | id in table :: table[id].amount) == Shares(rows) - 2 * FeeRefunds(rows) - Sum(missing)
  {
    if rows != [] {
      var init, last := rows[..|rows| - 1], rows[|rows| - 1];
      ExpensesAddUp(init, table, missing[..|rows| - 1]);
      assert ExpenseLinksOf(rows)[..|rows| - 1] == ExpenseLinksOf(init);
      assert ExpenseRowRight(last, table, missing[|rows| - 1]);
    }
  }

  lemma {:induction false} IncomesAddUp(rows: seq<BankRow>, table: map<nat, IncomeRow>, drifts: seq<int>)
    requires |drifts| == |rows| && forall i | 0 <= i < |rows| :: IncomeRowOff(rows[i], table, drifts[i])
    ensures SumLinked(IncomeLinksOf(rows), map id | id in table :: table[id].amount) == Bucket(rows, Income) + Sum(drifts)
  {
    if rows != [] {
      var init, last := rows[..|rows| - 1], rows[|rows| - 1];
      IncomesAddUp(init, table, drifts[..|rows| - 1]);
      assert IncomeLinksOf(rows)[..|rows| - 1] == IncomeLinksOf(init);
      assert IncomeRowOff(last, table, drifts[|rows| - 1]);
    }
  }

  lemma RowOffAfter(b: Books, env: Env, j: nat)
    requires WellLinked(b) && j < |b.rows|
    ensures IncomeRowOff(Pass(b, env).rows[j], Pass(b, env).incomes, DriftAt(b, env, j))
  {
    RowIsResolved(b, env, j);
    PassRow(b, env, j);
    PassLinks(b, env, j);
    if Pass(b, env).rows[j].income.Some? { OwnedIncomeAfter(b, env, j); }
  }

  lemma RowRightAfter(b: Books, env: Env, j: nat)
    requires WellLinked(b) && j < |b.rows|
    ensures ExpenseRowRight(Pass(b, env).rows[j], Pass(b, env).expenses, MissingAt(b, env, j))
  {
    RowIsResolved(b, env, j);
    PassRow(b, env, j);
    PassLinks(b, env, j);
    if DecisionFor(b, env, j).Some? { WantedIsSignedCost(b, env, j, DecisionFor(b, env, j).value); }
    if Pass(b, env).rows[j].expense.Some? { OwnedExpenseAfter(b, env, j); }
  }

  /** Linked incomes after a pass: the income bucket, plus what linked incomes had drifted by before it. */
  lemma IncomeConservation(b: Books, env: Env)
    requires WellLinked(b)
    ensures LinkedIncomes(Pass(b, env)) == Bucket(Pass(b, env).rows, Income) + Sum(IncomeDrifts(b, env))
  {
    PassKeepsWellLinked(b, env);
    forall i | 0 <= i < |b.rows| ensures IncomeRowOff(Pass(b, env).rows[i], Pass(b, env).incomes, IncomeDrifts(b, env)[i]) { RowOffAfter(b, env, i); }
    LinkedIncomesAddUp(Pass(b, env), IncomeDrifts(b, env));
  }

  lemma LinkedIncomesAddUp(p: Books, drifts: seq<int>)
    requires WellLinked(p) && |drifts| == |p.rows| && forall i | 0 <= i < |p.rows| :: IncomeRowOff(p.rows[i], p.incomes, drifts[i])
    ensures LinkedIncomes(p) == Bucket(p.rows, Income) + Sum(drifts)
  {
    AggregateIsLinkByLink(IncomeDesk(p).links, IncomeAmounts(p));
    IncomesAddUp(p.rows, p.incomes, drifts);
    assert IncomeDesk(p).links == IncomeLinksOf(p.rows);
  }

  lemma LinkedExpensesAddUp(p: Books, missing: seq<int>)
    requires WellLinked(p) && |missing| == |p.rows| && forall i | 0 <= i < |p.rows| :: ExpenseRowRight(p.rows[i], p.expenses, missing[i])
    ensures LinkedExpenses(p) == ExpenseBuckets(p.rows) - 2 * FeeRefunds(p.rows) - Sum(missing)
  {
    AggregateIsLinkByLink(ExpenseDesk(p).links, ExpenseAmounts(p));
    ExpensesAddUp(p.rows, p.expenses, missing);
    BucketsAreShares(p.rows);
    assert ExpenseDesk(p).links == ExpenseLinksOf(p.rows);
  }

  /**
   * Linked expenses after a pass: the expense buckets, less twice the fees the bank paid back
   * on rows known before it, less what expenses missing before it should say.
   */
  lemma ExpenseConservation(b: Books, env: Env)
    requires WellLinked(b)
    ensures LinkedExpenses(Pass(b, env)) ==
      ExpenseBuckets(Pass(b, env).rows) - 2 * SumOf(Refreshed(b, env).rows, WillRefundFee) - Sum(MissingExpenses(b, env))
  {
    PassKeepsWellLinked(b, env);
    forall i | 0 <= i < |b.rows| ensures ExpenseRowRight(Pass(b, env).rows[i], Pass(b, env).expenses, MissingExpenses(b, env)[i]) { RowRightAfter(b, env, i); }
    LinkedExpensesAddUp(Pass(b, env), MissingExpenses(b, env));
    PassRefundsAreForeseen(b, env);
  }

  // ---------- When the script passes ----------

  lemma {:induction false} ZeroesSumToZero(v: seq<int>)
    requires forall i | 0 <= i < |v| :: v[i] == 0
    ensures Sum(v) == 0
  {
    if v != [] {
      ZeroesSumToZero(v[..|v| - 1]);
    }
  }

  lemma {:induction false} AllIncluded(rows: seq<BankRow>, p: BankRow -> bool, q: BankRow -> bool)
    requires forall i | 0 <= i < |rows| :: p(rows[i]) <==> q(rows[i])
    ensures SumOf(rows, p) == SumOf(rows, q)
  {
    if rows != [] {
      AllIncluded(rows[..|rows| - 1], p, q);
    }
  }

  /**
   * After any pass the eight structural checks hold. The two sums hold exactly when, before
   * the pass, the drifts of linked incomes cancel, and refunded fees and missing expenses do.
   */
  lemma ScriptAfterPass(b: Books, env: Env, creditRows: nat)
    requires WellLinked(b)
    ensures var p := Pass(b, env);
      var r := VerifyUser(p, creditRows);
      && r.everyRowResolved && r.noSilentRow && r.depositsAddUp && r.withdrawalsAddUp
      && r.incomesPresent && r.expensesPresent && r.noStrayRecord && r.noDoubleCount
      && (r.incomesMatch <==> Sum(IncomeDrifts(b, env)) == 0)
      && (r.expensesMatch <==> 2 * SumOf(Refreshed(b, env).rows, WillRefundFee) + Sum(MissingExpenses(b, env)) == 0)
  {
    var p := Pass(b, env);
    EveryRowIsResolved(b, env);
    IncomeConservation(b, env);
    ExpenseConservation(b, env);
    AllIncluded(p.rows, (r: BankRow) => r.direction == Deposit, (r: BankRow) => r.direction == Deposit && r.resolution.Some?);
    AllIncluded(p.rows, (r: BankRow) => r.direction != Deposit, (r: BankRow) => r.direction != Deposit && r.resolution.Some?);
  }

  /** A refunded early-payoff fee, recognised on the bank row before the pass. */
  predicate WillRefundFee(row: BankRow) {
    !Manual(row) && row.kind == LoanFee && row.direction == Deposit
  }

  lemma {:induction false} RefundsKnownBefore(ready: seq<BankRow>, after: seq<BankRow>)
    requires |ready| == |after| && forall i | 0 <= i < |ready| :: ready[i].amount == after[i].amount && (WillRefundFee(ready[i]) <==> FeeRefund(after[i]))
    ensures SumOf(ready, WillRefundFee) == FeeRefunds(after)
  {
    if ready != [] {
      RefundsKnownBefore(ready[..|ready| - 1], after[..|after| - 1]);
    }
  }

  lemma {:induction false} PositiveSumNeedsRows(rows: seq<BankRow>, p: BankRow -> bool)
    requires forall i | 0 <= i < |rows| :: rows[i].amount > 0
    ensures SumOf(rows, p) >= 0
    ensures SumOf(rows, p) == 0 <==> forall i | 0 <= i < |rows| :: !p(rows[i])
  {
    if rows != [] {
      PositiveSumNeedsRows(rows[..|rows| - 1], p);
    }
  }

  lemma PassRefundsAreForeseen(b: Books, env: Env)
    ensures FeeRefunds(Pass(b, env).rows) == SumOf(Refreshed(b, env).rows, WillRefundFee)
  {
    var ready, p := Refreshed(b, env), Pass(b, env);
    forall i | 0 <= i < |ready.rows|
      ensures ready.rows[i].amount == p.rows[i].amount && (WillRefundFee(ready.rows[i]) <==> FeeRefund(p.rows[i]))
    {
      PassRow(b, env, i);
      PolicyIsConsistent(ready.rows[i], ContextFor(ready.rows, env));
    }
    RefundsKnownBefore(ready.rows, p.rows);
  }

  /**
   * On an account whose links are live, whose incomes nobody edited and whose amounts are
   * positive, the script's ten checks all pass after a resolve pass exactly when no early-payoff
   * fee was refunded; with such a refund the expense check is off by twice its amount.
   */
  lemma ScriptPassesIff(b: Books, env: Env, creditRows: nat)
    requires WellLinked(b) && Live(b) && IncomesTrue(b)
    requires forall i | 0 <= i < |b.rows| :: b.rows[i].amount > 0
    ensures VerifyUser(Pass(b, env), creditRows) == MoneyReport(true, true, true, true, true, true, true, true, true, true) <==>
      forall i | 0 <= i < |b.rows| :: !WillRefundFee(Reclassified(b.rows[i], env))
    ensures LinkedExpenses(Pass(b, env)) == ExpenseBuckets(Pass(b, env).rows) - 2 * SumOf(Refreshed(b, env).rows, WillRefundFee)
  {
    ScriptAfterPass(b, env, creditRows);
    ExpenseConservation(b, env);
    ZeroesSumToZero(IncomeDrifts(b, env));
    ZeroesSumToZero(MissingExpenses(b, env));
    PositiveSumNeedsRows(Refreshed(b, env).rows, WillRefundFee);
  }
}
