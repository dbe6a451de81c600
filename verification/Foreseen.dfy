/** What a pass will leave each row owning, told from the tables before it. */
module Foreseen {
  import opened Common
  import opened BankRows
  import opened TransferPairing
  import opened DecisionPolicy
  import opened Books
  import opened Resolver
  import opened ResolverTheorems

  /** A linked income still carries its row's amount (the resolver never corrects an income). */
  ghost predicate IncomesTrue(b: Books) {
    forall i | 0 <= i < |b.rows| && b.rows[i].income.Some? && b.rows[i].income.value in b.incomes ::
      b.incomes[b.rows[i].income.value].amount == b.rows[i].amount
  }

  lemma PassKeepsIncomesTrue(b: Books, env: Env)
    requires WellLinked(b) && IncomesTrue(b)
    ensures IncomesTrue(Pass(b, env))
  {
    var p := Pass(b, env);
    forall j | 0 <= j < |p.rows| && p.rows[j].income.Some? && p.rows[j].income.value in p.incomes
      ensures p.incomes[p.rows[j].income.value].amount == p.rows[j].amount
    {
      PassKeepsIdentity(b, env, j);
      OwnedIncomeAfter(b, env, j);
    }
  }

  /** The amount of the record a row owns, none where it owns none or its record is gone. */
  function OwnedAmount(b: Books, j: nat): Option<int>
    requires j < |b.rows|
  {
    var row := b.rows[j];
    if row.income.Some? && row.income.value in b.incomes then Some(b.incomes[row.income.value].amount)
    else if row.expense.Some? && row.expense.value in b.expenses then Some(b.expenses[row.expense.value].amount)
    else None
  }

  /** The income amount a row starts with: its linked record's, or its own where none is linked. */
  function IncomeStart(b: Books, j: nat): Option<int>
    requires j < |b.rows|
  {
    var link := b.rows[j].income;
    if link.None? then Some(b.rows[j].amount) else if link.value in b.incomes then Some(b.incomes[link.value].amount) else None
  }

  /** The row points at an expense that is gone. */
  predicate ExpenseMissing(b: Books, j: nat)
    requires j < |b.rows|
  {
    b.rows[j].expense.Some? && b.rows[j].expense.value !in b.expenses
  }

  /** What a row will own once decision `t` about it is carried out. */
  function AmountBy(b: Books, j: nat, t: Option<Target>): Option<int>
    requires j < |b.rows|
  {
    if t.None? then None
    else if t.value.record == IncomeRecord then IncomeStart(b, j)
    else if t.value.record == ExpenseRecord && !ExpenseMissing(b, j) then Some(Wanted(b.rows[j], t.value))
    else None
  }

  /** A decision's signed amount is the one its meaning calls for. */
  lemma WantedIsSignedCost(b: Books, env: Env, j: nat, t: Target)
    requires j < |b.rows| && DecisionFor(b, env, j) == Some(t)
    ensures SignedCost(Pass(b, env).rows[j]) == Wanted(b.rows[j], t)
  {
    PassRow(b, env, j);
    PolicyIsConsistent(Reclassified(b.rows[j], env), ContextFor(Refreshed(b, env).rows, env));
  }

  /** After a pass every row owns exactly what the tables before it, and the decision for it, foretell. */
  lemma OwnedIsForeseen(b: Books, env: Env, j: nat)
    requires WellLinked(b) && j < |b.rows|
    ensures OwnedAmount(Pass(b, env), j) == AmountBy(b, j, DecisionFor(b, env, j))
  {
    PassRow(b, env, j);
    PassLinks(b, env, j);
    if DecisionFor(b, env, j).Some? { WantedIsSignedCost(b, env, j, DecisionFor(b, env, j).value); }
    if Pass(b, env).rows[j].income.Some? { OwnedIncomeAfter(b, env, j); }
    if Pass(b, env).rows[j].expense.Some? { OwnedExpenseAfter(b, env, j); }
  }

  // ---------- History independence ----------

  lemma SameMeaningReached(a: Books, b: Books, env: Env, j: nat)
    requires AllSameInputs(Refreshed(a, env).rows, Refreshed(b, env).rows) && j < |a.rows| && j < |b.rows|
    ensures DecisionFor(a, env, j) == DecisionFor(b, env, j) && b.rows[j].amount == a.rows[j].amount
    ensures Pass(a, env).rows[j].resolution == Pass(b, env).rows[j].resolution
    ensures !Manual(a.rows[j]) ==> SameMeaning(Pass(a, env).rows[j], Pass(b, env).rows[j])
  {
    DecisionsDependOnInputs(Refreshed(a, env).rows, Refreshed(b, env).rows, env);
    assert SameInputs(Refreshed(a, env).rows[j], Refreshed(b, env).rows[j]);
    PassRow(a, env, j);
    PassRow(b, env, j);
  }

  /** The two states start row j from the same record, as far as decision `t` goes by that. */
  predicate SameStart(a: Books, b: Books, j: nat, t: Option<Target>)
    requires j < |a.rows| && j < |b.rows|
  {
    t.Some? ==>
      && (t.value.record == IncomeRecord ==> IncomeStart(a, j) == IncomeStart(b, j))
      && (t.value.record == ExpenseRecord ==> (ExpenseMissing(a, j) <==> ExpenseMissing(b, j)))
  }

  lemma SameAmountIff(a: Books, b: Books, j: nat, t: Option<Target>)
    requires j < |a.rows| && j < |b.rows| && a.rows[j].amount == b.rows[j].amount
    ensures AmountBy(a, j, t) == AmountBy(b, j, t) <==> SameStart(a, b, j, t)
  {
  }

  /**
   * Two histories that leave the same bank rows, the same rows set aside and the same
   * statements reach the same resolution, status and note for every row. They reach the same
   * linked amount exactly where they start from the same: an income row from the same linked
   * amount, the row's own where none is linked; an expense row from a record, or none, in both.
   */
  lemma HistoryIndependence(a: Books, b: Books, env: Env, j: nat)
    requires WellLinked(a) && WellLinked(b)
    requires AllSameInputs(Refreshed(a, env).rows, Refreshed(b, env).rows) && j < |a.rows| && j < |b.rows|
    ensures Pass(a, env).rows[j].resolution == Pass(b, env).rows[j].resolution
    ensures !Manual(a.rows[j]) ==> SameMeaning(Pass(a, env).rows[j], Pass(b, env).rows[j])
    ensures OwnedAmount(Pass(a, env), j) == OwnedAmount(Pass(b, env), j) <==> SameStart(a, b, j, DecisionFor(a, env, j))
  {
    SameMeaningReached(a, b, env, j);
    SameAmountIff(a, b, j, DecisionFor(a, env, j));
    OwnedIsForeseen(a, env, j);
    OwnedIsForeseen(b, env, j);
  }

  // ---------- Rows whose meaning is plain ----------

  /** Wording that names no transfer keeps a row out of every pair. */
  lemma OnlyTransfersAreHeld(rows: seq<BankRow>, rules: Rules, i: nat)
    requires DistinctIds(rows) && i < |rows| && (rows[i].kind != Standard || !rules.transferText(rows[i].description))
    ensures rows[i].id !in HeldIds(rows, rules)
  {
    HeldByPlace(rows, rules, i);
    HeldSidesBalance(LegsOf(rows, rules));
  }

  /** An ordinary deposit that names no transfer is income. */
  lemma PlainDepositIsIncome(b: Books, env: Env, j: nat)
    requires WellLinked(b) && j < |b.rows| && !Manual(b.rows[j]) && KindCurrent(b.rows[j], env.rules)
    requires b.rows[j].kind == Standard && b.rows[j].direction == Deposit && !env.rules.transferText(b.rows[j].description)
    ensures DecisionFor(b, env, j).Some? && DecisionFor(b, env, j).value.record == IncomeRecord
  {
    PassRow(b, env, j);
    var ready := Refreshed(b, env).rows;
    assert DistinctIds(ready);
    OnlyTransfersAreHeld(ready, env.rules, j);
  }

  /** The books of a household with one deposit of 500. */
  function OneDeposit(income: Option<nat>, incomes: map<nat, IncomeRow>): Books {
    Books([BankRow(1, 5, Some("pay"), 500, Deposit, Standard, None, None, Pending, None, None, income, None, None)],
          incomes, 2, map[], 1, map[], 1)
  }

  /** Rules that read "pay" as an ordinary line, and no transfer. */
  ghost predicate ReadsPay(env: Env) {
    env.rules.classify(Some("pay"), Deposit) == LineClass(Standard, None) && !env.rules.transferText(Some("pay"))
  }

  lemma OneDepositEnds(b: Books, income: Option<nat>, incomes: map<nat, IncomeRow>, env: Env)
    requires ReadsPay(env) && b == OneDeposit(income, incomes)
    requires (income.Some? ==> income.value < 2) && forall id | id in incomes :: id < 2
    ensures WellLinked(b) && OwnedAmount(Pass(b, env), 0) == IncomeStart(b, 0)
    ensures DecisionFor(b, env, 0).Some? && DecisionFor(b, env, 0).value.record == IncomeRecord
  {
    PlainDepositIsIncome(b, env, 0);
    OwnedIsForeseen(b, env, 0);
  }

  lemma OneDepositReads(a: Books, b: Books, income: Option<nat>, incomes: map<nat, IncomeRow>, env: Env)
    requires a == OneDeposit(income, incomes) && b == OneDeposit(None, map[])
    ensures AllSameInputs(Refreshed(a, env).rows, Refreshed(b, env).rows)
  {
  }

  /** An income edited by hand is not forgotten: the same row, never linked, ends with another amount. */
  lemma EditedIncomeIsRemembered(a: Books, b: Books, env: Env, edited: IncomeRow)
    requires ReadsPay(env) && edited.amount == 400
    requires a == OneDeposit(Some(1), map[1 := edited]) && b == OneDeposit(None, map[])
    ensures WellLinked(a) && WellLinked(b) && AllSameInputs(Refreshed(a, env).rows, Refreshed(b, env).rows)
    ensures OwnedAmount(Pass(a, env), 0) == Some(400) && OwnedAmount(Pass(b, env), 0) == Some(500)
  {
    OneDepositEnds(a, Some(1), map[1 := edited], env);
    OneDepositEnds(b, None, map[], env);
    OneDepositReads(a, b, Some(1), map[1 := edited], env);
  }
}
