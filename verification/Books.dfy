/**
 * The three linked tables a reconciliation pass keeps in agreement, and what one
 * decision does to them. Ids are handed out in increasing order and never reused.
 */
module Books {
  import opened Common
  import opened BankRows
  import opened DecisionPolicy
  import opened LinkedTable

  datatype Source = ByUser | BankImport
  datatype IncomeRow = IncomeRow(amount: int, kind: string, text: Option<string>, day: nat, source: Source)
  datatype ExpenseRow = ExpenseRow(amount: int, category: Option<nat>, text: Option<string>, day: nat, source: Source)
  /** A loan; a name or kind the user left out is the default wording. */
  datatype LoanRow = LoanRow(
    name: Option<string>, kind: Option<string>, lender: Option<string>,
    originalAmount: int, currentBalance: int, annualRate: real, monthlyPayment: int, startDay: nat)

  /** What the user states of a loan opened from statement rows. */
  datatype LoanTerms = LoanTerms(
    name: Option<string>, kind: Option<string>, lender: Option<string>,
    originalAmount: Option<int>, currentBalance: Option<int>, annualRate: Option<real>, monthlyPayment: Option<int>, start: Option<nat>)

  datatype Books = Books(
    rows: seq<BankRow>,
    incomes: map<nat, IncomeRow>, nextIncome: nat,
    expenses: map<nat, ExpenseRow>, nextExpense: nat,
    loans: map<nat, LoanRow>, nextLoan: nat)

  function NewIncome(row: BankRow, t: Target, rules: Rules): IncomeRow {
    IncomeRow(Wanted(row, t), rules.incomeType(row.description), row.description, row.day, BankImport)
  }

  function NewExpense(row: BankRow, t: Target): ExpenseRow {
    ExpenseRow(Wanted(row, t), t.category, row.description, row.day, BankImport)
  }

  /** An existing record keeps a category the user chose; only its amount and a missing category are corrected. */
  function Corrected(e: ExpenseRow, row: BankRow, t: Target): ExpenseRow {
    e.(amount := Wanted(row, t), category := if e.category.None? then t.category else e.category)
  }

  // ---------- The two linked tables ----------

  function IncomeDesk(b: Books): (d: Desk<IncomeRow>)
    ensures |d.links| == |b.rows| && forall i | 0 <= i < |b.rows| :: d.links[i] == b.rows[i].income
  {
    Desk(seq(|b.rows|, i requires 0 <= i < |b.rows| => b.rows[i].income), b.incomes, b.nextIncome)
  }

  function ExpenseDesk(b: Books): (d: Desk<ExpenseRow>)
    ensures |d.links| == |b.rows| && forall i | 0 <= i < |b.rows| :: d.links[i] == b.rows[i].expense
  {
    Desk(seq(|b.rows|, i requires 0 <= i < |b.rows| => b.rows[i].expense), b.expenses, b.nextExpense)
  }

  /** A row set aside by hand owns nothing. */
  ghost predicate ManualOwnsNothing(b: Books) {
    forall i | 0 <= i < |b.rows| && Manual(b.rows[i]) :: b.rows[i].income.None? && b.rows[i].expense.None?
  }

  /** No record has two owners; nothing is owned by a row set aside by hand. */
  ghost predicate WellLinked(b: Books) {
    Sound(IncomeDesk(b)) && Sound(ExpenseDesk(b)) && ManualOwnsNothing(b) && DistinctIds(b.rows)
  }

  /** No link dangles: whatever a row owns is still in its table. */
  ghost predicate Live(b: Books) {
    && (forall i | 0 <= i < |b.rows| && b.rows[i].income.Some? :: b.rows[i].income.value in b.incomes)
    && (forall i | 0 <= i < |b.rows| && b.rows[i].expense.Some? :: b.rows[i].expense.value in b.expenses)
  }

  // ---------- One decision ----------

  function IncomePlan(row: BankRow, t: Option<Target>, rules: Rules): Plan<IncomeRow> {
    if t.None? then Leave
    else if t.value.record != IncomeRecord then Release
    else Own(NewIncome(row, t.value, rules), (r: IncomeRow) => r)
  }

  function ExpensePlan(row: BankRow, t: Option<Target>): Plan<ExpenseRow> {
    if t.None? then Leave
    else if t.value.record != ExpenseRecord then Release
    else Own(NewExpense(row, t.value), (r: ExpenseRow) => Corrected(r, row, t.value))
  }

  function Stamped(row: BankRow, t: Target, income: Option<nat>, expense: Option<nat>): BankRow {
    row.(status := t.status, resolution := Some(t.resolution), note := Some(t.note), income := income, expense := expense)
  }

  /** The tables once a decision about row `i` is carried out. */
  function Applied(b: Books, i: nat, t: Target, rules: Rules): (r: Books)
    requires i < |b.rows|
    ensures |r.rows| == |b.rows|
  {
    var inc := Carried(IncomeDesk(b), i, IncomePlan(b.rows[i], Some(t), rules));
    var exp := Carried(ExpenseDesk(b), i, ExpensePlan(b.rows[i], Some(t)));
    b.(rows := b.rows[i := Stamped(b.rows[i], t, inc.links[i], exp.links[i])],
       incomes := inc.records, nextIncome := inc.next, expenses := exp.records, nextExpense := exp.next)
  }

  lemma AppliedDesks(b: Books, i: nat, t: Target, rules: Rules)
    requires i < |b.rows|
    ensures IncomeDesk(Applied(b, i, t, rules)) == Carried(IncomeDesk(b), i, IncomePlan(b.rows[i], Some(t), rules))
    ensures ExpenseDesk(Applied(b, i, t, rules)) == Carried(ExpenseDesk(b), i, ExpensePlan(b.rows[i], Some(t)))
  {
    assert IncomeDesk(Applied(b, i, t, rules)).links == Carried(IncomeDesk(b), i, IncomePlan(b.rows[i], Some(t), rules)).links;
    assert ExpenseDesk(Applied(b, i, t, rules)).links == Carried(ExpenseDesk(b), i, ExpensePlan(b.rows[i], Some(t))).links;
  }

  // ---------- A settled row ----------

  /** Row `i` already says and owns what the decision asks for. */
  ghost predicate Settled(b: Books, i: nat, t: Target, rules: Rules)
    requires i < |b.rows|
  {
    && b.rows[i].status == t.status && b.rows[i].resolution == Some(t.resolution) && b.rows[i].note == Some(t.note)
    && Asks(IncomeDesk(b), i, IncomePlan(b.rows[i], Some(t), rules))
    && Asks(ExpenseDesk(b), i, ExpensePlan(b.rows[i], Some(t)))
  }

  /** A decision changes nothing exactly when the row was settled already. */
  lemma AppliedIsIdentityIffSettled(b: Books, i: nat, t: Target, rules: Rules)
    requires i < |b.rows| && Sound(IncomeDesk(b)) && Sound(ExpenseDesk(b))
    ensures Applied(b, i, t, rules) == b <==> Settled(b, i, t, rules)
  {
    AppliedDesks(b, i, t, rules);
    IdleIffAsked(IncomeDesk(b), i, IncomePlan(b.rows[i], Some(t), rules));
    IdleIffAsked(ExpenseDesk(b), i, ExpensePlan(b.rows[i], Some(t)));
    if Settled(b, i, t, rules) {
      assert Applied(b, i, t, rules).rows == b.rows;
    }
  }
}
