/** What a resolve pass guarantees, whatever state it starts from. */
module ResolverTheorems {
  import opened Common
  import opened BankRows
  import opened DecisionPolicy
  import opened Books
  import opened LinkedTable
  import opened Resolver
  import opened TransferPairing

  /** Backfilling moves no link, so each table starts the pass as it stood. */
  lemma RefreshKeepsDesks(b: Books, env: Env)
    ensures IncomeDesk(Refreshed(b, env)) == IncomeDesk(b)
    ensures ExpenseDesk(Refreshed(b, env)) == ExpenseDesk(b)
  {
    assert IncomeDesk(Refreshed(b, env)).links == IncomeDesk(b).links;
    assert ExpenseDesk(Refreshed(b, env)).links == ExpenseDesk(b).links;
  }

  function DecisionFor(b: Books, env: Env, j: nat): Option<Target>
    requires j < |b.rows|
  {
    Decisions(Refreshed(b, env).rows, env)[j]
  }

  /** A row set aside by hand is exactly what it was; every other row is stamped with a decision. */
  lemma PassRow(b: Books, env: Env, j: nat)
    requires j < |b.rows|
    ensures var p, t := Pass(b, env), DecisionFor(b, env, j);
      && (t.None? <==> Manual(b.rows[j]))
      && (t.Some? ==> t.value == DecideTarget(Reclassified(b.rows[j], env), ContextFor(Refreshed(b, env).rows, env)))
      && p.rows[j] == (if t.None? then b.rows[j] else Stamped(Reclassified(b.rows[j], env), t.value, p.rows[j].income, p.rows[j].expense))
  {
  }

  lemma PassLinks(b: Books, env: Env, j: nat)
    requires j < |b.rows| && WellLinked(b)
    ensures var row, t := Pass(b, env).rows[j], DecisionFor(b, env, j);
      t.Some? ==>
        && (row.income.Some? <==> t.value.record == IncomeRecord)
        && (row.expense.Some? <==> t.value.record == ExpenseRecord)
        && (row.income.Some? ==> if b.rows[j].income.Some? then row.income == b.rows[j].income else row.income.value >= b.nextIncome)
        && (row.expense.Some? ==> if b.rows[j].expense.Some? then row.expense == b.rows[j].expense else row.expense.value >= b.nextExpense)
  {
    var ready := Refreshed(b, env);
    var ts := Decisions(ready.rows, env);
    RefreshKeepsDesks(b, env);
    LinkAfter(IncomeDesk(ready), IncomePlans(ready, ts, env.rules), |ts|, j);
    LinkAfter(ExpenseDesk(ready), ExpensePlans(ready, ts), |ts|, j);
  }

  lemma PassKeepsDesksSound(b: Books, env: Env)
    requires Sound(IncomeDesk(b)) && Sound(ExpenseDesk(b))
    ensures Sound(IncomeDesk(Pass(b, env))) && Sound(ExpenseDesk(Pass(b, env)))
    ensures Pass(b, env).nextIncome >= b.nextIncome && Pass(b, env).nextExpense >= b.nextExpense
  {
    var ready := Refreshed(b, env);
    var ts := Decisions(ready.rows, env);
    RefreshKeepsDesks(b, env);
    DesksAfter(ready, ts, |ts|, env.rules);
    StaysSound(IncomeDesk(ready), IncomePlans(ready, ts, env.rules), |ts|);
    StaysSound(ExpenseDesk(ready), ExpensePlans(ready, ts), |ts|);
  }

  lemma PassKeepsIdentity(b: Books, env: Env, i: nat)
    requires i < |b.rows|
    ensures SameFacts(Pass(b, env).rows[i], b.rows[i])
    ensures Manual(Pass(b, env).rows[i]) <==> Manual(b.rows[i])
    ensures Manual(b.rows[i]) ==> Pass(b, env).rows[i] == b.rows[i]
  {
    PassRow(b, env, i);
    PolicyIsConsistent(Reclassified(b.rows[i], env), ContextFor(Refreshed(b, env).rows, env));
  }

  /** After a pass no record has two owners, and rows set aside by hand still own nothing. */
  lemma PassKeepsWellLinked(b: Books, env: Env)
    requires WellLinked(b)
    ensures WellLinked(Pass(b, env))
  {
    PassKeepsDesksSound(b, env);
    forall i | 0 <= i < |b.rows|
      ensures Pass(b, env).rows[i].id == b.rows[i].id && (Manual(Pass(b, env).rows[i]) ==> Pass(b, env).rows[i] == b.rows[i] && Manual(b.rows[i]))
    {
      PassKeepsIdentity(b, env, i);
    }
  }

  /** Every row has a meaning, and owns a record exactly where the meaning says. */
  ghost predicate Agreed(b: Books) {
    forall i | 0 <= i < |b.rows| ::
      && b.rows[i].resolution.Some?
      && (b.rows[i].income.Some? <==> b.rows[i].resolution == Some(Income))
      && (b.rows[i].expense.Some? <==> b.rows[i].resolution.value in EXPENSE_RESOLUTIONS)
  }

  lemma RowIsResolved(b: Books, env: Env, i: nat)
    requires WellLinked(b) && i < |b.rows|
    ensures var row := Pass(b, env).rows[i];
      && row.resolution.Some?
      && (row.income.Some? <==> row.resolution == Some(Income))
      && (row.expense.Some? <==> row.resolution.value in EXPENSE_RESOLUTIONS)
  {
    PassRow(b, env, i);
    PassLinks(b, env, i);
    PolicyIsConsistent(Reclassified(b.rows[i], env), ContextFor(Refreshed(b, env).rows, env));
  }

  lemma EveryRowIsResolved(b: Books, env: Env)
    requires WellLinked(b)
    ensures Agreed(Pass(b, env))
  {
    forall i | 0 <= i < |b.rows|
      ensures var row := Pass(b, env).rows[i];
        && row.resolution.Some?
        && (row.income.Some? <==> row.resolution == Some(Income))
        && (row.expense.Some? <==> row.resolution.value in EXPENSE_RESOLUTIONS)
    {
      RowIsResolved(b, env, i);
    }
  }

  // ---------- Records ----------

  /** What a row's meaning puts into the expense table: the amount, negated for money the bank gave back on credit. */
  function SignedCost(row: BankRow): int {
    if row.resolution == Some(FinancingCredit) || (row.resolution == Some(FinancingCharge) && row.kind == LoanFee && row.direction == Deposit)
    then -row.amount else row.amount
  }

  /** The income record that states a row: its amount, day and text, kept as imported. */
  function IncomeOf(row: BankRow, rules: Rules): IncomeRow {
    IncomeRow(row.amount, rules.incomeType(row.description), row.description, row.day, BankImport)
  }

  /**
   * The income a row ends up owning: the record it had, untouched, or a new one for
   * the row's amount. A link whose record is missing stays dangling.
   */
  lemma OwnedIncomeAfter(b: Books, env: Env, j: nat)
    requires j < |b.rows| && WellLinked(b) && Pass(b, env).rows[j].income.Some?
    ensures var p := Pass(b, env);
      var id := p.rows[j].income.value;
      if b.rows[j].income.None? then id >= b.nextIncome && id in p.incomes && p.incomes[id] == IncomeOf(b.rows[j], env.rules)
      else b.rows[j].income == Some(id) && (id in p.incomes <==> id in b.incomes) && (id in p.incomes ==> p.incomes[id] == b.incomes[id])
  {
    var ready := Refreshed(b, env);
    var ts := Decisions(ready.rows, env);
    RefreshKeepsDesks(b, env);
    PassRow(b, env, j);
    PassLinks(b, env, j);
    PolicyIsConsistent(Reclassified(b.rows[j], env), ContextFor(ready.rows, env));
    if b.rows[j].income.None? {
      GainedAfter(IncomeDesk(ready), IncomePlans(ready, ts, env.rules), |ts|, j);
    } else {
      OwnedAfter(IncomeDesk(ready), IncomePlans(ready, ts, env.rules), |ts|, j, b.rows[j].income.value);
    }
  }

  /** The expense a row ends up owning carries exactly the amount its meaning calls for. */
  lemma OwnedExpenseAfter(b: Books, env: Env, j: nat)
    requires j < |b.rows| && WellLinked(b) && Pass(b, env).rows[j].expense.Some?
    ensures var p := Pass(b, env);
      var id := p.rows[j].expense.value;
      && (id in p.expenses <==> b.rows[j].expense.None? || b.rows[j].expense.value in b.expenses)
      && (id in p.expenses ==> p.expenses[id].amount == SignedCost(p.rows[j]))
      && (b.rows[j].expense.Some? ==> b.rows[j].expense == Some(id))
      && (id in p.expenses && b.rows[j].expense.Some? && b.expenses[id].category.Some? ==> p.expenses[id].category == b.expenses[id].category)
  {
    var ready := Refreshed(b, env);
    var ts := Decisions(ready.rows, env);
    RefreshKeepsDesks(b, env);
    PassRow(b, env, j);
    PassLinks(b, env, j);
    PolicyIsConsistent(Reclassified(b.rows[j], env), ContextFor(ready.rows, env));
    if b.rows[j].expense.None? {
      GainedAfter(ExpenseDesk(ready), ExpensePlans(ready, ts), |ts|, j);
    } else {
      OwnedAfter(ExpenseDesk(ready), ExpensePlans(ready, ts), |ts|, j, b.rows[j].expense.value);
    }
  }

  /** The expense a row should own: a new one states the row, an old one keeps all but its amount and a category never filled. */
  function ExpenseOf(b: Books, j: nat, after: BankRow, category: Option<nat>): ExpenseRow
    requires j < |b.rows|
  {
    if b.rows[j].expense.Some? && b.rows[j].expense.value in b.expenses then
      var had := b.expenses[b.rows[j].expense.value];
      had.(amount := SignedCost(after), category := if had.category.Some? then had.category else category)
    else ExpenseRow(SignedCost(after), category, b.rows[j].description, b.rows[j].day, BankImport)
  }

  lemma DecidedCategory(b: Books, env: Env, j: nat, p: Books)
    requires j < |b.rows| && WellLinked(b) && p == Pass(b, env) && p.rows[j].expense.Some?
    ensures DecisionFor(b, env, j).Some? ==>
      && p.rows[j].resolution.Some?
      && DecisionFor(b, env, j).value.category == CategoryOf(p.rows[j].resolution.value, b.rows[j], env.rules)
  {
    PassRow(b, env, j);
    PassLinks(b, env, j);
    if DecisionFor(b, env, j).Some? {
      WhereCostsGo(Reclassified(b.rows[j], env), ContextFor(Refreshed(b, env).rows, env));
    }
  }

  /** What decision `t` makes of a row's expense, whole. */
  lemma ExpenseByDecision(b: Books, env: Env, j: nat, p: Books, t: Target)
    requires j < |b.rows| && WellLinked(b) && p == Pass(b, env) && DecisionFor(b, env, j) == Some(t) && t.record == ExpenseRecord
    requires p.rows[j].expense.Some? && p.rows[j].expense.value in p.expenses
    ensures b.rows[j].expense.Some? ==> b.rows[j].expense.value in b.expenses
    ensures p.expenses[p.rows[j].expense.value] ==
      if b.rows[j].expense.None? then NewExpense(Reclassified(b.rows[j], env), t)
      else Corrected(b.expenses[b.rows[j].expense.value], Reclassified(b.rows[j], env), t)
  {
    var ready := Refreshed(b, env);
    var ts := Decisions(ready.rows, env);
    RefreshKeepsDesks(b, env);
    PassLinks(b, env, j);
    if b.rows[j].expense.None? {
      GainedAfter(ExpenseDesk(ready), ExpensePlans(ready, ts), |ts|, j);
    } else {
      OwnedAfter(ExpenseDesk(ready), ExpensePlans(ready, ts), |ts|, j, b.rows[j].expense.value);
    }
  }

  lemma DecidedExpense(b: Books, env: Env, j: nat, p: Books)
    requires j < |b.rows| && WellLinked(b) && p == Pass(b, env) && p.rows[j].expense.Some?
    ensures DecisionFor(b, env, j).Some? && p.rows[j].resolution.Some?
    ensures var t := DecisionFor(b, env, j).value;
      && t.record == ExpenseRecord && t.category == CategoryOf(p.rows[j].resolution.value, b.rows[j], env.rules)
      && Wanted(Reclassified(b.rows[j], env), t) == SignedCost(p.rows[j])
  {
    PassRow(b, env, j);
    PassLinks(b, env, j);
    RowIsResolved(b, env, j);
    DecidedCategory(b, env, j, p);
    PolicyIsConsistent(Reclassified(b.rows[j], env), ContextFor(Refreshed(b, env).rows, env));
  }

  /** Everything about the expense a row ends up with, its category by the meaning the row was given. */
  lemma WholeExpenseAfter(b: Books, env: Env, j: nat, p: Books)
    requires j < |b.rows| && WellLinked(b) && p == Pass(b, env)
    requires p.rows[j].expense.Some? && p.rows[j].expense.value in p.expenses
    ensures p.rows[j].resolution.Some?
    ensures p.expenses[p.rows[j].expense.value] == ExpenseOf(b, j, p.rows[j], CategoryOf(p.rows[j].resolution.value, b.rows[j], env.rules))
  {
    DecidedExpense(b, env, j, p);
    ExpenseByDecision(b, env, j, p, DecisionFor(b, env, j).value);
  }

  /** A record of a decided row whose meaning no longer calls for it is gone. */
  lemma StaleRecordsGo(b: Books, env: Env, j: nat)
    requires j < |b.rows| && WellLinked(b) && !Manual(b.rows[j])
    ensures b.rows[j].income.Some? && Pass(b, env).rows[j].income.None? ==> b.rows[j].income.value !in Pass(b, env).incomes
    ensures b.rows[j].expense.Some? && Pass(b, env).rows[j].expense.None? ==> b.rows[j].expense.value !in Pass(b, env).expenses
  {
    var ready := Refreshed(b, env);
    var ts := Decisions(ready.rows, env);
    RefreshKeepsDesks(b, env);
    PassLinks(b, env, j);
    if b.rows[j].income.Some? {
      OwnedAfter(IncomeDesk(ready), IncomePlans(ready, ts, env.rules), |ts|, j, b.rows[j].income.value);
    }
    if b.rows[j].expense.Some? {
      OwnedAfter(ExpenseDesk(ready), ExpensePlans(ready, ts), |ts|, j, b.rows[j].expense.value);
    }
  }

  ghost predicate OwnsIncome(b: Books, id: nat) {
    exists j | 0 <= j < |b.rows| :: b.rows[j].income == Some(id)
  }

  ghost predicate OwnsExpense(b: Books, id: nat) {
    exists j | 0 <= j < |b.rows| :: b.rows[j].expense == Some(id)
  }

  /** Records no row owns are left alone, and no new record is left without an owner. */
  lemma BystandersStay(b: Books, env: Env, id: nat)
    requires WellLinked(b)
    ensures var p := Pass(b, env);
      && (!OwnsIncome(b, id) && id in b.incomes ==> id in p.incomes && p.incomes[id] == b.incomes[id])
      && (!OwnsExpense(b, id) && id in b.expenses ==> id in p.expenses && p.expenses[id] == b.expenses[id])
      && (id in p.incomes && id >= b.nextIncome ==> OwnsIncome(p, id))
      && (id in p.expenses && id >= b.nextExpense ==> OwnsExpense(p, id))
  {
    var ready, p := Refreshed(b, env), Pass(b, env);
    var ts := Decisions(ready.rows, env);
    RefreshKeepsDesks(b, env);
    DesksAfter(ready, ts, |ts|, env.rules);
    if !OwnsIncome(b, id) && id in b.incomes {
      UnownedStays(IncomeDesk(ready), IncomePlans(ready, ts, env.rules), |ts|, id);
    }
    if !OwnsExpense(b, id) && id in b.expenses {
      UnownedStays(ExpenseDesk(ready), ExpensePlans(ready, ts), |ts|, id);
    }
    if id in p.incomes && id >= b.nextIncome {
      var j := MadeIsOwned(IncomeDesk(ready), IncomePlans(ready, ts, env.rules), |ts|, id);
      assert p.rows[j].income == Some(id);
    }
    if id in p.expenses && id >= b.nextExpense {
      var j := MadeIsOwned(ExpenseDesk(ready), ExpensePlans(ready, ts), |ts|, id);
      assert p.rows[j].expense == Some(id);
    }
  }

  /** If no link dangles before the pass, none does after it. */
  lemma PassKeepsLive(b: Books, env: Env)
    requires WellLinked(b) && Live(b)
    ensures Live(Pass(b, env))
  {
    forall j | 0 <= j < |b.rows|
      ensures Pass(b, env).rows[j].income.Some? ==> Pass(b, env).rows[j].income.value in Pass(b, env).incomes
      ensures Pass(b, env).rows[j].expense.Some? ==> Pass(b, env).rows[j].expense.value in Pass(b, env).expenses
    {
      if Pass(b, env).rows[j].income.Some? { OwnedIncomeAfter(b, env, j); }
      if Pass(b, env).rows[j].expense.Some? { OwnedExpenseAfter(b, env, j); }
    }
  }

  // ---------- Fixpoint ----------

  /** Everything a decision about the row reads is the same in both. */
  predicate SameInputs(a: BankRow, b: BankRow) {
    SameFacts(a, b) && a.kind == b.kind && a.loanRef == b.loanRef && (Manual(a) <==> Manual(b))
  }

  ghost predicate AllSameInputs(a: seq<BankRow>, b: seq<BankRow>) {
    |a| == |b| && forall i | 0 <= i < |a| :: SameInputs(a[i], b[i])
  }

  lemma {:induction false} SameCandidates(a: seq<BankRow>, b: seq<BankRow>, held: set<nat>)
    requires AllSameInputs(a, b)
    ensures CandidatesOf(a, held) == CandidatesOf(b, held)
  {
    if a != [] {
      SameCandidates(a[..|a| - 1], b[..|b| - 1], held);
      assert SameInputs(a[|a| - 1], b[|b| - 1]);
    }
  }

  /** Decisions depend on nothing but the rows' facts, their kinds and which of them were set aside. */
  lemma DecisionsDependOnInputs(a: seq<BankRow>, b: seq<BankRow>, env: Env)
    requires AllSameInputs(a, b)
    ensures Decisions(a, env) == Decisions(b, env)
  {
    assert LegsOf(a, env.rules) == LegsOf(b, env.rules);
    var places := Held(Pairs(LegsOf(a, env.rules)));
    forall i: nat | i < |a| ensures a[i].id == b[i].id { assert SameInputs(a[i], b[i]); }
    assert IdsAt(a, places) == IdsAt(b, places);
    SameCandidates(a, b, HeldIds(a, env.rules));
    assert ContextFor(a, env) == ContextFor(b, env);
    forall i | 0 <= i < |a| ensures Decisions(a, env)[i] == Decisions(b, env)[i] {
      assert SameInputs(a[i], b[i]);
    }
  }
}
