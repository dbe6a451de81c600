/** What each reconciliation operation does to the tables, and what every one of them keeps. */
module Operations {
  import opened Common
  import opened BankRows
  import opened Books
  import opened LinkedTable
  import opened Foreseen
  import CreditCoverage

  /** A credit statement: only a confirmed one itemizes anything. */
  datatype CreditImport = CreditImport(id: nat, confirmed: bool, rows: seq<CreditCoverage.CreditRow>)

  function ConfirmedRows(imports: seq<CreditImport>): seq<CreditCoverage.CreditRow> {
    if imports == [] then []
    else ConfirmedRows(imports[..|imports| - 1]) + if imports[|imports| - 1].confirmed then imports[|imports| - 1].rows else []
  }

  function Confirmed(imports: seq<CreditImport>, id: nat): (r: seq<CreditImport>)
    ensures |r| == |imports|
  {
    seq(|imports|, i requires 0 <= i < |imports| => if imports[i].id == id then imports[i].(confirmed := true) else imports[i])
  }

  function Removed(imports: seq<CreditImport>, id: nat): seq<CreditImport> {
    if imports == [] then []
    else Removed(imports[..|imports| - 1], id) + if imports[|imports| - 1].id == id then [] else [imports[|imports| - 1]]
  }

  // ---------- Effects on the tables ----------

  function IncomeLinked(b: Books, i: nat, kind: string, text: Option<string>): Books
    requires i < |b.rows|
  {
    var row := b.rows[i];
    b.(rows := b.rows[i := row.(status := Done, resolution := Some(Income), note := Some(ByHand("income")), income := Some(b.nextIncome))],
       incomes := b.incomes[b.nextIncome := IncomeRow(row.amount, kind, if text.Some? then text else row.description, row.day, BankImport)],
       nextIncome := b.nextIncome + 1)
  }

  function ExpenseLinked(b: Books, i: nat, category: Option<nat>): Books
    requires i < |b.rows|
  {
    var row := b.rows[i];
    b.(rows := b.rows[i := row.(status := Done, resolution := Some(Expense), note := Some(ByHand("expense")), expense := Some(b.nextExpense))],
       expenses := b.expenses[b.nextExpense := ExpenseRow(row.amount, if category.Some? then category else row.category, row.description, row.day, BankImport)],
       nextExpense := b.nextExpense + 1)
  }

  function WithoutRecords(b: Books, i: nat): Books
    requires i < |b.rows|
  {
    b.(incomes := if b.rows[i].income.Some? then b.incomes - {b.rows[i].income.value} else b.incomes,
       expenses := if b.rows[i].expense.Some? then b.expenses - {b.rows[i].expense.value} else b.expenses)
  }

  function SetAside(b: Books, i: nat, note: string): Books
    requires i < |b.rows|
  {
    var row := b.rows[i];
    WithoutRecords(b, i).(rows := b.rows[i := row.(status := Excluded, resolution := Some(ManualExcluded), note := Some(ByHand(note)),
                                                   income := None, loan := None, expense := None)])
  }

  predicate LoanUsedElsewhere(rows: seq<BankRow>, i: nat, loan: nat) {
    exists j | 0 <= j < |rows| :: j != i && rows[j].loan == Some(loan)
  }

  /** The row is handed back to the resolver; a loan goes with its last link. */
  function HandedBack(b: Books, i: nat): Books
    requires i < |b.rows|
  {
    var row := b.rows[i];
    WithoutRecords(b, i).(
      rows := b.rows[i := row.(status := Pending, resolution := None, note := None, income := None, loan := None, expense := None)],
      loans := if row.loan.Some? && !LoanUsedElsewhere(b.rows, i, row.loan.value) then b.loans - {row.loan.value} else b.loans)
  }

  /** Every chosen row points at the loan, whatever it pointed at before. */
  function LoanLinked(b: Books, ids: set<nat>, loan: nat): Books {
    b.(rows := seq(|b.rows|, i requires 0 <= i < |b.rows| =>
         if b.rows[i].id in ids then b.rows[i].(status := Done, loan := Some(loan)) else b.rows[i]))
  }

  function LoanOpened(b: Books, opening: LoanRow): Books {
    b.(loans := b.loans[b.nextLoan := opening], nextLoan := b.nextLoan + 1)
  }

  /** No row points at a loan that is not there, and every loan id was handed out. */
  ghost predicate LoansLive(b: Books) {
    && (forall i | 0 <= i < |b.rows| && b.rows[i].loan.Some? :: b.rows[i].loan.value in b.loans)
    && (forall id | id in b.loans :: id < b.nextLoan)
  }

  // ---------- What the operations keep ----------

  /** Letting go of a row's records is what the resolver does for a meaning that calls for none. */
  lemma ReleasedDesks(b: Books, after: Books, i: nat)
    requires i < |b.rows| && |after.rows| == |b.rows|
    requires forall j | 0 <= j < |b.rows| && j != i :: after.rows[j] == b.rows[j]
    requires after.rows[i].income.None? && after.rows[i].expense.None?
    requires after.incomes == WithoutRecords(b, i).incomes && after.nextIncome == b.nextIncome
    requires after.expenses == WithoutRecords(b, i).expenses && after.nextExpense == b.nextExpense
    ensures IncomeDesk(after) == Carried(IncomeDesk(b), i, Release)
    ensures ExpenseDesk(after) == Carried(ExpenseDesk(b), i, Release)
  {
    assert IncomeDesk(after).links == Carried(IncomeDesk(b), i, Release).links;
    assert ExpenseDesk(after).links == Carried(ExpenseDesk(b), i, Release).links;
  }

  lemma IncomeLinkedDesks(b: Books, i: nat, kind: string, text: Option<string>)
    requires i < |b.rows| && b.rows[i].income.None?
    ensures var p := IncomeLinked(b, i, kind, text);
      && IncomeDesk(p) == Carried(IncomeDesk(b), i, Own(p.incomes[b.nextIncome], (r: IncomeRow) => r))
      && ExpenseDesk(p) == ExpenseDesk(b)
  {
    var p := IncomeLinked(b, i, kind, text);
    assert IncomeDesk(p).links == Carried(IncomeDesk(b), i, Own(p.incomes[b.nextIncome], (r: IncomeRow) => r)).links;
    assert ExpenseDesk(p).links == ExpenseDesk(b).links;
  }

  lemma ExpenseLinkedDesks(b: Books, i: nat, category: Option<nat>)
    requires i < |b.rows| && b.rows[i].expense.None?
    ensures var p := ExpenseLinked(b, i, category);
      && ExpenseDesk(p) == Carried(ExpenseDesk(b), i, Own(p.expenses[b.nextExpense], (r: ExpenseRow) => r))
      && IncomeDesk(p) == IncomeDesk(b)
  {
    var p := ExpenseLinked(b, i, category);
    assert ExpenseDesk(p).links == Carried(ExpenseDesk(b), i, Own(p.expenses[b.nextExpense], (r: ExpenseRow) => r)).links;
    assert IncomeDesk(p).links == IncomeDesk(b).links;
  }

  lemma LoanLinkedDesks(b: Books, ids: set<nat>, loan: nat)
    ensures IncomeDesk(LoanLinked(b, ids, loan)) == IncomeDesk(b) && ExpenseDesk(LoanLinked(b, ids, loan)) == ExpenseDesk(b)
  {
    assert IncomeDesk(LoanLinked(b, ids, loan)).links == IncomeDesk(b).links;
    assert ExpenseDesk(LoanLinked(b, ids, loan)).links == ExpenseDesk(b).links;
  }

  lemma SetAsideKeepsWellLinked(b: Books, i: nat, note: string)
    requires WellLinked(b) && i < |b.rows|
    ensures WellLinked(SetAside(b, i, note))
  {
    ReleasedDesks(b, SetAside(b, i, note), i);
    CarriedIsSound(IncomeDesk(b), i, Release);
    CarriedIsSound(ExpenseDesk(b), i, Release);
  }

  lemma HandedBackKeepsWellLinked(b: Books, i: nat)
    requires WellLinked(b) && i < |b.rows|
    ensures WellLinked(HandedBack(b, i))
  {
    ReleasedDesks(b, HandedBack(b, i), i);
    CarriedIsSound(IncomeDesk(b), i, Release);
    CarriedIsSound(ExpenseDesk(b), i, Release);
  }

  lemma IncomeLinkedKeepsWellLinked(b: Books, i: nat, kind: string, text: Option<string>)
    requires WellLinked(b) && i < |b.rows| && b.rows[i].income.None?
    ensures WellLinked(IncomeLinked(b, i, kind, text))
  {
    var p := IncomeLinked(b, i, kind, text);
    IncomeLinkedDesks(b, i, kind, text);
    CarriedIsSound(IncomeDesk(b), i, Own(p.incomes[b.nextIncome], (r: IncomeRow) => r));
  }

  lemma ExpenseLinkedKeepsWellLinked(b: Books, i: nat, category: Option<nat>)
    requires WellLinked(b) && i < |b.rows| && b.rows[i].expense.None?
    ensures WellLinked(ExpenseLinked(b, i, category))
  {
    var p := ExpenseLinked(b, i, category);
    ExpenseLinkedDesks(b, i, category);
    CarriedIsSound(ExpenseDesk(b), i, Own(p.expenses[b.nextExpense], (r: ExpenseRow) => r));
  }

  lemma LoanLinkedKeepsWellLinked(b: Books, ids: set<nat>, loan: nat)
    requires WellLinked(b)
    ensures WellLinked(LoanLinked(b, ids, loan))
  {
    LoanLinkedDesks(b, ids, loan);
  }

  /** Releasing a row's records leaves everyone else's in place and unchanged. */
  lemma ReleaseKeepsLive(b: Books, after: Books, i: nat)
    requires WellLinked(b) && i < |b.rows| && |after.rows| == |b.rows|
    requires forall j | 0 <= j < |b.rows| && j != i :: after.rows[j] == b.rows[j]
    requires after.rows[i].income.None? && after.rows[i].expense.None?
    requires after.incomes == WithoutRecords(b, i).incomes && after.expenses == WithoutRecords(b, i).expenses
    ensures Live(b) ==> Live(after)
    ensures IncomesTrue(b) ==> IncomesTrue(after)
  {
    forall j | 0 <= j < |b.rows| && j != i
      ensures b.rows[i].income.Some? ==> b.rows[j].income != b.rows[i].income
      ensures b.rows[i].expense.Some? ==> b.rows[j].expense != b.rows[i].expense
    {
      assert IncomeDesk(b).links[j] == b.rows[j].income && IncomeDesk(b).links[i] == b.rows[i].income;
      assert ExpenseDesk(b).links[j] == b.rows[j].expense && ExpenseDesk(b).links[i] == b.rows[i].expense;
    }
  }
}
