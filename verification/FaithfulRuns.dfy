/** Runs in which nobody deletes a linked record or rewrites a linked income's amount by hand. */
module FaithfulRuns {
  import opened Common
  import opened BankRows
  import opened Books
  import opened Resolver
  import opened ResolverTheorems
  import opened Foreseen
  import opened MoneyCheck
  import opened Operations
  import opened LedgerRuns

  /** Links and loans are live, linked incomes carry their rows' amounts, and every amount is positive. */
  ghost predicate Faithful(b: Books) {
    Live(b) && IncomesTrue(b) && LoansLive(b) && forall i | 0 <= i < |b.rows| :: b.rows[i].amount > 0
  }

  ghost predicate LinksIncome(b: Books, id: nat) {
    exists i | 0 <= i < |b.rows| :: b.rows[i].income == Some(id)
  }

  ghost predicate LinksExpense(b: Books, id: nat) {
    exists i | 0 <= i < |b.rows| :: b.rows[i].expense == Some(id)
  }

  ghost predicate LinksLoan(b: Books, id: nat) {
    exists i | 0 <= i < |b.rows| :: b.rows[i].loan == Some(id)
  }

  /** A row that links the income is of this amount. */
  ghost predicate StatesAmount(b: Books, id: nat, amount: int) {
    forall i | 0 <= i < |b.rows| && b.rows[i].income == Some(id) :: b.rows[i].amount == amount
  }

  /**
   * On these books the operation deletes no record a row links, gives no linked income an amount
   * other than its row's, and brings no row without money. An expense may be edited at will: the
   * resolver corrects it.
   */
  ghost predicate Inside(b: Books, op: Op) {
    match op
    case DeleteIncome(id) => !LinksIncome(b, id)
    case DeleteExpense(id) => !LinksExpense(b, id)
    case DeleteLoan(id) => !LinksLoan(b, id)
    case EditIncome(id, amount) => StatesAmount(b, id, amount)
    case ReceiveRow(at, row) => CanReceive(b, at, row) ==> row.amount > 0
    case _ => true
  }

  lemma PassKeepsFaithful(b: Books, env: Env)
    requires WellLinked(b) && Faithful(b)
    ensures Faithful(Pass(b, env))
  {
    PassKeepsLive(b, env);
    PassKeepsIncomesTrue(b, env);
    forall i | 0 <= i < |b.rows| ensures Pass(b, env).rows[i].loan == b.rows[i].loan && Pass(b, env).rows[i].amount == b.rows[i].amount {
      PassRow(b, env, i);
    }
  }

  lemma SetAsideKeepsFaithful(b: Books, i: nat, note: string)
    requires WellLinked(b) && Faithful(b) && i < |b.rows|
    ensures Faithful(SetAside(b, i, note))
  {
    ReleaseKeepsLive(b, SetAside(b, i, note), i);
  }

  /** A reset deletes a loan only with its last link, so no other row is left pointing at nothing. */
  lemma HandedBackKeepsFaithful(b: Books, i: nat)
    requires WellLinked(b) && Faithful(b) && i < |b.rows|
    ensures Faithful(HandedBack(b, i))
  {
    ReleaseKeepsLive(b, HandedBack(b, i), i);
  }

  lemma IncomeLinkedKeepsFaithful(b: Books, i: nat, kind: string, text: Option<string>)
    requires WellLinked(b) && Faithful(b) && i < |b.rows| && b.rows[i].income.None?
    ensures Faithful(IncomeLinked(b, i, kind, text))
  {
    assert forall j | 0 <= j < |b.rows| :: IncomeDesk(b).links[j] == b.rows[j].income;
  }

  lemma ExpenseLinkedKeepsFaithful(b: Books, i: nat, category: Option<nat>)
    requires WellLinked(b) && Faithful(b) && i < |b.rows| && b.rows[i].expense.None?
    ensures Faithful(ExpenseLinked(b, i, category))
  {
    assert forall j | 0 <= j < |b.rows| :: ExpenseDesk(b).links[j] == b.rows[j].expense;
  }

  lemma LoanLinkedKeepsFaithful(b: Books, ids: set<nat>, loan: nat)
    requires Faithful(b) && loan in b.loans
    ensures Faithful(LoanLinked(b, ids, loan))
  {
  }

  lemma LinkLoanKeepsFaithful(w: World, ids: set<nat>, existing: Option<nat>, terms: LoanTerms)
    requires Faithful(w.books)
    ensures Faithful(AfterLinkLoan(w, ids, existing, terms).0.books)
  {
    var b := w.books;
    var first := FirstChosen(b.rows, ids);
    if first.Some? {
      if existing.Some? {
        if existing.value in b.loans { LoanLinkedKeepsFaithful(b, ids, existing.value); }
      } else {
        LoanLinkedKeepsFaithful(LoanOpened(b, OpeningOf(b.rows, ids, first.value, terms)), ids, b.nextLoan);
      }
    }
  }

  lemma ResetKeepsFaithful(w: World, id: nat, c: Config)
    requires WellLinked(w.books) && Faithful(w.books)
    ensures Faithful(AfterReset(w, id, c).0.books)
  {
    var i := PlaceOf(w.books.rows, id);
    if i.Some? {
      HandedBackKeepsWellLinked(w.books, i.value);
      HandedBackKeepsFaithful(w.books, i.value);
      PassKeepsFaithful(HandedBack(w.books, i.value), EnvOf(w, c));
    }
  }

  /** What being faithful asks of one row. */
  ghost predicate RowFaithful(b: Books, row: BankRow) {
    && (row.income.Some? ==> row.income.value in b.incomes && b.incomes[row.income.value].amount == row.amount)
    && (row.expense.Some? ==> row.expense.value in b.expenses)
    && (row.loan.Some? ==> row.loan.value in b.loans)
    && row.amount > 0
  }

  lemma FaithfulRowByRow(b: Books)
    ensures Faithful(b) <==> (forall i | 0 <= i < |b.rows| :: RowFaithful(b, b.rows[i])) && forall id | id in b.loans :: id < b.nextLoan
  {
    if Faithful(b) {
      forall i | 0 <= i < |b.rows| ensures RowFaithful(b, b.rows[i]) {
        assert b.rows[i].amount > 0;
      }
    }
    if forall i | 0 <= i < |b.rows| :: RowFaithful(b, b.rows[i]) {
      forall i | 0 <= i < |b.rows|
        ensures b.rows[i].amount > 0 && (b.rows[i].loan.Some? ==> b.rows[i].loan.value in b.loans)
        ensures b.rows[i].income.Some? ==> b.rows[i].income.value in b.incomes && b.incomes[b.rows[i].income.value].amount == b.rows[i].amount
        ensures b.rows[i].expense.Some? ==> b.rows[i].expense.value in b.expenses
      {
        assert RowFaithful(b, b.rows[i]);
      }
    }
  }

  /** Rows that come from a faithful table, or own nothing, are faithful under the same records. */
  lemma SomeRowsKeepFaithful(b: Books, after: Books)
    requires Faithful(b)
    requires after.incomes == b.incomes && after.expenses == b.expenses && after.loans == b.loans && after.nextLoan == b.nextLoan
    requires forall i | 0 <= i < |after.rows| :: after.rows[i] in b.rows || RowFaithful(b, after.rows[i])
    ensures Faithful(after)
  {
    FaithfulRowByRow(b);
    FaithfulRowByRow(after);
    forall i | 0 <= i < |after.rows| ensures RowFaithful(after, after.rows[i]) {
      if after.rows[i] in b.rows {
        var j :| 0 <= j < |b.rows| && b.rows[j] == after.rows[i];
        assert RowFaithful(b, b.rows[j]);
      }
    }
  }

  lemma DiscardKeepsFaithful(b: Books, at: nat)
    requires Faithful(b) && at < |b.rows|
    ensures Faithful(Discarded(b, at))
  {
    SomeRowsKeepFaithful(b, Discarded(b, at));
  }

  lemma ReceiveKeepsFaithful(b: Books, at: nat, row: BankRow)
    requires Faithful(b) && CanReceive(b, at, row) && row.amount > 0
    ensures Faithful(Inserted(b, at, row))
  {
    assert RowFaithful(b, row);
    SomeRowsKeepFaithful(b, Inserted(b, at, row));
  }

  lemma LinkIncomeStaysFaithful(w: World, id: nat, kind: string, text: Option<string>)
    requires WellLinked(w.books) && Faithful(w.books)
    ensures Faithful(AfterLinkIncome(w, id, kind, text).0.books)
  {
    var i := PlaceOf(w.books.rows, id);
    if i.Some? && w.books.rows[i.value].income.None? { IncomeLinkedKeepsFaithful(w.books, i.value, kind, text); }
  }

  lemma LinkExpenseStaysFaithful(w: World, id: nat, category: Option<nat>)
    requires WellLinked(w.books) && Faithful(w.books)
    ensures Faithful(AfterLinkExpense(w, id, category).0.books)
  {
    var i := PlaceOf(w.books.rows, id);
    if i.Some? && w.books.rows[i.value].expense.None? { ExpenseLinkedKeepsFaithful(w.books, i.value, category); }
  }

  lemma ExcludeStaysFaithful(w: World, id: nat, note: string)
    requires WellLinked(w.books) && Faithful(w.books)
    ensures Faithful(AfterExclude(w, id, note).0.books)
  {
    var i := PlaceOf(w.books.rows, id);
    if i.Some? { SetAsideKeepsFaithful(w.books, i.value, note); }
  }

  lemma ConfirmStaysFaithful(w: World, id: nat, c: Config)
    requires WellLinked(w.books) && Faithful(w.books)
    ensures Faithful(AfterConfirm(w, id, c).0.books)
  {
    PassKeepsFaithful(w.books, EnvOf(w.(imports := Confirmed(w.imports, id)), c));
  }

  lemma RemoveStaysFaithful(w: World, id: nat, c: Config)
    requires WellLinked(w.books) && Faithful(w.books)
    ensures Faithful(AfterRemove(w, id, c).0.books)
  {
    PassKeepsFaithful(w.books, EnvOf(w.(imports := Removed(w.imports, id)), c));
  }

  lemma RowStepStaysFaithful(w: World, op: Op, c: Config)
    requires Faithful(w.books) && Inside(w.books, op) && (op.ReceiveRow? || op.DiscardRow?)
    ensures Faithful(Do(w, op, c).0.books)
  {
    var b := w.books;
    if op.ReceiveRow? {
      if CanReceive(b, op.at, op.row) { ReceiveKeepsFaithful(b, op.at, op.row); }
    } else if PlaceOf(b.rows, op.id).Some? {
      DiscardKeepsFaithful(b, PlaceOf(b.rows, op.id).value);
    }
  }

  /** Records nobody links may come, go and change. */
  lemma OtherRecordsKeepFaithful(b: Books, after: Books)
    requires Faithful(b) && after.rows == b.rows && b.nextLoan <= after.nextLoan
    requires forall id | LinksIncome(b, id) && id in b.incomes :: id in after.incomes && StatesAmount(b, id, after.incomes[id].amount)
    requires forall id | LinksExpense(b, id) && id in b.expenses :: id in after.expenses
    requires forall id | LinksLoan(b, id) && id in b.loans :: id in after.loans
    requires forall id | id in after.loans :: id in b.loans || id < after.nextLoan
    ensures Faithful(after)
  {
    FaithfulRowByRow(b);
    FaithfulRowByRow(after);
    forall i | 0 <= i < |b.rows| ensures RowFaithful(after, b.rows[i]) {
      var row := b.rows[i];
      assert RowFaithful(b, row);
      if row.income.Some? { assert LinksIncome(b, row.income.value); }
      if row.expense.Some? { assert LinksExpense(b, row.expense.value); }
      if row.loan.Some? { assert LinksLoan(b, row.loan.value); }
    }
  }

  lemma StatedNow(b: Books, id: nat)
    requires Faithful(b) && id in b.incomes
    ensures StatesAmount(b, id, b.incomes[id].amount)
  {
  }

  lemma IdsAreHandedOut(b: Books)
    requires WellLinked(b)
    ensures forall id | id in b.incomes :: id < b.nextIncome
  {
    assert IncomeDesk(b).records == b.incomes;
  }

  lemma IncomeStaysStated(w: World, op: Op, c: Config, id: nat)
    requires id in w.books.incomes && id < w.books.nextIncome && LinksIncome(w.books, id) && Inside(w.books, op) && ByHand(op)
    requires StatesAmount(w.books, id, w.books.incomes[id].amount)
    ensures var after := Do(w, op, c).0.books; id in after.incomes && StatesAmount(w.books, id, after.incomes[id].amount)
  {
  }

  lemma OutsideStaysFaithful(w: World, op: Op, c: Config)
    requires WellLinked(w.books) && Faithful(w.books) && Inside(w.books, op) && ByHand(op)
    ensures Faithful(Do(w, op, c).0.books)
  {
    var b, after := w.books, Do(w, op, c).0.books;
    IdsAreHandedOut(b);
    forall id | LinksIncome(b, id) && id in b.incomes ensures id in after.incomes && StatesAmount(b, id, after.incomes[id].amount) {
      StatedNow(b, id);
      IncomeStaysStated(w, op, c, id);
    }
    OtherRecordsKeepFaithful(b, after);
  }

  /** An entry, edit or deletion in the income, expense and loan tabs. */
  predicate ByHand(op: Op) {
    || op.AddIncome? || op.AddExpense? || op.AddLoan? || op.DeleteIncome? || op.DeleteExpense? || op.DeleteLoan?
    || op.EditIncome? || op.EditExpense?
  }

  lemma StepKeepsFaithful(w: World, op: Op, c: Config)
    requires WellLinked(w.books) && Faithful(w.books) && Inside(w.books, op)
    ensures Faithful(Do(w, op, c).0.books)
  {
    match op
    case ResolveAll => PassKeepsFaithful(w.books, EnvOf(w, c));
    case LinkIncome(id, kind, text) => LinkIncomeStaysFaithful(w, id, kind, text);
    case LinkExpense(id, category) => LinkExpenseStaysFaithful(w, id, category);
    case LinkLoan(ids, existing, terms) => LinkLoanKeepsFaithful(w, ids, existing, terms);
    case Exclude(id, note) => ExcludeStaysFaithful(w, id, note);
    case Reset(id) => ResetKeepsFaithful(w, id, c);
    case ConfirmImport(id) => ConfirmStaysFaithful(w, id, c);
    case RemoveImport(id) => RemoveStaysFaithful(w, id, c);
    case ReceiveRow(_, _) => RowStepStaysFaithful(w, op, c);
    case DiscardRow(_) => RowStepStaysFaithful(w, op, c);
    case _ => OutsideStaysFaithful(w, op, c);
  }

  /** The row an operation outside leaves pointing at nothing, or at another amount. */
  ghost predicate Breaks(b: Books, op: Op, row: BankRow) {
    match op
    case DeleteIncome(id) => row.income == Some(id)
    case DeleteExpense(id) => row.expense == Some(id)
    case DeleteLoan(id) => row.loan == Some(id)
    case EditIncome(id, amount) => row.income == Some(id) && row.amount != amount
    case _ => false
  }

  lemma BrokenRow(w: World, op: Op, c: Config, row: BankRow)
    requires RowFaithful(w.books, row) && Breaks(w.books, op, row)
    ensures !RowFaithful(Do(w, op, c).0.books, row)
  {
    match op
    case DeleteIncome(id) =>
    case DeleteExpense(id) =>
    case DeleteLoan(id) =>
    case EditIncome(id, amount) =>
  }

  /** Any other operation breaks it at once. */
  lemma OutsideBreaksFaithful(w: World, op: Op, c: Config)
    requires Faithful(w.books) && !Inside(w.books, op)
    ensures !Faithful(Do(w, op, c).0.books)
  {
    var b, after := w.books, Do(w, op, c).0.books;
    FaithfulRowByRow(b);
    FaithfulRowByRow(after);
    if op.ReceiveRow? {
      assert after.rows[op.at] == op.row;
    } else {
      var i :| 0 <= i < |b.rows| && Breaks(b, op, b.rows[i]);
      BrokenRow(w, op, c, b.rows[i]);
      assert after.rows == b.rows;
    }
  }

  /** On faithful books an operation keeps them faithful exactly when it is inside. */
  lemma StaysFaithfulIff(w: World, op: Op, c: Config)
    requires WellLinked(w.books) && Faithful(w.books)
    ensures Faithful(Do(w, op, c).0.books) <==> Inside(w.books, op)
  {
    if Inside(w.books, op) { StepKeepsFaithful(w, op, c); } else { OutsideBreaksFaithful(w, op, c); }
  }

  /** Rolling an import back is inside: once a row is gone, nobody links the records it owned. */
  lemma RollingBackStaysInside(b: Books, i: nat)
    requires WellLinked(b) && i < |b.rows|
    ensures b.rows[i].income.Some? ==> Inside(Discarded(b, i), DeleteIncome(b.rows[i].income.value))
    ensures b.rows[i].expense.Some? ==> Inside(Discarded(b, i), DeleteExpense(b.rows[i].expense.value))
  {
    var incomes, expenses := IncomeDesk(b).links, ExpenseDesk(b).links;
    forall j: nat | j < |b.rows| && j != i
      ensures b.rows[i].income.Some? ==> b.rows[j].income != b.rows[i].income
      ensures b.rows[i].expense.Some? ==> b.rows[j].expense != b.rows[i].expense
    {
      assert incomes[j] == b.rows[j].income && incomes[i] == b.rows[i].income;
      assert expenses[j] == b.rows[j].expense && expenses[i] == b.rows[i].expense;
    }
  }

  /** Every operation of the run is inside on the books it finds. */
  ghost predicate RunsInside(requests: seq<Request>) {
    forall n | 0 <= n < |requests| :: Inside(RunOps(FRESH, requests[..n]).books, requests[n].op)
  }

  lemma InsideSoFar(requests: seq<Request>)
    requires requests != [] && RunsInside(requests)
    ensures RunsInside(requests[..|requests| - 1])
  {
    var init := requests[..|requests| - 1];
    forall n | 0 <= n < |init| ensures Inside(RunOps(FRESH, init[..n]).books, init[n].op) {
      assert init[..n] == requests[..n];
    }
  }

  lemma {:induction false} RunsStayFaithful(requests: seq<Request>)
    requires RunsInside(requests)
    ensures Faithful(RunOps(FRESH, requests).books)
  {
    if requests != [] {
      var init, last := requests[..|requests| - 1], requests[|requests| - 1];
      InsideSoFar(requests);
      RunsStayFaithful(init);
      RunsStayWellLinked(init);
      StepKeepsFaithful(RunOps(FRESH, init), last.op, last.config);
    }
  }

  /**
   * After any such run and a resolve pass, the whole money script passes exactly when no
   * early-payoff fee stands in the credit column.
   */
  lemma AnyFaithfulRunPassesIff(requests: seq<Request>, c: Config, creditRows: nat)
    requires RunsInside(requests)
    ensures var w := RunOps(FRESH, requests);
      VerifyUser(Resolved(w, c).books, creditRows) == MoneyReport(true, true, true, true, true, true, true, true, true, true) <==>
        forall i | 0 <= i < |w.books.rows| :: !WillRefundFee(Reclassified(w.books.rows[i], EnvOf(w, c)))
  {
    RunsStayFaithful(requests);
    RunsStayWellLinked(requests);
    ScriptPassesIff(RunOps(FRESH, requests).books, EnvOf(RunOps(FRESH, requests), c), creditRows);
  }
}
