/** Every run of reconciliation operations, hand edits elsewhere included. */
module LedgerRuns {
  import opened Common
  import opened BankRows
  import opened DecisionPolicy
  import opened Books
  import opened LinkedTable
  import opened Resolver
  import opened ResolverTheorems
  import opened MoneyCheck
  import opened Operations

  datatype World = World(books: Books, imports: seq<CreditImport>)
  datatype Config = Config(rules: Rules, nullsSeen: bool)

  datatype Answer = Ok | NotFound | BadRequest | Conflict

  datatype Op =
    | ResolveAll
    | LinkIncome(id: nat, kind: string, text: Option<string>)
    | LinkExpense(id: nat, category: Option<nat>)
    | LinkLoan(ids: set<nat>, existing: Option<nat>, terms: LoanTerms)
    | Exclude(id: nat, note: string)
    | Reset(id: nat)
    | ConfirmImport(id: nat)
    | RemoveImport(id: nat)
    // Other modules: statement imports, deleted bank rows, and the user's own entries and edits in the income, expense and loan tabs.
    | ReceiveRow(at: nat, row: BankRow)
    | DiscardRow(id: nat)
    | AddIncome(income: IncomeRow)
    | AddExpense(expense: ExpenseRow)
    | AddLoan(loan: LoanRow)
    | DeleteIncome(id: nat)
    | DeleteExpense(id: nat)
    | DeleteLoan(id: nat)
    | EditIncome(id: nat, amount: int)
    | EditExpense(id: nat, amount: int, category: Option<nat>)

  function EnvOf(w: World, c: Config): Env {
    Env(c.rules, ConfirmedRows(w.imports), c.nullsSeen)
  }

  function Resolved(w: World, c: Config): World {
    w.(books := Pass(w.books, EnvOf(w, c)))
  }

  function PlaceOf(rows: seq<BankRow>, id: nat): (r: Option<nat>)
    ensures r.Some? ==> r.value < |rows| && rows[r.value].id == id
    ensures r.None? ==> forall i | 0 <= i < |rows| :: rows[i].id != id
  {
    if rows == [] then None
    else if rows[|rows| - 1].id == id then Some(|rows| - 1)
    else PlaceOf(rows[..|rows| - 1], id)
  }

  predicate HasImport(imports: seq<CreditImport>, id: nat) {
    exists i | 0 <= i < |imports| :: imports[i].id == id
  }

  predicate IsConfirmed(imports: seq<CreditImport>, id: nat) {
    exists i | 0 <= i < |imports| :: imports[i].id == id && imports[i].confirmed
  }

  function FirstChosen(rows: seq<BankRow>, ids: set<nat>): Option<BankRow> {
    if rows == [] then None else if rows[0].id in ids then Some(rows[0]) else FirstChosen(rows[1..], ids)
  }

  function FirstDrawdown(rows: seq<BankRow>, ids: set<nat>): Option<int> {
    if rows == [] then None
    else if rows[0].id in ids && rows[0].kind == LoanDrawdown then Some(rows[0].amount)
    else FirstDrawdown(rows[1..], ids)
  }

  /** The terms come from the user; a drawdown line supplies the amount the user left out. */
  function OpeningOf(rows: seq<BankRow>, ids: set<nat>, first: BankRow, terms: LoanTerms): LoanRow {
    var drawdown := FirstDrawdown(rows, ids);
    var original := if terms.originalAmount.Some? then terms.originalAmount.value else if drawdown.Some? then drawdown.value else 0;
    LoanRow(terms.name, terms.kind, terms.lender, original,
            if terms.currentBalance.Some? then terms.currentBalance.value else original,
            if terms.annualRate.Some? then terms.annualRate.value else 0.0,
            if terms.monthlyPayment.Some? then terms.monthlyPayment.value else 0,
            if terms.start.Some? then terms.start.value else first.day)
  }

  function AfterLinkIncome(w: World, id: nat, kind: string, text: Option<string>): (World, Answer) {
    match PlaceOf(w.books.rows, id)
    case None => (w, NotFound)
    case Some(i) =>
      if w.books.rows[i].direction != Deposit then (w, BadRequest)
      else if w.books.rows[i].income.Some? then (w, Conflict)
      else (w.(books := IncomeLinked(w.books, i, kind, text)), Ok)
  }

  function AfterLinkExpense(w: World, id: nat, category: Option<nat>): (World, Answer) {
    match PlaceOf(w.books.rows, id)
    case None => (w, NotFound)
    case Some(i) =>
      if w.books.rows[i].direction != Withdrawal || w.books.rows[i].kind != Standard then (w, BadRequest)
      else if w.books.rows[i].expense.Some? then (w, Conflict)
      else (w.(books := ExpenseLinked(w.books, i, category)), Ok)
  }

  function AfterLinkLoan(w: World, ids: set<nat>, existing: Option<nat>, terms: LoanTerms): (World, Answer) {
    match FirstChosen(w.books.rows, ids)
    case None => (w, BadRequest)
    case Some(first) =>
      if existing.Some? then
        if existing.value !in w.books.loans then (w, NotFound)
        else (w.(books := LoanLinked(w.books, ids, existing.value)), Ok)
      else (w.(books := LoanLinked(LoanOpened(w.books, OpeningOf(w.books.rows, ids, first, terms)), ids, w.books.nextLoan)), Ok)
  }

  function AfterExclude(w: World, id: nat, note: string): (World, Answer) {
    match PlaceOf(w.books.rows, id)
    case None => (w, NotFound)
    case Some(i) => (w.(books := SetAside(w.books, i, note)), Ok)
  }

  function AfterReset(w: World, id: nat, c: Config): (World, Answer) {
    match PlaceOf(w.books.rows, id)
    case None => (w, NotFound)
    case Some(i) => (Resolved(w.(books := HandedBack(w.books, i)), c), Ok)
  }

  function AfterConfirm(w: World, id: nat, c: Config): (World, Answer) {
    if !HasImport(w.imports, id) then (w, NotFound)
    else if IsConfirmed(w.imports, id) then (w, BadRequest)
    else (Resolved(w.(imports := Confirmed(w.imports, id)), c), Ok)
  }

  function AfterRemove(w: World, id: nat, c: Config): (World, Answer) {
    if !HasImport(w.imports, id) then (w, NotFound)
    else (Resolved(w.(imports := Removed(w.imports, id)), c), Ok)
  }

  /** A row arrives unlinked and unresolved, under an id not in use, at its place in statement order. */
  predicate CanReceive(b: Books, at: nat, row: BankRow) {
    && at <= |b.rows| && PlaceOf(b.rows, row.id).None?
    && row.status == Pending && row.resolution.None? && row.note.None?
    && row.income.None? && row.loan.None? && row.expense.None?
  }

  function Do(w: World, op: Op, c: Config): (World, Answer) {
    var b := w.books;
    match op
    case ResolveAll => (Resolved(w, c), Ok)
    case LinkIncome(id, kind, text) => AfterLinkIncome(w, id, kind, text)
    case LinkExpense(id, category) => AfterLinkExpense(w, id, category)
    case LinkLoan(ids, existing, terms) => AfterLinkLoan(w, ids, existing, terms)
    case Exclude(id, note) => AfterExclude(w, id, note)
    case Reset(id) => AfterReset(w, id, c)
    case ConfirmImport(id) => AfterConfirm(w, id, c)
    case RemoveImport(id) => AfterRemove(w, id, c)
    case ReceiveRow(at, row) =>
      if CanReceive(b, at, row) then (w.(books := Inserted(b, at, row)), Ok) else (w, BadRequest)
    case DiscardRow(id) => (match PlaceOf(b.rows, id)
      case None => (w, NotFound)
      case Some(i) => (w.(books := Discarded(b, i)), Ok))
    case AddIncome(income) => (w.(books := b.(incomes := b.incomes[b.nextIncome := income.(source := ByUser)], nextIncome := b.nextIncome + 1)), Ok)
    case AddExpense(expense) => (w.(books := b.(expenses := b.expenses[b.nextExpense := expense.(source := ByUser)], nextExpense := b.nextExpense + 1)), Ok)
    case AddLoan(loan) => (w.(books := LoanOpened(b, loan)), Ok)
    case DeleteIncome(id) =>
      if id !in b.incomes then (w, NotFound) else (w.(books := b.(incomes := b.incomes - {id})), Ok)
    case DeleteExpense(id) =>
      if id !in b.expenses then (w, NotFound) else (w.(books := b.(expenses := b.expenses - {id})), Ok)
    case DeleteLoan(id) =>
      if id !in b.loans then (w, NotFound) else (w.(books := b.(loans := b.loans - {id})), Ok)
    case EditIncome(id, amount) =>
      if id !in b.incomes then (w, NotFound)
      else (w.(books := b.(incomes := b.incomes[id := b.incomes[id].(amount := amount)])), Ok)
    case EditExpense(id, amount, category) =>
      if id !in b.expenses then (w, NotFound)
      else (w.(books := b.(expenses := b.expenses[id := b.expenses[id].(amount := amount, category := category)])), Ok)
  }

  // ---------- What every step keeps ----------

  lemma InsertKeepsSound<R>(d: Desk<R>, e: Desk<R>, at: nat)
    requires Sound(d) && at <= |d.links| && e == d.(links := d.links[..at] + [None] + d.links[at..])
    ensures Sound(e)
  {
    assert forall i | 0 <= i < |e.links| :: e.links[i] == if i < at then d.links[i] else if i == at then None else d.links[i - 1];
  }

  lemma DeleteKeepsSound<R>(d: Desk<R>, e: Desk<R>, at: nat)
    requires Sound(d) && at < |d.links| && e == d.(links := d.links[..at] + d.links[at + 1..])
    ensures Sound(e)
  {
    assert forall i | 0 <= i < |e.links| :: e.links[i] == if i < at then d.links[i] else d.links[i + 1];
  }

  function Inserted(b: Books, at: nat, row: BankRow): (p: Books)
    requires at <= |b.rows|
    ensures |p.rows| == |b.rows| + 1
    ensures forall i | 0 <= i < |p.rows| :: p.rows[i] == if i < at then b.rows[i] else if i == at then row else b.rows[i - 1]
  {
    b.(rows := b.rows[..at] + [row] + b.rows[at..])
  }

  lemma InsertedRowsStayDistinct(b: Books, at: nat, row: BankRow)
    requires DistinctIds(b.rows) && ManualOwnsNothing(b) && CanReceive(b, at, row)
    ensures DistinctIds(Inserted(b, at, row).rows) && ManualOwnsNothing(Inserted(b, at, row))
  {
  }

  lemma InsertedDesks(b: Books, at: nat, row: BankRow)
    requires at <= |b.rows| && row.income.None? && row.expense.None?
    ensures IncomeDesk(Inserted(b, at, row)).links == IncomeDesk(b).links[..at] + [None] + IncomeDesk(b).links[at..]
    ensures ExpenseDesk(Inserted(b, at, row)).links == ExpenseDesk(b).links[..at] + [None] + ExpenseDesk(b).links[at..]
  {
    var p, incomes, expenses := Inserted(b, at, row), IncomeDesk(b).links, ExpenseDesk(b).links;
    forall i: nat | i < |p.rows|
      ensures IncomeDesk(p).links[i] == (incomes[..at] + [None] + incomes[at..])[i]
      ensures ExpenseDesk(p).links[i] == (expenses[..at] + [None] + expenses[at..])[i]
    {
      assert p.rows[i] == if i < at then b.rows[i] else if i == at then row else b.rows[i - 1];
    }
  }

  lemma ReceiveKeepsWellLinked(b: Books, at: nat, row: BankRow)
    requires WellLinked(b) && CanReceive(b, at, row)
    ensures WellLinked(Inserted(b, at, row))
  {
    var p := Inserted(b, at, row);
    InsertedRowsStayDistinct(b, at, row);
    InsertedDesks(b, at, row);
    InsertKeepsSound(IncomeDesk(b), IncomeDesk(p), at);
    InsertKeepsSound(ExpenseDesk(b), ExpenseDesk(p), at);
  }

  function Discarded(b: Books, at: nat): (p: Books)
    requires at < |b.rows|
    ensures |p.rows| == |b.rows| - 1
    ensures forall i | 0 <= i < |p.rows| :: p.rows[i] == if i < at then b.rows[i] else b.rows[i + 1]
  {
    b.(rows := b.rows[..at] + b.rows[at + 1..])
  }

  lemma DiscardedDesks(b: Books, at: nat)
    requires at < |b.rows|
    ensures IncomeDesk(Discarded(b, at)).links == IncomeDesk(b).links[..at] + IncomeDesk(b).links[at + 1..]
    ensures ExpenseDesk(Discarded(b, at)).links == ExpenseDesk(b).links[..at] + ExpenseDesk(b).links[at + 1..]
  {
    var p, incomes, expenses := Discarded(b, at), IncomeDesk(b).links, ExpenseDesk(b).links;
    forall i: nat | i < |p.rows|
      ensures IncomeDesk(p).links[i] == (incomes[..at] + incomes[at + 1..])[i]
      ensures ExpenseDesk(p).links[i] == (expenses[..at] + expenses[at + 1..])[i]
    {
      assert p.rows[i] == if i < at then b.rows[i] else b.rows[i + 1];
    }
  }

  lemma DiscardKeepsWellLinked(b: Books, at: nat)
    requires WellLinked(b) && at < |b.rows|
    ensures WellLinked(Discarded(b, at))
  {
    DiscardedDesks(b, at);
    DeleteKeepsSound(IncomeDesk(b), IncomeDesk(Discarded(b, at)), at);
    DeleteKeepsSound(ExpenseDesk(b), ExpenseDesk(Discarded(b, at)), at);
  }

  /** The tables may lose or change records elsewhere; no link appears from that. */
  lemma TablesOnlyKeepWellLinked(b: Books, p: Books)
    requires WellLinked(b) && p.rows == b.rows && p.nextIncome == b.nextIncome && p.nextExpense == b.nextExpense
    requires p.incomes.Keys <= b.incomes.Keys && p.expenses.Keys <= b.expenses.Keys
    ensures WellLinked(p)
  {
    assert IncomeDesk(p).links == IncomeDesk(b).links;
    assert ExpenseDesk(p).links == ExpenseDesk(b).links;
    assert forall id | id in p.incomes :: id in b.incomes;
    assert forall id | id in p.expenses :: id in b.expenses;
  }

  lemma LinkIncomeKeepsWellLinked(w: World, id: nat, kind: string, text: Option<string>)
    requires WellLinked(w.books)
    ensures WellLinked(AfterLinkIncome(w, id, kind, text).0.books)
  {
    var i := PlaceOf(w.books.rows, id);
    if i.Some? && w.books.rows[i.value].income.None? { IncomeLinkedKeepsWellLinked(w.books, i.value, kind, text); }
  }

  lemma LinkExpenseKeepsWellLinked(w: World, id: nat, category: Option<nat>)
    requires WellLinked(w.books)
    ensures WellLinked(AfterLinkExpense(w, id, category).0.books)
  {
    var i := PlaceOf(w.books.rows, id);
    if i.Some? && w.books.rows[i.value].expense.None? { ExpenseLinkedKeepsWellLinked(w.books, i.value, category); }
  }

  lemma LinkLoanKeepsWellLinked(w: World, ids: set<nat>, existing: Option<nat>, terms: LoanTerms)
    requires WellLinked(w.books)
    ensures WellLinked(AfterLinkLoan(w, ids, existing, terms).0.books)
  {
    var b := w.books;
    var first := FirstChosen(b.rows, ids);
    if first.Some? {
      if existing.Some? {
        LoanLinkedKeepsWellLinked(b, ids, existing.value);
      } else {
        var grown := LoanOpened(b, OpeningOf(b.rows, ids, first.value, terms));
        TablesOnlyKeepWellLinked(b, grown);
        LoanLinkedKeepsWellLinked(grown, ids, b.nextLoan);
      }
    }
  }

  lemma ExcludeKeepsWellLinked(w: World, id: nat, note: string)
    requires WellLinked(w.books)
    ensures WellLinked(AfterExclude(w, id, note).0.books)
  {
    var i := PlaceOf(w.books.rows, id);
    if i.Some? { SetAsideKeepsWellLinked(w.books, i.value, note); }
  }

  lemma ResetKeepsWellLinked(w: World, id: nat, c: Config)
    requires WellLinked(w.books)
    ensures WellLinked(AfterReset(w, id, c).0.books)
  {
    var i := PlaceOf(w.books.rows, id);
    if i.Some? {
      HandedBackKeepsWellLinked(w.books, i.value);
      PassKeepsWellLinked(HandedBack(w.books, i.value), EnvOf(w, c));
    }
  }

  lemma ConfirmKeepsWellLinked(w: World, id: nat, c: Config)
    requires WellLinked(w.books)
    ensures WellLinked(AfterConfirm(w, id, c).0.books)
  {
    PassKeepsWellLinked(w.books, EnvOf(w.(imports := Confirmed(w.imports, id)), c));
  }

  lemma RemoveKeepsWellLinked(w: World, id: nat, c: Config)
    requires WellLinked(w.books)
    ensures WellLinked(AfterRemove(w, id, c).0.books)
  {
    PassKeepsWellLinked(w.books, EnvOf(w.(imports := Removed(w.imports, id)), c));
  }

  /** A record entered by hand takes the next id, and no row points at it. */
  lemma EntryKeepsWellLinked(w: World, op: Op, c: Config)
    requires WellLinked(w.books) && (op.AddIncome? || op.AddExpense? || op.AddLoan?)
    ensures WellLinked(Do(w, op, c).0.books)
  {
    var b, p := w.books, Do(w, op, c).0.books;
    assert IncomeDesk(p).links == IncomeDesk(b).links && ExpenseDesk(p).links == ExpenseDesk(b).links;
    EntryKeepsSound(IncomeDesk(b), IncomeDesk(p));
    EntryKeepsSound(ExpenseDesk(b), ExpenseDesk(p));
  }

  lemma EntryKeepsSound<R>(d: Desk<R>, e: Desk<R>)
    requires Sound(d) && e.links == d.links && d.next <= e.next && forall id | id in e.records :: id in d.records || id < e.next
    ensures Sound(e)
  {
  }

  lemma OutsideStepKeepsWellLinked(w: World, op: Op, c: Config)
    requires WellLinked(w.books) && (op.DeleteIncome? || op.DeleteExpense? || op.DeleteLoan? || op.EditIncome? || op.EditExpense?)
    ensures WellLinked(Do(w, op, c).0.books)
  {
    TablesOnlyKeepWellLinked(w.books, Do(w, op, c).0.books);
  }

  lemma RowStepKeepsWellLinked(w: World, op: Op, c: Config)
    requires WellLinked(w.books) && (op.ReceiveRow? || op.DiscardRow?)
    ensures WellLinked(Do(w, op, c).0.books)
  {
    if op.ReceiveRow? {
      if CanReceive(w.books, op.at, op.row) { ReceiveKeepsWellLinked(w.books, op.at, op.row); }
    } else if PlaceOf(w.books.rows, op.id).Some? {
      DiscardKeepsWellLinked(w.books, PlaceOf(w.books.rows, op.id).value);
    }
  }

  /** What other modules do. */
  predicate Elsewhere(op: Op) {
    !op.ResolveAll? && !op.LinkIncome? && !op.LinkExpense? && !op.LinkLoan? && !op.Exclude? && !op.Reset? && !op.ConfirmImport? && !op.RemoveImport?
  }

  lemma ElsewhereKeepsWellLinked(w: World, op: Op, c: Config)
    requires WellLinked(w.books) && Elsewhere(op)
    ensures WellLinked(Do(w, op, c).0.books)
  {
    if op.ReceiveRow? || op.DiscardRow? {
      RowStepKeepsWellLinked(w, op, c);
    } else if op.AddIncome? || op.AddExpense? || op.AddLoan? {
      EntryKeepsWellLinked(w, op, c);
    } else {
      OutsideStepKeepsWellLinked(w, op, c);
    }
  }

  lemma StepKeepsWellLinked(w: World, op: Op, c: Config)
    requires WellLinked(w.books)
    ensures WellLinked(Do(w, op, c).0.books)
  {
    match op
    case ResolveAll => PassKeepsWellLinked(w.books, EnvOf(w, c));
    case LinkIncome(id, kind, text) => LinkIncomeKeepsWellLinked(w, id, kind, text);
    case LinkExpense(id, category) => LinkExpenseKeepsWellLinked(w, id, category);
    case LinkLoan(ids, existing, terms) => LinkLoanKeepsWellLinked(w, ids, existing, terms);
    case Exclude(id, note) => ExcludeKeepsWellLinked(w, id, note);
    case Reset(id) => ResetKeepsWellLinked(w, id, c);
    case ConfirmImport(id) => ConfirmKeepsWellLinked(w, id, c);
    case RemoveImport(id) => RemoveKeepsWellLinked(w, id, c);
    case _ => ElsewhereKeepsWellLinked(w, op, c);
  }

  // ---------- Every run ----------

  /** An operation, under the rules in force when it is asked for. */
  datatype Request = Request(op: Op, config: Config)

  function RunOps(w: World, requests: seq<Request>): World {
    if requests == [] then w
    else
      var last := requests[|requests| - 1];
      Do(RunOps(w, requests[..|requests| - 1]), last.op, last.config).0
  }

  const FRESH := World(Books([], map[], 1, map[], 1, map[], 1), [])

  lemma {:induction false} RunsStayWellLinked(requests: seq<Request>)
    ensures WellLinked(RunOps(FRESH, requests).books)
  {
    if requests != [] {
      var init, last := requests[..|requests| - 1], requests[|requests| - 1];
      RunsStayWellLinked(init);
      StepKeepsWellLinked(RunOps(FRESH, init), last.op, last.config);
    }
  }

  /**
   * Whatever was linked, excluded, reset, confirmed, removed, deleted or edited before, under
   * whatever rules, a resolve pass leaves every row with a meaning, a record exactly where the
   * meaning says, and the script's eight structural checks passing.
   */
  lemma AnyRunThenResolveAgrees(requests: seq<Request>, c: Config, creditRows: nat)
    ensures var w := RunOps(FRESH, requests);
      var r := VerifyUser(Resolved(w, c).books, creditRows);
      && Agreed(Resolved(w, c).books)
      && r.everyRowResolved && r.noSilentRow && r.depositsAddUp && r.withdrawalsAddUp
      && r.incomesPresent && r.expensesPresent && r.noStrayRecord && r.noDoubleCount
  {
    var w := RunOps(FRESH, requests);
    RunsStayWellLinked(requests);
    EveryRowIsResolved(w.books, EnvOf(w, c));
    ScriptAfterPass(w.books, EnvOf(w, c), creditRows);
  }

  // ---------- Two links, and the way back ----------

  /** A row of refunded interest, as an import stores it. */
  function RefundRow(): BankRow {
    BankRow(1, 5, Some("refund"), 80, Deposit, InterestCredit, None, None, Pending, None, None, None, None, None)
  }

  ghost predicate ReadsRefund(c: Config) {
    c.rules.classify(Some("refund"), Deposit) == LineClass(InterestCredit, None)
  }

  lemma OneMoreRequest(w: World, requests: seq<Request>, last: Request)
    ensures RunOps(w, requests + [last]) == Do(RunOps(w, requests), last.op, last.config).0
  {
    assert (requests + [last])[..|requests|] == requests;
  }

  lemma RefundIsResolved(w: World, c: Config, b: Books)
    requires ReadsRefund(c) && w.books.rows == [RefundRow()] && WellLinked(w.books) && b == Resolved(w, c).books
    ensures |b.rows| == 1 && b.rows[0].id == 1 && b.rows[0].direction == Deposit
    ensures b.rows[0].expense.Some? && b.rows[0].income.None?
  {
    PassRow(w.books, EnvOf(w, c), 0);
    RowIsResolved(w.books, EnvOf(w, c), 0);
    PassKeepsIdentity(w.books, EnvOf(w, c), 0);
  }

  lemma RefundIsStored(c: Config)
    ensures RunOps(FRESH, [Request(ReceiveRow(0, RefundRow()), c)]).books.rows == [RefundRow()]
  {
    OneMoreRequest(FRESH, [], Request(ReceiveRow(0, RefundRow()), c));
    assert [] + [Request(ReceiveRow(0, RefundRow()), c)] == [Request(ReceiveRow(0, RefundRow()), c)];
  }

  /**
   * Linking an income does not look at the expense a row already has: a refund of interest,
   * received, resolved and then promoted to income, ends with both. The next pass leaves it one.
   */
  lemma LinkingCanLeaveTwoLinks(requests: seq<Request>, c: Config, kind: string)
    requires ReadsRefund(c)
    requires requests == [Request(ReceiveRow(0, RefundRow()), c), Request(ResolveAll, c), Request(LinkIncome(1, kind, None), c)]
    ensures var b := RunOps(FRESH, requests).books;
      && |b.rows| == 1 && b.rows[0].income.Some? && b.rows[0].expense.Some?
      && Agreed(Resolved(RunOps(FRESH, requests), c).books)
  {
    var received := RunOps(FRESH, requests[..1]);
    assert requests[..1] == [requests[0]] && requests[..2] == requests[..1] + [requests[1]] && requests == requests[..2] + [requests[2]];
    RefundIsStored(c);
    RunsStayWellLinked(requests[..1]);
    OneMoreRequest(FRESH, requests[..1], requests[1]);
    RefundIsResolved(received, c, Resolved(received, c).books);
    OneMoreRequest(FRESH, requests[..2], requests[2]);
    AnyRunThenResolveAgrees(requests, c, 0);
  }
}
