/** The reconciliation service: the tables as fields, each operation a method that updates them in place. */
module ReconciliationService {
  import opened Common
  import opened BankRows
  import opened DecisionPolicy
  import opened Books
  import opened LinkedTable
  import opened Resolver
  import opened ResolverTheorems
  import opened Fixpoint
  import opened MoneyCheck
  import opened Operations
  import opened LedgerRuns
  import CreditCoverage

  const ALL_RESOLUTIONS: set<Resolution> := {
    Income, Expense, FinancingCharge, FinancingCredit, DebtReduction, LoanRepaymentUnsplit,
    LoanReceived, CreditCardSettled, CreditCardUnitemized, InternalTransfer, ManualExcluded}

  lemma EveryResolutionIsListed(r: Resolution)
    ensures r in ALL_RESOLUTIONS
  {
  }

  datatype Tally = Tally(count: nat, total: int)
  datatype ResolveResult = ResolveResult(changed: nat, buckets: map<Resolution, Tally>, unresolved: Tally)

  function NoBuckets(): map<Resolution, Tally> {
    map r | r in ALL_RESOLUTIONS :: Tally(0, 0)
  }

  function CountOf(rows: seq<BankRow>, r: Option<Resolution>): nat {
    if rows == [] then 0 else CountOf(rows[..|rows| - 1], r) + if rows[|rows| - 1].resolution == r then 1 else 0
  }

  /** The tallies of the rows with each resolution, read off the rows. */
  function TalliesOf(rows: seq<BankRow>): map<Resolution, Tally> {
    map r | r in ALL_RESOLUTIONS :: Tally(CountOf(rows, Some(r)), Bucket(rows, r))
  }

  function Unresolved(rows: seq<BankRow>): Tally {
    Tally(CountOf(rows, None), SumOf(rows, (row: BankRow) => row.resolution.None?))
  }

  lemma {:induction false} ResolvedMeansNoneLeft(rows: seq<BankRow>)
    requires forall i | 0 <= i < |rows| :: rows[i].resolution.Some?
    ensures Unresolved(rows) == Tally(0, 0)
  {
    if rows != [] {
      ResolvedMeansNoneLeft(rows[..|rows| - 1]);
    }
  }

  ghost predicate Tallied(buckets: map<Resolution, Tally>, rows: seq<BankRow>) {
    buckets == TalliesOf(rows)
  }

  function AddToBucket(buckets: map<Resolution, Tally>, r: Resolution, amount: int): map<Resolution, Tally> {
    if r in buckets then buckets[r := Tally(buckets[r].count + 1, buckets[r].total + amount)] else buckets
  }

  lemma OneMoreDone<T>(before: seq<T>, after: seq<T>, i: nat)
    requires i < |before| == |after| && after == before[i := after[i]]
    ensures after[..i + 1] == before[..i] + [after[i]]
  {
  }

  lemma TalliesGrow(buckets: map<Resolution, Tally>, rows: seq<BankRow>, row: BankRow)
    requires Tallied(buckets, rows) && row.resolution.Some?
    ensures Tallied(AddToBucket(buckets, row.resolution.value, row.amount), rows + [row])
  {
    EveryResolutionIsListed(row.resolution.value);
    assert (rows + [row])[..|rows|] == rows;
  }

  class Service {
    const rules: Rules
    const nullsSeen: bool
    var rows: seq<BankRow>
    var incomes: map<nat, IncomeRow>
    var nextIncome: nat
    var expenses: map<nat, ExpenseRow>
    var nextExpense: nat
    var loans: map<nat, LoanRow>
    var nextLoan: nat
    var imports: seq<CreditImport>

    ghost function Tables(): Books
      reads this
    {
      Books(rows, incomes, nextIncome, expenses, nextExpense, loans, nextLoan)
    }

    ghost function State(): World
      reads this
    {
      World(Tables(), imports)
    }

    ghost function Settings(): Config {
      Config(rules, nullsSeen)
    }

    ghost predicate Valid()
      reads this
    {
      WellLinked(Tables())
    }

    constructor (rules: Rules, nullsSeen: bool)
      ensures Valid() && State() == FRESH && this.rules == rules && this.nullsSeen == nullsSeen
    {
      this.rules, this.nullsSeen := rules, nullsSeen;
      rows, incomes, nextIncome, expenses, nextExpense, loans, nextLoan, imports := [], map[], 1, map[], 1, map[], 1, [];
    }

    /** Reclassify every row the query returns; the count of rows that changed. */
    method BackfillClassification() returns (updated: nat)
      modifies this`rows
      ensures rows == Backfilled(old(rows), Env(rules, [], nullsSeen))
      ensures updated == |set i | 0 <= i < |old(rows)| && rows[i] != old(rows)[i]|
    {
      updated := 0;
      ghost var env := Env(rules, [], nullsSeen);
      ghost var touched: set<int> := {};
      for n := 0 to |rows|
        invariant |rows| == |old(rows)|
        invariant forall i | 0 <= i < |rows| :: rows[i] == if i < n then Reclassified(old(rows)[i], env) else old(rows)[i]
        invariant touched == set i | 0 <= i < n && rows[i] != old(rows)[i]
        invariant updated == |touched|
      {
        var row := rows[n];
        if Manual(row) || (row.resolution.None? && !nullsSeen) { continue; }
        var class_ := rules.classify(row.description, if row.direction == Deposit then Deposit else Withdrawal);
        if class_.kind != row.kind || class_.loanRef != row.loanRef {
          rows := rows[n := row.(kind := class_.kind, loanRef := class_.loanRef)];
          updated := updated + 1;
          touched := touched + {n as int};
        }
      }
    }

    /** The income side of one decision: a stale record goes, a missing one is created. */
    method SettleIncome(row: BankRow, t: Target) returns (link: Option<nat>, changed: bool)
      modifies this`incomes, this`nextIncome
      ensures Slot(link, incomes, nextIncome) == SettledSlot(Slot(row.income, old(incomes), old(nextIncome)), IncomePlan(row, Some(t), rules))
      ensures changed <==> link != row.income || incomes != old(incomes) || nextIncome != old(nextIncome)
    {
      link, changed := row.income, false;
      if link.Some? && t.record != IncomeRecord {
        incomes := incomes - {link.value};
        link, changed := None, true;
      }
      if t.record == IncomeRecord && link.None? {
        incomes := incomes[nextIncome := NewIncome(row, t, rules)];
        link, changed := Some(nextIncome), true;
        nextIncome := nextIncome + 1;
      }
    }

    /** The expense side: the same, and an existing record's amount sign and missing category are corrected. */
    method SettleExpense(row: BankRow, t: Target) returns (link: Option<nat>, changed: bool)
      modifies this`expenses, this`nextExpense
      ensures Slot(link, expenses, nextExpense) == SettledSlot(Slot(row.expense, old(expenses), old(nextExpense)), ExpensePlan(row, Some(t)))
      ensures changed <==> link != row.expense || expenses != old(expenses) || nextExpense != old(nextExpense)
    {
      link, changed := row.expense, false;
      if link.Some? && t.record != ExpenseRecord {
        expenses := expenses - {link.value};
        link, changed := None, true;
      }
      if t.record == ExpenseRecord {
        if link.None? {
          expenses := expenses[nextExpense := NewExpense(row, t)];
          link, changed := Some(nextExpense), true;
          nextExpense := nextExpense + 1;
        } else if link.value in expenses {
          var existing := expenses[link.value];
          var data := existing;
          if existing.amount != Wanted(row, t) { data := data.(amount := Wanted(row, t)); }
          if existing.category.None? && t.category.Some? { data := data.(category := t.category); }
          if data != existing {
            expenses := expenses[link.value := data];
            changed := true;
          } else {
            assert expenses == expenses[link.value := data];
          }
        }
      }
    }

    /** Make the tables agree with one decision; whether anything changed. */
    method ApplyTarget(i: nat, t: Target) returns (changed: bool)
      requires i < |rows|
      modifies this`rows, this`incomes, this`nextIncome, this`expenses, this`nextExpense
      ensures Tables() == Applied(old(Tables()), i, t, rules)
      ensures changed <==> Tables() != old(Tables())
    {
      var row := rows[i];
      CarriedSettlesSlot(IncomeDesk(Tables()), i, IncomePlan(row, Some(t), rules));
      CarriedSettlesSlot(ExpenseDesk(Tables()), i, ExpensePlan(row, Some(t)));
      var income, incomeChanged := SettleIncome(row, t);
      var expense, expenseChanged := SettleExpense(row, t);
      changed := incomeChanged || expenseChanged;
      if row.status != t.status || row.resolution != Some(t.resolution) || row.note != Some(t.note) || changed {
        rows := rows[i := row.(status := t.status, resolution := Some(t.resolution), note := Some(t.note), income := income, expense := expense)];
        changed := true;
      }
      assert rows == Applied(old(Tables()), i, t, rules).rows;
    }

    /** One turn of the resolve loop: the row's meaning, and whether the tables had to change for it. */
    method ResolveRow(i: nat, ctx: Context, ghost ready: Books, ghost ts: seq<Option<Target>>)
      returns (applied: bool, resolution: Resolution)
      requires i < |rows| == |ready.rows| && Sound(IncomeDesk(ready)) && Sound(ExpenseDesk(ready)) && ts == TargetsOf(ready.rows, ctx)
      requires Tables() == ResolvedUpTo(ready, ts, i, rules)
      modifies this`rows, this`incomes, this`nextIncome, this`expenses, this`nextExpense
      ensures Tables() == ResolvedUpTo(ready, ts, i + 1, rules)
      ensures ChangedUpTo(ready, ts, i + 1, rules) == ChangedUpTo(ready, ts, i, rules) + if applied then 1 else 0
      ensures |rows| == |ready.rows| && rows == old(rows)[i := rows[i]]
      ensures rows[i].amount == old(rows)[i].amount && rows[i].resolution == Some(resolution)
    {
      NextDecision(ready, ts, i, rules);
      var row := rows[i];
      if row.resolution == Some(ManualExcluded) {
        return false, ManualExcluded;
      }
      var target := DecideTarget(row, ctx);
      ChangeIsCounted(ready, ts, i, rules);
      applied := ApplyTarget(i, target);
      resolution := target.resolution;
    }

    /** The resolve loop, over rows already reclassified. */
    method CarryOut(ctx: Context, ghost ready: Books) returns (changed: nat, buckets: map<Resolution, Tally>)
      requires Tables() == ready && Sound(IncomeDesk(ready)) && Sound(ExpenseDesk(ready))
      modifies this`rows, this`incomes, this`nextIncome, this`expenses, this`nextExpense
      ensures Tables() == ResolvedUpTo(ready, TargetsOf(ready.rows, ctx), |ready.rows|, rules)
      ensures changed == ChangedUpTo(ready, TargetsOf(ready.rows, ctx), |ready.rows|, rules)
      ensures buckets == TalliesOf(rows)
    {
      ghost var ts := TargetsOf(ready.rows, ctx);
      changed, buckets := 0, NoBuckets();
      var n := |rows|;
      assert ResolvedUpTo(ready, ts, 0, rules).rows == ready.rows;
      for i := 0 to n
        invariant |rows| == n && Tables() == ResolvedUpTo(ready, ts, i, rules)
        invariant changed == ChangedUpTo(ready, ts, i, rules)
        invariant Tallied(buckets, rows[..i])
      {
        ghost var before := rows;
        var amount := rows[i].amount;
        var applied, resolution := ResolveRow(i, ctx, ready, ts);
        if applied { changed := changed + 1; }
        OneMoreDone(before, rows, i);
        TalliesGrow(buckets, before[..i], rows[i]);
        buckets := AddToBucket(buckets, resolution, amount);
      }
      assert rows[..n] == rows;
    }

    /** Give every row a meaning and make the other tables agree with it. */
    method ResolveAll() returns (result: ResolveResult)
      requires Valid()
      modifies this`rows, this`incomes, this`nextIncome, this`expenses, this`nextExpense
      ensures Valid()
      ensures Tables() == Pass(old(Tables()), EnvOf(old(State()), Settings()))
      ensures var ready := Refreshed(old(Tables()), EnvOf(old(State()), Settings()));
        result.changed == ChangedUpTo(ready, Decisions(ready.rows, EnvOf(old(State()), Settings())), |ready.rows|, rules)
      ensures result.buckets == TalliesOf(rows) && result.unresolved == Tally(0, 0)
    {
      ghost var env, before := EnvOf(State(), Settings()), Tables();
      ghost var ready := Refreshed(before, env);
      var updated := BackfillClassification();
      assert rows == ready.rows;
      RefreshKeepsDesks(before, env);
      var coverage := CreditCoverage.BuildCreditCoverage(ConfirmedRows(imports));
      var held := FindInternalTransferIds(rows, rules);
      var atypical := FindAtypicalDepositIds(CandidatesOf(rows, held));
      var changed, buckets := CarryOut(Context(rules, coverage, held, atypical), ready);
      PassKeepsWellLinked(before, env);
      EveryRowIsResolved(before, env);
      ResolvedMeansNoneLeft(rows);
      result := ResolveResult(changed, buckets, Unresolved(rows));
    }

    // ---------- What the user does by hand ----------

    /** Promote a deposit into an income of its own. */
    method LinkIncome(id: nat, kind: string, text: Option<string>) returns (answer: Answer)
      requires Valid()
      modifies this`rows, this`incomes, this`nextIncome
      ensures Valid() && (State(), answer) == AfterLinkIncome(old(State()), id, kind, text)
    {
      LinkIncomeKeepsWellLinked(State(), id, kind, text);
      var place := PlaceOf(rows, id);
      if place.None? { return NotFound; }
      var i := place.value;
      if rows[i].direction != Deposit { return BadRequest; }
      if rows[i].income.Some? { return Conflict; }
      incomes := incomes[nextIncome := IncomeRow(rows[i].amount, kind, if text.Some? then text else rows[i].description, rows[i].day, BankImport)];
      rows := rows[i := rows[i].(status := Done, resolution := Some(Income), note := Some(ByHand("income")), income := Some(nextIncome))];
      nextIncome := nextIncome + 1;
      answer := Ok;
    }

    /** Promote an ordinary withdrawal into an expense of its own. */
    method LinkExpense(id: nat, category: Option<nat>) returns (answer: Answer)
      requires Valid()
      modifies this`rows, this`expenses, this`nextExpense
      ensures Valid() && (State(), answer) == AfterLinkExpense(old(State()), id, category)
    {
      LinkExpenseKeepsWellLinked(State(), id, category);
      var place := PlaceOf(rows, id);
      if place.None? { return NotFound; }
      var i := place.value;
      if rows[i].direction != Withdrawal || rows[i].kind != Standard { return BadRequest; }
      if rows[i].expense.Some? { return Conflict; }
      expenses := expenses[nextExpense :=
        ExpenseRow(rows[i].amount, if category.Some? then category else rows[i].category, rows[i].description, rows[i].day, BankImport)];
      rows := rows[i := rows[i].(status := Done, resolution := Some(Expense), note := Some(ByHand("expense")), expense := Some(nextExpense))];
      nextExpense := nextExpense + 1;
      answer := Ok;
    }

    /** The bulk update behind `LinkLoan`. */
    method PointAtLoan(ids: set<nat>, loan: nat)
      modifies this`rows
      ensures Tables() == LoanLinked(old(Tables()), ids, loan)
    {
      ghost var after := LoanLinked(Tables(), ids, loan).rows;
      for i := 0 to |rows|
        invariant |rows| == |after|
        invariant forall j | 0 <= j < i :: rows[j] == after[j]
        invariant forall j | i <= j < |rows| :: rows[j] == old(rows)[j]
      {
        if rows[i].id in ids {
          rows := rows[i := rows[i].(status := Done, loan := Some(loan))];
        }
      }
      assert rows == after;
    }

    /** Link rows to a loan, opening one when none is named; the rows keep their meaning. */
    method LinkLoan(ids: set<nat>, existing: Option<nat>, terms: LoanTerms) returns (answer: Answer)
      requires Valid()
      modifies this`rows, this`loans, this`nextLoan
      ensures Valid() && (State(), answer) == AfterLinkLoan(old(State()), ids, existing, terms)
    {
      LinkLoanKeepsWellLinked(State(), ids, existing, terms);
      var chosen := FirstChosen(rows, ids);
      if chosen.None? { return BadRequest; }
      var loan: nat;
      if existing.Some? {
        if existing.value !in loans { return NotFound; }
        loan := existing.value;
      } else {
        loan := nextLoan;
        loans := loans[nextLoan := OpeningOf(rows, ids, chosen.value, terms)];
        nextLoan := nextLoan + 1;
      }
      PointAtLoan(ids, loan);
      answer := Ok;
    }

    /** Set a row aside: whatever record it created goes, and the resolver leaves it alone from now on. */
    method Exclude(id: nat, note: string) returns (answer: Answer)
      requires Valid()
      modifies this`rows, this`incomes, this`expenses
      ensures Valid() && (State(), answer) == AfterExclude(old(State()), id, note)
    {
      var place := PlaceOf(rows, id);
      if place.None? { return NotFound; }
      var i := place.value;
      SetAsideKeepsWellLinked(Tables(), i, note);
      if rows[i].income.Some? { incomes := incomes - {rows[i].income.value}; }
      if rows[i].expense.Some? { expenses := expenses - {rows[i].expense.value}; }
      rows := rows[i := rows[i].(status := Excluded, resolution := Some(ManualExcluded), note := Some(ByHand(note)),
                                 income := None, loan := None, expense := None)];
      answer := Ok;
    }

    /** Let go of everything the row owns; a loan goes with its last link. */
    method HandBack(i: nat)
      requires i < |rows|
      modifies this`rows, this`incomes, this`expenses, this`loans
      ensures Tables() == HandedBack(old(Tables()), i)
    {
      if rows[i].income.Some? { incomes := incomes - {rows[i].income.value}; }
      if rows[i].expense.Some? { expenses := expenses - {rows[i].expense.value}; }
      if rows[i].loan.Some? {
        if !LoanUsedElsewhere(rows, i, rows[i].loan.value) { loans := loans - {rows[i].loan.value}; }
      }
      rows := rows[i := rows[i].(status := Pending, resolution := None, note := None, income := None, loan := None, expense := None)];
    }

    /** Undo a reconciliation and give the row a meaning again straight away. */
    method Reset(id: nat) returns (answer: Answer)
      requires Valid()
      modifies this`rows, this`incomes, this`nextIncome, this`expenses, this`nextExpense, this`loans
      ensures Valid() && (State(), answer) == AfterReset(old(State()), id, Settings())
    {
      var place := PlaceOf(rows, id);
      if place.None? { return NotFound; }
      HandedBackKeepsWellLinked(Tables(), place.value);
      HandBack(place.value);
      var result := ResolveAll();
      answer := Ok;
    }

    // ---------- Credit statements ----------

    /** A confirmed statement itemizes card bills, so the rows are resolved again. */
    method ConfirmImport(id: nat) returns (answer: Answer)
      requires Valid()
      modifies this
      ensures Valid() && (State(), answer) == AfterConfirm(old(State()), id, Settings())
    {
      if !HasImport(imports, id) { return NotFound; }
      if IsConfirmed(imports, id) { return BadRequest; }
      imports := Confirmed(imports, id);
      var result := ResolveAll();
      answer := Ok;
    }

    /** Without its statement a settled bill becomes visible spend again. */
    method RemoveImport(id: nat) returns (answer: Answer)
      requires Valid()
      modifies this
      ensures Valid() && (State(), answer) == AfterRemove(old(State()), id, Settings())
    {
      if !HasImport(imports, id) { return NotFound; }
      imports := Removed(imports, id);
      var result := ResolveAll();
      answer := Ok;
    }
  }
}
