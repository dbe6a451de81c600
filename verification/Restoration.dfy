/** What one operation does, another undoes: exclusions and credit statements. */
module Restoration {
  import opened Common
  import opened BankRows
  import opened DecisionPolicy
  import opened Books
  import opened Resolver
  import opened ResolverTheorems
  import opened Fixpoint
  import opened Foreseen
  import opened Operations
  import opened LedgerRuns
  import Calendar
  import CreditCoverage

  /** Row j carries the same meaning in both books (its status and note too, unless the user set it aside). */
  ghost predicate MeansTheSame(back: Books, plain: Books, before: Books, j: nat) {
    && j < |before.rows| && j < |back.rows| && j < |plain.rows|
    && back.rows[j].resolution == plain.rows[j].resolution
    && (!Manual(before.rows[j]) ==> SameMeaning(back.rows[j], plain.rows[j]))
  }

  // ---------- Exclude, then reset ----------

  /** A row that starts over is reclassified just when it would have been anyway, or need not be. */
  predicate StartsOverAlike(row: BankRow, env: Env) {
    env.nullsSeen || row.resolution.None? || KindCurrent(row, env.rules)
  }

  lemma OnlyThatRowLetGo(b: Books, i: nat, note: string, a: Books)
    requires WellLinked(b) && i < |b.rows| && a == HandedBack(SetAside(b, i, note), i)
    ensures WellLinked(a) && |a.rows| == |b.rows|
    ensures a.incomes == WithoutRecords(b, i).incomes && a.expenses == WithoutRecords(b, i).expenses
    ensures forall j | 0 <= j < |b.rows| && j != i :: a.rows[j] == b.rows[j]
    ensures SameFacts(a.rows[i], b.rows[i]) && a.rows[i].kind == b.rows[i].kind && a.rows[i].loanRef == b.rows[i].loanRef
    ensures a.rows[i].resolution.None? && a.rows[i].income.None? && a.rows[i].expense.None?
  {
    SetAsideKeepsWellLinked(b, i, note);
    HandedBackKeepsWellLinked(SetAside(b, i, note), i);
  }

  lemma StartsOverWithSameInputs(b: Books, i: nat, a: Books, env: Env)
    requires i < |b.rows| == |a.rows| && !Manual(b.rows[i]) && StartsOverAlike(b.rows[i], env)
    requires forall j | 0 <= j < |b.rows| && j != i :: a.rows[j] == b.rows[j]
    requires SameFacts(a.rows[i], b.rows[i]) && a.rows[i].kind == b.rows[i].kind && a.rows[i].loanRef == b.rows[i].loanRef && a.rows[i].resolution.None?
    ensures AllSameInputs(Refreshed(a, env).rows, Refreshed(b, env).rows)
  {
  }

  /** Nobody else's record goes with the row's own. */
  lemma OthersStartAlike(b: Books, i: nat, a: Books, j: nat)
    requires WellLinked(b) && i < |b.rows| == |a.rows| && j < |b.rows| && j != i && a.rows[j] == b.rows[j]
    requires a.incomes == WithoutRecords(b, i).incomes && a.expenses == WithoutRecords(b, i).expenses
    ensures IncomeStart(a, j) == IncomeStart(b, j) && (ExpenseMissing(a, j) <==> ExpenseMissing(b, j))
  {
    assert IncomeDesk(b).links[j] == b.rows[j].income && IncomeDesk(b).links[i] == b.rows[i].income;
    assert ExpenseDesk(b).links[j] == b.rows[j].expense && ExpenseDesk(b).links[i] == b.rows[i].expense;
  }

  /** The row's record, as far as decision `t` keeps it, is there and says what a new one would. */
  predicate AsIfNew(b: Books, i: nat, t: Option<Target>)
    requires i < |b.rows|
  {
    t.Some? ==>
      && (t.value.record == IncomeRecord ==> IncomeStart(b, i) == Some(b.rows[i].amount))
      && (t.value.record == ExpenseRecord ==> !ExpenseMissing(b, i))
  }

  /**
   * Excluding a row and resetting it again restores the meaning of every row and the linked
   * amount of every other row. The row's own linked amount comes back exactly when its record
   * was there and, for an income, nobody had edited it.
   */
  lemma ExcludeThenResetRestores(b: Books, i: nat, note: string, env: Env, j: nat)
    requires WellLinked(b) && i < |b.rows| && !Manual(b.rows[i]) && j < |b.rows| && StartsOverAlike(b.rows[i], env)
    ensures var undone, plain := Pass(HandedBack(SetAside(b, i, note), i), env), Pass(b, env);
      && MeansTheSame(undone, plain, b, j)
      && (OwnedAmount(undone, j) == OwnedAmount(plain, j) <==> j != i || AsIfNew(b, i, DecisionFor(b, env, i)))
  {
    var a := HandedBack(SetAside(b, i, note), i);
    OnlyThatRowLetGo(b, i, note, a);
    StartsOver(b, i, a, env, j);
  }

  lemma StartsOver(b: Books, i: nat, a: Books, env: Env, j: nat)
    requires WellLinked(b) && WellLinked(a) && i < |b.rows| == |a.rows| && !Manual(b.rows[i]) && j < |b.rows| && StartsOverAlike(b.rows[i], env)
    requires a.incomes == WithoutRecords(b, i).incomes && a.expenses == WithoutRecords(b, i).expenses
    requires forall k | 0 <= k < |b.rows| && k != i :: a.rows[k] == b.rows[k]
    requires SameFacts(a.rows[i], b.rows[i]) && a.rows[i].kind == b.rows[i].kind && a.rows[i].loanRef == b.rows[i].loanRef
    requires a.rows[i].resolution.None? && a.rows[i].income.None? && a.rows[i].expense.None?
    ensures MeansTheSame(Pass(a, env), Pass(b, env), b, j)
    ensures OwnedAmount(Pass(a, env), j) == OwnedAmount(Pass(b, env), j) <==> j != i || AsIfNew(b, i, DecisionFor(b, env, i))
  {
    StartsOverWithSameInputs(b, i, a, env);
    HistoryIndependence(b, a, env, j);
    StartsAlikeIff(b, i, a, j, DecisionFor(b, env, j));
  }

  lemma StartsAlikeIff(b: Books, i: nat, a: Books, j: nat, t: Option<Target>)
    requires WellLinked(b) && i < |b.rows| == |a.rows| && j < |b.rows|
    requires a.incomes == WithoutRecords(b, i).incomes && a.expenses == WithoutRecords(b, i).expenses
    requires j != i ==> a.rows[j] == b.rows[j]
    requires a.rows[i].income.None? && a.rows[i].expense.None? && a.rows[i].amount == b.rows[i].amount
    ensures SameStart(b, a, j, t) <==> j != i || AsIfNew(b, i, t)
  {
    if j != i { OthersStartAlike(b, i, a, j); }
  }

  lemma {:induction false} PlaceStays(rows: seq<BankRow>, other: seq<BankRow>, id: nat)
    requires |rows| == |other| && forall i | 0 <= i < |rows| :: rows[i].id == other[i].id
    ensures PlaceOf(rows, id) == PlaceOf(other, id)
  {
    if rows != [] {
      PlaceStays(rows[..|rows| - 1], other[..|other| - 1], id);
    }
  }

  /** The same for the two requests themselves. */
  lemma ExcludeThenResetRequests(w: World, id: nat, note: string, c: Config, j: nat)
    requires WellLinked(w.books) && PlaceOf(w.books.rows, id).Some? && j < |w.books.rows|
    requires var i := PlaceOf(w.books.rows, id).value; !Manual(w.books.rows[i]) && StartsOverAlike(w.books.rows[i], EnvOf(w, c))
    ensures var i, reset, plain := PlaceOf(w.books.rows, id).value, AfterReset(AfterExclude(w, id, note).0, id, c), Resolved(w, c).books;
      && reset.1 == Ok && MeansTheSame(reset.0.books, plain, w.books, j)
      && (OwnedAmount(reset.0.books, j) == OwnedAmount(plain, j) <==> j != i || AsIfNew(w.books, i, DecisionFor(w.books, EnvOf(w, c), i)))
  {
    var i := PlaceOf(w.books.rows, id).value;
    PlaceStays(w.books.rows, SetAside(w.books, i, note).rows, id);
    ExcludeThenResetRestores(w.books, i, note, EnvOf(w, c), j);
  }

  // ---------- Confirm a credit statement, then remove it ----------

  lemma {:induction false} ConfirmedThenRemoved(imports: seq<CreditImport>, id: nat)
    requires forall i | 0 <= i < |imports| :: imports[i].id == id ==> !imports[i].confirmed
    ensures ConfirmedRows(Removed(Confirmed(imports, id), id)) == ConfirmedRows(imports)
  {
    if imports != [] {
      var init, last := imports[..|imports| - 1], imports[|imports| - 1];
      ConfirmedThenRemoved(init, id);
      assert Confirmed(imports, id)[..|imports| - 1] == Confirmed(init, id);
      var kept := Removed(Confirmed(init, id), id);
      if last.id != id {
        assert Removed(Confirmed(imports, id), id) == kept + [last];
        assert (kept + [last])[..|kept + [last]| - 1] == kept;
      } else {
        assert Removed(Confirmed(imports, id), id) == kept;
      }
    }
  }

  /** Two environments that differ in credit statements alone. */
  ghost predicate OnlyCreditDiffers(env: Env, other: Env) {
    env.rules == other.rules && env.nullsSeen == other.nullsSeen
  }

  /** After a pass the rows read, to the next pass, as they read to this one. */
  lemma PassReadsTheSame(b: Books, env: Env, other: Env)
    requires KindsCurrent(Refreshed(b, env).rows, env.rules) && OnlyCreditDiffers(env, other)
    ensures AllSameInputs(Refreshed(Pass(b, other), env).rows, Refreshed(b, env).rows)
  {
    assert Refreshed(b, other).rows == Refreshed(b, env).rows;
    PassKeepsInputs(b, other);
    KindsStayCurrent(Refreshed(b, other).rows, Pass(b, other).rows, env.rules);
    CurrentNeedsNoRefresh(Pass(b, other), env);
  }

  lemma OnlyBillsDependOnCredit(b: Books, env: Env, other: Env, j: nat)
    requires j < |b.rows| && OnlyCreditDiffers(env, other)
    ensures DecisionFor(b, env, j) == DecisionFor(b, other, j) || Refreshed(b, env).rows[j].kind == CreditCardPayment
    ensures DecisionFor(b, env, j).None? <==> DecisionFor(b, other, j).None?
  {
    assert Refreshed(b, other).rows == Refreshed(b, env).rows;
    PassRow(b, env, j);
    PassRow(b, other, j);
    CreditDecidesBillsOnly(Reclassified(b.rows[j], env), ContextFor(Refreshed(b, env).rows, env), ContextFor(Refreshed(b, env).rows, other));
  }

  lemma CreditDecidesBillsOnly(row: BankRow, a: Context, b: Context)
    requires a.rules == b.rules && a.held == b.held && a.atypical == b.atypical
    ensures DecideTarget(row, a) == DecideTarget(row, b) || row.kind == CreditCardPayment
  {
  }

  lemma BillsAreNeverIncome(b: Books, env: Env, j: nat)
    requires j < |b.rows| && Refreshed(b, env).rows[j].kind == CreditCardPayment && DecisionFor(b, env, j).Some?
    ensures DecisionFor(b, env, j).value.record != IncomeRecord
  {
    PassRow(b, env, j);
    PolicyIsConsistent(Reclassified(b.rows[j], env), ContextFor(Refreshed(b, env).rows, env));
  }

  /** A bill counted as spend whose expense was deleted: settled in between, it would get a new one. */
  predicate MendedOnTheWay(b: Books, env: Env, other: Env, j: nat)
    requires j < |b.rows|
  {
    var t, between := DecisionFor(b, env, j), DecisionFor(b, other, j);
    t.Some? && between.Some? && t.value.record == ExpenseRecord && ExpenseMissing(b, j) && between.value.record != ExpenseRecord
  }

  lemma DetourStart(b: Books, env: Env, other: Env, j: nat)
    requires WellLinked(b) && j < |b.rows| && OnlyCreditDiffers(env, other)
    ensures SameStart(Pass(b, other), b, j, DecisionFor(b, env, j)) <==> !MendedOnTheWay(b, env, other, j)
  {
    OnlyBillsDependOnCredit(b, env, other, j);
    PassLinks(b, other, j);
    PassKeepsIdentity(b, other, j);
    if DecisionFor(b, env, j).Some? && Refreshed(b, env).rows[j].kind == CreditCardPayment { BillsAreNeverIncome(b, env, j); }
    if Pass(b, other).rows[j].income.Some? { OwnedIncomeAfter(b, other, j); }
    if Pass(b, other).rows[j].expense.Some? { OwnedExpenseAfter(b, other, j); }
  }

  /**
   * A pass under other credit statements changes no meaning once a pass under the old ones
   * has run, and no linked amount but that of a bill it mended.
   */
  lemma DetourLeavesNoTrace(b: Books, env: Env, other: Env, j: nat)
    requires WellLinked(b) && KindsCurrent(Refreshed(b, env).rows, env.rules) && OnlyCreditDiffers(env, other) && j < |b.rows|
    ensures var back, plain := Pass(Pass(b, other), env), Pass(b, env);
      && MeansTheSame(back, plain, b, j)
      && (OwnedAmount(back, j) == OwnedAmount(plain, j) <==> !MendedOnTheWay(b, env, other, j))
  {
    PassKeepsWellLinked(b, other);
    PassReadsTheSame(b, env, other);
    PassKeepsIdentity(b, other, j);
    SameMeaningReached(Pass(b, other), b, env, j);
    HistoryIndependence(Pass(b, other), b, env, j);
    DetourStart(b, env, other, j);
  }

  /**
   * Confirming a credit statement and removing it again restores every meaning, and every
   * linked amount but that of a bill whose deleted expense the confirmation made good.
   */
  lemma ConfirmThenRemoveRestores(w: World, id: nat, c: Config, j: nat, more: World)
    requires WellLinked(w.books) && KindsCurrent(Refreshed(w.books, EnvOf(w, c)).rows, c.rules)
    requires HasImport(w.imports, id) && !IsConfirmed(w.imports, id) && j < |w.books.rows|
    requires more == w.(imports := Confirmed(w.imports, id))
    ensures var (confirmed, yes) := AfterConfirm(w, id, c);
      var (removed, gone) := AfterRemove(confirmed, id, c);
      var back, plain := removed.books, Resolved(w, c).books;
      && yes == Ok && gone == Ok && MeansTheSame(back, plain, w.books, j)
      && (OwnedAmount(back, j) == OwnedAmount(plain, j) <==> !MendedOnTheWay(w.books, EnvOf(w, c), EnvOf(more, c), j))
  {
    ConfirmedAndRemoved(w, id, c, more);
    DetourLeavesNoTrace(w.books, EnvOf(w, c), EnvOf(more, c), j);
  }

  lemma ConfirmRuns(w: World, id: nat, c: Config, more: World)
    requires HasImport(w.imports, id) && !IsConfirmed(w.imports, id) && more == w.(imports := Confirmed(w.imports, id))
    ensures AfterConfirm(w, id, c) == (Resolved(more, c), Ok) && HasImport(more.imports, id)
  {
    var k :| 0 <= k < |w.imports| && w.imports[k].id == id;
    assert more.imports[k].id == id;
  }

  lemma RemoveRuns(w: World, id: nat, c: Config, credit: seq<CreditCoverage.CreditRow>)
    requires HasImport(w.imports, id) && credit == ConfirmedRows(Removed(w.imports, id))
    ensures AfterRemove(w, id, c).1 == Ok && AfterRemove(w, id, c).0.books == Pass(w.books, Env(c.rules, credit, c.nullsSeen))
  {
  }

  /** The two requests run two passes: under the larger set of statements, and under the first one again. */
  lemma ConfirmedAndRemoved(w: World, id: nat, c: Config, more: World)
    requires HasImport(w.imports, id) && !IsConfirmed(w.imports, id) && more == w.(imports := Confirmed(w.imports, id))
    ensures AfterConfirm(w, id, c) == (Resolved(more, c), Ok)
    ensures AfterRemove(Resolved(more, c), id, c).1 == Ok
    ensures AfterRemove(Resolved(more, c), id, c).0.books == Pass(Pass(w.books, EnvOf(more, c)), EnvOf(w, c))
  {
    ConfirmedThenRemoved(w.imports, id);
    ConfirmRuns(w, id, c, more);
    RemoveRuns(Resolved(more, c), id, c, ConfirmedRows(w.imports));
  }

  // ---------- What one more credit statement can change ----------

  /** The row settles a card whose statements had no charge date and itemized its month; the new rows bring the card charge dates, none near it. */
  ghost predicate FirstChargeMissesBill(row: BankRow, fewer: Env, more: Env) {
    var ref := fewer.rules.cardRef(row.description);
    && ref.last4.Some?
    && !CreditCoverage.HasChargeDate(fewer.credit, ref.last4.value) && CreditCoverage.HasChargeDate(more.credit, ref.last4.value)
    && CreditCoverage.ItemizedIn(fewer.credit, ref.last4.value, Calendar.MonthOf(row.day))
    && !CreditCoverage.CardChargedNear(more.credit, ref.last4.value, row.day)
  }

  /** The statements do not cover the bill yet, and with the new rows do. */
  ghost predicate NewRowsCoverBill(row: BankRow, fewer: Env, more: Env) {
    var ref := fewer.rules.cardRef(row.description);
    !CreditCoverage.Covered(fewer.credit, ref, row.day) && CreditCoverage.Covered(more.credit, ref, row.day)
  }

  ghost predicate IsBill(row: BankRow, env: Env) {
    !Manual(row) && Reclassified(row, env).kind == CreditCardPayment
  }

  /**
   * More confirmed credit rows settle exactly the bills they cover and un-settle exactly
   * those whose card they bring its first charge dates, none near the bill, where the
   * bill's month was itemized without one. No other row's resolution changes.
   */
  lemma MoreStatementsOnlySettle(b: Books, fewer: Env, more: Env, j: nat)
    requires OnlyCreditDiffers(fewer, more) && (forall row | row in fewer.credit :: row in more.credit) && j < |b.rows|
    ensures var before, after := Pass(b, fewer).rows[j].resolution, Pass(b, more).rows[j].resolution;
      && (before != after ==> IsBill(b.rows[j], fewer) && {before, after} == {Some(CreditCardSettled), Some(CreditCardUnitemized)})
      && (before == Some(CreditCardUnitemized) && after == Some(CreditCardSettled) <==> IsBill(b.rows[j], fewer) && NewRowsCoverBill(b.rows[j], fewer, more))
      && (before == Some(CreditCardSettled) && after == Some(CreditCardUnitemized) <==> IsBill(b.rows[j], fewer) && FirstChargeMissesBill(b.rows[j], fewer, more))
  {
    PassSettlesIff(b, fewer, fewer, j);
    PassSettlesIff(b, more, fewer, j);
    OnlyBillsDependOnCredit(b, fewer, more, j);
    var ref := fewer.rules.cardRef(b.rows[j].description);
    CreditCoverage.VerdictIsCoverage(fewer.credit, ref, b.rows[j].day);
    CreditCoverage.VerdictIsCoverage(more.credit, ref, b.rows[j].day);
    CreditCoverage.MoreRowsKeepCover(fewer.credit, more.credit, ref, b.rows[j].day);
    PassDecides(b, fewer, j);
    PassDecides(b, more, j);
  }

  /** A bill, and nothing else, is settled or unitemized, by whether the statements cover it. */
  lemma PassSettlesIff(b: Books, env: Env, first: Env, j: nat)
    requires OnlyCreditDiffers(first, env) && j < |b.rows|
    ensures var after, covered := Pass(b, env).rows[j].resolution, CreditCoverage.Covered(env.credit, env.rules.cardRef(b.rows[j].description), b.rows[j].day);
      && (after == Some(CreditCardSettled) <==> IsBill(b.rows[j], first) && covered)
      && (after == Some(CreditCardUnitemized) <==> IsBill(b.rows[j], first) && !covered)
  {
    PassDecides(b, env, j);
    BillsBySettlement(Reclassified(b.rows[j], env), ContextFor(Refreshed(b, env).rows, env), env);
  }

  lemma BillsBySettlement(row: BankRow, ctx: Context, env: Env)
    requires ctx.rules == env.rules && ctx.coverage == CreditCoverage.CoverageOf(env.credit)
    ensures var meaning, covered := DecideTarget(row, ctx).resolution, CreditCoverage.Covered(env.credit, env.rules.cardRef(row.description), row.day);
      && (meaning == CreditCardSettled <==> row.kind == CreditCardPayment && covered)
      && (meaning == CreditCardUnitemized <==> row.kind == CreditCardPayment && !covered)
  {
    CreditCoverage.VerdictIsCoverage(env.credit, env.rules.cardRef(row.description), row.day);
  }

  lemma PassDecides(b: Books, env: Env, j: nat)
    requires j < |b.rows|
    ensures Pass(b, env).rows[j].resolution ==
      if Manual(b.rows[j]) then Some(ManualExcluded)
      else Some(DecideTarget(Reclassified(b.rows[j], env), ContextFor(Refreshed(b, env).rows, env)).resolution)
  {
    PassRow(b, env, j);
  }

  // ---------- A bill un-settled ----------

  /** The books of a household with one card bill, on day 10. */
  function OneBill(): Books {
    Books([BankRow(1, 10, Some("card 1234"), 900, Withdrawal, CreditCardPayment, None, None, Pending, None, None, None, None, None)],
          map[], 1, map[], 1, map[], 1)
  }

  lemma OneBillReads(b: Books, env: Env)
    requires b == OneBill() && env.rules.classify(Some("card 1234"), Withdrawal) == LineClass(CreditCardPayment, None)
    ensures WellLinked(b) && IsBill(b.rows[0], env)
  {
  }

  /** Confirming a later statement turns a settled bill back into counted spend. */
  lemma LaterStatementUnsettles(b: Books, fewer: Env, more: Env, ref: CreditCoverage.CardRef)
    requires b == OneBill() && OnlyCreditDiffers(fewer, more)
    requires fewer.rules.classify(Some("card 1234"), Withdrawal) == LineClass(CreditCardPayment, None)
    requires fewer.rules.cardRef(Some("card 1234")) == ref && ref.last4 == Some("1234")
    requires fewer.credit == [CreditCoverage.CreditRow(Some(CreditCoverage.CardTag("1234", "card")), None, 10)]
    requires more.credit == fewer.credit + [CreditCoverage.CreditRow(Some(CreditCoverage.CardTag("1234", "card")), Some(100), 100)]
    ensures WellLinked(b)
    ensures Pass(b, fewer).rows[0].resolution == Some(CreditCardSettled) && Pass(b, more).rows[0].resolution == Some(CreditCardUnitemized)
  {
    OneBillReads(b, fewer);
    CreditCoverage.LaterChargeUncovers(fewer.credit, more.credit, ref);
    CreditCoverage.VerdictIsCoverage(fewer.credit, ref, 10);
    CreditCoverage.VerdictIsCoverage(more.credit, ref, 10);
    PassSettlesIff(b, fewer, fewer, 0);
    PassSettlesIff(b, more, fewer, 0);
  }
}
