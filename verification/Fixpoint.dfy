/** A settled state is left alone: what a further pass over resolved rows does, and what it reports. */
module Fixpoint {
  import opened Common
  import opened BankRows
  import opened DecisionPolicy
  import opened Books
  import opened LinkedTable
  import opened Resolver
  import opened ResolverTheorems

  // ---------- What a pass reports as changed ----------

  /** How many of the first `n` decisions find a row that does not already say and own what they ask for. */
  ghost function ChangedUpTo(b: Books, ts: seq<Option<Target>>, n: nat, rules: Rules): nat
    requires |ts| == |b.rows| && n <= |ts|
  {
    if n == 0 then 0
    else ChangedUpTo(b, ts, n - 1, rules) + if ts[n - 1].Some? && !Settled(b, n - 1, ts[n - 1].value, rules) then 1 else 0
  }

  /** Deciding earlier rows does not settle or unsettle a later one. */
  lemma SettledUntilReached(b: Books, ts: seq<Option<Target>>, n: nat, t: Target, rules: Rules)
    requires |ts| == |b.rows| && n < |ts| && Sound(IncomeDesk(b)) && Sound(ExpenseDesk(b))
    ensures Settled(ResolvedUpTo(b, ts, n, rules), n, t, rules) <==> Settled(b, n, t, rules)
  {
    DesksAfter(b, ts, n, rules);
    NextDecision(b, ts, n, rules);
    if b.rows[n].income.Some? {
      OwnedAfter(IncomeDesk(b), IncomePlans(b, ts, rules), n, n, b.rows[n].income.value);
    }
    if b.rows[n].expense.Some? {
      OwnedAfter(ExpenseDesk(b), ExpensePlans(b, ts), n, n, b.rows[n].expense.value);
    }
  }

  /** The report counts exactly the decisions that wrote something. */
  lemma ChangeIsCounted(b: Books, ts: seq<Option<Target>>, n: nat, rules: Rules)
    requires |ts| == |b.rows| && n < |ts| && ts[n].Some? && Sound(IncomeDesk(b)) && Sound(ExpenseDesk(b))
    ensures var p, q := ResolvedUpTo(b, ts, n, rules), ResolvedUpTo(b, ts, n + 1, rules);
      ChangedUpTo(b, ts, n + 1, rules) == ChangedUpTo(b, ts, n, rules) + if q != p then 1 else 0
  {
    var p := ResolvedUpTo(b, ts, n, rules);
    NextDecision(b, ts, n, rules);
    DesksAfter(b, ts, n, rules);
    StaysSound(IncomeDesk(b), IncomePlans(b, ts, rules), n);
    StaysSound(ExpenseDesk(b), ExpensePlans(b, ts), n);
    AppliedIsIdentityIffSettled(p, n, ts[n].value, rules);
    SettledUntilReached(b, ts, n, ts[n].value, rules);
  }

  /** When every decided row is settled the pass writes nothing and reports nothing changed. */
  lemma {:induction false} NothingToDo(b: Books, ts: seq<Option<Target>>, n: nat, rules: Rules)
    requires |ts| == |b.rows| && n <= |ts| && Sound(IncomeDesk(b)) && Sound(ExpenseDesk(b))
    requires forall i | 0 <= i < n && ts[i].Some? :: Settled(b, i, ts[i].value, rules)
    ensures ResolvedUpTo(b, ts, n, rules) == b && ChangedUpTo(b, ts, n, rules) == 0
  {
    if n == 0 {
      assert ResolvedUpTo(b, ts, 0, rules).rows == b.rows;
    } else {
      NothingToDo(b, ts, n - 1, rules);
      OneMoreNothing(b, ts, n - 1, rules);
    }
  }

  lemma OneMoreNothing(b: Books, ts: seq<Option<Target>>, n: nat, rules: Rules)
    requires |ts| == |b.rows| && n < |ts| && Sound(IncomeDesk(b)) && Sound(ExpenseDesk(b))
    requires ResolvedUpTo(b, ts, n, rules) == b && (ts[n].Some? ==> Settled(b, n, ts[n].value, rules))
    ensures ResolvedUpTo(b, ts, n + 1, rules) == b
  {
    NextDecision(b, ts, n, rules);
    if ts[n].Some? { AppliedIsIdentityIffSettled(b, n, ts[n].value, rules); }
  }

  // ---------- After a pass every row is settled ----------

  lemma SettledIncome(b: Books, ts: seq<Option<Target>>, j: nat, rules: Rules)
    requires |ts| == |b.rows| && j < |ts| && ts[j].Some? && Sound(IncomeDesk(b)) && Sound(ExpenseDesk(b))
    ensures var p := ResolvedUpTo(b, ts, |ts|, rules);
      Asks(IncomeDesk(p), j, IncomePlan(p.rows[j], ts[j], rules))
  {
    DesksAfter(b, ts, |ts|, rules);
    LinkAfter(IncomeDesk(b), IncomePlans(b, ts, rules), |ts|, j);
  }

  lemma SettledExpense(b: Books, ts: seq<Option<Target>>, j: nat, rules: Rules)
    requires |ts| == |b.rows| && j < |ts| && ts[j].Some? && Sound(IncomeDesk(b)) && Sound(ExpenseDesk(b))
    ensures var p := ResolvedUpTo(b, ts, |ts|, rules);
      Asks(ExpenseDesk(p), j, ExpensePlan(p.rows[j], ts[j]))
  {
    DesksAfter(b, ts, |ts|, rules);
    LinkAfter(ExpenseDesk(b), ExpensePlans(b, ts), |ts|, j);
    if ts[j].value.record == ExpenseRecord {
      if b.rows[j].expense.None? {
        GainedAfter(ExpenseDesk(b), ExpensePlans(b, ts), |ts|, j);
      } else {
        OwnedAfter(ExpenseDesk(b), ExpensePlans(b, ts), |ts|, j, b.rows[j].expense.value);
      }
    }
  }

  // ---------- Fixpoints ----------

  lemma CurrentNeedsNoRefresh(b: Books, env: Env)
    requires KindsCurrent(b.rows, env.rules)
    ensures Refreshed(b, env) == b
  {
    assert Backfilled(b.rows, env) == b.rows;
  }

  lemma PassKeepsInputs(b: Books, env: Env)
    ensures AllSameInputs(Refreshed(b, env).rows, Pass(b, env).rows)
  {
    forall i | 0 <= i < |b.rows| ensures SameInputs(Refreshed(b, env).rows[i], Pass(b, env).rows[i]) {
      PassRow(b, env, i);
      PolicyIsConsistent(Reclassified(b.rows[i], env), ContextFor(Refreshed(b, env).rows, env));
    }
  }

  lemma KindsStayCurrent(a: seq<BankRow>, b: seq<BankRow>, rules: Rules)
    requires AllSameInputs(a, b) && KindsCurrent(a, rules)
    ensures KindsCurrent(b, rules)
  {
    forall i | 0 <= i < |b| && !Manual(b[i]) ensures KindCurrent(b[i], rules) {
      assert SameInputs(a[i], b[i]);
    }
  }

  lemma SettledAfterPass(b: Books, env: Env, j: nat)
    requires Sound(IncomeDesk(b)) && Sound(ExpenseDesk(b)) && j < |b.rows| && DecisionFor(b, env, j).Some?
    ensures Settled(Pass(b, env), j, DecisionFor(b, env, j).value, env.rules)
  {
    RefreshKeepsDesks(b, env);
    PassRow(b, env, j);
    SettledIncome(Refreshed(b, env), Decisions(Refreshed(b, env).rows, env), j, env.rules);
    SettledExpense(Refreshed(b, env), Decisions(Refreshed(b, env).rows, env), j, env.rules);
  }

  /** With every line kind current, one pass reaches a state a second pass leaves alone, reporting no change. */
  lemma SecondPassIsSilent(b: Books, env: Env)
    requires Sound(IncomeDesk(b)) && Sound(ExpenseDesk(b)) && KindsCurrent(Refreshed(b, env).rows, env.rules)
    ensures var p := Pass(b, env);
      Pass(p, env) == p && ChangedUpTo(p, Decisions(p.rows, env), |p.rows|, env.rules) == 0
  {
    var ready, p := Refreshed(b, env), Pass(b, env);
    var ts := Decisions(ready.rows, env);
    RefreshKeepsDesks(b, env);
    PassKeepsDesksSound(b, env);
    PassKeepsInputs(b, env);
    DecisionsDependOnInputs(ready.rows, p.rows, env);
    KindsStayCurrent(ready.rows, p.rows, env.rules);
    CurrentNeedsNoRefresh(p, env);
    forall j | 0 <= j < |ts| && ts[j].Some? ensures Settled(p, j, ts[j].value, env.rules) {
      SettledAfterPass(b, env, j);
    }
    NothingToDo(p, ts, |ts|, env.rules);
  }

  /**
   * One pass is enough exactly when the backfill reaches every stale line kind: when it
   * skips rows with a null resolution, those rows must be current already.
   */
  lemma OnePassSufficesIff(b: Books, env: Env)
    requires WellLinked(b)
    ensures Pass(Pass(b, env), env) == Pass(b, env) <==>
      env.nullsSeen || forall i | 0 <= i < |b.rows| && b.rows[i].resolution.None? :: KindCurrent(b.rows[i], env.rules)
  {
    if env.nullsSeen || forall i | 0 <= i < |b.rows| && b.rows[i].resolution.None? :: KindCurrent(b.rows[i], env.rules) {
      SecondPassIsSilent(b, env);
    } else {
      var i :| 0 <= i < |b.rows| && b.rows[i].resolution.None? && !KindCurrent(b.rows[i], env.rules);
      SkippedKindChangesLater(b, env, i);
    }
  }

  /** A stale row the first pass skipped is reclassified by the second. */
  lemma SkippedKindChangesLater(b: Books, env: Env, i: nat)
    requires WellLinked(b) && i < |b.rows| && !env.nullsSeen && b.rows[i].resolution.None? && !KindCurrent(b.rows[i], env.rules)
    ensures Pass(Pass(b, env), env).rows[i] != Pass(b, env).rows[i]
  {
    var p := Pass(b, env);
    PassRow(b, env, i);
    RowIsResolved(b, env, i);
    PassKeepsIdentity(b, env, i);
    PassRow(p, env, i);
  }

  /** Whatever the backfill query does with null resolutions, two passes reach the fixpoint. */
  lemma TwoPassesSuffice(b: Books, env: Env)
    requires WellLinked(b)
    ensures var p := Pass(Pass(b, env), env);
      Pass(p, env) == p && ChangedUpTo(p, Decisions(p.rows, env), |p.rows|, env.rules) == 0
  {
    var p := Pass(b, env);
    PassKeepsWellLinked(b, env);
    EveryRowIsResolved(b, env);
    SecondPassIsSilent(p, env);
  }
}
