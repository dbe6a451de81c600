/**
 * A resolve pass as a function of the tables: reclassify, decide every row, then
 * carry the decisions out in statement order.
 */
module Resolver {
  import opened Common
  import opened BankRows
  import opened DecisionPolicy
  import opened Books
  import opened LinkedTable
  import CreditCoverage

  /**
   * What a pass reads besides the tables. `nullsSeen` says whether the backfill
   * query returns rows whose resolution is still null.
   */
  datatype Env = Env(rules: Rules, credit: seq<CreditCoverage.CreditRow>, nullsSeen: bool)

  // ---------- Backfill ----------

  function ClassOf(row: BankRow, rules: Rules): LineClass {
    rules.classify(row.description, if row.direction == Deposit then Deposit else Withdrawal)
  }

  predicate KindCurrent(row: BankRow, rules: Rules) {
    row.kind == ClassOf(row, rules).kind && row.loanRef == ClassOf(row, rules).loanRef
  }

  function Reclassified(row: BankRow, env: Env): BankRow {
    if Manual(row) || (row.resolution.None? && !env.nullsSeen) then row
    else row.(kind := ClassOf(row, env.rules).kind, loanRef := ClassOf(row, env.rules).loanRef)
  }

  function Backfilled(rows: seq<BankRow>, env: Env): (r: seq<BankRow>)
    ensures |r| == |rows| && forall i | 0 <= i < |rows| :: r[i] == Reclassified(rows[i], env)
  {
    seq(|rows|, i requires 0 <= i < |rows| => Reclassified(rows[i], env))
  }

  /** Every line kind a pass would look at is already what the wording says. */
  ghost predicate KindsCurrent(rows: seq<BankRow>, rules: Rules) {
    forall i | 0 <= i < |rows| && !Manual(rows[i]) :: KindCurrent(rows[i], rules)
  }

  // ---------- Decisions ----------

  function ContextFor(rows: seq<BankRow>, env: Env): Context {
    var held := HeldIds(rows, env.rules);
    Context(env.rules, CreditCoverage.CoverageOf(env.credit), held, AtypicalIds(CandidatesOf(rows, held)))
  }

  function TargetOf(row: BankRow, ctx: Context): Option<Target> {
    if Manual(row) then None else Some(DecideTarget(row, ctx))
  }

  function TargetsOf(rows: seq<BankRow>, ctx: Context): (ts: seq<Option<Target>>)
    ensures |ts| == |rows| && forall i | 0 <= i < |rows| :: ts[i] == TargetOf(rows[i], ctx)
  {
    seq(|rows|, i requires 0 <= i < |rows| => TargetOf(rows[i], ctx))
  }

  function Decisions(rows: seq<BankRow>, env: Env): (ts: seq<Option<Target>>)
    ensures |ts| == |rows|
  {
    TargetsOf(rows, ContextFor(rows, env))
  }

  // ---------- The pass ----------

  function IncomePlans(b: Books, ts: seq<Option<Target>>, rules: Rules): (ps: seq<Plan<IncomeRow>>)
    requires |ts| == |b.rows|
    ensures |ps| == |b.rows| && forall i | 0 <= i < |ps| :: ps[i] == IncomePlan(b.rows[i], ts[i], rules)
  {
    seq(|b.rows|, i requires 0 <= i < |b.rows| => IncomePlan(b.rows[i], ts[i], rules))
  }

  function ExpensePlans(b: Books, ts: seq<Option<Target>>): (ps: seq<Plan<ExpenseRow>>)
    requires |ts| == |b.rows|
    ensures |ps| == |b.rows| && forall i | 0 <= i < |ps| :: ps[i] == ExpensePlan(b.rows[i], ts[i])
  {
    seq(|b.rows|, i requires 0 <= i < |b.rows| => ExpensePlan(b.rows[i], ts[i]))
  }

  /** The tables once the first `n` decisions are carried out: each linked table runs on its own, each decided row is stamped. */
  function ResolvedUpTo(b: Books, ts: seq<Option<Target>>, n: nat, rules: Rules): (p: Books)
    requires |ts| == |b.rows| && n <= |ts|
    ensures |p.rows| == |b.rows|
  {
    var inc := Run(IncomeDesk(b), IncomePlans(b, ts, rules), n);
    var exp := Run(ExpenseDesk(b), ExpensePlans(b, ts), n);
    b.(rows := seq(|b.rows|, j requires 0 <= j < |b.rows| =>
                 if j < n && ts[j].Some? then Stamped(b.rows[j], ts[j].value, inc.links[j], exp.links[j]) else b.rows[j]),
       incomes := inc.records, nextIncome := inc.next, expenses := exp.records, nextExpense := exp.next)
  }

  function Refreshed(b: Books, env: Env): Books {
    b.(rows := Backfilled(b.rows, env))
  }

  function Pass(b: Books, env: Env): (p: Books)
    ensures |p.rows| == |b.rows|
  {
    var ready := Refreshed(b, env);
    ResolvedUpTo(ready, Decisions(ready.rows, env), |ready.rows|, env.rules)
  }

  lemma DesksAfter(b: Books, ts: seq<Option<Target>>, n: nat, rules: Rules)
    requires |ts| == |b.rows| && n <= |ts| && Sound(IncomeDesk(b)) && Sound(ExpenseDesk(b))
    ensures IncomeDesk(ResolvedUpTo(b, ts, n, rules)) == Run(IncomeDesk(b), IncomePlans(b, ts, rules), n)
    ensures ExpenseDesk(ResolvedUpTo(b, ts, n, rules)) == Run(ExpenseDesk(b), ExpensePlans(b, ts), n)
  {
    var inc, exp := Run(IncomeDesk(b), IncomePlans(b, ts, rules), n), Run(ExpenseDesk(b), ExpensePlans(b, ts), n);
    var p := ResolvedUpTo(b, ts, n, rules);
    forall j | 0 <= j < |ts| ensures p.rows[j].income == inc.links[j] && p.rows[j].expense == exp.links[j] {
      LinkAfter(IncomeDesk(b), IncomePlans(b, ts, rules), n, j);
      LinkAfter(ExpenseDesk(b), ExpensePlans(b, ts), n, j);
    }
    assert IncomeDesk(p).links == inc.links;
    assert ExpenseDesk(p).links == exp.links;
  }

  /** Carrying out one more decision is one more step of the pass. */
  lemma NextDecision(b: Books, ts: seq<Option<Target>>, n: nat, rules: Rules)
    requires |ts| == |b.rows| && n < |ts| && Sound(IncomeDesk(b)) && Sound(ExpenseDesk(b))
    ensures var p := ResolvedUpTo(b, ts, n, rules);
      p.rows[n] == b.rows[n] &&
      ResolvedUpTo(b, ts, n + 1, rules) == if ts[n].None? then p else Applied(p, n, ts[n].value, rules)
  {
    DesksAfter(b, ts, n, rules);
    var p, q := ResolvedUpTo(b, ts, n, rules), ResolvedUpTo(b, ts, n + 1, rules);
    var inc, exp := Run(IncomeDesk(b), IncomePlans(b, ts, rules), n), Run(ExpenseDesk(b), ExpensePlans(b, ts), n);
    forall j | 0 <= j < n ensures q.rows[j] == p.rows[j] {
      assert Carried(inc, n, IncomePlans(b, ts, rules)[n]).links[j] == inc.links[j];
      assert Carried(exp, n, ExpensePlans(b, ts)[n]).links[j] == exp.links[j];
    }
    if ts[n].None? {
      assert q.rows == p.rows;
    } else {
      assert q.rows == Applied(p, n, ts[n].value, rules).rows;
    }
  }
}
