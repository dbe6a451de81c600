/** The smallest books on which the money script fails after a resolve pass, one for each reason it can. */
module ScriptFailures {
  import opened Common
  import opened BankRows
  import opened Books
  import opened Resolver
  import opened ResolverTheorems
  import opened Foreseen
  import opened MoneyCheck

  /** The books of a household with one bank row. */
  function OneRow(text: string, amount: int, direction: Direction, kind: LineKind, expense: Option<nat>): Books {
    Books([BankRow(1, 5, Some(text), amount, direction, kind, None, None, Pending, None, None, None, None, expense)],
          map[], 2, map[], 2, map[], 1)
  }

  lemma OneSummand(v: seq<int>)
    requires |v| == 1
    ensures Sum(v) == v[0]
  {
    assert v[..0] == [];
  }

  /** An income edited from 500 to 400 is never corrected, and the income check fails. */
  lemma EditedIncomeFails(b: Books, env: Env, edited: IncomeRow, creditRows: nat)
    requires ReadsPay(env) && edited.amount == 400 && b == OneDeposit(Some(1), map[1 := edited])
    ensures WellLinked(b) && !VerifyUser(Pass(b, env), creditRows).incomesMatch
    ensures LinkedIncomes(Pass(b, env)) == Bucket(Pass(b, env).rows, Income) - 100
  {
    OneDepositEnds(b, Some(1), map[1 := edited], env);
    ScriptAfterPass(b, env, creditRows);
    IncomeConservation(b, env);
    OneSummand(IncomeDrifts(b, env));
  }

  lemma InterestIsCharged(b: Books, env: Env)
    requires b == OneRow("interest", 90, Withdrawal, OverdraftInterest, Some(1))
    requires env.rules.classify(Some("interest"), Withdrawal) == LineClass(OverdraftInterest, None)
    ensures WellLinked(b) && MissingAt(b, env, 0) == 90
    ensures !WillRefundFee(Refreshed(b, env).rows[0])
  {
    PassRow(b, env, 0);
  }

  /** A charge whose expense was deleted elsewhere keeps its empty link, and the expense check fails. */
  lemma DeletedExpenseFails(b: Books, env: Env, creditRows: nat)
    requires b == OneRow("interest", 90, Withdrawal, OverdraftInterest, Some(1))
    requires env.rules.classify(Some("interest"), Withdrawal) == LineClass(OverdraftInterest, None)
    ensures WellLinked(b) && !VerifyUser(Pass(b, env), creditRows).expensesMatch
    ensures LinkedExpenses(Pass(b, env)) == ExpenseBuckets(Pass(b, env).rows) - 90
  {
    InterestIsCharged(b, env);
    ScriptAfterPass(b, env, creditRows);
    ExpenseConservation(b, env);
    OneSummand(MissingExpenses(b, env));
    assert Refreshed(b, env).rows[..0] == [];
  }

  lemma FeeIsRefunded(b: Books, env: Env)
    requires b == OneRow("fee", 148, Deposit, LoanFee, None)
    requires env.rules.classify(Some("fee"), Deposit) == LineClass(LoanFee, None)
    ensures WellLinked(b) && MissingAt(b, env, 0) == 0
    ensures WillRefundFee(Refreshed(b, env).rows[0]) && Refreshed(b, env).rows[0].amount == 148
  {
    PassRow(b, env, 0);
  }

  /** A refunded early-payoff fee is a charge to the script and money back to the books: off by twice its amount. */
  lemma RefundedFeeFails(b: Books, env: Env, creditRows: nat)
    requires b == OneRow("fee", 148, Deposit, LoanFee, None)
    requires env.rules.classify(Some("fee"), Deposit) == LineClass(LoanFee, None)
    ensures WellLinked(b) && !VerifyUser(Pass(b, env), creditRows).expensesMatch
    ensures LinkedExpenses(Pass(b, env)) == ExpenseBuckets(Pass(b, env).rows) - 2 * 148
  {
    FeeIsRefunded(b, env);
    ScriptAfterPass(b, env, creditRows);
    ExpenseConservation(b, env);
    OneSummand(MissingExpenses(b, env));
    assert Refreshed(b, env).rows[..0] == [];
  }
}
