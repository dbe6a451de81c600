/** Bank rows and the vocabulary of their financial meaning. */
module BankRows {
  import opened Common
  import CreditCoverage

  datatype Direction = Deposit | Withdrawal | OtherMovement

  datatype LineKind =
    | Standard | LoanPrincipal | LoanInterest | OverdraftInterest | LoanMixed | LoanFee
    | CreditCardPayment | InterestCredit | LoanDrawdown

  datatype Resolution =
    | Income | Expense | FinancingCharge | FinancingCredit | DebtReduction | LoanRepaymentUnsplit
    | LoanReceived | CreditCardSettled | CreditCardUnitemized | InternalTransfer | ManualExcluded

  /** Resolutions whose amount lands in an expense figure. */
  const EXPENSE_RESOLUTIONS := {Expense, FinancingCharge, FinancingCredit, CreditCardUnitemized}

  datatype Status = Pending | Done | Excluded

  /** The wording stored beside a decision: equal decisions carry equal notes. */
  datatype Note =
    | InterestRefunded | InterestPaid | EarlyPayoffFee | PrincipalPaid | RepaymentUnsplit(loanRef: Option<string>)
    | LoanTaken | CardBill(forReview: bool, reason: CreditCoverage.Reason) | BothLegsHeld | CreditColumn(atypical: bool)
    | DebitColumn | ByHand(text: string)

  datatype LineClass = LineClass(kind: LineKind, loanRef: Option<string>)

  datatype BankRow = BankRow(
    id: nat, day: nat, description: Option<string>, amount: int, direction: Direction,
    kind: LineKind, loanRef: Option<string>, category: Option<nat>,
    status: Status, resolution: Option<Resolution>, note: Option<Note>,
    income: Option<nat>, loan: Option<nat>, expense: Option<nat>)

  /**
   * What the code knows by wording and by the household's own settings: regular
   * expressions over descriptions, category rules, and two category ids.
   */
  datatype Rules = Rules(
    classify: (Option<string>, Direction) -> LineClass,
    transferText: Option<string> -> bool,
    cardRef: Option<string> -> CreditCoverage.CardRef,
    incomeType: Option<string> -> string,
    categorize: Option<string> -> Option<nat>,
    financingCategory: Option<nat>,
    unitemizedCategory: Option<nat>)

  /** Everything about a row that no reconciliation step may change. */
  predicate SameFacts(a: BankRow, b: BankRow) {
    && a.id == b.id && a.day == b.day && a.description == b.description && a.amount == b.amount
    && a.direction == b.direction && a.category == b.category
  }

  /** The financial meaning a row carries. */
  predicate SameMeaning(a: BankRow, b: BankRow) {
    a.status == b.status && a.resolution == b.resolution && a.note == b.note
  }

  predicate Manual(row: BankRow) {
    row.resolution == Some(ManualExcluded)
  }
}
