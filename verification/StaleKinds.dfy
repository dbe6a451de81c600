/** A loan the approval screen could not show: rows stored under a kind their wording does not give. */
module StaleKinds {
  import opened Common
  import opened BankRows
  import opened CounterDedup
  import opened Account
  import opened MonthlyRuns
  import opened ImportPreview
  import opened Grouping
  import opened LoanSeries
  import opened Detection
  import Calendar

  /** A repayment typed by hand: stored as an ordinary line, whatever its wording. */
  function Typed(id: nat, day: nat, resolution: Option<Resolution>): StoredRow {
    StoredRow(id, day, Some("loan 12"), 500, Withdrawal, LineClass(Standard, None), None, None, resolution)
  }

  /** The same repayment as its wording reads. */
  function Repayment(day: nat): Debit {
    Debit(day, "loan 12", 500, LoanMixed, Some("12"))
  }

  function Instalment(day: nat): LoanDay {
    LoanDay(day, 500, Some("12"))
  }

  // ---------- Two of anything ----------

  lemma FirstSeenOfTwo<K(!new)>(a: K, b: K)
    requires a != b
    ensures FirstSeen([a]) == [a] && FirstSeen([a, b]) == [a, b]
  {
    assert [a][..0] == [] && [a, b][..1] == [a];
  }

  lemma UnderOfTwo<K(!new), T>(a: K, b: K, x: T, y: T)
    requires a != b
    ensures Under([a, b], [x, y], a) == [x] && Under([a, b], [x, y], b) == [y]
  {
    assert [a, b][..1] == [a] && [x, y][..1] == [x] && [a][..0] == [] && [x][..0] == [];
    assert Under([a], [x], a) == [x] && Under([a], [x], b) == [];
  }

  lemma PaymentsOfTwo(x: Debit, y: Debit)
    requires IsLoanPayment(x) && IsLoanPayment(y)
    ensures Payments([x, y]) == [x, y]
  {
    PaymentsOfMore([], x);
    PaymentsOfMore([x], y);
    assert [] + [x] == [x] && [x] + [y] == [x, y];
  }

  lemma OneRepayment(day: nat)
    ensures LoanDayOf(day, [Repayment(day)]) == Instalment(day)
  {
    OneNumber(Repayment(day), "12");
    OneAmount(Repayment(day));
  }

  lemma OneNumber(r: Debit, number: string)
    requires NamesLoan(r) && r.loanRef == Some(number)
    ensures FirstSeen(LoanNumbers([r])) == [number]
  {
    assert [r][..0] == [] && [number][..0] == [];
    assert LoanNumbers([r]) == [number];
  }

  lemma OneAmount(r: Debit)
    ensures Sum(AmountsOf([r])) == r.amount
  {
    var v := AmountsOf([r]);
    assert v[..0] == [];
  }

  lemma InstalmentsOfTwo(ds: seq<Debit>, first: nat, second: nat)
    requires first != second && ds == [Repayment(first), Repayment(second)]
    ensures Instalments(ds, FirstSeen(DaysOf(Payments(ds)))) == [Instalment(first), Instalment(second)]
  {
    PaymentsOfTwo(Repayment(first), Repayment(second));
    FirstSeenOfTwo(first, second);
    assert DaysOf(ds) == [first, second];
    OnTheirDays(ds, first, second);
    NoFees(ds, first);
    NoFees(ds, second);
    TwoInstalments(ds, first, second);
  }

  lemma NoFees(ds: seq<Debit>, day: nat)
    requires forall i | 0 <= i < |ds| :: ds[i].kind == LoanMixed
    ensures !NearFee(ds, day)
  {
  }

  lemma OnTheirDays(ds: seq<Debit>, first: nat, second: nat)
    requires first != second && ds == [Repayment(first), Repayment(second)]
    ensures InstalmentOn(ds, first) == Instalment(first) && InstalmentOn(ds, second) == Instalment(second)
  {
    assert DaysOf(ds) == [first, second];
    UnderOfTwo(first, second, Repayment(first), Repayment(second));
    OneRepayment(first);
    OneRepayment(second);
  }

  lemma TwoInstalments(ds: seq<Debit>, first: nat, second: nat)
    requires !NearFee(ds, first) && !NearFee(ds, second)
    ensures Instalments(ds, [first, second]) == [InstalmentOn(Payments(ds), first), InstalmentOn(Payments(ds), second)]
  {
    InstalmentsGrow(ds, [first, second], 0);
    InstalmentsGrow(ds, [first, second], 1);
    assert [first, second][..2] == [first, second] && [first, second][..0] == [];
  }

  lemma OneSeriesOfTwo(x: LoanDay, y: LoanDay)
    requires Fits(Opened(x), y)
    ensures SeriesOf([x, y]) == [Opened(x).(days := [x, y])]
  {
    SeriesAppend([], x);
    SeriesAppend([x], y);
    assert [] + [x] == [x] && [x] + [y] == [x, y];
    assert SeriesOf([x]) == [Opened(x)];
  }

  lemma TwoMonthsPaid(x: LoanDay, y: LoanDay)
    requires Calendar.MonthOf(x.day) != Calendar.MonthOf(y.day) && x.day < y.day
    ensures MonthsPaid([x, y]) == 2 && LastOf([x, y]) == y
  {
    FirstSeenOfTwo(Calendar.MonthOf(x.day), Calendar.MonthOf(y.day));
    assert MonthsIn([x, y]) == [Calendar.MonthOf(x.day), Calendar.MonthOf(y.day)];
    assert [x, y][..1] == [x];
  }

  lemma OffersOfOne(s: Series, statementEnd: nat, forecastFrom: nat)
    requires LoanOfferOf(s, statementEnd, forecastFrom).Some?
    ensures LoanOffers([s], statementEnd, forecastFrom) != []
  {
  }

  /** Two days of a month apart: near in the month, in different months. */
  predicate AMonthApart(first: nat, second: nat) {
    && first < second && Calendar.MonthOf(first) != Calendar.MonthOf(second)
    && DayDistance(DayOfMonth(first), DayOfMonth(second)) <= LOAN_DAY_TOLERANCE
  }

  lemma RepaymentsAreOffered(ds: seq<Debit>, first: nat, second: nat)
    requires AMonthApart(first, second) && ds == [Repayment(first), Repayment(second)]
    ensures LoansIn(ds, second, second) != []
  {
    var x, y := Instalment(first), Instalment(second);
    InstalmentsOfTwo(ds, first, second);
    OneSeriesOfTwo(x, y);
    TwoMonthsPaid(x, y);
    NextMonthlyIsLeast(second, second);
    OffersOfOne(Opened(x).(days := [x, y]), second, second);
  }

  lemma {:induction false} OrdinaryDebitsAreNoPayments(ds: seq<Debit>)
    requires forall i | 0 <= i < |ds| :: ds[i].kind == Standard
    ensures Payments(ds) == []
  {
    if ds != [] {
      OrdinaryDebitsAreNoPayments(ds[..|ds| - 1]);
    }
  }

  lemma OrdinaryDebitsOfferNoLoan(ds: seq<Debit>, statementEnd: nat, forecastFrom: nat)
    requires forall i | 0 <= i < |ds| :: ds[i].kind == Standard
    ensures LoansIn(ds, statementEnd, forecastFrom) == []
  {
    OrdinaryDebitsAreNoPayments(ds);
    assert DaysOf([]) == [];
  }

  // ---------- The account ----------

  lemma DebitsOfTwo(r: StoredRow, s: StoredRow)
    requires r.direction == Withdrawal && s.direction == Withdrawal
    ensures StoredDebits([r, s]) == [StoredDebit(r), StoredDebit(s)]
  {
    assert [r, s][..1] == [r] && [r][..0] == [];
    assert StoredDebits([r]) == [StoredDebit(r)];
  }

  lemma TypedTurnsRepayment(r: StoredRow, day: nat, resolution: Option<Resolution>, id: nat, w: Wording, pass: ResolvePass)
    requires r == Typed(id, day, resolution) && Visited(r, pass.nullsSeen)
    requires w.classify("loan 12", Withdrawal) == LineClass(LoanMixed, Some("12"))
    ensures AfterPass(r, w, pass).direction == Withdrawal && StoredDebit(AfterPass(r, w, pass)) == Repayment(day)
  {
  }

  /** A deposit on a new line adds one row, and no debit. */
  lemma DepositIsTakenIn(a: AccountState, f: StatementFile, w: Wording)
    requires |f.rows| == 1 && f.rows[0].direction == Deposit && forall i | 0 <= i < |a.rows| :: a.rows[i].direction == Withdrawal
    ensures Imported(a, f, w).rows == a.rows + [ToStored(f.rows[0], a.nextRow, a.nextStatement, w)]
  {
    var key := FileKey(f.rows[0], w);
    assert FileKeys(f.rows, w) == [key] && [key][..0] == [];
    CountBetween(StoredKeys(a.rows, w), key.day, key.day, key);
    assert key !in StoredKeys(a.rows, w);
    assert NewPlaces(StoredAround(a, f.rows, w), [key], 0) == [];
    assert FreshRows(a, f.rows, w) == [f.rows[0]];
  }

  lemma DebitsOnceThrough(a: AccountState, f: StatementFile, w: Wording, pass: ResolvePass, resolution: Option<Resolution>, first: nat, second: nat)
    requires a.rows == [Typed(1, first, resolution), Typed(2, second, resolution)] && Visited(a.rows[0], pass.nullsSeen)
    requires f.rows == [FileRow(second, "pay", 900, Deposit)] && w.classify("loan 12", Withdrawal) == LineClass(LoanMixed, Some("12"))
    ensures StoredDebits(Finished(a, f, w, pass).rows) == [Repayment(first), Repayment(second)]
  {
    var added := ToStored(f.rows[0], a.nextRow, a.nextStatement, w);
    DepositIsTakenIn(a, f, w);
    TypedTurnsRepayment(a.rows[0], first, resolution, 1, w, pass);
    TypedTurnsRepayment(a.rows[1], second, resolution, 2, w, pass);
    var r, s, t := AfterPass(a.rows[0], w, pass), AfterPass(a.rows[1], w, pass), AfterPass(added, w, pass);
    assert Finished(a, f, w, pass).rows == [r, s] + [t];
    StoredDebitsAppend([r, s], [t]);
    assert [t][..0] == [] && StoredDebits([t]) == [];
    DebitsOfTwo(r, s);
  }

  /**
   * Two repayments typed by hand, a month apart, and a new statement whose one line is a
   * deposit: the preview sees two ordinary debits, the import's backfill turns them into
   * loan payments, and a loan is found that was never shown.
   */
  lemma TypedRepaymentsAppear(
    a: AccountState, f: StatementFile, w: Wording, p: Patterns, pass: ResolvePass, resolution: Option<Resolution>, first: nat, second: nat)
    requires AMonthApart(first, second)
    requires a.rows == [Typed(1, first, resolution), Typed(2, second, resolution)] && Visited(a.rows[0], pass.nullsSeen)
    requires f.rows == [FileRow(second, "pay", 900, Deposit)] && w.classify("loan 12", Withdrawal) == LineClass(LoanMixed, Some("12"))
    ensures LoansIn(Merged(StoredDebits(a.rows), IncomingDebits(f.rows, p)), second, second) == []
    ensures LoansIn(StoredDebits(Finished(a, f, w, pass).rows), second, second) != []
  {
    NeverShown(a, f, p, second);
    FoundAfter(StoredDebits(Finished(a, f, w, pass).rows), a, f, w, pass, resolution, first, second);
  }

  lemma NeverShown(a: AccountState, f: StatementFile, p: Patterns, end: nat)
    requires |a.rows| == 2 && forall i | 0 <= i < 2 :: a.rows[i].direction == Withdrawal && a.rows[i].class_.kind == Standard
    requires |f.rows| == 1 && f.rows[0].direction == Deposit
    ensures LoansIn(Merged(StoredDebits(a.rows), IncomingDebits(f.rows, p)), end, end) == []
  {
    NothingIncoming(f.rows, p);
    NothingMerged(StoredDebits(a.rows));
    DebitsOfTwo(a.rows[0], a.rows[1]);
    assert a.rows == [a.rows[0], a.rows[1]];
    OrdinaryDebitsOfferNoLoan([StoredDebit(a.rows[0]), StoredDebit(a.rows[1])], end, end);
  }

  lemma FoundAfter(
    after: seq<Debit>, a: AccountState, f: StatementFile, w: Wording, pass: ResolvePass, resolution: Option<Resolution>, first: nat, second: nat)
    requires AMonthApart(first, second) && after == StoredDebits(Finished(a, f, w, pass).rows)
    requires a.rows == [Typed(1, first, resolution), Typed(2, second, resolution)] && Visited(a.rows[0], pass.nullsSeen)
    requires f.rows == [FileRow(second, "pay", 900, Deposit)] && w.classify("loan 12", Withdrawal) == LineClass(LoanMixed, Some("12"))
    ensures LoansIn(after, second, second) != []
  {
    DebitsOnceThrough(a, f, w, pass, resolution, first, second);
    RepaymentsAreOffered(after, first, second);
  }

  lemma NothingIncoming(rows: seq<FileRow>, p: Patterns)
    requires |rows| == 1 && rows[0].direction == Deposit
    ensures IncomingDebits(rows, p) == []
  {
    assert rows[..0] == [];
  }

  lemma NothingMerged(stored: seq<Debit>)
    ensures Merged(stored, []) == stored
  {
    assert KeysOf([]) == [];
  }
}
