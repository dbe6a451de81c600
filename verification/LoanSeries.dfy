/** Loans a statement proves: instalment days gathered into one series per loan. */
module LoanSeries {
  import opened Common
  import opened BankRows
  import opened MonthlyRuns
  import opened ImportPreview
  import opened Grouping

  const PAYOFF_FEE_WINDOW_DAYS := 3
  const LOAN_DAY_TOLERANCE := 2

  /** One day's whole loan debit, with the loan's number when the lines name exactly one. */
  datatype LoanDay = LoanDay(day: nat, total: int, number: Option<string>)

  /** A loan's series, known by its number and its first payment's day of the month. */
  datatype Series = Series(number: Option<string>, dayOfMonth: nat, days: seq<LoanDay>)

  datatype LoanOffer = LoanOffer(number: Option<string>, dayOfMonth: nat, amount: int, months: nat, lastDay: nat, nextDay: nat)

  // ---------- Instalment days ----------

  predicate IsLoanPayment(d: Debit) {
    d.kind in {LoanPrincipal, LoanInterest, LoanMixed}
  }

  function Payments(ds: seq<Debit>): seq<Debit> {
    if ds == [] then []
    else Payments(ds[..|ds| - 1]) + if IsLoanPayment(ds[|ds| - 1]) then [ds[|ds| - 1]] else []
  }

  function DaysOf(ds: seq<Debit>): (days: seq<nat>)
    ensures |days| == |ds| && forall i | 0 <= i < |ds| :: days[i] == ds[i].day
  {
    seq(|ds|, i requires 0 <= i < |ds| => ds[i].day)
  }

  function AmountsOf(ds: seq<Debit>): (v: seq<int>)
    ensures |v| == |ds| && forall i | 0 <= i < |ds| :: v[i] == ds[i].amount
  {
    seq(|ds|, i requires 0 <= i < |ds| => ds[i].amount)
  }

  /** The day falls within three days of an early-payoff fee. */
  predicate NearFee(ds: seq<Debit>, day: nat) {
    exists d | d in ds :: d.kind == LoanFee && Abs(d.day - day) <= PAYOFF_FEE_WINDOW_DAYS
  }

  predicate NamesLoan(d: Debit) {
    d.kind in {LoanPrincipal, LoanMixed} && d.loanRef.Some? && d.loanRef.value != ""
  }

  function LoanNumbers(rows: seq<Debit>): seq<string> {
    if rows == [] then []
    else LoanNumbers(rows[..|rows| - 1]) + if NamesLoan(rows[|rows| - 1]) then [rows[|rows| - 1].loanRef.value] else []
  }

  function LoanDayOf(day: nat, rows: seq<Debit>): LoanDay {
    var numbers := FirstSeen(LoanNumbers(rows));
    LoanDay(day, Sum(AmountsOf(rows)), if |numbers| == 1 then Some(numbers[0]) else None)
  }

  function InstalmentOn(payments: seq<Debit>, day: nat): LoanDay {
    LoanDayOf(day, Under(DaysOf(payments), payments, day))
  }

  /** The instalments of the given days, payoffs left out. */
  function Instalments(ds: seq<Debit>, days: seq<nat>): seq<LoanDay> {
    if days == [] then []
    else
      var day := days[|days| - 1];
      Instalments(ds, days[..|days| - 1]) + if NearFee(ds, day) then [] else [InstalmentOn(Payments(ds), day)]
  }

  // ---------- Series ----------

  /** The instalment belongs to the loan that opened the series. */
  predicate Fits(s: Series, x: LoanDay) {
    s.days != [] && s.days[0].number == x.number && DayDistance(DayOfMonth(s.days[0].day), DayOfMonth(x.day)) <= LOAN_DAY_TOLERANCE
  }

  function FirstFit(series: seq<Series>, x: LoanDay): (k: nat)
    ensures k <= |series|
  {
    if series == [] || Fits(series[0], x) then 0 else 1 + FirstFit(series[1..], x)
  }

  function Opened(x: LoanDay): Series {
    Series(x.number, DayOfMonth(x.day), [x])
  }

  function Filed(series: seq<Series>, x: LoanDay): seq<Series> {
    var k := FirstFit(series, x);
    if k < |series| then series[k := series[k].(days := series[k].days + [x])] else series + [Opened(x)]
  }

  function SeriesOf(xs: seq<LoanDay>): seq<Series> {
    if xs == [] then [] else Filed(SeriesOf(xs[..|xs| - 1]), xs[|xs| - 1])
  }

  method FindFit(series: seq<Series>, x: LoanDay) returns (k: nat)
    ensures k == FirstFit(series, x)
  {
    k := 0;
    while k < |series| && !Fits(series[k], x)
      invariant k <= |series| && FirstFit(series, x) == k + FirstFit(series[k..], x)
    {
      assert series[k..][1..] == series[k + 1..];
      k := k + 1;
    }
  }

  method FileDay(series: seq<Series>, x: LoanDay) returns (filed: seq<Series>)
    ensures filed == Filed(series, x)
  {
    var k := FindFit(series, x);
    if k < |series| {
      filed := series[k := series[k].(days := series[k].days + [x])];
    } else {
      filed := series + [Series(x.number, DayOfMonth(x.day), [x])];
    }
  }

  lemma SeriesAppend(xs: seq<LoanDay>, x: LoanDay)
    ensures SeriesOf(xs + [x]) == Filed(SeriesOf(xs), x)
  {
    assert (xs + [x])[..|xs|] == xs;
  }

  lemma InstalmentsGrow(ds: seq<Debit>, days: seq<nat>, i: nat)
    requires i < |days|
    ensures Instalments(ds, days[..i + 1]) ==
      if NearFee(ds, days[i]) then Instalments(ds, days[..i]) else Instalments(ds, days[..i]) + [InstalmentOn(Payments(ds), days[i])]
  {
    assert days[..i + 1][..i] == days[..i];
  }

  method GatherSeries(ds: seq<Debit>) returns (series: seq<Series>)
    ensures series == SeriesOf(Instalments(ds, FirstSeen(DaysOf(Payments(ds)))))
  {
    var payments := KeepPayments(ds);
    var days, byDay := GroupBy(DaysOf(payments), payments);
    series := [];
    for i := 0 to |days|
      invariant series == SeriesOf(Instalments(ds, days[..i]))
    {
      InstalmentsGrow(ds, days, i);
      if !NearFee(ds, days[i]) {
        var x := ReadDay(days[i], byDay[days[i]]);
        SeriesAppend(Instalments(ds, days[..i]), x);
        series := FileDay(series, x);
      }
    }
    assert days[..|days|] == days;
  }

  method ReadDay(day: nat, rows: seq<Debit>) returns (x: LoanDay)
    ensures x == LoanDayOf(day, rows)
  {
    var numbers := FirstSeen(LoanNumbers(rows));
    x := LoanDay(day, Sum(AmountsOf(rows)), if |numbers| == 1 then Some(numbers[0]) else None);
  }

  method KeepPayments(ds: seq<Debit>) returns (payments: seq<Debit>)
    ensures payments == Payments(ds)
  {
    payments := [];
    for i := 0 to |ds|
      invariant payments == Payments(ds[..i])
    {
      assert ds[..i + 1][..i] == ds[..i];
      if IsLoanPayment(ds[i]) { payments := payments + [ds[i]]; }
    }
    assert ds[..|ds|] == ds;
  }

  // ---------- One loan, one series ----------

  ghost predicate OneLoan(s: Series) {
    && s.days != [] && s.days[0].number == s.number && DayOfMonth(s.days[0].day) == s.dayOfMonth
    && forall x | x in s.days :: x.number == s.number && DayDistance(s.dayOfMonth, DayOfMonth(x.day)) <= LOAN_DAY_TOLERANCE
  }

  ghost predicate Apart(series: seq<Series>) {
    forall i, j | 0 <= i < j < |series| :: series[i].number != series[j].number || DayDistance(series[i].dayOfMonth, series[j].dayOfMonth) > LOAN_DAY_TOLERANCE
  }

  ghost predicate SoundSeries(series: seq<Series>) {
    (forall s | s in series :: OneLoan(s)) && Apart(series)
  }

  lemma {:induction false} FirstFitFits(series: seq<Series>, x: LoanDay, k: nat)
    requires k == FirstFit(series, x) < |series|
    ensures Fits(series[k], x)
  {
    if k > 0 {
      assert series[1..][k - 1] == series[k];
      FirstFitFits(series[1..], x, k - 1);
    }
  }

  lemma {:induction false} NoneFitsBefore(series: seq<Series>, x: LoanDay, i: nat)
    requires i < FirstFit(series, x)
    ensures !Fits(series[i], x)
  {
    if i > 0 {
      assert series[1..][i - 1] == series[i];
      NoneFitsBefore(series[1..], x, i - 1);
    }
  }

  lemma FirstFitIsFirst(series: seq<Series>, x: LoanDay)
    ensures var k := FirstFit(series, x);
      (forall i | 0 <= i < k :: !Fits(series[i], x)) && (k < |series| ==> Fits(series[k], x))
  {
    if FirstFit(series, x) < |series| { FirstFitFits(series, x, FirstFit(series, x)); }
    forall i | 0 <= i < FirstFit(series, x) ensures !Fits(series[i], x) { NoneFitsBefore(series, x, i); }
  }

  lemma FilingKeepsOneLoan(s: Series, x: LoanDay)
    requires OneLoan(s) && Fits(s, x)
    ensures OneLoan(s.(days := s.days + [x]))
  {
  }

  lemma FilingKeepsSound(series: seq<Series>, x: LoanDay)
    requires SoundSeries(series)
    ensures SoundSeries(Filed(series, x))
  {
    FirstFitIsFirst(series, x);
    var k, after := FirstFit(series, x), Filed(series, x);
    if k < |series| {
      FilingKeepsOneLoan(series[k], x);
      forall i | 0 <= i < |after| ensures OneLoan(after[i]) && after[i].number == series[i].number && after[i].dayOfMonth == series[i].dayOfMonth {
        assert OneLoan(series[i]);
      }
    } else {
      assert DayDistance(DayOfMonth(x.day), DayOfMonth(x.day)) == 0;
      forall i | 0 <= i < |series| ensures series[i].number != x.number || DayDistance(series[i].dayOfMonth, DayOfMonth(x.day)) > LOAN_DAY_TOLERANCE {
        assert OneLoan(series[i]) && !Fits(series[i], x);
      }
    }
  }

  /**
   * Each series is one loan's: one number, payment days within two of the first.
   * Two series never share a number and a near day, so no series' key is ever reused.
   */
  lemma {:induction false} SeriesAreLoans(xs: seq<LoanDay>)
    ensures SoundSeries(SeriesOf(xs))
  {
    if xs != [] {
      SeriesAreLoans(xs[..|xs| - 1]);
      FilingKeepsSound(SeriesOf(xs[..|xs| - 1]), xs[|xs| - 1]);
    }
  }

  function AllDays(series: seq<Series>): multiset<LoanDay> {
    if series == [] then multiset{} else multiset(series[0].days) + AllDays(series[1..])
  }

  lemma FiledFurtherOn(series: seq<Series>, x: LoanDay)
    requires series != [] && !Fits(series[0], x)
    ensures Filed(series, x) == [series[0]] + Filed(series[1..], x)
  {
    FirstFitIsFirst(series[1..], x);
    assert series == [series[0]] + series[1..];
  }

  lemma {:induction false} AllDaysOfFiled(series: seq<Series>, x: LoanDay)
    ensures AllDays(Filed(series, x)) == AllDays(series) + multiset{x}
  {
    if series == [] {
      assert Filed(series, x) == [Opened(x)];
    } else if Fits(series[0], x) {
      assert Filed(series, x)[1..] == series[1..];
    } else {
      AllDaysOfFiled(series[1..], x);
      FiledFurtherOn(series, x);
    }
  }

  /** Every instalment is in exactly one series, once. */
  lemma {:induction false} SeriesPartition(xs: seq<LoanDay>)
    ensures AllDays(SeriesOf(xs)) == multiset(xs)
  {
    if xs != [] {
      SeriesPartition(xs[..|xs| - 1]);
      AllDaysOfFiled(SeriesOf(xs[..|xs| - 1]), xs[|xs| - 1]);
      assert xs == xs[..|xs| - 1] + [xs[|xs| - 1]];
    }
  }

  // ---------- Conservation ----------

  function TotalsOf(xs: seq<LoanDay>): int {
    if xs == [] then 0 else TotalsOf(xs[..|xs| - 1]) + xs[|xs| - 1].total
  }

  /** What was paid on payoff days. */
  function PaidOff(ds: seq<Debit>, days: seq<nat>): int {
    if days == [] then 0
    else
      var day := days[|days| - 1];
      PaidOff(ds, days[..|days| - 1]) + if NearFee(ds, day) then InstalmentOn(Payments(ds), day).total else 0
  }

  function DaySum(payments: seq<Debit>, day: nat): int {
    Sum(AmountsOf(Under(DaysOf(payments), payments, day)))
  }

  /** The days' group sums. */
  function SumOver(payments: seq<Debit>, days: seq<nat>): int {
    if days == [] then 0
    else SumOver(payments, days[..|days| - 1]) + DaySum(payments, days[|days| - 1])
  }

  lemma TotalsAppend(xs: seq<LoanDay>, x: LoanDay)
    ensures TotalsOf(xs + [x]) == TotalsOf(xs) + x.total
  {
    assert (xs + [x])[..|xs|] == xs;
  }

  lemma {:induction false} SplitByFee(ds: seq<Debit>, days: seq<nat>)
    ensures TotalsOf(Instalments(ds, days)) + PaidOff(ds, days) == SumOver(Payments(ds), days)
  {
    if days != [] {
      var init, day := days[..|days| - 1], days[|days| - 1];
      SplitByFee(ds, init);
      if NearFee(ds, day) {
        assert Instalments(ds, days) == Instalments(ds, init);
      } else {
        TotalsAppend(Instalments(ds, init), InstalmentOn(Payments(ds), day));
      }
    }
  }

  lemma AmountsAppend(ds: seq<Debit>, d: Debit)
    ensures Sum(AmountsOf(ds + [d])) == Sum(AmountsOf(ds)) + d.amount
  {
    assert AmountsOf(ds + [d])[..|ds|] == AmountsOf(ds);
  }

  lemma DaySumAppend(payments: seq<Debit>, d: Debit, day: nat)
    ensures DaySum(payments + [d], day) == DaySum(payments, day) + if d.day == day then d.amount else 0
  {
    var rows := Under(DaysOf(payments), payments, day);
    assert DaysOf(payments + [d])[..|payments|] == DaysOf(payments);
    assert (payments + [d])[..|payments|] == payments;
    if d.day == day {
      AmountsAppend(rows, d);
      assert Under(DaysOf(payments + [d]), payments + [d], day) == rows + [d];
    } else {
      assert Under(DaysOf(payments + [d]), payments + [d], day) == rows;
    }
  }

  /** One more payment adds its amount to its own day's sum alone. */
  lemma {:induction false} SumOverAppend(payments: seq<Debit>, d: Debit, days: seq<nat>)
    requires Distinct(days)
    ensures SumOver(payments + [d], days) == SumOver(payments, days) + if d.day in days then d.amount else 0
  {
    if days != [] {
      var init, day := days[..|days| - 1], days[|days| - 1];
      SumOverAppend(payments, d, init);
      DaySumAppend(payments, d, day);
      assert days == init + [day];
    }
  }

  lemma UnseenDayIsEmpty(payments: seq<Debit>, day: nat)
    requires day !in DaysOf(payments)
    ensures DaySum(payments, day) == 0
  {
    var rows := Under(DaysOf(payments), payments, day);
    if rows != [] {
      UnderHolds(DaysOf(payments), payments, day, rows[0]);
    }
  }

  lemma OneMoreDay(payments: seq<Debit>, days: seq<nat>, day: nat)
    ensures SumOver(payments, days + [day]) == SumOver(payments, days) + DaySum(payments, day)
  {
    assert (days + [day])[..|days|] == days;
  }

  lemma {:induction false} DaysSumToAll(payments: seq<Debit>)
    ensures SumOver(payments, FirstSeen(DaysOf(payments))) == Sum(AmountsOf(payments))
  {
    if payments == [] {
      assert DaysOf(payments) == [] && AmountsOf(payments) == [];
    } else {
      var init, d := payments[..|payments| - 1], payments[|payments| - 1];
      DaysSumToAll(init);
      assert payments == init + [d];
      OneMorePayment(init, d);
      AmountsAppend(init, d);
    }
  }

  lemma OneMorePayment(payments: seq<Debit>, d: Debit)
    ensures SumOver(payments + [d], FirstSeen(DaysOf(payments + [d]))) == SumOver(payments, FirstSeen(DaysOf(payments))) + d.amount
  {
    var days := FirstSeen(DaysOf(payments));
    assert DaysOf(payments + [d])[..|payments|] == DaysOf(payments);
    FirstSeenIsDistinct(DaysOf(payments));
    SumOverAppend(payments, d, days);
    if d.day !in days {
      OneMoreDay(payments + [d], days, d.day);
      DaySumAppend(payments, d, d.day);
      UnseenDayIsEmpty(payments, d.day);
    }
  }

  /** Every shekel of loan payments is in one instalment of one series, or on a payoff day. */
  lemma LoanPaymentsAreConserved(ds: seq<Debit>)
    ensures var days := FirstSeen(DaysOf(Payments(ds)));
      && AllDays(SeriesOf(Instalments(ds, days))) == multiset(Instalments(ds, days))
      && TotalsOf(Instalments(ds, days)) + PaidOff(ds, days) == Sum(AmountsOf(Payments(ds)))
  {
    var days := FirstSeen(DaysOf(Payments(ds)));
    SeriesPartition(Instalments(ds, days));
    SplitByFee(ds, days);
    DaysSumToAll(Payments(ds));
  }

  lemma {:induction false} NumbersNamed(rows: seq<Debit>, n: string)
    ensures n in LoanNumbers(rows) <==> exists r | r in rows :: NamesLoan(r) && r.loanRef == Some(n)
  {
    if rows != [] {
      var init, last := rows[..|rows| - 1], rows[|rows| - 1];
      NumbersNamed(init, n);
      assert rows == init + [last];
    }
  }

  /** A payment day carries a loan's number exactly when its lines name that loan and no other. */
  lemma NumberedIff(day: nat, rows: seq<Debit>, n: string)
    ensures LoanDayOf(day, rows).number == Some(n) <==>
      (exists r | r in rows :: NamesLoan(r) && r.loanRef == Some(n)) && forall r | r in rows && NamesLoan(r) :: r.loanRef == Some(n)
  {
    var named := LoanNumbers(rows);
    FirstSeenIsDistinct(named);
    NumbersNamed(rows, n);
    var seen := FirstSeen(named);
    if LoanDayOf(day, rows).number == Some(n) {
      forall r | r in rows && NamesLoan(r) ensures r.loanRef == Some(n) {
        NumbersNamed(rows, r.loanRef.value);
        assert r.loanRef.value in seen;
      }
      assert n in seen;
    }
    if (exists r | r in rows :: NamesLoan(r) && r.loanRef == Some(n)) && forall r | r in rows && NamesLoan(r) :: r.loanRef == Some(n) {
      forall x | x in seen ensures x == n { NumbersNamed(rows, x); }
      AllOneIsOne(seen, n);
    }
  }

  lemma AllOneIsOne(seen: seq<string>, n: string)
    requires Distinct(seen) && n in seen
    ensures seen == [n] || exists x | x in seen :: x != n
  {
    if |seen| > 1 {
      var x := if seen[0] == n then seen[1] else seen[0];
      assert x in seen && x != n;
    } else {
      assert seen == [n];
    }
  }
}
