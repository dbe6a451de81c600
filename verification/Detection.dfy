/** The commitments offered from an account's statements, before an import and after it. */
module Detection {
  import opened Common
  import opened BankRows
  import opened Account
  import opened MonthlyRuns
  import opened ImportPreview
  import opened PreviewTheorem
  import opened Grouping
  import opened Commitments
  import opened LoanSeries
  import Calendar

  // ---------- Loan offers ----------

  /** The last instalment by date. */
  function LastOf(days: seq<LoanDay>): LoanDay
    requires days != []
  {
    if |days| == 1 then days[0]
    else
      var last, x := LastOf(days[..|days| - 1]), days[|days| - 1];
      if x.day >= last.day then x else last
  }

  function MonthsIn(days: seq<LoanDay>): (ms: seq<nat>)
    ensures |ms| == |days| && forall i | 0 <= i < |days| :: ms[i] == Calendar.MonthOf(days[i].day)
  {
    seq(|days|, i requires 0 <= i < |days| => Calendar.MonthOf(days[i].day))
  }

  function MonthsPaid(days: seq<LoanDay>): nat {
    |FirstSeen(MonthsIn(days))|
  }

  function LoanOfferOf(s: Series, statementEnd: nat, forecastFrom: nat): Option<LoanOffer> {
    if s.days == [] || MonthsPaid(s.days) < 2 || Stopped(LastOf(s.days).day, statementEnd) then None
    else
      var last := LastOf(s.days);
      Some(LoanOffer(last.number, DayOfMonth(last.day), last.total, MonthsPaid(s.days), last.day, NextMonthly(last.day, forecastFrom)))
  }

  function LoanOffers(series: seq<Series>, statementEnd: nat, forecastFrom: nat): seq<LoanOffer> {
    if series == [] then []
    else
      var offer := LoanOfferOf(series[|series| - 1], statementEnd, forecastFrom);
      LoanOffers(series[..|series| - 1], statementEnd, forecastFrom) + if offer.Some? then [offer.value] else []
  }

  function LoansIn(ds: seq<Debit>, statementEnd: nat, forecastFrom: nat): seq<LoanOffer> {
    LoanOffers(SeriesOf(Instalments(ds, FirstSeen(DaysOf(Payments(ds))))), statementEnd, forecastFrom)
  }

  method FindLast(days: seq<LoanDay>) returns (last: LoanDay)
    requires days != []
    ensures last == LastOf(days)
  {
    last := days[0];
    for i := 1 to |days|
      invariant last == LastOf(days[..i])
    {
      assert days[..i + 1][..i] == days[..i];
      if days[i].day >= last.day { last := days[i]; }
    }
    assert days[..|days|] == days;
  }

  method FindLoanOffer(s: Series, statementEnd: nat, forecastFrom: nat) returns (offer: Option<LoanOffer>)
    requires s.days != []
    ensures offer == LoanOfferOf(s, statementEnd, forecastFrom)
  {
    var last := FindLast(s.days);
    var due := FindNextMonthly(last.day, last.day);
    if MonthsPaid(s.days) < 2 || due + DAY_OF_MONTH_TOLERANCE <= statementEnd { return None; }
    var next := FindNextMonthly(last.day, forecastFrom);
    return Some(LoanOffer(last.number, DayOfMonth(last.day), last.total, MonthsPaid(s.days), last.day, next));
  }

  lemma LoanOffersGrow(series: seq<Series>, i: nat, statementEnd: nat, forecastFrom: nat)
    requires i < |series|
    ensures var before, offer := LoanOffers(series[..i], statementEnd, forecastFrom), LoanOfferOf(series[i], statementEnd, forecastFrom);
      LoanOffers(series[..i + 1], statementEnd, forecastFrom) == if offer.Some? then before + [offer.value] else before
  {
    assert series[..i + 1][..i] == series[..i];
  }

  method DetectLoans(ds: seq<Debit>, statementEnd: nat, forecastFrom: nat) returns (found: seq<LoanOffer>)
    ensures found == LoansIn(ds, statementEnd, forecastFrom)
  {
    var series := GatherSeries(ds);
    SeriesAreLoans(Instalments(ds, FirstSeen(DaysOf(Payments(ds)))));
    found := [];
    for i := 0 to |series|
      invariant found == LoanOffers(series[..i], statementEnd, forecastFrom)
    {
      LoanOffersGrow(series, i, statementEnd, forecastFrom);
      assert OneLoan(series[i]);
      var offer := FindLoanOffer(series[i], statementEnd, forecastFrom);
      if offer.Some? { found := found + [offer.value]; }
    }
    assert series[..|series|] == series;
  }

  lemma {:induction false} LastIsLatest(days: seq<LoanDay>)
    requires days != []
    ensures LastOf(days) in days && forall x | x in days :: x.day <= LastOf(days).day
  {
    if |days| > 1 {
      LastIsLatest(days[..|days| - 1]);
      assert days == days[..|days| - 1] + [days[|days| - 1]];
    }
  }

  /** A loan's offer: its latest instalment, and the first date of that day after the forecast's start. */
  ghost predicate IsLoanAhead(o: LoanOffer, s: Series, forecastFrom: nat) {
    && (exists x | x in s.days :: x.day == o.lastDay && x.total == o.amount && x.number == o.number == s.number)
    && (forall x | x in s.days :: x.day <= o.lastDay)
    && o.nextDay > forecastFrom && o.dayOfMonth >= 1
    && forall month: nat | Clamped(o.dayOfMonth, month) > forecastFrom :: o.nextDay <= Clamped(o.dayOfMonth, month)
  }

  lemma LoanOfferIsAhead(s: Series, statementEnd: nat, forecastFrom: nat)
    requires OneLoan(s)
    ensures var offer := LoanOfferOf(s, statementEnd, forecastFrom);
      && (offer.Some? <==> MonthsPaid(s.days) >= 2 && !Stopped(LastOf(s.days).day, statementEnd))
      && (offer.Some? ==> IsLoanAhead(offer.value, s, forecastFrom))
  {
    LastIsLatest(s.days);
    NextMonthlyIsLeast(LastOf(s.days).day, forecastFrom);
  }

  lemma {:induction false} LoanOfferSource(series: seq<Series>, statementEnd: nat, forecastFrom: nat, i: nat)
    requires i < |LoanOffers(series, statementEnd, forecastFrom)|
    ensures exists s | s in series :: LoanOfferOf(s, statementEnd, forecastFrom) == Some(LoanOffers(series, statementEnd, forecastFrom)[i])
  {
    var init := series[..|series| - 1];
    var before := LoanOffers(init, statementEnd, forecastFrom);
    if i < |before| {
      LoanOfferSource(init, statementEnd, forecastFrom, i);
      var s :| s in init && LoanOfferOf(s, statementEnd, forecastFrom) == Some(before[i]);
      assert s in series;
    } else {
      assert series[|series| - 1] in series;
    }
  }

  /** Every loan offered is one of the series, and its next payment is after both the statement's end and today. */
  lemma EveryLoanIsAhead(ds: seq<Debit>, statementEnd: nat, today: nat, i: nat)
    requires i < |LoansIn(ds, statementEnd, Max(today, statementEnd))|
    ensures var o, series := LoansIn(ds, statementEnd, Max(today, statementEnd))[i], SeriesOf(Instalments(ds, FirstSeen(DaysOf(Payments(ds)))));
      && o.nextDay > statementEnd && o.nextDay > today
      && exists s | s in series :: OneLoan(s) && IsLoanAhead(o, s, Max(today, statementEnd))
  {
    var xs := Instalments(ds, FirstSeen(DaysOf(Payments(ds))));
    LoanOfferSource(SeriesOf(xs), statementEnd, Max(today, statementEnd), i);
    var s :| s in SeriesOf(xs) && LoanOfferOf(s, statementEnd, Max(today, statementEnd)) == Some(LoansIn(ds, statementEnd, Max(today, statementEnd))[i]);
    SeriesAreLoans(xs);
    LoanOfferIsAhead(s, statementEnd, Max(today, statementEnd));
  }

  // ---------- Before an import and after it ----------

  predicate IsInput(d: Debit, p: Patterns) {
    RecurringInput(d, p) || LoanInput(d)
  }

  lemma InputsOfMore(ds: seq<Debit>, d: Debit, p: Patterns)
    ensures DetectionInputs(ds + [d], p) == if IsInput(d, p) then DetectionInputs(ds, p) + [d] else DetectionInputs(ds, p)
  {
    assert (ds + [d])[..|ds|] == ds;
  }

  lemma EligiblesOfMore(ds: seq<Debit>, d: Debit, t: Detector)
    ensures Eligibles(ds + [d], t) == if Eligible(d, t) then Eligibles(ds, t) + [d] else Eligibles(ds, t)
  {
    assert (ds + [d])[..|ds|] == ds;
  }

  lemma PaymentsOfMore(ds: seq<Debit>, d: Debit)
    ensures Payments(ds + [d]) == if IsLoanPayment(d) then Payments(ds) + [d] else Payments(ds)
  {
    assert (ds + [d])[..|ds|] == ds;
  }

  lemma {:induction false} EligiblesAreInputs(ds: seq<Debit>, t: Detector)
    ensures Eligibles(DetectionInputs(ds, t.patterns), t) == Eligibles(ds, t)
  {
    if ds != [] {
      var init, d := ds[..|ds| - 1], ds[|ds| - 1];
      EligiblesAreInputs(init, t);
      assert ds == init + [d];
      InputsOfMore(init, d, t.patterns);
      EligiblesOfMore(init, d, t);
      EligiblesOfMore(DetectionInputs(init, t.patterns), d, t);
    }
  }

  lemma {:induction false} PaymentsAreInputs(ds: seq<Debit>, p: Patterns)
    ensures Payments(DetectionInputs(ds, p)) == Payments(ds)
    ensures forall d: Debit | d.kind == LoanFee :: d in DetectionInputs(ds, p) <==> d in ds
  {
    if ds != [] {
      var init, d := ds[..|ds| - 1], ds[|ds| - 1];
      PaymentsAreInputs(init, p);
      assert ds == init + [d];
      InputsOfMore(init, d, p);
      PaymentsOfMore(init, d);
      PaymentsOfMore(DetectionInputs(init, p), d);
    }
  }

  lemma {:induction false} SameFeesSameInstalments(a: seq<Debit>, b: seq<Debit>, days: seq<nat>)
    requires Payments(a) == Payments(b)
    requires forall day :: NearFee(a, day) <==> NearFee(b, day)
    ensures Instalments(a, days) == Instalments(b, days)
  {
    if days != [] {
      SameFeesSameInstalments(a, b, days[..|days| - 1]);
    }
  }

  /** Detection depends on nothing but its inputs. */
  lemma DetectionReadsInputs(ds: seq<Debit>, statementEnd: nat, forecastFrom: nat, t: Detector)
    ensures RecurringIn(DetectionInputs(ds, t.patterns), statementEnd, forecastFrom, t) == RecurringIn(ds, statementEnd, forecastFrom, t)
    ensures LoansIn(DetectionInputs(ds, t.patterns), statementEnd, forecastFrom) == LoansIn(ds, statementEnd, forecastFrom)
  {
    EligiblesAreInputs(ds, t);
    PaymentsAreInputs(ds, t.patterns);
    SameFeesSameInstalments(DetectionInputs(ds, t.patterns), ds, FirstSeen(DaysOf(Payments(ds))));
  }

  ghost predicate IsStatementEnd(end: nat, days: set<nat>) {
    end in days && forall day | day in days :: day <= end
  }

  /**
   * The commitments shown for approval before an import are the ones found once it and its
   * resolve pass are through, where the import brings no row or its backfill changes nothing
   * read of any row already stored.
   */
  lemma OfferedBeforeIsFoundAfter(a: AccountState, f: StatementFile, w: Wording, t: Detector, pass: ResolvePass, end: nat, today: nat)
    requires f.rows != [] && TrimmedFile(f.rows, w) && SameClassifier(w, t.patterns)
    requires SameSurplus(StoredAround(a, f.rows, w), StoredCounts(a), f.rows, t.patterns)
    requires FreshRows(a, f.rows, w) == [] || AllReadAlike(a.rows, w, t.patterns, pass.nullsSeen)
    requires IsStatementEnd(end, StoredDays(a.rows) + FileDays(f.rows))
    ensures IsStatementEnd(end, StoredDays(Finished(a, f, w, pass).rows))
    ensures var shown, after := Merged(StoredDebits(a.rows), IncomingDebits(f.rows, t.patterns)), StoredDebits(Finished(a, f, w, pass).rows);
      && RecurringIn(shown, end, Max(today, end), t) == RecurringIn(after, end, Max(today, end), t)
      && LoansIn(shown, end, Max(today, end)) == LoansIn(after, end, Max(today, end))
  {
    var shown, after := Merged(StoredDebits(a.rows), IncomingDebits(f.rows, t.patterns)), StoredDebits(Finished(a, f, w, pass).rows);
    SameStatementDays(a, f, w, pass);
    PreviewEqualsCommitIff(a, f, w, t.patterns, pass);
    DetectionReadsInputs(shown, end, Max(today, end), t);
    DetectionReadsInputs(after, end, Max(today, end), t);
  }
}
