/** Fixed monthly debits that a bank statement proves. */
module Commitments {
  import opened Common
  import opened MonthlyRuns
  import opened ImportPreview
  import opened Grouping
  import Calendar
  import DecisionPolicy

  /** What detection knows by wording: the classifier, a debit's payee key (none when it proves nothing), and how a name is shown. */
  datatype Detector = Detector(patterns: Patterns, payee: (string, int) -> Option<string>, display: string -> string)

  datatype Commitment = Commitment(key: string, name: string, amount: int, dayOfMonth: nat, months: nat, lastDay: nat, nextDay: nat)

  // ---------- One occurrence a month ----------

  function MonthsOf(ds: seq<Debit>): (ms: seq<int>)
    ensures |ms| == |ds| && forall i | 0 <= i < |ds| :: ms[i] == Calendar.MonthOf(ds[i].day)
  {
    seq(|ds|, i requires 0 <= i < |ds| => Calendar.MonthOf(ds[i].day))
  }

  function InMonth(ds: seq<Debit>, month: int): seq<Debit> {
    Under(MonthsOf(ds), ds, month)
  }

  /** The amounts of the months that have a single debit. */
  function Singles(ds: seq<Debit>, months: seq<int>): seq<int> {
    if months == [] then []
    else
      var rows := InMonth(ds, months[|months| - 1]);
      Singles(ds, months[..|months| - 1]) + if |rows| == 1 then [rows[0].amount] else []
  }

  predicate Closer(a: Debit, b: Debit, typical: int) {
    Abs(a.amount - typical) < Abs(b.amount - typical)
  }

  /** The debit closest to the typical amount, the earliest of equals. */
  function Fixed(rows: seq<Debit>, typical: int): Debit
    requires rows != []
  {
    if |rows| == 1 then rows[0]
    else
      var best, r := Fixed(rows[..|rows| - 1], typical), rows[|rows| - 1];
      if Closer(r, best, typical) then r else best
  }

  method FindFixed(rows: seq<Debit>, typical: int) returns (best: Debit)
    requires rows != []
    ensures best == Fixed(rows, typical)
  {
    best := rows[0];
    for i := 1 to |rows|
      invariant best == Fixed(rows[..i], typical)
    {
      assert rows[..i + 1][..i] == rows[..i];
      if Closer(rows[i], best, typical) { best := rows[i]; }
    }
    assert rows[..|rows|] == rows;
  }

  /** Each month's fixed payment. */
  function FixedOf(ds: seq<Debit>, months: seq<int>, typical: int): (os: seq<Occurrence>)
    requires forall i | 0 <= i < |months| :: InMonth(ds, months[i]) != []
    ensures |os| == |months|
    ensures forall i | 0 <= i < |months| ::
      var d := Fixed(InMonth(ds, months[i]), typical);
      os[i] == Occurrence(d.day, d.amount)
  {
    seq(|months|, i requires 0 <= i < |months| => var d := Fixed(InMonth(ds, months[i]), typical); Occurrence(d.day, d.amount))
  }

  function MonthlyOccurrencesOf(ds: seq<Debit>): Option<seq<Occurrence>> {
    var months := FirstSeen(MonthsOf(ds));
    var singles := Singles(ds, months);
    if |ds| > 2 * |months| || singles == [] then None
    else
      SortedMonths(ds);
      Some(FixedOf(ds, DecisionPolicy.Sorted(months), DecisionPolicy.Median(singles)))
  }

  lemma {:induction false} SortedKeepsAll(v: seq<int>)
    ensures multiset(DecisionPolicy.Sorted(v)) == multiset(v) && DecisionPolicy.Ascending(DecisionPolicy.Sorted(v))
  {
    if v != [] {
      SortedKeepsAll(v[1..]);
      InsertKeepsAll(v[0], DecisionPolicy.Sorted(v[1..]));
      DecisionPolicy.InsertKeepsOrder(v[0], DecisionPolicy.Sorted(v[1..]), 0);
      assert v == [v[0]] + v[1..];
    }
  }

  lemma {:induction false} InsertKeepsAll(x: int, v: seq<int>)
    ensures multiset(DecisionPolicy.Insert(x, v)) == multiset(v) + multiset{x}
  {
    if v != [] {
      InsertKeepsAll(x, v[1..]);
      assert v == [v[0]] + v[1..];
    }
  }

  lemma {:induction false} DistinctCountsOnce<K(!new)>(s: seq<K>, k: K)
    requires Distinct(s)
    ensures multiset(s)[k] <= 1
  {
    if s != [] {
      DistinctCountsOnce(s[..|s| - 1], k);
      assert s == s[..|s| - 1] + [s[|s| - 1]];
    }
  }

  /** The months of the debits, each once, in calendar order. */
  lemma SortedMonths(ds: seq<Debit>)
    ensures var months := DecisionPolicy.Sorted(FirstSeen(MonthsOf(ds)));
      && |months| == |FirstSeen(MonthsOf(ds))|
      && (forall i | 0 <= i < |months| :: InMonth(ds, months[i]) != [])
      && (forall i, j | 0 <= i < j < |months| :: months[i] < months[j])
      && (forall k | 0 <= k < |ds| :: MonthsOf(ds)[k] in months)
  {
    var seen := FirstSeen(MonthsOf(ds));
    var months := DecisionPolicy.Sorted(seen);
    FirstSeenIsDistinct(MonthsOf(ds));
    SortedKeepsAll(seen);
    SameMembers(months, seen);
    forall i | 0 <= i < |months| ensures InMonth(ds, months[i]) != [] {
      assert months[i] in seen;
      UnderIsInhabited(MonthsOf(ds), ds, months[i]);
    }
    forall i, j | 0 <= i < j < |months| ensures months[i] < months[j] {
      DistinctCountsOnce(seen, months[i]);
      if months[i] == months[j] { TwiceCounts(months, i, j); }
    }
    forall k | 0 <= k < |ds| ensures MonthsOf(ds)[k] in months {
      assert MonthsOf(ds)[k] in seen;
    }
  }

  lemma SameMembers<K>(a: seq<K>, b: seq<K>)
    requires multiset(a) == multiset(b)
    ensures |a| == |b| && forall k :: k in a <==> k in b
  {
    assert |multiset(a)| == |multiset(b)|;
    forall k ensures k in a <==> k in b {
      assert k in multiset(a) <==> k in multiset(b);
    }
  }

  lemma TwiceCounts<K>(s: seq<K>, i: nat, j: nat)
    requires i < j < |s| && s[i] == s[j]
    ensures multiset(s)[s[i]] >= 2
  {
    assert s == s[..j] + [s[j]] + s[j + 1..];
    assert s[..j][i] == s[i];
    assert s[i] in multiset(s[..j]);
  }

  /** The debits filed month by month. */
  ghost predicate IsByMonth(byMonth: map<int, seq<Debit>>, ds: seq<Debit>) {
    forall m | m in byMonth :: byMonth[m] == InMonth(ds, m)
  }

  method FindSingles(ds: seq<Debit>, months: seq<int>, byMonth: map<int, seq<Debit>>) returns (singles: seq<int>)
    requires IsByMonth(byMonth, ds) && forall i | 0 <= i < |months| :: months[i] in byMonth
    ensures singles == Singles(ds, months)
  {
    singles := [];
    for i := 0 to |months|
      invariant singles == Singles(ds, months[..i])
    {
      assert months[..i + 1][..i] == months[..i];
      var rows := byMonth[months[i]];
      if |rows| == 1 { singles := singles + [rows[0].amount]; }
    }
    assert months[..|months|] == months;
  }

  method PickFixed(ds: seq<Debit>, months: seq<int>, byMonth: map<int, seq<Debit>>, typical: int) returns (os: seq<Occurrence>)
    requires IsByMonth(byMonth, ds) && forall i | 0 <= i < |months| :: months[i] in byMonth && InMonth(ds, months[i]) != []
    ensures os == FixedOf(ds, months, typical)
  {
    os := [];
    for i := 0 to |months|
      invariant |os| == i
      invariant forall k | 0 <= k < i :: os[k] == FixedOf(ds, months, typical)[k]
    {
      var best := FindFixed(byMonth[months[i]], typical);
      os := os + [Occurrence(best.day, best.amount)];
    }
  }

  method MonthlyOccurrences(ds: seq<Debit>) returns (found: Option<seq<Occurrence>>)
    ensures found == MonthlyOccurrencesOf(ds)
  {
    var months, byMonth := GroupBy(MonthsOf(ds), ds);
    if |ds| > 2 * |months| { return None; }
    var singles := FindSingles(ds, months, byMonth);
    if singles == [] { return None; }
    SortedMonths(ds);
    SortedKeepsAll(months);
    SameMembers(DecisionPolicy.Sorted(months), months);
    var os := PickFixed(ds, DecisionPolicy.Sorted(months), byMonth, DecisionPolicy.Median(singles));
    return Some(os);
  }

  lemma {:induction false} FixedIsClosest(rows: seq<Debit>, typical: int)
    requires rows != []
    ensures Fixed(rows, typical) in rows
    ensures forall d | d in rows :: Abs(Fixed(rows, typical).amount - typical) <= Abs(d.amount - typical)
  {
    if |rows| > 1 {
      FixedIsClosest(rows[..|rows| - 1], typical);
      assert rows == rows[..|rows| - 1] + [rows[|rows| - 1]];
    }
  }

  /** A payment of the occurrence's own month, no other of that month being nearer the typical amount. */
  ghost predicate IsFixedPayment(ds: seq<Debit>, o: Occurrence, typical: int) {
    && (exists d | d in ds :: d.day == o.day && d.amount == o.amount)
    && forall d | d in ds && Calendar.MonthOf(d.day) == Calendar.MonthOf(o.day) :: Abs(o.amount - typical) <= Abs(d.amount - typical)
  }

  lemma FixedPayment(ds: seq<Debit>, month: int, typical: int)
    requires InMonth(ds, month) != []
    ensures var d := Fixed(InMonth(ds, month), typical);
      IsFixedPayment(ds, Occurrence(d.day, d.amount), typical) && Calendar.MonthOf(d.day) == month
  {
    var d := Fixed(InMonth(ds, month), typical);
    FixedIsClosest(InMonth(ds, month), typical);
    UnderHolds(MonthsOf(ds), ds, month, d);
    forall e | e in ds && Calendar.MonthOf(e.day) == month ensures Abs(d.amount - typical) <= Abs(e.amount - typical) {
      var i :| 0 <= i < |ds| && ds[i] == e;
      assert MonthsOf(ds)[i] == month;
      UnderHolds(MonthsOf(ds), ds, month, e);
    }
  }

  /** The occurrences are the months' fixed payments: every month with a debit once, in order. */
  lemma OneOccurrenceAMonth(ds: seq<Debit>)
    requires MonthlyOccurrencesOf(ds).Some?
    ensures var os, typical := MonthlyOccurrencesOf(ds).value, DecisionPolicy.Median(Singles(ds, FirstSeen(MonthsOf(ds))));
      && (forall i, j | 0 <= i < j < |os| :: Calendar.MonthOf(os[i].day) < Calendar.MonthOf(os[j].day))
      && (forall i | 0 <= i < |os| :: IsFixedPayment(ds, os[i], typical))
      && (forall d | d in ds :: exists i | 0 <= i < |os| :: Calendar.MonthOf(os[i].day) == Calendar.MonthOf(d.day))
      && |ds| <= 2 * |os|
  {
    var os, typical := MonthlyOccurrencesOf(ds).value, DecisionPolicy.Median(Singles(ds, FirstSeen(MonthsOf(ds))));
    var months := DecisionPolicy.Sorted(FirstSeen(MonthsOf(ds)));
    SortedMonths(ds);
    forall i | 0 <= i < |os| ensures IsFixedPayment(ds, os[i], typical) && Calendar.MonthOf(os[i].day) == months[i] {
      FixedPayment(ds, months[i], typical);
    }
    forall d | d in ds ensures exists i | 0 <= i < |os| :: Calendar.MonthOf(os[i].day) == Calendar.MonthOf(d.day) {
      var k :| 0 <= k < |ds| && ds[k] == d;
      assert MonthsOf(ds)[k] in months;
      var i :| 0 <= i < |months| && months[i] == MonthsOf(ds)[k];
      assert Calendar.MonthOf(os[i].day) == Calendar.MonthOf(d.day);
    }
  }

  // ---------- Recurring payments ----------

  function NameOn(rows: seq<Debit>, day: nat): string {
    if rows == [] then "" else if rows[0].day == day then rows[0].description else NameOn(rows[1..], day)
  }

  /** What one payee's debits prove, if anything. */
  function Offer(key: string, rows: seq<Debit>, statementEnd: nat, forecastFrom: nat, t: Detector): Option<Commitment> {
    var found := MonthlyOccurrencesOf(rows);
    if found.None? || |found.value| < 2 then None
    else OfferFrom(key, rows, found.value, statementEnd, forecastFrom, t)
  }

  function OfferFrom(key: string, rows: seq<Debit>, os: seq<Occurrence>, statementEnd: nat, forecastFrom: nat, t: Detector): Option<Commitment>
    requires |os| >= 2
  {
    LatestRunIsInhabited(os);
    var run := LatestRunOf(os);
    var last := run[|run| - 1];
    if Stopped(last.day, statementEnd) || (|run| < 3 && !(|run| == 2 && |os| >= 3)) then None
    else Some(Commitment(key, t.display(NameOn(rows, last.day)), last.amount, DayOfMonth(last.day), |run|, last.day, NextMonthly(last.day, forecastFrom)))
  }

  ghost predicate Positive(ds: seq<Debit>) {
    forall d | d in ds :: d.amount > 0
  }

  lemma PositiveOccurrences(rows: seq<Debit>)
    requires Positive(rows) && MonthlyOccurrencesOf(rows).Some?
    ensures PositiveAmounts(MonthlyOccurrencesOf(rows).value)
  {
    OneOccurrenceAMonth(rows);
    var os := MonthlyOccurrencesOf(rows).value;
    forall i | 0 <= i < |os| ensures os[i].amount > 0 {
      assert IsFixedPayment(rows, os[i], DecisionPolicy.Median(Singles(rows, FirstSeen(MonthsOf(rows)))));
    }
  }

  method FindOffer(key: string, rows: seq<Debit>, statementEnd: nat, forecastFrom: nat, t: Detector) returns (offer: Option<Commitment>)
    requires Positive(rows)
    ensures offer == Offer(key, rows, statementEnd, forecastFrom, t)
  {
    var found := MonthlyOccurrences(rows);
    if found.None? || |found.value| < 2 { return None; }
    PositiveOccurrences(rows);
    LatestRunIsInhabited(found.value);
    var run := LatestRun(found.value);
    var last := run[|run| - 1];
    var due := FindNextMonthly(last.day, last.day);
    if due + DAY_OF_MONTH_TOLERANCE <= statementEnd { return None; }
    if |run| < 3 && !(|run| == 2 && |found.value| >= 3) { return None; }
    var next := FindNextMonthly(last.day, forecastFrom);
    return Some(Commitment(key, t.display(NameOn(rows, last.day)), last.amount, DayOfMonth(last.day), |run|, last.day, next));
  }

  /** Three months or more, the last two in agreement, and not yet stopped. */
  ghost predicate ProvesPayment(os: seq<Occurrence>, statementEnd: nat) {
    |os| >= 3 && IsRun(os[|os| - 2..]) && !Stopped(os[|os| - 1].day, statementEnd)
  }

  /**
   * A payee is offered exactly when it was debited in three months or more, its
   * last two payments agree, and the next one is not already overdue.
   */
  lemma OfferedIff(key: string, rows: seq<Debit>, statementEnd: nat, forecastFrom: nat, t: Detector)
    requires Positive(rows)
    ensures var found := MonthlyOccurrencesOf(rows);
      Offer(key, rows, statementEnd, forecastFrom, t).Some? <==> found.Some? && ProvesPayment(found.value, statementEnd)
  {
    var found := MonthlyOccurrencesOf(rows);
    if found.Some? && |found.value| >= 2 {
      PositiveOccurrences(rows);
      OfferFromIff(key, rows, found.value, statementEnd, forecastFrom, t);
    }
  }

  lemma OfferFromIff(key: string, rows: seq<Debit>, os: seq<Occurrence>, statementEnd: nat, forecastFrom: nat, t: Detector)
    requires |os| >= 2 && PositiveAmounts(os)
    ensures OfferFrom(key, rows, os, statementEnd, forecastFrom, t).Some? <==> ProvesPayment(os, statementEnd)
  {
    LongEnoughIff(os);
  }

  lemma LongEnoughIff(os: seq<Occurrence>)
    requires |os| >= 2 && PositiveAmounts(os)
    ensures var n := |LatestRunOf(os)|;
      1 <= n <= |os| && LatestRunOf(os)[n - 1] == os[|os| - 1]
      && ((n < 3 && !(n == 2 && |os| >= 3)) <==> !(|os| >= 3 && IsRun(os[|os| - 2..])))
  {
    LatestRunIsInhabited(os);
    LatestRunIsLongest(os, |os| - 2);
  }

  /** The offer's months are its payee's longest latest run, and its next date the first one after the forecast's start. */
  lemma OfferIsNextDue(key: string, rows: seq<Debit>, statementEnd: nat, forecastFrom: nat, t: Detector)
    requires Positive(rows) && Offer(key, rows, statementEnd, forecastFrom, t).Some?
    ensures var c, os := Offer(key, rows, statementEnd, forecastFrom, t).value, MonthlyOccurrencesOf(rows).value;
      IsLatestRun(c, os) && IsNextDue(c, forecastFrom)
  {
    var os := MonthlyOccurrencesOf(rows).value;
    PositiveOccurrences(rows);
    OfferFromIsNextDue(key, rows, os, statementEnd, forecastFrom, t);
  }

  /** Priced and dated by the last occurrence, and counting exactly the months of the longest run that ends there. */
  ghost predicate IsLatestRun(c: Commitment, os: seq<Occurrence>) {
    && 2 <= c.months <= |os| && c.lastDay == os[|os| - 1].day && c.amount == os[|os| - 1].amount
    && forall j | 0 <= j <= |os| :: IsRun(os[j..]) <==> |os| - j <= c.months
  }

  lemma OfferFromIsNextDue(key: string, rows: seq<Debit>, os: seq<Occurrence>, statementEnd: nat, forecastFrom: nat, t: Detector)
    requires |os| >= 2 && PositiveAmounts(os) && OfferFrom(key, rows, os, statementEnd, forecastFrom, t).Some?
    ensures var c := OfferFrom(key, rows, os, statementEnd, forecastFrom, t).value;
      IsLatestRun(c, os) && IsNextDue(c, forecastFrom)
  {
    LatestRunIsInhabited(os);
    forall j | 0 <= j <= |os| ensures IsRun(os[j..]) <==> |os| - j <= |LatestRunOf(os)| { LatestRunIsLongest(os, j); }
    LatestRunIsLongest(os, 0);
    var run := LatestRunOf(os);
    NextMonthlyIsLeast(run[|run| - 1].day, forecastFrom);
  }

  /** Strictly after the forecast's start, and no month's clamped date comes between. */
  ghost predicate IsNextDue(c: Commitment, forecastFrom: nat) {
    && c.dayOfMonth >= 1 && c.nextDay > forecastFrom
    && (exists month: nat :: c.nextDay == Clamped(c.dayOfMonth, month))
    && forall month: nat | Clamped(c.dayOfMonth, month) > forecastFrom :: c.nextDay <= Clamped(c.dayOfMonth, month)
  }

  predicate Eligible(d: Debit, t: Detector) {
    RecurringInput(d, t.patterns) && t.payee(d.description, d.amount).Some?
  }

  function Eligibles(ds: seq<Debit>, t: Detector): seq<Debit> {
    if ds == [] then []
    else Eligibles(ds[..|ds| - 1], t) + if Eligible(ds[|ds| - 1], t) then [ds[|ds| - 1]] else []
  }

  function PayeeOf(d: Debit, t: Detector): string {
    var payee := t.payee(d.description, d.amount);
    if payee.Some? then payee.value else ""
  }

  function PayeesOf(ds: seq<Debit>, t: Detector): (ps: seq<string>)
    ensures |ps| == |ds| && forall i | 0 <= i < |ds| :: ps[i] == PayeeOf(ds[i], t)
  {
    seq(|ds|, i requires 0 <= i < |ds| => PayeeOf(ds[i], t))
  }

  /** The offers of the payees in order of appearance. */
  function Offers(keys: seq<string>, ds: seq<Debit>, statementEnd: nat, forecastFrom: nat, t: Detector): seq<Commitment> {
    if keys == [] then []
    else
      var key := keys[|keys| - 1];
      var offer := Offer(key, Under(PayeesOf(ds, t), ds, key), statementEnd, forecastFrom, t);
      Offers(keys[..|keys| - 1], ds, statementEnd, forecastFrom, t) + if offer.Some? then [offer.value] else []
  }

  function RecurringIn(debits: seq<Debit>, statementEnd: nat, forecastFrom: nat, t: Detector): seq<Commitment> {
    var ds := Eligibles(debits, t);
    Offers(FirstSeen(PayeesOf(ds, t)), ds, statementEnd, forecastFrom, t)
  }

  lemma {:induction false} EligiblesHold(ds: seq<Debit>, t: Detector, d: Debit)
    ensures d in Eligibles(ds, t) <==> d in ds && Eligible(d, t)
  {
    if ds != [] {
      EligiblesHold(ds[..|ds| - 1], t, d);
      assert ds == ds[..|ds| - 1] + [ds[|ds| - 1]];
    }
  }

  lemma PayeeRowsArePositive(debits: seq<Debit>, t: Detector, key: string)
    ensures Positive(Under(PayeesOf(Eligibles(debits, t), t), Eligibles(debits, t), key))
  {
    var ds := Eligibles(debits, t);
    forall d | d in Under(PayeesOf(ds, t), ds, key) ensures d.amount > 0 {
      UnderHolds(PayeesOf(ds, t), ds, key, d);
      EligiblesHold(debits, t, d);
    }
  }

  method KeepEligible(debits: seq<Debit>, t: Detector) returns (ds: seq<Debit>)
    ensures ds == Eligibles(debits, t)
  {
    ds := [];
    for i := 0 to |debits|
      invariant ds == Eligibles(debits[..i], t)
    {
      assert debits[..i + 1][..i] == debits[..i];
      if Eligible(debits[i], t) { ds := ds + [debits[i]]; }
    }
    assert debits[..|debits|] == debits;
  }

  lemma OffersGrow(keys: seq<string>, i: nat, ds: seq<Debit>, statementEnd: nat, forecastFrom: nat, t: Detector)
    requires i < |keys|
    ensures var offer := Offer(keys[i], Under(PayeesOf(ds, t), ds, keys[i]), statementEnd, forecastFrom, t);
      Offers(keys[..i + 1], ds, statementEnd, forecastFrom, t) ==
      Offers(keys[..i], ds, statementEnd, forecastFrom, t) + if offer.Some? then [offer.value] else []
  {
    assert keys[..i + 1][..i] == keys[..i];
  }

  method DetectRecurring(debits: seq<Debit>, statementEnd: nat, forecastFrom: nat, t: Detector) returns (found: seq<Commitment>)
    ensures found == RecurringIn(debits, statementEnd, forecastFrom, t)
  {
    var ds := KeepEligible(debits, t);
    var order, groups := GroupBy(PayeesOf(ds, t), ds);
    found := [];
    for i := 0 to |order|
      invariant found == Offers(order[..i], ds, statementEnd, forecastFrom, t)
    {
      OffersGrow(order, i, ds, statementEnd, forecastFrom, t);
      PayeeRowsArePositive(debits, t, order[i]);
      var offer := FindOffer(order[i], groups[order[i]], statementEnd, forecastFrom, t);
      if offer.Some? { found := found + [offer.value]; }
    }
    assert order[..|order|] == order;
  }

  lemma {:induction false} OfferSource(keys: seq<string>, ds: seq<Debit>, statementEnd: nat, forecastFrom: nat, t: Detector, i: nat)
    requires i < |Offers(keys, ds, statementEnd, forecastFrom, t)|
    ensures var c := Offers(keys, ds, statementEnd, forecastFrom, t)[i];
      c.key in keys && Offer(c.key, Under(PayeesOf(ds, t), ds, c.key), statementEnd, forecastFrom, t) == Some(c)
  {
    if i < |Offers(keys[..|keys| - 1], ds, statementEnd, forecastFrom, t)| {
      OfferSource(keys[..|keys| - 1], ds, statementEnd, forecastFrom, t, i);
    }
  }

  /** Every payment offered falls after both the statement's end and today, on the first such date. */
  lemma EveryOfferIsAhead(debits: seq<Debit>, statementEnd: nat, today: nat, t: Detector)
    ensures var found := RecurringIn(debits, statementEnd, Max(today, statementEnd), t);
      forall i | 0 <= i < |found| :: found[i].nextDay > statementEnd && found[i].nextDay > today && IsNextDue(found[i], Max(today, statementEnd))
  {
    var ds, from := Eligibles(debits, t), Max(today, statementEnd);
    var found := RecurringIn(debits, statementEnd, from, t);
    forall i | 0 <= i < |found| ensures IsNextDue(found[i], from) {
      OfferSource(FirstSeen(PayeesOf(ds, t)), ds, statementEnd, from, t, i);
      PayeeRowsArePositive(debits, t, found[i].key);
      OfferIsNextDue(found[i].key, Under(PayeesOf(ds, t), ds, found[i].key), statementEnd, from, t);
    }
  }

  function OfferKeys(cs: seq<Commitment>): (ks: seq<string>)
    ensures |ks| == |cs| && forall i | 0 <= i < |cs| :: ks[i] == cs[i].key
  {
    seq(|cs|, i requires 0 <= i < |cs| => cs[i].key)
  }

  /** The keys offered are some of the keys asked about, in their order. */
  function Selected(keys: seq<string>, ds: seq<Debit>, statementEnd: nat, forecastFrom: nat, t: Detector): seq<string> {
    OfferKeys(Offers(keys, ds, statementEnd, forecastFrom, t))
  }

  ghost predicate Among(some: seq<string>, all: seq<string>) {
    forall k | k in some :: k in all
  }

  lemma {:induction false} SelectedStayDistinct(keys: seq<string>, ds: seq<Debit>, statementEnd: nat, forecastFrom: nat, t: Detector)
    requires Distinct(keys)
    ensures Distinct(Selected(keys, ds, statementEnd, forecastFrom, t)) && Among(Selected(keys, ds, statementEnd, forecastFrom, t), keys)
  {
    if keys != [] {
      var init := keys[..|keys| - 1];
      SelectedStayDistinct(init, ds, statementEnd, forecastFrom, t);
      SelectedGrow(keys, ds, statementEnd, forecastFrom, t);
      SelectionStaysDistinct(keys, Selected(init, ds, statementEnd, forecastFrom, t), Selected(keys, ds, statementEnd, forecastFrom, t));
    }
  }

  lemma SelectionStaysDistinct(keys: seq<string>, before: seq<string>, after: seq<string>)
    requires keys != [] && Distinct(keys) && Distinct(before) && Among(before, keys[..|keys| - 1])
    requires after == before || after == before + [keys[|keys| - 1]]
    ensures Distinct(after) && Among(after, keys)
  {
    var init, key := keys[..|keys| - 1], keys[|keys| - 1];
    assert key !in init;
    assert key !in before;
  }

  lemma SelectedGrow(keys: seq<string>, ds: seq<Debit>, statementEnd: nat, forecastFrom: nat, t: Detector)
    requires keys != []
    ensures var before := Selected(keys[..|keys| - 1], ds, statementEnd, forecastFrom, t);
      || Selected(keys, ds, statementEnd, forecastFrom, t) == before
      || Selected(keys, ds, statementEnd, forecastFrom, t) == before + [keys[|keys| - 1]]
  {
    var n := |keys| - 1;
    OffersGrow(keys, n, ds, statementEnd, forecastFrom, t);
    assert keys[..n + 1] == keys;
    KeyOfMore(Offers(keys[..n], ds, statementEnd, forecastFrom, t), Offers(keys, ds, statementEnd, forecastFrom, t), keys[n]);
  }

  lemma KeyOfMore(before: seq<Commitment>, after: seq<Commitment>, key: string)
    requires after == before || (|after| == |before| + 1 && after[..|before|] == before && after[|before|].key == key)
    ensures OfferKeys(after) == OfferKeys(before) || OfferKeys(after) == OfferKeys(before) + [key]
  {
  }

  /** A payee is offered at most once. */
  lemma OnePerPayee(debits: seq<Debit>, statementEnd: nat, forecastFrom: nat, t: Detector)
    ensures Distinct(OfferKeys(RecurringIn(debits, statementEnd, forecastFrom, t)))
  {
    var ds := Eligibles(debits, t);
    FirstSeenIsDistinct(PayeesOf(ds, t));
    SelectedStayDistinct(FirstSeen(PayeesOf(ds, t)), ds, statementEnd, forecastFrom, t);
  }
}
