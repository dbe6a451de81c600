/** The money summary of one statement, and the round trips held out of its confirmed figures. */
module MoneyBuckets {
  import opened Common
  import opened BankRows
  import opened BalanceReplay
  import opened TransferPairing
  import Calendar

  // ---------- Round trips ----------

  function SideOf(row: ParsedRow): Side {
    if row.kind != Standard then Bystander
    else match row.direction
      case Withdrawal => Outgoing
      case Deposit => Incoming
      case OtherMovement => Bystander
  }

  function LegsOf(rows: seq<ParsedRow>): (legs: seq<Leg>)
    ensures |legs| == |rows| && forall i {:trigger legs[i]} | 0 <= i < |rows| :: legs[i] == Leg(rows[i].day, rows[i].amount, SideOf(rows[i]))
  {
    seq(|rows|, i requires 0 <= i < |rows| => Leg(rows[i].day, rows[i].amount, SideOf(rows[i])))
  }

  /** Both legs of every pair are flagged; a flag already set stays. */
  function Flagged(rows: seq<ParsedRow>, places: set<nat>): (r: seq<ParsedRow>)
    ensures |r| == |rows|
    ensures forall i {:trigger r[i]} | 0 <= i < |rows| :: r[i] == if i in places then rows[i].(roundTrip := true) else rows[i]
  {
    seq(|rows|, i requires 0 <= i < |rows| => if i in places then rows[i].(roundTrip := true) else rows[i])
  }

  method AnnotateRoundTrips(a: array<ParsedRow>) returns (pairs: seq<Pair>)
    modifies a
    ensures pairs == Pairs(LegsOf(old(a[..])))
    ensures a[..] == Flagged(old(a[..]), Held(pairs))
  {
    var rows := a[..];
    var taken;
    pairs, taken := PairLegs(LegsOf(rows));
    StaysOneToOne(LegsOf(rows), |rows|);
    for k := 0 to |pairs|
      invariant a[..] == Flagged(rows, Held(pairs[..k]))
    {
      assert Compatible(LegsOf(rows), pairs[k].out, pairs[k].back);
      SetsOfAppend(pairs[..k], pairs[k]);
      assert pairs[..k + 1] == pairs[..k] + [pairs[k]];
      FlagPair(a, pairs[k], rows, Held(pairs[..k]));
      assert Held(pairs[..k]) + {pairs[k].out, pairs[k].back} == Held(pairs[..k + 1]);
    }
    assert pairs[..|pairs|] == pairs;
  }

  method FlagPair(a: array<ParsedRow>, p: Pair, ghost rows: seq<ParsedRow>, ghost held: set<nat>)
    requires |rows| == a.Length && p.out < a.Length && p.back < a.Length && a[..] == Flagged(rows, held)
    modifies a
    ensures a[..] == Flagged(rows, held + {p.out, p.back})
  {
    a[p.out] := a[p.out].(roundTrip := true);
    a[p.back] := a[p.back].(roundTrip := true);
    assert forall i {:trigger a[i]} | 0 <= i < a.Length :: a[i] == Flagged(rows, held + {p.out, p.back})[i];
  }

  // ---------- The buckets ----------

  datatype MoneySummary = MoneySummary(
    depositsRaw: int, withdrawalsRaw: int, income: int, incomeConfirmed: int, currentSpend: int, currentSpendConfirmed: int,
    financingCharged: int, financingRefunded: int, financingNet: int, principal: int, mixed: int, roundTripPending: int)

  predicate IsIn(row: ParsedRow) { row.direction == Deposit }
  predicate IsInterest(row: ParsedRow) { row.kind in {LoanInterest, OverdraftInterest} }
  /** Neither interest nor a loan repayment. */
  predicate IsOrdinary(row: ParsedRow) { !IsInterest(row) && row.kind != LoanPrincipal && row.kind != LoanMixed }

  function SumRows(rows: seq<ParsedRow>, p: ParsedRow -> bool): int {
    if rows == [] then 0 else SumRows(rows[..|rows| - 1], p) + if p(rows[|rows| - 1]) then rows[|rows| - 1].amount else 0
  }

  function SummaryOf(rows: seq<ParsedRow>): MoneySummary {
    var income := SumRows(rows, (r: ParsedRow) => IsOrdinary(r) && IsIn(r));
    var spend := SumRows(rows, (r: ParsedRow) => IsOrdinary(r) && !IsIn(r));
    var charged := SumRows(rows, (r: ParsedRow) => IsInterest(r) && !IsIn(r));
    var refunded := SumRows(rows, (r: ParsedRow) => IsInterest(r) && IsIn(r));
    var pending := SumRows(rows, (r: ParsedRow) => IsOrdinary(r) && IsIn(r) && r.roundTrip);
    MoneySummary(
      SumRows(rows, IsIn), SumRows(rows, (r: ParsedRow) => !IsIn(r)), income, income - pending, spend, spend - pending,
      charged, refunded, charged - refunded,
      SumRows(rows, (r: ParsedRow) => r.kind == LoanPrincipal && !IsIn(r)),
      SumRows(rows, (r: ParsedRow) => r.kind == LoanMixed && !IsIn(r)), pending)
  }

  method SummarizeMoney(rows: seq<ParsedRow>) returns (m: MoneySummary)
    ensures m == SummaryOf(rows)
  {
    var depositsRaw, withdrawalsRaw, income, spend, charged, refunded, principal, mixed, pending := 0, 0, 0, 0, 0, 0, 0, 0, 0;
    for i := 0 to |rows|
      invariant depositsRaw == SumRows(rows[..i], IsIn) && withdrawalsRaw == SumRows(rows[..i], (r: ParsedRow) => !IsIn(r))
      invariant charged == SumRows(rows[..i], (r: ParsedRow) => IsInterest(r) && !IsIn(r))
      invariant refunded == SumRows(rows[..i], (r: ParsedRow) => IsInterest(r) && IsIn(r))
      invariant principal == SumRows(rows[..i], (r: ParsedRow) => r.kind == LoanPrincipal && !IsIn(r))
      invariant mixed == SumRows(rows[..i], (r: ParsedRow) => r.kind == LoanMixed && !IsIn(r))
      invariant income == SumRows(rows[..i], (r: ParsedRow) => IsOrdinary(r) && IsIn(r))
      invariant spend == SumRows(rows[..i], (r: ParsedRow) => IsOrdinary(r) && !IsIn(r))
      invariant pending == SumRows(rows[..i], (r: ParsedRow) => IsOrdinary(r) && IsIn(r) && r.roundTrip)
    {
      var row := rows[i];
      assert rows[..i + 1][..i] == rows[..i];
      if IsIn(row) { depositsRaw := depositsRaw + row.amount; } else { withdrawalsRaw := withdrawalsRaw + row.amount; }
      if IsInterest(row) {
        if IsIn(row) { refunded := refunded + row.amount; } else { charged := charged + row.amount; }
        continue;
      }
      if row.kind == LoanPrincipal {
        if !IsIn(row) { principal := principal + row.amount; }
        continue;
      }
      if row.kind == LoanMixed {
        if !IsIn(row) { mixed := mixed + row.amount; }
        continue;
      }
      if IsIn(row) { income := income + row.amount; } else { spend := spend + row.amount; }
      if row.roundTrip && IsIn(row) { pending := pending + row.amount; }
    }
    assert rows[..|rows|] == rows;
    m := MoneySummary(depositsRaw, withdrawalsRaw, income, income - pending, spend, spend - pending,
                      charged, refunded, charged - refunded, principal, mixed, pending);
  }

  // ---------- What the buckets promise ----------

  /** Repayments that arrive in the credit column: in no bucket, surfaced for a human instead. */
  function ReversedRepayments(rows: seq<ParsedRow>): int {
    SumRows(rows, (r: ParsedRow) => r.kind in {LoanPrincipal, LoanMixed} && IsIn(r))
  }

  /** Every agora of each column lands in exactly one bucket. */
  lemma {:induction false} BucketsCoverColumns(rows: seq<ParsedRow>)
    ensures var m := SummaryOf(rows);
      && m.withdrawalsRaw == m.currentSpend + m.financingCharged + m.principal + m.mixed
      && m.depositsRaw == m.income + m.financingRefunded + ReversedRepayments(rows)
  {
    if rows != [] {
      BucketsCoverColumns(rows[..|rows| - 1]);
    }
  }

  /** The held-back sum is the flagged credits, so income is confirmed row by row; spending only if the flagged debits sum to the same. */
  lemma {:induction false} ConfirmedRowByRow(rows: seq<ParsedRow>)
    ensures var m := SummaryOf(rows);
      && m.incomeConfirmed == SumRows(rows, (r: ParsedRow) => IsOrdinary(r) && IsIn(r) && !r.roundTrip)
      && m.currentSpend == SumRows(rows, (r: ParsedRow) => IsOrdinary(r) && !IsIn(r) && !r.roundTrip)
                         + SumRows(rows, (r: ParsedRow) => IsOrdinary(r) && !IsIn(r) && r.roundTrip)
  {
    if rows != [] {
      ConfirmedRowByRow(rows[..|rows| - 1]);
    }
  }

  /** A sum over rows is the sum over their places. */
  lemma {:induction false} SumByPlace(rows: seq<ParsedRow>, p: ParsedRow -> bool, amounts: seq<int>, at: set<nat>)
    requires |amounts| == |rows| && forall i | 0 <= i < |rows| :: amounts[i] == rows[i].amount && (p(rows[i]) <==> i in at)
    ensures SumRows(rows, p) == SumAt(amounts, at)
  {
    if rows != [] {
      SumByPlace(rows[..|rows| - 1], p, amounts[..|rows| - 1], at);
    }
  }

  /** A flagged row is ordinary, and on the side its pair has it. */
  lemma FlaggedSides(rows: seq<ParsedRow>, outs: set<nat>, backs: set<nat>, i: nat)
    requires i < |rows| && !rows[i].roundTrip
    requires (i in outs ==> SideOf(rows[i]) == Outgoing) && (i in backs ==> SideOf(rows[i]) == Incoming)
    ensures var row := Flagged(rows, outs + backs)[i];
      && row.amount == rows[i].amount
      && (IsOrdinary(row) && !IsIn(row) && row.roundTrip <==> i in outs)
      && (IsOrdinary(row) && IsIn(row) && row.roundTrip <==> i in backs)
  {
  }

  /**
   * After the round trips are annotated, both confirmed figures are the sums over rows no one
   * flagged: the pairing joins equal amounts, so one held-back sum serves both columns.
   */
  lemma ConfirmedMeansUnflagged(rows: seq<ParsedRow>)
    requires forall i | 0 <= i < |rows| :: !rows[i].roundTrip
    ensures var flagged := Flagged(rows, Held(Pairs(LegsOf(rows))));
      var m := SummaryOf(flagged);
      && m.incomeConfirmed == SumRows(flagged, (r: ParsedRow) => IsOrdinary(r) && IsIn(r) && !r.roundTrip)
      && m.currentSpendConfirmed == SumRows(flagged, (r: ParsedRow) => IsOrdinary(r) && !IsIn(r) && !r.roundTrip)
  {
    var legs := LegsOf(rows);
    var ps := Pairs(legs);
    var flagged := Flagged(rows, Held(ps));
    HeldSidesBalance(legs);
    ConfirmedRowByRow(flagged);
    forall i | 0 <= i < |rows|
      ensures Amounts(legs)[i] == flagged[i].amount
      ensures IsOrdinary(flagged[i]) && !IsIn(flagged[i]) && flagged[i].roundTrip <==> i in Outs(ps)
      ensures IsOrdinary(flagged[i]) && IsIn(flagged[i]) && flagged[i].roundTrip <==> i in Backs(ps)
    {
      assert legs[i].amount == rows[i].amount && legs[i].side == SideOf(rows[i]);
      FlaggedSides(rows, Outs(ps), Backs(ps), i);
    }
    SumByPlace(flagged, (r: ParsedRow) => IsOrdinary(r) && !IsIn(r) && r.roundTrip, Amounts(legs), Outs(ps));
    SumByPlace(flagged, (r: ParsedRow) => IsOrdinary(r) && IsIn(r) && r.roundTrip, Amounts(legs), Backs(ps));
  }

  // ---------- Interest, netted per month ----------

  datatype MonthFinancing = MonthFinancing(charged: int, refunded: int, net: int)

  function InMonth(byMonth: map<nat, MonthFinancing>, month: nat, row: ParsedRow): map<nat, MonthFinancing> {
    var entry := if month in byMonth then byMonth[month] else MonthFinancing(0, 0, 0);
    var charged := entry.charged + if row.direction == Withdrawal then row.amount else 0;
    var refunded := entry.refunded + if row.direction == Withdrawal then 0 else row.amount;
    byMonth[month := MonthFinancing(charged, refunded, charged - refunded)]
  }

  function WithInterest(byMonth: map<nat, MonthFinancing>, row: ParsedRow): map<nat, MonthFinancing> {
    if IsInterest(row) then InMonth(byMonth, Calendar.MonthOf(row.day), row) else byMonth
  }

  function FinancingByMonth(rows: seq<ParsedRow>): map<nat, MonthFinancing> {
    if rows == [] then map[] else WithInterest(FinancingByMonth(rows[..|rows| - 1]), rows[|rows| - 1])
  }

  method AddInterest(byMonth: map<nat, MonthFinancing>, month: nat, row: ParsedRow) returns (next: map<nat, MonthFinancing>)
    ensures next == InMonth(byMonth, month, row)
  {
    var entry := if month in byMonth then byMonth[month] else MonthFinancing(0, 0, 0);
    if row.direction == Withdrawal { entry := entry.(charged := entry.charged + row.amount); }
    else { entry := entry.(refunded := entry.refunded + row.amount); }
    entry := entry.(net := entry.charged - entry.refunded);
    next := byMonth[month := entry];
  }

  method SummarizeMonthFinancing(rows: seq<ParsedRow>) returns (byMonth: map<nat, MonthFinancing>)
    ensures byMonth == FinancingByMonth(rows)
  {
    byMonth := map[];
    for i := 0 to |rows|
      invariant byMonth == FinancingByMonth(rows[..i])
    {
      assert rows[..i + 1][..i] == rows[..i];
      if !IsInterest(rows[i]) { continue; }
      byMonth := AddInterest(byMonth, Calendar.MonthOf(rows[i].day), rows[i]);
    }
    assert rows[..|rows|] == rows;
  }

  function Nets(byMonth: map<nat, MonthFinancing>): map<nat, int> {
    map m | m in byMonth :: byMonth[m].net
  }

  ghost predicate Netted(byMonth: map<nat, MonthFinancing>) {
    forall m | m in byMonth :: byMonth[m].net == byMonth[m].charged - byMonth[m].refunded
  }

  lemma NetsStep(byMonth: map<nat, MonthFinancing>, row: ParsedRow)
    requires IsInterest(row) && row.direction != OtherMovement && Netted(byMonth)
    ensures var next := WithInterest(byMonth, row);
      SumIds(Nets(next), next.Keys) == SumIds(Nets(byMonth), byMonth.Keys) + if IsIn(row) then -row.amount else row.amount
    ensures Netted(WithInterest(byMonth, row))
  {
    var next, month := WithInterest(byMonth, row), Calendar.MonthOf(row.day);
    SumIdsSet(Nets(byMonth), month, next[month].net);
    assert Nets(next) == Nets(byMonth)[month := next[month].net];
    assert Nets(byMonth).Keys == byMonth.Keys && next.Keys == byMonth.Keys + {month};
  }

  /** Netting per month loses nothing: the months' nets sum to the statement's. */
  lemma {:induction false} MonthsNetToStatement(rows: seq<ParsedRow>)
    requires forall i | 0 <= i < |rows| :: rows[i].direction != OtherMovement
    ensures SumIds(Nets(FinancingByMonth(rows)), FinancingByMonth(rows).Keys) == SummaryOf(rows).financingNet
    ensures Netted(FinancingByMonth(rows))
  {
    if rows != [] {
      MonthsNetToStatement(rows[..|rows| - 1]);
      if IsInterest(rows[|rows| - 1]) {
        NetsStep(FinancingByMonth(rows[..|rows| - 1]), rows[|rows| - 1]);
      }
    }
  }

  /** A month's figures are the sums over that month's interest rows alone. */
  lemma {:induction false} MonthIsItsRows(rows: seq<ParsedRow>, month: nat)
    ensures var byMonth := FinancingByMonth(rows);
      && (month in byMonth <==> exists i | 0 <= i < |rows| :: IsInterest(rows[i]) && Calendar.MonthOf(rows[i].day) == month)
      && (month in byMonth ==>
            && byMonth[month].charged == SumRows(rows, (r: ParsedRow) => IsInterest(r) && r.direction == Withdrawal && Calendar.MonthOf(r.day) == month)
            && byMonth[month].refunded == SumRows(rows, (r: ParsedRow) => IsInterest(r) && r.direction != Withdrawal && Calendar.MonthOf(r.day) == month))
      && (month !in byMonth ==>
            && SumRows(rows, (r: ParsedRow) => IsInterest(r) && r.direction == Withdrawal && Calendar.MonthOf(r.day) == month) == 0
            && SumRows(rows, (r: ParsedRow) => IsInterest(r) && r.direction != Withdrawal && Calendar.MonthOf(r.day) == month) == 0)
  {
    if rows != [] {
      MonthIsItsRows(rows[..|rows| - 1], month);
    }
  }
}
