/** Row in, meaning out: the whole classification policy of the resolver. */
module DecisionPolicy {
  import opened Common
  import opened BankRows
  import opened TransferPairing
  import CreditCoverage

  datatype RecordKind = IncomeRecord | ExpenseRecord | NoRecord
  datatype Target = Target(
    resolution: Resolution, status: Status, note: Note, record: RecordKind, category: Option<nat>, negative: bool)

  datatype Context = Context(rules: Rules, coverage: CreditCoverage.Coverage, held: set<nat>, atypical: set<nat>)

  function Wanted(row: BankRow, t: Target): int {
    if t.negative then -row.amount else row.amount
  }

  function DecideTarget(row: BankRow, ctx: Context): Target {
    match row.kind
    case LoanInterest | OverdraftInterest =>
      if row.direction == Deposit then Target(FinancingCredit, Done, InterestRefunded, ExpenseRecord, ctx.rules.financingCategory, true)
      else Target(FinancingCharge, Done, InterestPaid, ExpenseRecord, ctx.rules.financingCategory, false)
    case InterestCredit => Target(FinancingCredit, Done, InterestRefunded, ExpenseRecord, ctx.rules.financingCategory, true)
    case LoanFee => Target(FinancingCharge, Done, EarlyPayoffFee, ExpenseRecord, ctx.rules.financingCategory, row.direction == Deposit)
    case LoanPrincipal => Target(DebtReduction, Done, PrincipalPaid, NoRecord, None, false)
    case LoanMixed => Target(LoanRepaymentUnsplit, Done, RepaymentUnsplit(row.loanRef), NoRecord, None, false)
    case LoanDrawdown => Target(LoanReceived, Done, LoanTaken, NoRecord, None, false)
    case CreditCardPayment =>
      var verdict := CreditCoverage.VerdictFor(ctx.coverage, ctx.rules.cardRef(row.description), row.day);
      if verdict.covered then Target(CreditCardSettled, Excluded, CardBill(false, verdict.reason), NoRecord, None, false)
      else Target(CreditCardUnitemized, Done, CardBill(true, verdict.reason), ExpenseRecord, ctx.rules.unitemizedCategory, false)
    case Standard =>
      if row.id in ctx.held then Target(InternalTransfer, Excluded, BothLegsHeld, NoRecord, None, false)
      else if row.direction == Deposit then Target(Income, Done, CreditColumn(row.id in ctx.atypical), IncomeRecord, None, false)
      else
        var ruled := ctx.rules.categorize(row.description);
        Target(Expense, Done, DebitColumn, ExpenseRecord, if ruled.Some? then ruled else row.category, false)
  }

  /**
   * What the policy promises whatever the wording: a record exactly where the
   * resolution says, income only from the credit column, never the hand-set
   * meaning, and a negative record only for money the bank gave back on credit.
   */
  lemma PolicyIsConsistent(row: BankRow, ctx: Context)
    ensures var t := DecideTarget(row, ctx);
      && (t.record == IncomeRecord <==> t.resolution == Income)
      && (t.record == ExpenseRecord <==> t.resolution in EXPENSE_RESOLUTIONS)
      && t.resolution != ManualExcluded && t.status != Pending
      && (t.status == Excluded <==> t.resolution in {CreditCardSettled, InternalTransfer})
      && (t.resolution == Income ==> row.direction == Deposit && row.kind == Standard && !t.negative)
      && (t.resolution == FinancingCredit ==> t.negative)
      && (t.negative ==> t.resolution == FinancingCredit || (t.resolution == FinancingCharge && row.kind == LoanFee && row.direction == Deposit))
      && (t.resolution == FinancingCharge && row.kind == LoanFee && row.direction == Deposit ==> t.negative)
      && (t.resolution == InternalTransfer <==> row.kind == Standard && row.id in ctx.held)
      && (t.resolution in {CreditCardSettled, CreditCardUnitemized} <==> row.kind == CreditCardPayment)
  {
  }

  // ---------- Internal transfers ----------

  function SideOf(row: BankRow, rules: Rules): Side {
    if row.kind != Standard || !rules.transferText(row.description) then Bystander
    else match row.direction
      case Withdrawal => Outgoing
      case Deposit => Incoming
      case OtherMovement => Bystander
  }

  function LegOf(row: BankRow, rules: Rules): Leg {
    Leg(row.day, row.amount, SideOf(row, rules))
  }

  function LegsOf(rows: seq<BankRow>, rules: Rules): (legs: seq<Leg>)
    ensures |legs| == |rows| && forall i | 0 <= i < |rows| :: legs[i] == LegOf(rows[i], rules)
  {
    seq(|rows|, i requires 0 <= i < |rows| => LegOf(rows[i], rules))
  }

  function IdsAt(rows: seq<BankRow>, places: set<nat>): set<nat> {
    set i | i in places && i < |rows| :: rows[i].id
  }

  lemma IdsAtInsert(rows: seq<BankRow>, places: set<nat>, i: nat)
    requires i < |rows|
    ensures IdsAt(rows, places + {i}) == IdsAt(rows, places) + {rows[i].id}
  {
  }

  /** The ids of both legs of every pair. */
  function HeldIds(rows: seq<BankRow>, rules: Rules): set<nat> {
    IdsAt(rows, Held(Pairs(LegsOf(rows, rules))))
  }

  lemma HoldPair(rows: seq<BankRow>, ps: seq<Pair>, p: Pair)
    requires p.out < |rows| && p.back < |rows|
    ensures IdsAt(rows, Held(ps + [p])) == IdsAt(rows, Held(ps)) + {rows[p.out].id, rows[p.back].id}
  {
    SetsOfAppend(ps, p);
    IdsAtInsert(rows, Held(ps), p.out);
    IdsAtInsert(rows, Held(ps) + {p.out}, p.back);
    assert Held(ps + [p]) == Held(ps) + {p.out} + {p.back};
  }

  method FindInternalTransferIds(rows: seq<BankRow>, rules: Rules) returns (held: set<nat>)
    ensures held == HeldIds(rows, rules)
  {
    var pairs, taken := PairLegs(LegsOf(rows, rules));
    StaysOneToOne(LegsOf(rows, rules), |rows|);
    held := {};
    for k := 0 to |pairs|
      invariant held == IdsAt(rows, Held(pairs[..k]))
    {
      assert Compatible(LegsOf(rows, rules), pairs[k].out, pairs[k].back);
      assert pairs[..k + 1] == pairs[..k] + [pairs[k]];
      HoldPair(rows, pairs[..k], pairs[k]);
      held := held + {rows[pairs[k].out].id, rows[pairs[k].back].id};
    }
    assert pairs[..|pairs|] == pairs;
  }

  ghost predicate DistinctIds(rows: seq<BankRow>) {
    forall i, j | 0 <= i < j < |rows| :: rows[i].id != rows[j].id
  }

  /** With distinct ids, a row is held exactly when its place is one of a pair's legs. */
  lemma HeldByPlace(rows: seq<BankRow>, rules: Rules, i: nat)
    requires DistinctIds(rows) && i < |rows|
    ensures rows[i].id in HeldIds(rows, rules) <==> i in Held(Pairs(LegsOf(rows, rules)))
  {
  }

  // ---------- Atypical deposits ----------

  const ATYPICAL_DEPOSIT_RATIO := 10

  datatype Candidate = Candidate(id: nat, amount: int)

  function Insert(x: int, v: seq<int>): seq<int> {
    if v == [] then [x] else if x <= v[0] then [x] + v else [v[0]] + Insert(x, v[1..])
  }

  function Sorted(v: seq<int>): seq<int> {
    if v == [] then [] else Insert(v[0], Sorted(v[1..]))
  }

  function OthersOf(cs: seq<Candidate>, id: nat): seq<int> {
    if cs == [] then [] else (if cs[0].id != id then [cs[0].amount] else []) + OthersOf(cs[1..], id)
  }

  /** The middle of the sorted amounts, the upper one of an even count. */
  function Median(v: seq<int>): int
    requires v != []
  {
    SortedLength(v);
    Sorted(v)[|v| / 2]
  }

  predicate Atypical(cs: seq<Candidate>, c: Candidate) {
    var others := OthersOf(cs, c.id);
    |cs| >= 3 && others != [] && Median(others) > 0 && c.amount >= ATYPICAL_DEPOSIT_RATIO * Median(others)
  }

  function AtypicalUpTo(cs: seq<Candidate>, n: nat): set<nat>
    requires n <= |cs|
  {
    if n == 0 then {} else AtypicalUpTo(cs, n - 1) + if Atypical(cs, cs[n - 1]) then {cs[n - 1].id} else {}
  }

  function AtypicalIds(cs: seq<Candidate>): set<nat> { AtypicalUpTo(cs, |cs|) }

  ghost predicate FlaggedAt(cs: seq<Candidate>, k: nat, id: nat) {
    k < |cs| && Atypical(cs, cs[k]) && cs[k].id == id
  }

  lemma {:induction false} FlaggedUpTo(cs: seq<Candidate>, n: nat, id: nat)
    requires n <= |cs|
    ensures id in AtypicalUpTo(cs, n) <==> exists k: nat | k < n :: FlaggedAt(cs, k, id)
  {
    if n > 0 {
      FlaggedUpTo(cs, n - 1, id);
      if FlaggedAt(cs, n - 1, id) {
        assert id in AtypicalUpTo(cs, n);
      } else {
        assert id in AtypicalUpTo(cs, n) <==> id in AtypicalUpTo(cs, n - 1);
        assert forall k: nat | k < n && FlaggedAt(cs, k, id) :: k < n - 1;
      }
    }
  }

  method FindAtypicalDepositIds(cs: seq<Candidate>) returns (flagged: set<nat>)
    ensures flagged == AtypicalIds(cs)
  {
    flagged := {};
    if |cs| < 3 {
      forall id ensures id !in AtypicalIds(cs) { FlaggedUpTo(cs, |cs|, id); }
      return;
    }
    for k := 0 to |cs|
      invariant flagged == AtypicalUpTo(cs, k)
    {
      var others := OthersOf(cs, cs[k].id);
      if others != [] && Median(others) > 0 && cs[k].amount >= ATYPICAL_DEPOSIT_RATIO * Median(others) {
        flagged := flagged + {cs[k].id};
      }
    }
  }

  function CandidatesOf(rows: seq<BankRow>, held: set<nat>): seq<Candidate> {
    if rows == [] then []
    else
      var last := rows[|rows| - 1];
      CandidatesOf(rows[..|rows| - 1], held) +
      if last.direction == Deposit && last.kind == Standard && last.id !in held then [Candidate(last.id, last.amount)] else []
  }

  lemma {:induction false} SortedLength(v: seq<int>)
    ensures |Sorted(v)| == |v|
  {
    if v != [] {
      SortedLength(v[1..]);
      InsertLength(v[0], Sorted(v[1..]));
    }
  }

  lemma {:induction false} InsertLength(x: int, v: seq<int>)
    ensures |Insert(x, v)| == |v| + 1
  {
    if v != [] && x > v[0] {
      InsertLength(x, v[1..]);
    }
  }

  function CountAtMost(v: seq<int>, bound: int): nat {
    if v == [] then 0 else (if v[0] <= bound then 1 else 0) + CountAtMost(v[1..], bound)
  }

  ghost predicate Ascending(v: seq<int>) {
    forall i, j | 0 <= i < j < |v| :: v[i] <= v[j]
  }

  lemma {:induction false} InsertKeepsOrder(x: int, v: seq<int>, bound: int)
    requires Ascending(v)
    ensures Ascending(Insert(x, v))
    ensures forall y | y in Insert(x, v) :: y == x || y in v
    ensures CountAtMost(Insert(x, v), bound) == CountAtMost([x], bound) + CountAtMost(v, bound)
  {
    if v != [] && x > v[0] {
      InsertKeepsOrder(x, v[1..], bound);
      assert Insert(x, v)[1..] == Insert(x, v[1..]);
    } else {
      assert ([x] + v)[1..] == v;
    }
  }

  lemma {:induction false} SortedKeepsCounts(v: seq<int>, bound: int)
    ensures Ascending(Sorted(v)) && CountAtMost(Sorted(v), bound) == CountAtMost(v, bound)
  {
    if v != [] {
      SortedKeepsCounts(v[1..], bound);
      InsertKeepsOrder(v[0], Sorted(v[1..]), bound);
    }
  }

  lemma {:induction false} AscendingCount(v: seq<int>, k: nat, bound: int)
    requires Ascending(v) && k <= |v|
    ensures (k < |v| && v[k] <= bound) ==> CountAtMost(v, bound) > k
    ensures (k < |v| && v[k] > bound) ==> CountAtMost(v, bound) <= k
    ensures CountAtMost(v, bound) <= |v|
  {
    if v != [] {
      if k == 0 {
        AscendingCount(v[1..], 0, bound);
      } else {
        AscendingCount(v[1..], k - 1, bound);
      }
    }
  }

  /** The median is the bound below which, and only at which, the count passes half. */
  lemma MedianSplits(v: seq<int>, bound: int)
    requires v != []
    ensures Median(v) <= bound <==> CountAtMost(v, bound) > |v| / 2
  {
    SortedLength(v);
    SortedKeepsCounts(v, bound);
    AscendingCount(Sorted(v), |v| / 2, bound);
  }

  /** A flagged credit is at least ten times what most of the others are, and most of them are not nothing. */
  lemma AtypicalMeansTenfold(cs: seq<Candidate>, c: Candidate)
    requires |cs| >= 3 && OthersOf(cs, c.id) != []
    ensures var others := OthersOf(cs, c.id);
      Atypical(cs, c) <==> CountAtMost(others, 0) <= |others| / 2 < CountAtMost(others, c.amount / ATYPICAL_DEPOSIT_RATIO)
  {
    MedianSplits(OthersOf(cs, c.id), 0);
    MedianSplits(OthersOf(cs, c.id), c.amount / ATYPICAL_DEPOSIT_RATIO);
  }

  /** A bill the policy asks about: a card settlement, and whether the credit module itemizes it. */
  predicate Itemized(row: BankRow, ctx: Context) {
    CreditCoverage.VerdictFor(ctx.coverage, ctx.rules.cardRef(row.description), row.day).covered
  }

  /** Which rows get each meaning: every meaning the resolver gives has exactly these rows, and no row is left over. */
  lemma WhoGetsWhat(row: BankRow, ctx: Context)
    ensures var r, isIn, interest := DecideTarget(row, ctx).resolution, row.direction == Deposit, row.kind in {LoanInterest, OverdraftInterest};
      && (r == FinancingCredit <==> row.kind == InterestCredit || (interest && isIn))
      && (r == FinancingCharge <==> row.kind == LoanFee || (interest && !isIn))
      && (r == DebtReduction <==> row.kind == LoanPrincipal)
      && (r == LoanRepaymentUnsplit <==> row.kind == LoanMixed)
      && (r == LoanReceived <==> row.kind == LoanDrawdown)
      && (r == CreditCardSettled <==> row.kind == CreditCardPayment && Itemized(row, ctx))
      && (r == CreditCardUnitemized <==> row.kind == CreditCardPayment && !Itemized(row, ctx))
      && (r == InternalTransfer <==> row.kind == Standard && row.id in ctx.held)
      && (r == Income <==> row.kind == Standard && row.id !in ctx.held && isIn)
      && (r == Expense <==> row.kind == Standard && row.id !in ctx.held && !isIn)
  {
  }

  /** Costs of credit go to the financing category, lump card bills to theirs; a rule outranks the row's own category. */
  function CategoryOf(r: Resolution, row: BankRow, rules: Rules): Option<nat> {
    if r in {FinancingCharge, FinancingCredit} then rules.financingCategory
    else if r == CreditCardUnitemized then rules.unitemizedCategory
    else
      var ruled := rules.categorize(row.description);
      if ruled.Some? then ruled else row.category
  }

  lemma WhereCostsGo(row: BankRow, ctx: Context)
    requires DecideTarget(row, ctx).record == ExpenseRecord
    ensures DecideTarget(row, ctx).category == CategoryOf(DecideTarget(row, ctx).resolution, row, ctx.rules)
  {
  }
}
