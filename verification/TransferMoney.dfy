/** What holding internal transfers out of the figures does to income less spending. */
module TransferMoney {
  import opened Common
  import opened BankRows
  import opened TransferPairing
  import opened DecisionPolicy
  import opened Books
  import opened Resolver
  import opened ResolverTheorems
  import opened MoneyCheck

  // ---------- Net sums over places ----------

  function SignedAmounts(rows: seq<BankRow>): (v: seq<int>)
    ensures |v| == |rows| && forall i | 0 <= i < |v| :: v[i] == if rows[i].direction == Deposit then rows[i].amount else -rows[i].amount
  {
    seq(|rows|, i requires 0 <= i < |rows| => if rows[i].direction == Deposit then rows[i].amount else -rows[i].amount)
  }

  /** Deposits less withdrawals among the rows at these places. */
  function NetAt(rows: seq<BankRow>, at: set<nat>): int {
    SumAt(SignedAmounts(rows), at)
  }

  lemma {:induction false} SumAtUnion(v: seq<int>, a: set<nat>, b: set<nat>)
    requires a !! b
    ensures SumAt(v, a + b) == SumAt(v, a) + SumAt(v, b)
  {
    if v != [] {
      SumAtUnion(v[..|v| - 1], a, b);
    }
  }

  lemma {:induction false} SumAtScaled(v: seq<int>, w: seq<int>, at: set<nat>, sign: int)
    requires |v| == |w| && (sign == 1 || sign == -1) && forall i | i in at && i < |v| :: w[i] == sign * v[i]
    ensures SumAt(w, at) == sign * SumAt(v, at)
  {
    if v != [] {
      SumAtScaled(v[..|v| - 1], w[..|w| - 1], at, sign);
    }
  }

  lemma {:induction false} SumOfAt(rows: seq<BankRow>, p: BankRow -> bool, at: set<nat>, sign: int)
    requires (sign == 1 || sign == -1) && forall i | 0 <= i < |rows| :: p(rows[i]) <==> i in at
    requires forall i | i in at && i < |rows| :: SignedAmounts(rows)[i] == sign * rows[i].amount
    ensures NetAt(rows, at) == sign * SumOf(rows, p)
  {
    if rows != [] {
      var init := rows[..|rows| - 1];
      assert SignedAmounts(rows)[..|init|] == SignedAmounts(init);
      SumOfAt(init, p, at, sign);
    }
  }

  // ---------- Held legs ----------

  /** The places of the rows a pass ended as internal transfers. */
  function HeldOut(rows: seq<BankRow>): set<nat> {
    set i | 0 <= i < |rows| && rows[i].resolution == Some(InternalTransfer)
  }

  /** The places of paired legs that the user had set aside by hand. */
  function PairedButSetAside(rows: seq<BankRow>, rules: Rules): set<nat> {
    set i | 0 <= i < |rows| && Manual(rows[i]) && rows[i].id in HeldIds(rows, rules)
  }

  /** The places of ordinary rows nobody set aside, transfers included. */
  function OrdinaryRows(rows: seq<BankRow>): set<nat> {
    set i | 0 <= i < |rows| && !Manual(rows[i]) && rows[i].kind == Standard
  }

  function With(rows: seq<BankRow>, r: Resolution): set<nat> {
    set i | 0 <= i < |rows| && rows[i].resolution == Some(r)
  }

  lemma PairedLegsNetToZero(rows: seq<BankRow>, rules: Rules, ps: seq<Pair>)
    requires ps == Pairs(LegsOf(rows, rules))
    ensures NetAt(rows, Held(ps)) == 0
  {
    var legs, v := LegsOf(rows, rules), SignedAmounts(rows);
    HeldSidesBalance(legs);
    SumAtScaled(Amounts(legs), v, Backs(ps), 1);
    SumAtScaled(Amounts(legs), v, Outs(ps), -1);
    SumAtUnion(v, Outs(ps), Backs(ps));
  }

  /** A row ends as an internal transfer exactly when it is a paired leg nobody set aside; other ordinary rows are income or spending. */
  lemma WhoIsHeldOut(b: Books, env: Env, i: nat)
    requires WellLinked(b) && i < |b.rows|
    ensures var ready, row := Refreshed(b, env).rows, Pass(b, env).rows[i];
      var held := i in Held(Pairs(LegsOf(ready, env.rules)));
      && row.amount == ready[i].amount && row.direction == ready[i].direction
      && (held <==> ready[i].id in HeldIds(ready, env.rules)) && (held ==> ready[i].kind == Standard)
      && (row.resolution == Some(InternalTransfer) <==> held && !Manual(ready[i]))
      && (row.resolution == Some(Income) <==> !held && !Manual(ready[i]) && ready[i].kind == Standard && row.direction == Deposit)
      && (row.resolution == Some(Expense) <==> !held && !Manual(ready[i]) && ready[i].kind == Standard && row.direction != Deposit)
  {
    var ready := Refreshed(b, env).rows;
    assert DistinctIds(ready);
    HeldByPlace(ready, env.rules, i);
    HeldSidesBalance(LegsOf(ready, env.rules));
    PassRow(b, env, i);
    WhoGetsWhat(ready[i], ContextFor(ready, env));
  }

  lemma HeldIsEither(b: Books, env: Env, ready: seq<BankRow>, p: seq<BankRow>)
    requires WellLinked(b) && ready == Refreshed(b, env).rows && p == Pass(b, env).rows
    ensures HeldOut(p) !! PairedButSetAside(ready, env.rules)
    ensures HeldOut(p) + PairedButSetAside(ready, env.rules) == Held(Pairs(LegsOf(ready, env.rules)))
    ensures SignedAmounts(p) == SignedAmounts(ready)
  {
    HeldSidesBalance(LegsOf(ready, env.rules));
    forall i: nat | i < |ready|
      ensures SignedAmounts(p)[i] == SignedAmounts(ready)[i]
      ensures i in HeldOut(p) <==> i in Held(Pairs(LegsOf(ready, env.rules))) && !Manual(ready[i])
      ensures i in PairedButSetAside(ready, env.rules) <==> i in Held(Pairs(LegsOf(ready, env.rules))) && Manual(ready[i])
    {
      WhoIsHeldOut(b, env, i);
    }
  }

  /**
   * What a pass holds out as internal transfers nets to the opposite of what the user had
   * set aside among the paired legs: to zero exactly when those legs balance on their own.
   */
  lemma HeldOutNetsToSetAside(b: Books, env: Env)
    requires WellLinked(b)
    ensures var ready, p := Refreshed(b, env).rows, Pass(b, env).rows;
      NetAt(p, HeldOut(p)) == -NetAt(ready, PairedButSetAside(ready, env.rules))
  {
    var ready, p := Refreshed(b, env).rows, Pass(b, env).rows;
    PairedLegsNetToZero(ready, env.rules, Pairs(LegsOf(ready, env.rules)));
    HeldIsEither(b, env, ready, p);
    SumAtUnion(SignedAmounts(ready), HeldOut(p), PairedButSetAside(ready, env.rules));
  }

  lemma BucketNets(p: seq<BankRow>)
    requires forall i: nat | i < |p| :: (p[i].resolution == Some(Income) ==> p[i].direction == Deposit) && (p[i].resolution == Some(Expense) ==> p[i].direction != Deposit)
    ensures NetAt(p, With(p, Income)) == Bucket(p, Income) && NetAt(p, With(p, Expense)) == -Bucket(p, Expense)
  {
    SumOfAt(p, (row: BankRow) => row.resolution == Some(Income), With(p, Income), 1);
    SumOfAt(p, (row: BankRow) => row.resolution == Some(Expense), With(p, Expense), -1);
  }

  lemma OrdinaryIsThree(b: Books, env: Env, ready: seq<BankRow>, p: seq<BankRow>)
    requires WellLinked(b) && ready == Refreshed(b, env).rows && p == Pass(b, env).rows
    ensures With(p, Income) !! With(p, Expense) && (With(p, Income) + With(p, Expense)) !! HeldOut(p)
    ensures With(p, Income) + With(p, Expense) + HeldOut(p) == OrdinaryRows(ready)
    ensures NetAt(p, With(p, Income)) == Bucket(p, Income) && NetAt(p, With(p, Expense)) == -Bucket(p, Expense)
  {
    forall i: nat | i < |ready|
      ensures i in OrdinaryRows(ready) <==> i in With(p, Income) || i in With(p, Expense) || i in HeldOut(p)
      ensures (p[i].resolution == Some(Income) ==> p[i].direction == Deposit) && (p[i].resolution == Some(Expense) ==> p[i].direction != Deposit)
    {
      WhoIsHeldOut(b, env, i);
    }
    BucketNets(p);
  }

  /**
   * Income less spending after a pass is what all ordinary rows net to, held transfers
   * included, plus what the user had set aside among the paired legs.
   */
  lemma HoldingLeavesTheNet(b: Books, env: Env)
    requires WellLinked(b)
    ensures var ready, p := Refreshed(b, env).rows, Pass(b, env).rows;
      Bucket(p, Income) - Bucket(p, Expense) == NetAt(ready, OrdinaryRows(ready)) + NetAt(ready, PairedButSetAside(ready, env.rules))
  {
    var ready, p := Refreshed(b, env).rows, Pass(b, env).rows;
    HeldOutNetsToSetAside(b, env);
    HeldIsEither(b, env, ready, p);
    OrdinaryIsThree(b, env, ready, p);
    SumAtUnion(SignedAmounts(p), With(p, Income), With(p, Expense));
    SumAtUnion(SignedAmounts(p), With(p, Income) + With(p, Expense), HeldOut(p));
  }

  // ---------- One leg set aside ----------

  function TransferRow(id: nat, direction: Direction, resolution: Option<Resolution>): BankRow {
    BankRow(id, 5, Some("transfer"), 300, direction, Standard, None, None, Pending, resolution, None, None, None, None)
  }

  /** 300 out, set aside by hand, and the same 300 back. */
  function OneLegSetAside(): Books {
    Books([TransferRow(1, Withdrawal, Some(ManualExcluded)), TransferRow(2, Deposit, None)], map[], 1, map[], 1, map[], 1)
  }

  ghost predicate ReadsTransfer(rules: Rules) {
    rules.transferText(Some("transfer")) && rules.classify(Some("transfer"), Deposit) == LineClass(Standard, None)
  }

  lemma TheTwoArePaired(rows: seq<BankRow>, rules: Rules)
    requires rows == OneLegSetAside().rows && ReadsTransfer(rules)
    ensures Held(Pairs(LegsOf(rows, rules))) == {0, 1}
  {
    var legs := LegsOf(rows, rules);
    var ps := Pairs(legs);
    PairsAreGreedyMatching(legs);
    HeldSidesBalance(legs);
    assert Compatible(legs, 0, 1);
    var p :| p in ps && (p.out == 0 || p.back == 1);
    assert p in (set q | q in ps) && Compatible(legs, p.out, p.back);
    assert p.out == 0 && p.back == 1;
  }

  lemma NetOfOne(v: seq<int>)
    requires v == [-300, 300]
    ensures SumAt(v, {1}) == 300
  {
    var init := v[..|v| - 1];
    assert init == [-300] && init[..|init| - 1] == [];
    assert SumAt(init, {1}) == 0;
  }

  lemma OneLegStarts(b: Books, env: Env)
    requires b == OneLegSetAside() && ReadsTransfer(env.rules)
    ensures WellLinked(b) && Refreshed(b, env).rows == b.rows
  {
  }

  lemma OneLegEnds(b: Books, env: Env)
    requires b == OneLegSetAside() && ReadsTransfer(env.rules)
    ensures Pass(b, env).rows[0].resolution == Some(ManualExcluded) && Pass(b, env).rows[1].resolution == Some(InternalTransfer)
  {
    OneLegStarts(b, env);
    TheTwoArePaired(b.rows, env.rules);
    WhoIsHeldOut(b, env, 1);
    PassKeepsIdentity(b, env, 0);
  }

  /** The deposit is still held out though its withdrawal counts nowhere: what is held out nets to 300. */
  lemma OneLegSetAsideUnbalances(b: Books, env: Env, p: seq<BankRow>)
    requires b == OneLegSetAside() && ReadsTransfer(env.rules) && p == Pass(b, env).rows
    ensures p[0].resolution == Some(ManualExcluded) && p[1].resolution == Some(InternalTransfer)
    ensures NetAt(p, HeldOut(p)) == 300
  {
    OneLegEnds(b, env);
    PassKeepsIdentity(b, env, 0);
    PassKeepsIdentity(b, env, 1);
    assert HeldOut(p) == {1} && SignedAmounts(p) == [-300, 300];
    NetOfOne(SignedAmounts(p));
  }
}
