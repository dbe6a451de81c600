/**
 * The greedy pairing of an outgoing leg with an incoming one: the shape both of
 * `findInternalTransferIds` and of `annotateRoundTrips`. Legs are numbered by
 * their place in the statement order the loops walk.
 */
module TransferPairing {
  import opened Common

  const ROUND_TRIP_MAX_DAYS := 7

  /** A leg that takes no part in pairing (wrong kind of line, wrong direction) is a bystander. */
  datatype Side = Outgoing | Incoming | Bystander
  datatype Leg = Leg(day: int, amount: int, side: Side)
  datatype Pair = Pair(out: nat, back: nat)

  function Gap(legs: seq<Leg>, i: nat, j: nat): (r: nat)
    requires i < |legs| && j < |legs|
  {
    Abs(legs[i].day - legs[j].day)
  }

  /** Could these two legs be the same money leaving and coming back? */
  predicate Compatible(legs: seq<Leg>, w: nat, d: nat) {
    && w < |legs| && d < |legs|
    && legs[w].side == Outgoing && legs[d].side == Incoming
    && legs[w].amount == legs[d].amount
    && Gap(legs, w, d) <= ROUND_TRIP_MAX_DAYS
  }

  function Outs(ps: seq<Pair>): set<nat> { set p | p in ps :: p.out }
  function Backs(ps: seq<Pair>): set<nat> { set p | p in ps :: p.back }
  function Held(ps: seq<Pair>): set<nat> { Outs(ps) + Backs(ps) }

  /** One scan over the first `n` legs for the nearest free deposit. */
  function Best(legs: seq<Leg>, w: nat, taken: set<nat>, n: nat): (r: Option<nat>)
    requires w < |legs| && n <= |legs| && legs[w].side == Outgoing
    ensures r.Some? ==> r.value < n && Compatible(legs, w, r.value) && r.value !in taken
  {
    if n == 0 then None
    else
      var best := Best(legs, w, taken, n - 1);
      if Compatible(legs, w, n - 1) && n - 1 !in taken && (best.None? || Gap(legs, w, n - 1) < Gap(legs, w, best.value))
      then Some(n - 1)
      else best
  }

  /** The pairs formed once the first `n` legs were tried as the outgoing one. */
  function PairsUpTo(legs: seq<Leg>, n: nat): seq<Pair>
    requires n <= |legs|
  {
    if n == 0 then []
    else
      var ps := PairsUpTo(legs, n - 1);
      if legs[n - 1].side != Outgoing then ps
      else match Best(legs, n - 1, Backs(ps), |legs|)
        case None => ps
        case Some(d) => ps + [Pair(n - 1, d)]
  }

  function Pairs(legs: seq<Leg>): seq<Pair> { PairsUpTo(legs, |legs|) }

  /** The two nested loops of the source. */
  method PairLegs(legs: seq<Leg>) returns (pairs: seq<Pair>, taken: set<nat>)
    ensures pairs == Pairs(legs) && taken == Backs(pairs)
  {
    pairs, taken := [], {};
    for w := 0 to |legs|
      invariant pairs == PairsUpTo(legs, w)
      invariant taken == Backs(pairs)
    {
      if legs[w].side != Outgoing { continue; }
      var matched: Option<nat> := None;
      for d := 0 to |legs|
        invariant matched == Best(legs, w, taken, d)
      {
        if d == w || d in taken { continue; }
        if legs[d].side != Incoming { continue; }
        if legs[d].amount != legs[w].amount { continue; }
        var gap := Gap(legs, d, w);
        if gap > ROUND_TRIP_MAX_DAYS || (matched.Some? && gap >= Gap(legs, w, matched.value)) { continue; }
        matched := Some(d);
      }
      if matched.None? { continue; }
      taken := taken + {matched.value};
      pairs := pairs + [Pair(w, matched.value)];
    }
  }

  // ---------- What the pairing is worth ----------

  /** One-to-one, and every pair could be one move. */
  ghost predicate ValidMatching(legs: seq<Leg>, ps: set<Pair>) {
    && (forall p | p in ps :: Compatible(legs, p.out, p.back))
    && (forall p, q | p in ps && q in ps && (p.out == q.out || p.back == q.back) :: p == q)
  }

  /** The k-th pair takes the nearest deposit no earlier pair took, the earliest one on a tie. */
  ghost predicate TakesNearest(legs: seq<Leg>, ps: seq<Pair>, k: nat)
    requires k < |ps| && Compatible(legs, ps[k].out, ps[k].back)
  {
    forall d: nat | Compatible(legs, ps[k].out, d) && d !in Backs(ps[..k]) ::
      || Gap(legs, ps[k].out, ps[k].back) < Gap(legs, ps[k].out, d)
      || (Gap(legs, ps[k].out, ps[k].back) == Gap(legs, ps[k].out, d) && ps[k].back <= d)
  }

  lemma {:induction false} BestIsNearest(legs: seq<Leg>, w: nat, taken: set<nat>, n: nat)
    requires w < |legs| && n <= |legs| && legs[w].side == Outgoing
    ensures Best(legs, w, taken, n).None? ==> forall d: nat | d < n && Compatible(legs, w, d) :: d in taken
    ensures var r := Best(legs, w, taken, n);
      r.Some? ==> forall d: nat | d < n && Compatible(legs, w, d) && d !in taken ::
        Gap(legs, w, r.value) < Gap(legs, w, d) || (Gap(legs, w, r.value) == Gap(legs, w, d) && r.value <= d)
  {
    if n > 0 {
      BestIsNearest(legs, w, taken, n - 1);
    }
  }

  /** Pairs come in the order of their outgoing leg, all below `n`, and share no leg. */
  ghost predicate OneToOne(legs: seq<Leg>, ps: seq<Pair>, n: nat) {
    && (forall k | 0 <= k < |ps| :: ps[k].out < n && Compatible(legs, ps[k].out, ps[k].back))
    && (forall j, k | 0 <= j < k < |ps| :: ps[j].out < ps[k].out && ps[j].back != ps[k].back)
  }

  ghost predicate Nearest(legs: seq<Leg>, ps: seq<Pair>) {
    forall k | 0 <= k < |ps| :: Compatible(legs, ps[k].out, ps[k].back) && TakesNearest(legs, ps, k)
  }

  ghost predicate Maximal(legs: seq<Leg>, ps: seq<Pair>, n: nat) {
    forall w: nat, d: nat | w < n && Compatible(legs, w, d) :: w in Outs(ps) || d in Backs(ps)
  }

  lemma SetsOfAppend(ps: seq<Pair>, p: Pair)
    ensures Outs(ps + [p]) == Outs(ps) + {p.out}
    ensures Backs(ps + [p]) == Backs(ps) + {p.back}
  {
    assert (ps + [p])[|ps|] == p;
    forall q | q in ps ensures q in ps + [p] {}
  }

  lemma NearestExtends(legs: seq<Leg>, ps: seq<Pair>, p: Pair)
    requires Nearest(legs, ps)
    requires p.out < |legs| && legs[p.out].side == Outgoing
    requires Best(legs, p.out, Backs(ps), |legs|) == Some(p.back)
    ensures Nearest(legs, ps + [p])
  {
    BestIsNearest(legs, p.out, Backs(ps), |legs|);
    var qs := ps + [p];
    forall k | 0 <= k < |qs| ensures Compatible(legs, qs[k].out, qs[k].back) && TakesNearest(legs, qs, k) {
      if k < |ps| {
        assert qs[..k] == ps[..k];
        assert TakesNearest(legs, ps, k);
      } else {
        assert qs[..k] == ps;
      }
    }
  }

  lemma OneToOneExtends(legs: seq<Leg>, ps: seq<Pair>, p: Pair)
    requires OneToOne(legs, ps, p.out) && Compatible(legs, p.out, p.back) && p.back !in Backs(ps)
    ensures OneToOne(legs, ps + [p], p.out + 1)
  {
    forall k | 0 <= k < |ps| ensures ps[k].back != p.back {
      assert ps[k] in ps;
    }
  }

  /** A leg either found a partner or had every compatible one already taken. */
  lemma MaximalExtends(legs: seq<Leg>, ps: seq<Pair>, qs: seq<Pair>, n: nat)
    requires Maximal(legs, ps, n) && Outs(ps) <= Outs(qs) && Backs(ps) <= Backs(qs)
    requires n in Outs(qs) || forall d: nat | Compatible(legs, n, d) :: d in Backs(qs)
    ensures Maximal(legs, qs, n + 1)
  {
    forall w: nat, d: nat | w < n + 1 && Compatible(legs, w, d) ensures w in Outs(qs) || d in Backs(qs) {
      if w < n { assert w in Outs(ps) || d in Backs(ps); }
    }
  }

  lemma {:induction false} StaysOneToOne(legs: seq<Leg>, n: nat)
    requires n <= |legs|
    ensures OneToOne(legs, PairsUpTo(legs, n), n)
  {
    if n > 0 {
      StaysOneToOne(legs, n - 1);
      var ps := PairsUpTo(legs, n - 1);
      if PairsUpTo(legs, n) != ps {
        OneToOneExtends(legs, ps, Pair(n - 1, Best(legs, n - 1, Backs(ps), |legs|).value));
      }
    }
  }

  lemma {:induction false} StaysNearest(legs: seq<Leg>, n: nat)
    requires n <= |legs|
    ensures Nearest(legs, PairsUpTo(legs, n))
  {
    if n > 0 {
      StaysNearest(legs, n - 1);
      var ps := PairsUpTo(legs, n - 1);
      if legs[n - 1].side == Outgoing {
        var best := Best(legs, n - 1, Backs(ps), |legs|);
        if best.Some? {
          NearestExtends(legs, ps, Pair(n - 1, best.value));
        }
      }
    }
  }

  lemma {:induction false} StaysMaximal(legs: seq<Leg>, n: nat)
    requires n <= |legs|
    ensures Maximal(legs, PairsUpTo(legs, n), n)
  {
    if n > 0 {
      StaysMaximal(legs, n - 1);
      var ps, qs := PairsUpTo(legs, n - 1), PairsUpTo(legs, n);
      if legs[n - 1].side == Outgoing {
        BestIsNearest(legs, n - 1, Backs(ps), |legs|);
        if qs != ps {
          SetsOfAppend(ps, qs[|ps|]);
        }
      }
      MaximalExtends(legs, ps, qs, n - 1);
    }
  }

  lemma AsValidMatching(legs: seq<Leg>, ps: seq<Pair>)
    requires OneToOne(legs, ps, |legs|)
    ensures ValidMatching(legs, set p | p in ps)
  {
    forall p, q | p in ps && q in ps && (p.out == q.out || p.back == q.back) ensures p == q {
      var j, k :| 0 <= j < |ps| && ps[j] == p && 0 <= k < |ps| && ps[k] == q;
    }
  }

  /**
   * The pairs are a valid one-to-one matching, each takes the nearest free deposit,
   * and no two compatible legs are both left over.
   */
  lemma PairsAreGreedyMatching(legs: seq<Leg>)
    ensures ValidMatching(legs, set p | p in Pairs(legs))
    ensures Nearest(legs, Pairs(legs))
    ensures forall w: nat, d: nat | Compatible(legs, w, d) :: w in Held(Pairs(legs)) || d in Held(Pairs(legs))
  {
    StaysOneToOne(legs, |legs|);
    StaysNearest(legs, |legs|);
    StaysMaximal(legs, |legs|);
    AsValidMatching(legs, Pairs(legs));
  }

  /** No valid matching, however clever, has more than twice as many pairs. */
  lemma AtLeastHalfOfAnyMatching(legs: seq<Leg>, other: set<Pair>)
    requires ValidMatching(legs, other)
    ensures |other| <= 2 * |Pairs(legs)|
  {
    StaysMaximal(legs, |legs|);
    var ps := Pairs(legs);
    var byOut := set p | p in other && p.out in Outs(ps);
    var byBack := other - byOut;
    forall p | p in byBack ensures p.back in Backs(ps) {
      assert Compatible(legs, p.out, p.back);
    }
    assert |byOut| <= |Outs(ps)| by { InjectionBound(byOut, (p: Pair) => p.out, Outs(ps)); }
    assert |byBack| <= |Backs(ps)| by { InjectionBound(byBack, (p: Pair) => p.back, Backs(ps)); }
    ImageSizes(ps);
    assert |other| == |byOut| + |byBack|;
  }

  lemma {:induction false} ImageSizes(ps: seq<Pair>)
    ensures |Outs(ps)| <= |ps| && |Backs(ps)| <= |ps|
  {
    if ps != [] {
      var init, last := ps[..|ps| - 1], ps[|ps| - 1];
      ImageSizes(init);
      assert ps == init + [last];
      SetsOfAppend(init, last);
    }
  }

  function Amounts(legs: seq<Leg>): (r: seq<int>)
    ensures |r| == |legs|
  {
    seq(|legs|, i requires 0 <= i < |legs| => legs[i].amount)
  }

  lemma {:induction false} PrefixBalances(legs: seq<Leg>, ps: seq<Pair>)
    requires OneToOne(legs, ps, |legs|)
    ensures SumAt(Amounts(legs), Outs(ps)) == SumAt(Amounts(legs), Backs(ps))
  {
    if ps == [] {
      SumAtEmpty(Amounts(legs));
      assert Outs(ps) == {} && Backs(ps) == {};
    } else {
      var init, last := ps[..|ps| - 1], ps[|ps| - 1];
      PrefixBalances(legs, init);
      assert ps == init + [last];
      SetsOfAppend(init, last);
      SumAtInsert(Amounts(legs), Outs(init), last.out);
      SumAtInsert(Amounts(legs), Backs(init), last.back);
    }
  }

  /** Holding both legs of every pair out moves income and spending by the same sum. */
  lemma HeldSidesBalance(legs: seq<Leg>)
    ensures SumAt(Amounts(legs), Outs(Pairs(legs))) == SumAt(Amounts(legs), Backs(Pairs(legs)))
    ensures forall i | i in Outs(Pairs(legs)) :: i < |legs| && legs[i].side == Outgoing
    ensures forall i | i in Backs(Pairs(legs)) :: i < |legs| && legs[i].side == Incoming
  {
    StaysOneToOne(legs, |legs|);
    PrefixBalances(legs, Pairs(legs));
  }
}
