/**
 * Rows that may each own one record of a table, and a pass that settles them one
 * by one: stale records go before the right ones are made. Incomes and expenses
 * are two such tables beside the same bank rows.
 */
module LinkedTable {
  import opened Common

  /** What a decision asks of a row's link: nothing, no record, or one record (`fix` corrects one it already has). */
  datatype Plan<!R> = Leave | Release | Own(made: R, fix: R -> R)

  datatype Desk<R> = Desk(links: seq<Option<nat>>, records: map<nat, R>, next: nat)

  /** No two rows own one record, and every id in use was handed out before `next`. */
  ghost predicate Sound<R>(d: Desk<R>) {
    && (forall i, j | 0 <= i < j < |d.links| && d.links[i].Some? :: d.links[i] != d.links[j])
    && (forall i | 0 <= i < |d.links| && d.links[i].Some? :: d.links[i].value < d.next)
    && (forall id | id in d.records :: id < d.next)
  }

  function Carried<R>(d: Desk<R>, i: nat, plan: Plan<R>): (r: Desk<R>)
    requires i < |d.links|
    ensures |r.links| == |d.links|
  {
    match plan
    case Leave => d
    case Release =>
      if d.links[i].None? then d else Desk(d.links[i := None], d.records - {d.links[i].value}, d.next)
    case Own(made, fix) =>
      if d.links[i].None? then Desk(d.links[i := Some(d.next)], d.records[d.next := made], d.next + 1)
      else if d.links[i].value !in d.records then d
      else d.(records := d.records[d.links[i].value := fix(d.records[d.links[i].value])])
  }

  /** One row's link with the table behind it. */
  datatype Slot<R> = Slot(link: Option<nat>, records: map<nat, R>, next: nat)

  /** The same step, for a row on its own. */
  function SettledSlot<R>(s: Slot<R>, plan: Plan<R>): Slot<R> {
    var d := Carried(Desk([s.link], s.records, s.next), 0, plan);
    Slot(d.links[0], d.records, d.next)
  }

  lemma CarriedSettlesSlot<R>(d: Desk<R>, i: nat, plan: Plan<R>)
    requires i < |d.links|
    ensures var s, e := SettledSlot(Slot(d.links[i], d.records, d.next), plan), Carried(d, i, plan);
      e.links[i] == s.link && e.records == s.records && e.next == s.next
  {
  }

  function Run<R>(d: Desk<R>, plans: seq<Plan<R>>, n: nat): (r: Desk<R>)
    requires |plans| == |d.links| && n <= |plans|
    ensures |r.links| == |d.links|
  {
    if n == 0 then d else Carried(Run(d, plans, n - 1), n - 1, plans[n - 1])
  }

  lemma CarriedIsSound<R>(d: Desk<R>, i: nat, plan: Plan<R>)
    requires i < |d.links| && Sound(d)
    ensures Sound(Carried(d, i, plan))
  {
  }

  lemma {:induction false} StaysSound<R>(d: Desk<R>, plans: seq<Plan<R>>, n: nat)
    requires |plans| == |d.links| && n <= |plans| && Sound(d)
    ensures Sound(Run(d, plans, n)) && Run(d, plans, n).next >= d.next
  {
    if n > 0 {
      StaysSound(d, plans, n - 1);
    }
  }

  /** The link row `j` ends up with. */
  lemma {:induction false} LinkAfter<R>(d: Desk<R>, plans: seq<Plan<R>>, n: nat, j: nat)
    requires |plans| == |d.links| && n <= |plans| && j < |plans| && Sound(d)
    ensures var link := Run(d, plans, n).links[j];
      if j >= n || plans[j].Leave? then link == d.links[j]
      else if plans[j].Release? then link.None?
      else link.Some? && if d.links[j].Some? then link == d.links[j] else link.value >= d.next
  {
    if n > 0 {
      LinkAfter(d, plans, n - 1, j);
      StaysSound(d, plans, n - 1);
    }
  }

  /** A record no row owns is left alone. */
  lemma {:induction false} UnownedStays<R>(d: Desk<R>, plans: seq<Plan<R>>, n: nat, id: nat)
    requires |plans| == |d.links| && n <= |plans| && Sound(d)
    requires id < d.next && forall j | 0 <= j < |d.links| :: d.links[j] != Some(id)
    ensures var r := Run(d, plans, n); (id in r.records <==> id in d.records) && (id in r.records ==> r.records[id] == d.records[id])
  {
    if n > 0 {
      UnownedStays(d, plans, n - 1, id);
      StaysSound(d, plans, n - 1);
      LinkAfter(d, plans, n - 1, n - 1);
    }
  }

  /** The record row `j` had: left, dropped or corrected as its plan says. */
  lemma {:induction false} OwnedAfter<R>(d: Desk<R>, plans: seq<Plan<R>>, n: nat, j: nat, id: nat)
    requires |plans| == |d.links| && n <= |plans| && j < |plans| && Sound(d) && d.links[j] == Some(id)
    ensures var r := Run(d, plans, n);
      if j < n && plans[j].Release? then id !in r.records
      else (id in r.records <==> id in d.records) &&
           (id in r.records ==> r.records[id] == if j < n && plans[j].Own? then plans[j].fix(d.records[id]) else d.records[id])
  {
    if n > 0 {
      OwnedAfter(d, plans, n - 1, j, id);
      StaysSound(d, plans, n - 1);
      LinkAfter(d, plans, n - 1, n - 1);
      assert n - 1 != j ==> d.links[n - 1] != Some(id);
    }
  }

  /** The record row `j` gains when its plan calls for one it did not have. */
  lemma {:induction false} GainedAfter<R>(d: Desk<R>, plans: seq<Plan<R>>, n: nat, j: nat)
    requires |plans| == |d.links| && j < n <= |plans| && Sound(d) && plans[j].Own? && d.links[j].None?
    ensures var r := Run(d, plans, n);
      r.links[j].Some? && r.links[j].value in r.records && r.records[r.links[j].value] == plans[j].made
  {
    StaysSound(d, plans, n - 1);
    LinkAfter(d, plans, n - 1, n - 1);
    if j < n - 1 {
      GainedAfter(d, plans, n - 1, j);
      var p := Run(d, plans, n - 1);
      assert p.links[j] != p.links[n - 1];
    }
  }

  /** No record is made that some row does not own. */
  lemma {:induction false} MadeIsOwned<R>(d: Desk<R>, plans: seq<Plan<R>>, n: nat, id: nat) returns (j: nat)
    requires |plans| == |d.links| && n <= |plans| && Sound(d) && id >= d.next && id in Run(d, plans, n).records
    ensures j < n && Run(d, plans, n).links[j] == Some(id)
  {
    StaysSound(d, plans, n - 1);
    LinkAfter(d, plans, n - 1, n - 1);
    if id in Run(d, plans, n - 1).records {
      j := MadeIsOwned(d, plans, n - 1, id);
    } else {
      j := n - 1;
    }
  }

  // ---------- Fixpoints ----------

  /** The link already is what the plan asks for. */
  predicate Asks<R(==)>(d: Desk<R>, i: nat, plan: Plan<R>)
    requires i < |d.links|
  {
    match plan
    case Leave => true
    case Release => d.links[i].None?
    case Own(_, fix) => d.links[i].Some? && (d.links[i].value in d.records ==> fix(d.records[d.links[i].value]) == d.records[d.links[i].value])
  }

  lemma IdleIffAsked<R>(d: Desk<R>, i: nat, plan: Plan<R>)
    requires i < |d.links| && Sound(d)
    ensures Carried(d, i, plan) == d <==> Asks(d, i, plan)
  {
    if Asks(d, i, plan) {
      assert Carried(d, i, plan).records == d.records;
    }
  }
}
