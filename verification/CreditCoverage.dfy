/**
 * Is a card settlement already itemized in the credit module? The coverage is
 * built once per pass from the confirmed credit rows and asked once per bill.
 */
module CreditCoverage {
  import opened Common
  import Calendar

  const CHARGE_MATCH_DAYS := 5
  const ISSUER_ONLY_MATCH_DAYS := 3

  /** The card a credit row's raw data names: its last four digits and its label. */
  datatype CardTag = CardTag(last4: string, name: string)
  datatype CreditRow = CreditRow(card: Option<CardTag>, chargeDay: Option<nat>, billingDay: nat)

  /** What a bank line says about the card it settles. */
  datatype CardRef = CardRef(last4: Option<string>, issuer: Option<string>)

  datatype CardFacts = CardFacts(name: string, chargeDays: seq<nat>, billingMonths: set<nat>)
  datatype Coverage = Coverage(cards: map<string, CardFacts>, allChargeDays: seq<nat>)

  datatype Reason =
    | NoStatementForCard(last4: string)
    | ChargedNearby(name: string)
    | NoChargeNearby(name: string, day: nat)
    | ItemizedInMonth(name: string, month: nat)
    | NothingInMonth(name: string, month: nat)
    | SomeCardChargedNearby
    | NoCardChargedNearby
  datatype Verdict = Verdict(covered: bool, reason: Reason)

  predicate WithinDays(days: seq<nat>, day: nat, tolerance: nat) {
    exists d | d in days :: Abs(d - day) <= tolerance
  }

  function WithRow(c: Coverage, row: CreditRow): Coverage {
    var days := if row.chargeDay.Some? then [row.chargeDay.value] else [];
    var all := c.allChargeDays + days;
    if row.card.None? then c.(allChargeDays := all)
    else
      var last4 := row.card.value.last4;
      var facts := if last4 in c.cards then c.cards[last4] else CardFacts(row.card.value.name, [], {});
      Coverage(c.cards[last4 := facts.(chargeDays := facts.chargeDays + days,
                                       billingMonths := facts.billingMonths + {Calendar.MonthOf(row.billingDay)})], all)
  }

  function CoverageOf(rows: seq<CreditRow>): Coverage {
    if rows == [] then Coverage(map[], []) else WithRow(CoverageOf(rows[..|rows| - 1]), rows[|rows| - 1])
  }

  /** The loop that fills `byCard` and `allChargeDays`. */
  method BuildCreditCoverage(rows: seq<CreditRow>) returns (c: Coverage)
    ensures c == CoverageOf(rows)
  {
    var byCard: map<string, CardFacts> := map[];
    var allChargeDays: seq<nat> := [];
    for i := 0 to |rows|
      invariant Coverage(byCard, allChargeDays) == CoverageOf(rows[..i])
    {
      var row := rows[i];
      assert CoverageOf(rows[..i + 1]) == WithRow(CoverageOf(rows[..i]), row) by {
        assert rows[..i + 1][..i] == rows[..i];
      }
      assert allChargeDays + [] == allChargeDays;
      if row.chargeDay.Some? { allChargeDays := allChargeDays + [row.chargeDay.value]; }
      if row.card.None? { continue; }
      var last4 := row.card.value.last4;
      var facts := if last4 in byCard then byCard[last4] else CardFacts(row.card.value.name, [], {});
      assert facts.chargeDays + [] == facts.chargeDays;
      if row.chargeDay.Some? { facts := facts.(chargeDays := facts.chargeDays + [row.chargeDay.value]); }
      facts := facts.(billingMonths := facts.billingMonths + {Calendar.MonthOf(row.billingDay)});
      byCard := byCard[last4 := facts];
    }
    assert rows[..|rows|] == rows;
    c := Coverage(byCard, allChargeDays);
  }

  function VerdictFor(c: Coverage, ref: CardRef, day: nat): Verdict {
    if ref.last4.Some? then
      if ref.last4.value !in c.cards then Verdict(false, NoStatementForCard(ref.last4.value))
      else
        var facts := c.cards[ref.last4.value];
        if |facts.chargeDays| > 0 then
          if WithinDays(facts.chargeDays, day, CHARGE_MATCH_DAYS) then Verdict(true, ChargedNearby(facts.name))
          else Verdict(false, NoChargeNearby(facts.name, day))
        else if Calendar.MonthOf(day) in facts.billingMonths then Verdict(true, ItemizedInMonth(facts.name, Calendar.MonthOf(day)))
        else Verdict(false, NothingInMonth(facts.name, Calendar.MonthOf(day)))
    else if WithinDays(c.allChargeDays, day, ISSUER_ONLY_MATCH_DAYS) then Verdict(true, SomeCardChargedNearby)
    else Verdict(false, NoCardChargedNearby)
  }

  // ---------- What a verdict means, in terms of the credit rows alone ----------

  ghost predicate Names(row: CreditRow, last4: string) {
    row.card.Some? && row.card.value.last4 == last4
  }

  ghost predicate HasCard(rows: seq<CreditRow>, last4: string) {
    exists row | row in rows :: Names(row, last4)
  }

  ghost predicate CardCharged(rows: seq<CreditRow>, last4: string, day: nat) {
    exists row | row in rows :: Names(row, last4) && row.chargeDay == Some(day)
  }

  ghost predicate AnyCharged(rows: seq<CreditRow>, day: nat) {
    exists row | row in rows :: row.chargeDay == Some(day)
  }

  ghost predicate ItemizedIn(rows: seq<CreditRow>, last4: string, month: nat) {
    exists row | row in rows :: Names(row, last4) && Calendar.MonthOf(row.billingDay) == month
  }

  ghost predicate HasChargeDate(rows: seq<CreditRow>, last4: string) {
    exists day: nat :: CardCharged(rows, last4, day)
  }

  ghost predicate CardChargedNear(rows: seq<CreditRow>, last4: string, day: nat) {
    exists d: nat :: CardCharged(rows, last4, d) && Abs(d - day) <= CHARGE_MATCH_DAYS
  }

  /** A bill is covered when its card, or for a nameless bill any card, has a statement to show for it. */
  ghost predicate Covered(rows: seq<CreditRow>, ref: CardRef, day: nat) {
    match ref.last4
    case None => exists d: nat :: AnyCharged(rows, d) && Abs(d - day) <= ISSUER_ONLY_MATCH_DAYS
    case Some(last4) =>
      if HasChargeDate(rows, last4) then CardChargedNear(rows, last4, day)
      else ItemizedIn(rows, last4, Calendar.MonthOf(day))
  }

  /** The entries of one card hold exactly what the rows say of it. */
  ghost predicate RepresentsCard(c: Coverage, rows: seq<CreditRow>, last4: string) {
    && (last4 in c.cards <==> HasCard(rows, last4))
    && (last4 in c.cards ==> forall day :: day in c.cards[last4].chargeDays <==> CardCharged(rows, last4, day))
    && (last4 in c.cards ==> forall month :: month in c.cards[last4].billingMonths <==> ItemizedIn(rows, last4, month))
  }

  ghost predicate RepresentsAll(c: Coverage, rows: seq<CreditRow>) {
    forall day :: day in c.allChargeDays <==> AnyCharged(rows, day)
  }

  /** A card's label is the one its first row carries. */
  ghost predicate FirstLabel(c: Coverage, rows: seq<CreditRow>, last4: string) {
    last4 in c.cards ==>
      exists k | 0 <= k < |rows| :: rows[k].card == Some(CardTag(last4, c.cards[last4].name)) && !HasCard(rows[..k], last4)
  }

  lemma WithRowRepresentsCard(c: Coverage, rows: seq<CreditRow>, row: CreditRow, last4: string)
    requires RepresentsCard(c, rows, last4)
    ensures RepresentsCard(WithRow(c, row), rows + [row], last4)
  {
    var more := rows + [row];
    assert forall r :: r in more <==> r in rows || r == row;
    assert HasCard(more, last4) <==> HasCard(rows, last4) || Names(row, last4);
    assert forall day: nat :: CardCharged(more, last4, day) <==> CardCharged(rows, last4, day) || (Names(row, last4) && row.chargeDay == Some(day));
    assert forall month :: ItemizedIn(more, last4, month) <==>
      ItemizedIn(rows, last4, month) || (Names(row, last4) && Calendar.MonthOf(row.billingDay) == month);
  }

  lemma WithRowRepresentsAll(c: Coverage, rows: seq<CreditRow>, row: CreditRow)
    requires RepresentsAll(c, rows)
    ensures RepresentsAll(WithRow(c, row), rows + [row])
  {
    var more := rows + [row];
    assert forall r :: r in more <==> r in rows || r == row;
    assert forall day: nat :: AnyCharged(more, day) <==> AnyCharged(rows, day) || row.chargeDay == Some(day);
  }

  lemma {:induction false} CoverageRepresents(rows: seq<CreditRow>, last4: string)
    ensures RepresentsCard(CoverageOf(rows), rows, last4)
    ensures RepresentsAll(CoverageOf(rows), rows)
  {
    if rows != [] {
      var init, row := rows[..|rows| - 1], rows[|rows| - 1];
      CoverageRepresents(init, last4);
      WithRowRepresentsCard(CoverageOf(init), init, row, last4);
      WithRowRepresentsAll(CoverageOf(init), init, row);
      assert init + [row] == rows;
    }
  }

  lemma {:induction false} LabelIsFirst(rows: seq<CreditRow>, last4: string)
    ensures FirstLabel(CoverageOf(rows), rows, last4)
  {
    if rows != [] {
      var init, row := rows[..|rows| - 1], rows[|rows| - 1];
      LabelIsFirst(init, last4);
      CoverageRepresents(init, last4);
      if last4 in CoverageOf(init).cards {
        var k :| 0 <= k < |init| && init[k].card == Some(CardTag(last4, CoverageOf(init).cards[last4].name)) && !HasCard(init[..k], last4);
        assert rows[..k] == init[..k] && rows[k] == init[k];
      } else if last4 in CoverageOf(rows).cards {
        assert rows[..|rows| - 1] == init;
      }
    }
  }

  lemma CardVerdictIsCoverage(rows: seq<CreditRow>, last4: string, issuer: Option<string>, day: nat)
    ensures VerdictFor(CoverageOf(rows), CardRef(Some(last4), issuer), day).covered <==> Covered(rows, CardRef(Some(last4), issuer), day)
  {
    CoverageRepresents(rows, last4);
    var c := CoverageOf(rows);
    if last4 in c.cards {
      var days := c.cards[last4].chargeDays;
      if |days| > 0 { assert days[0] in days; }
      assert HasChargeDate(rows, last4) <==> |days| > 0;
      assert WithinDays(days, day, CHARGE_MATCH_DAYS) <==> CardChargedNear(rows, last4, day);
    } else {
      assert !HasCard(rows, last4);
    }
  }

  /** The verdict read off the maps is the verdict the rows themselves call for. */
  lemma VerdictIsCoverage(rows: seq<CreditRow>, ref: CardRef, day: nat)
    ensures VerdictFor(CoverageOf(rows), ref, day).covered <==> Covered(rows, ref, day)
  {
    if ref.last4.Some? {
      CardVerdictIsCoverage(rows, ref.last4.value, ref.issuer, day);
    } else {
      CoverageRepresents(rows, "");
    }
  }

  /**
   * More confirmed rows un-settle a bill in exactly one way: the card had no charge
   * date, the billing-month fallback covered the bill, and the new rows bring the card
   * its first charge dates, none of them near the bill.
   */
  lemma MoreRowsKeepCover(fewer: seq<CreditRow>, more: seq<CreditRow>, ref: CardRef, day: nat)
    requires forall row | row in fewer :: row in more
    ensures VerdictFor(CoverageOf(fewer), ref, day).covered && !VerdictFor(CoverageOf(more), ref, day).covered <==>
      && ref.last4.Some?
      && !HasChargeDate(fewer, ref.last4.value) && HasChargeDate(more, ref.last4.value)
      && ItemizedIn(fewer, ref.last4.value, Calendar.MonthOf(day))
      && !CardChargedNear(more, ref.last4.value, day)
  {
    VerdictIsCoverage(fewer, ref, day);
    VerdictIsCoverage(more, ref, day);
    assert forall d: nat :: AnyCharged(fewer, d) ==> AnyCharged(more, d);
    if ref.last4.Some? {
      assert forall d: nat :: CardCharged(fewer, ref.last4.value, d) ==> CardCharged(more, ref.last4.value, d);
    }
  }

  /**
   * An instance: a statement without charge dates itemizes the card's purchases in the month
   * of a bill; one more row, charged three months later, uncovers it.
   */
  lemma LaterChargeUncovers(fewer: seq<CreditRow>, more: seq<CreditRow>, ref: CardRef)
    requires fewer == [CreditRow(Some(CardTag("1234", "card")), None, 10)]
    requires more == fewer + [CreditRow(Some(CardTag("1234", "card")), Some(100), 100)]
    requires ref.last4 == Some("1234")
    ensures VerdictFor(CoverageOf(fewer), ref, 10).covered && !VerdictFor(CoverageOf(more), ref, 10).covered
  {
    assert Names(fewer[0], "1234") && fewer[0] in fewer;
    assert Names(more[1], "1234") && more[1] in more;
    assert forall d: nat :: !CardCharged(fewer, "1234", d);
    assert forall d: nat :: CardCharged(more, "1234", d) ==> d == 100;
    assert CardCharged(more, "1234", 100);
    MoreRowsKeepCover(fewer, more, ref, 10);
  }
}
