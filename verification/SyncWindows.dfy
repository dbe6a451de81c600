/** Which rows of a bank or card website a sync takes: watermarks, windows and the day scraping starts. */
module SyncWindows {
  import opened Common
  import Calendar
  import opened MonthlyRuns

  const FIRST_SYNC_DAYS := 90
  const BANK_OVERLAP := 3
  const CARD_OVERLAP := 14

  /** Minutes in a day; a timestamp counts minutes of UTC. */
  const DAY_MINUTES := 1440

  /** A stored row: its day, a card row's charge day, and whether a sync or a file brought it. */
  datatype StoredLine = StoredLine(day: nat, charged: Option<nat>, synced: bool)

  datatype Answers = Bank | Credit | Unknown

  datatype Target = Target(
    storedThrough: Option<int>, chargedThrough: Option<int>, filesThrough: Option<int>, filesChargedThrough: Option<int>, answers: Answers)

  datatype Window = Window(after: int, chargeAfter: int)

  /** A website row: its date and charge date as timestamps, and which instalment it is (0 when none). */
  datatype ScrapedRow = ScrapedRow(date: nat, processed: nat, instalment: nat)

  // ---------- Days ----------

  /** Israel is two or three hours ahead of UTC. */
  ghost predicate IsraeliClock(ahead: nat -> nat) {
    forall t :: 120 <= ahead(t) <= 180
  }

  function IsraelDay(timestamp: nat, ahead: nat -> nat): nat {
    (timestamp + ahead(timestamp)) / DAY_MINUTES
  }

  /** The day moved back by whole months, clamped to the month; 0 before the calendar starts. */
  function MonthsBefore(day: nat, months: nat): nat {
    var d := Calendar.DateOf(day);
    if months > d.month then 0 else Clamped(d.day, d.month - months)
  }

  function PurchaseDay(row: ScrapedRow, ahead: nat -> nat): nat {
    MonthsBefore(IsraelDay(row.date, ahead), if row.instalment > 1 then row.instalment - 1 else 0)
  }

  function LaterOf(a: Option<int>, b: Option<int>): Option<int> {
    if a.None? then b else if b.None? || a.value > b.value then a else b
  }

  // ---------- Watermarks ----------

  function Watermark(fromSync: Option<int>, fromFiles: Option<int>, overlap: nat): Option<int> {
    LaterOf(if fromSync.None? then None else Some(fromSync.value - overlap), fromFiles)
  }

  /** The latest day among the rows a sync, or files, brought. */
  function LatestDay(rows: seq<StoredLine>, synced: bool): Option<int> {
    if rows == [] then None
    else
      var last := rows[|rows| - 1];
      LaterOf(LatestDay(rows[..|rows| - 1], synced), if last.synced == synced then Some(last.day) else None)
  }

  function LatestCharge(rows: seq<StoredLine>, synced: bool): Option<int> {
    if rows == [] then None
    else
      var last := rows[|rows| - 1];
      LaterOf(LatestCharge(rows[..|rows| - 1], synced), if last.synced == synced && last.charged.Some? then Some(last.charged.value) else None)
  }

  function BankTarget(rows: seq<StoredLine>): Target {
    var files := LatestDay(rows, false);
    Target(Watermark(LatestDay(rows, true), files, BANK_OVERLAP), None, files, None, Bank)
  }

  function CardTarget(rows: seq<StoredLine>): Target {
    Target(Watermark(LatestDay(rows, true), LatestDay(rows, false), CARD_OVERLAP),
           Watermark(LatestCharge(rows, true), LatestCharge(rows, false), CARD_OVERLAP),
           LatestDay(rows, false), LatestCharge(rows, false), Credit)
  }

  // ---------- Windows ----------

  function Earliest(days: seq<nat>): nat
    requires days != []
  {
    if |days| == 1 then days[0]
    else if days[0] <= Earliest(days[1..]) then days[0] else Earliest(days[1..])
  }

  function OrElse(a: Option<int>, b: Option<int>): Option<int> {
    if a.Some? then a else b
  }

  /** The window reopens to the earliest pending day, but never below what a file covered. */
  function Reopen(stored: Option<int>, files: Option<int>, pending: seq<nat>, today: nat): int {
    var base := if stored.Some? then stored.value else today - FIRST_SYNC_DAYS - 1;
    var reopened := if pending != [] && Earliest(pending) - 1 < base then Earliest(pending) - 1 else base;
    LaterOf(Some(reopened), files).value
  }

  function WindowFor(t: Target, pending: seq<nat>, today: nat): Window {
    Window(Reopen(t.storedThrough, t.filesThrough, pending, today),
           Reopen(OrElse(t.chargedThrough, t.storedThrough), OrElse(t.filesChargedThrough, t.filesThrough), pending, today))
  }

  predicate IsNewFor(t: Target, pending: seq<nat>, today: nat, row: ScrapedRow, ahead: nat -> nat) {
    var w := WindowFor(t, pending, today);
    if t.answers != Credit then IsraelDay(row.date, ahead) > w.after
    else PurchaseDay(row, ahead) > w.after || (row.instalment > 1 && IsraelDay(row.processed, ahead) > w.chargeAfter)
  }

  /** The bounds of every target's window; of a login with no known target, those of a first sync. */
  function Bounds(targets: seq<Target>, pending: seq<seq<nat>>, today: nat): seq<int>
    requires |pending| == |targets|
  {
    if targets == [] then []
    else
      var n := |targets| - 1;
      var w := WindowFor(targets[n], pending[n], today);
      Bounds(targets[..n], pending[..n], today) + [w.after, w.chargeAfter]
  }

  function Least(v: seq<int>): int
    requires v != []
  {
    if |v| == 1 then v[0] else if v[0] <= Least(v[1..]) then v[0] else Least(v[1..])
  }

  /** The first day scraped, as the start of that UTC day. */
  function ScrapeFrom(targets: seq<Target>, pending: seq<seq<nat>>, today: nat): int
    requires |pending| == |targets| && targets != []
  {
    Least(Bounds(targets, pending, today)) * DAY_MINUTES
  }

  // ---------- What files cover is never taken again ----------

  lemma {:induction false} LatestDayIsMax(rows: seq<StoredLine>, synced: bool, d: int)
    ensures (LatestDay(rows, synced).Some? && LatestDay(rows, synced).value >= d) <==> exists r | r in rows :: r.synced == synced && r.day >= d
    ensures LatestDay(rows, synced).Some? <==> exists r | r in rows :: r.synced == synced
  {
    if rows != [] {
      var init, last := rows[..|rows| - 1], rows[|rows| - 1];
      LatestDayIsMax(init, synced, d);
      assert rows == init + [last];
    }
  }

  lemma {:induction false} EarliestIsLeast(days: seq<nat>)
    requires days != []
    ensures Earliest(days) in days && forall p | p in days :: Earliest(days) <= p
  {
    if |days| > 1 {
      EarliestIsLeast(days[1..]);
      assert forall p :: p in days <==> p == days[0] || p in days[1..];
    }
  }

  lemma {:induction false} LatestChargeIsMax(rows: seq<StoredLine>, synced: bool, d: int)
    ensures (LatestCharge(rows, synced).Some? && LatestCharge(rows, synced).value >= d) <==>
      exists r | r in rows :: r.synced == synced && r.charged.Some? && r.charged.value >= d
    ensures LatestCharge(rows, synced).Some? <==> exists r | r in rows :: r.synced == synced && r.charged.Some?
  {
    if rows != [] {
      var init, last := rows[..|rows| - 1], rows[|rows| - 1];
      LatestChargeIsMax(init, synced, d);
      assert rows == init + [last];
    }
  }

  /** A file brought a row of this day or a later one. */
  ghost predicate Covered(rows: seq<StoredLine>, day: int) {
    exists r | r in rows :: !r.synced && r.day >= day
  }

  ghost predicate RecentlySynced(rows: seq<StoredLine>, day: int, overlap: nat) {
    exists r | r in rows :: r.synced && r.day - overlap >= day
  }

  /** No row brought so far reaches the day: in an empty account the last ninety days, else past the sync's own rows less their overlap. */
  ghost predicate Unreached(rows: seq<StoredLine>, day: int, overlap: nat, today: nat) {
    if rows == [] then day >= today - FIRST_SYNC_DAYS else !RecentlySynced(rows, day, overlap)
  }

  ghost predicate Reopened(pending: seq<nat>, day: int) {
    exists p | p in pending :: p <= day
  }

  lemma DayPassesIff(rows: seq<StoredLine>, pending: seq<nat>, today: nat, day: int, overlap: nat)
    ensures var files := LatestDay(rows, false);
      day > Reopen(Watermark(LatestDay(rows, true), files, overlap), files, pending, today) <==>
      !Covered(rows, day) && (Reopened(pending, day) || Unreached(rows, day, overlap, today))
  {
    LatestDayIsMax(rows, false, day);
    LatestDayIsMax(rows, true, day + overlap);
    if rows != [] { assert rows[0] in rows; }
    if pending != [] { EarliestIsLeast(pending); }
  }

  /**
   * What a bank sync takes, in terms of the rows already stored: nothing on or
   * before a day a file reached, and otherwise what comes after its own rows less
   * their overlap, or in the last ninety days of an empty account, or no earlier
   * than a row still pending.
   */
  lemma BankTakesIff(rows: seq<StoredLine>, pending: seq<nat>, today: nat, row: ScrapedRow, ahead: nat -> nat)
    ensures var day := IsraelDay(row.date, ahead);
      IsNewFor(BankTarget(rows), pending, today, row, ahead) <==>
      !Covered(rows, day) && (Reopened(pending, day) || Unreached(rows, day, BANK_OVERLAP, today))
  {
    DayPassesIff(rows, pending, today, IsraelDay(row.date, ahead), BANK_OVERLAP);
  }

  ghost predicate HoldsCharge(rows: seq<StoredLine>) {
    exists r | r in rows :: r.charged.Some?
  }

  ghost predicate FilesHoldCharge(rows: seq<StoredLine>) {
    exists r | r in rows :: !r.synced && r.charged.Some?
  }

  /** A file brought a charge of this day or a later one; while files hold no charge at all, their rows' days stand in. */
  ghost predicate ChargeCovered(rows: seq<StoredLine>, day: int) {
    if FilesHoldCharge(rows) then exists r | r in rows :: !r.synced && r.charged.Some? && r.charged.value >= day
    else Covered(rows, day)
  }

  ghost predicate RecentlyCharged(rows: seq<StoredLine>, day: int, overlap: nat) {
    exists r | r in rows :: r.synced && r.charged.Some? && r.charged.value - overlap >= day
  }

  /** No charge brought so far reaches the day; while no row holds a charge at all, their days stand in. */
  ghost predicate ChargeUnreached(rows: seq<StoredLine>, day: int, overlap: nat, today: nat) {
    if HoldsCharge(rows) then !RecentlyCharged(rows, day, overlap) else Unreached(rows, day, overlap, today)
  }

  lemma ChargePassesIff(rows: seq<StoredLine>, pending: seq<nat>, today: nat, day: int)
    ensures day > WindowFor(CardTarget(rows), pending, today).chargeAfter <==>
      !ChargeCovered(rows, day) && (Reopened(pending, day) || ChargeUnreached(rows, day, CARD_OVERLAP, today))
  {
    LatestChargeIsMax(rows, false, day);
    LatestChargeIsMax(rows, true, day + CARD_OVERLAP);
    LatestDayIsMax(rows, false, day);
    LatestDayIsMax(rows, true, day + CARD_OVERLAP);
    if rows != [] { assert rows[0] in rows; }
    if pending != [] { EarliestIsLeast(pending); }
  }

  /**
   * A card row is taken by the day of its purchase as a bank row is by its own,
   * with a longer overlap; and the second and later instalments of a purchase,
   * that day being reached or not, by the day they are charged.
   */
  lemma CardTakesIff(rows: seq<StoredLine>, pending: seq<nat>, today: nat, row: ScrapedRow, ahead: nat -> nat)
    ensures var bought, charged := PurchaseDay(row, ahead), IsraelDay(row.processed, ahead);
      IsNewFor(CardTarget(rows), pending, today, row, ahead) <==>
      || (!Covered(rows, bought) && (Reopened(pending, bought) || Unreached(rows, bought, CARD_OVERLAP, today)))
      || ( && row.instalment > 1
           && !ChargeCovered(rows, charged)
           && (Reopened(pending, charged) || ChargeUnreached(rows, charged, CARD_OVERLAP, today)))
  {
    DayPassesIff(rows, pending, today, PurchaseDay(row, ahead), CARD_OVERLAP);
    ChargePassesIff(rows, pending, today, IsraelDay(row.processed, ahead));
  }

  /** A pending row settles inside the next window unless a file already covers its day. */
  lemma PendingIsTakenUnlessCovered(t: Target, pending: seq<nat>, today: nat, p: nat)
    requires p in pending
    ensures p > WindowFor(t, pending, today).after <==> t.filesThrough.None? || p > t.filesThrough.value
  {
    EarliestIsLeast(pending);
  }

  // ---------- Where scraping starts ----------

  lemma {:induction false} BoundsHold(targets: seq<Target>, pending: seq<seq<nat>>, today: nat, i: nat)
    requires |pending| == |targets| && i < |targets|
    ensures WindowFor(targets[i], pending[i], today).after in Bounds(targets, pending, today)
    ensures WindowFor(targets[i], pending[i], today).chargeAfter in Bounds(targets, pending, today)
  {
    if i < |targets| - 1 {
      BoundsHold(targets[..|targets| - 1], pending[..|targets| - 1], today, i);
    }
  }

  lemma {:induction false} LeastIsLeast(v: seq<int>)
    requires v != []
    ensures forall x | x in v :: Least(v) <= x
  {
    if |v| > 1 {
      LeastIsLeast(v[1..]);
      assert v == [v[0]] + v[1..];
    }
  }

  /** A purchase is never after the row that bills it. */
  lemma PurchaseIsNoLater(row: ScrapedRow, ahead: nat -> nat)
    ensures PurchaseDay(row, ahead) <= IsraelDay(row.date, ahead)
  {
    var day := IsraelDay(row.date, ahead);
    var d, months := Calendar.DateOf(day), if row.instalment > 1 then row.instalment - 1 else 0;
    if months <= d.month {
      ClampedGrows(d.day, d.month - months, d.month);
      assert Clamped(d.day, d.month) == day;
    }
  }

  lemma DayStartsAfter(timestamp: nat, day: int, ahead: nat -> nat)
    requires IsraeliClock(ahead) && IsraelDay(timestamp, ahead) > day
    ensures timestamp >= day * DAY_MINUTES
  {
  }

  ghost predicate TakenByChargeAlone(t: Target, pending: seq<nat>, today: nat, row: ScrapedRow, ahead: nat -> nat) {
    var w := WindowFor(t, pending, today);
    t.answers == Credit && PurchaseDay(row, ahead) <= w.after && row.instalment > 1 && IsraelDay(row.processed, ahead) > w.chargeAfter
  }

  /**
   * Scraping from the chosen day loses nothing the sync would take: a row taken by
   * its own date or its purchase has a timestamp from the start on, and so has the
   * charge date of an instalment taken by its charge alone.
   */
  lemma ScrapingStartsEarlyEnough(
    targets: seq<Target>, pending: seq<seq<nat>>, today: nat, i: nat, row: ScrapedRow, ahead: nat -> nat)
    requires |pending| == |targets| && i < |targets| && IsraeliClock(ahead)
    requires IsNewFor(targets[i], pending[i], today, row, ahead)
    ensures var start := ScrapeFrom(targets, pending, today);
      row.date >= start || (TakenByChargeAlone(targets[i], pending[i], today, row, ahead) && row.processed >= start)
  {
    var w, least := WindowFor(targets[i], pending[i], today), Least(Bounds(targets, pending, today));
    BoundsHold(targets, pending, today, i);
    LeastIsLeast(Bounds(targets, pending, today));
    PurchaseIsNoLater(row, ahead);
    if IsraelDay(row.date, ahead) > w.after {
      DayStartsAfter(row.date, least, ahead);
    } else {
      DayStartsAfter(row.processed, least, ahead);
    }
  }

  /**
   * Such an instalment can be dated before the start: the second one of a purchase, dated 19 days
   * before its charge, of a card whose latest synced purchase came the day before that charge.
   */
  lemma OldPurchasesAreDatedEarlier(row: ScrapedRow, ahead: nat -> nat)
    requires row == ScrapedRow(80 * DAY_MINUTES, 99 * DAY_MINUTES, 2) && IsraeliClock(ahead)
    ensures var rows := [StoredLine(98, Some(99), true)];
      IsNewFor(CardTarget(rows), [], 100, row, ahead) && row.date < ScrapeFrom([CardTarget(rows)], [[]], 100)
  {
    var rows := [StoredLine(98, Some(99), true)];
    assert LatestDay(rows[..0], true) == None && LatestDay(rows[..0], false) == None;
    assert LatestCharge(rows[..0], true) == None && LatestCharge(rows[..0], false) == None;
    var targets, none := [CardTarget(rows)], [[]];
    assert WindowFor(targets[0], [], 100) == Window(84, 85);
    assert IsraelDay(row.processed, ahead) == 99;
    assert Bounds(targets[..0], none[..0], 100) == [];
    assert Bounds(targets, none, 100) == [84, 85];
  }

  /** A login none of whose accounts is known yet: the first sync's window, reopened to every pending row. */
  function ScrapeFromUnknown(pending: seq<nat>, today: nat): int {
    var first := today - FIRST_SYNC_DAYS - 1;
    (if pending != [] && Earliest(pending) - 1 < first then Earliest(pending) - 1 else first) * DAY_MINUTES
  }

  /** And it loses nothing an unknown account of that login would take, whichever pending rows are its own. */
  lemma UnknownAccountsLoseNothing(own: seq<nat>, pending: seq<nat>, today: nat, row: ScrapedRow, ahead: nat -> nat)
    requires IsraeliClock(ahead) && forall p | p in own :: p in pending
    requires IsNewFor(Target(None, None, None, None, Unknown), own, today, row, ahead)
    ensures row.date >= ScrapeFromUnknown(pending, today)
  {
    var w := WindowFor(Target(None, None, None, None, Unknown), own, today);
    if own != [] {
      EarliestIsLeast(own);
      EarliestIsLeast(pending);
    }
    DayStartsAfter(row.date, w.after, ahead);
  }
}
