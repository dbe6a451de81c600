/** The closing balance the replay derives is the one the ledger theorem asks of a file. */
module StatementClosing {
  import opened Common
  import BalanceReplay
  import FaultLocalisation
  import opened Account
  import opened LedgerTheorem

  function FileRowsOf(rows: seq<BalanceReplay.ParsedRow>): (f: seq<FileRow>)
    ensures |f| == |rows| && forall i | 0 <= i < |rows| :: f[i] == FileRow(rows[i].day, rows[i].description, rows[i].amount, rows[i].direction)
  {
    seq(|rows|, i requires 0 <= i < |rows| => FileRow(rows[i].day, rows[i].description, rows[i].amount, rows[i].direction))
  }

  /** What an import receives from the parser: the rows, and the balance the replay closed on. */
  function FileOf(rows: seq<BalanceReplay.ParsedRow>): StatementFile {
    StatementFile(FileRowsOf(rows), BalanceReplay.ReplayOf(rows).closing)
  }

  function SignedRows(rows: seq<BalanceReplay.ParsedRow>): (t: seq<int>)
    ensures |t| == |rows| && forall i | 0 <= i < |rows| :: t[i] == BalanceReplay.Signed(rows[i])
  {
    seq(|rows|, i requires 0 <= i < |rows| => BalanceReplay.Signed(rows[i]))
  }

  lemma {:induction false} MovedIsNet(rows: seq<BalanceReplay.ParsedRow>, w: Wording, lo: int, hi: int, n: nat)
    requires n <= |rows| && forall i | 0 <= i < |rows| :: Within(lo, rows[i].day, hi)
    ensures FaultLocalisation.TrueMoved(SignedRows(rows), 0, n) == NetBetween(FileKeys(FileRowsOf(rows), w)[..n], lo, hi)
  {
    var keys := FileKeys(FileRowsOf(rows), w);
    if n == 0 {
      assert keys[..0] == [];
    } else {
      MovedIsNet(rows, w, lo, hi, n - 1);
      assert keys[..n][..n - 1] == keys[..n - 1];
      assert keys[n - 1].day == rows[n - 1].day;
    }
  }

  /** The file holds the ledger's whole days from..to. */
  ghost predicate ShowsDays(rows: seq<FileRow>, l: Ledger, w: Wording, from: nat, to: nat) {
    rows != [] && forall k :: multiset(FileKeys(rows, w))[k] == if Within(from, k.day, to) then multiset(l.lines)[k] else 0
  }

  lemma ShownDaysWithin(rows: seq<FileRow>, l: Ledger, w: Wording, from: nat, to: nat, i: nat)
    requires ShowsDays(rows, l, w, from, to) && i < |rows|
    ensures from <= rows[i].day <= to
  {
    assert FileKeys(rows, w)[i] in FileKeys(rows, w);
    assert multiset(FileKeys(rows, w))[FileKeys(rows, w)[i]] > 0;
  }

  /** After the file's last row the ledger is silent until its period ends. */
  lemma SilentAfterLastRow(rows: seq<FileRow>, l: Ledger, w: Wording, from: nat, to: nat)
    requires ShowsDays(rows, l, w, from, to)
    ensures from <= LastDay(rows) <= to && TrueBalance(l, LastDay(rows)) == TrueBalance(l, to)
  {
    LastDayIsShown(rows, l, w, from, to);
    NothingNetsLater(rows, l, w, from, to);
    NetSplits(l.lines, 0, LastDay(rows), to);
  }

  lemma LastDayIsShown(rows: seq<FileRow>, l: Ledger, w: Wording, from: nat, to: nat)
    requires ShowsDays(rows, l, w, from, to)
    ensures from <= LastDay(rows) <= to
  {
    DaysWithin(rows);
    var i :| 0 <= i < |rows| && rows[i].day == LastDay(rows);
    ShownDaysWithin(rows, l, w, from, to, i);
  }

  lemma NothingNetsLater(rows: seq<FileRow>, l: Ledger, w: Wording, from: nat, to: nat)
    requires ShowsDays(rows, l, w, from, to) && from <= LastDay(rows)
    ensures NetBetween(l.lines, LastDay(rows) + 1, to) == 0
  {
    forall k: Key | Within(LastDay(rows) + 1, k.day, to) ensures multiset(l.lines)[k] == 0 { NotShownLater(rows, l, w, from, to, k); }
    NothingNetsToZero(l.lines, LastDay(rows) + 1, to);
  }

  lemma NotShownLater(rows: seq<FileRow>, l: Ledger, w: Wording, from: nat, to: nat, k: Key)
    requires ShowsDays(rows, l, w, from, to) && LastDay(rows) < k.day && from <= k.day <= to
    ensures multiset(l.lines)[k] == 0
  {
    DaysWithin(rows);
    assert k !in FileKeys(rows, w);
  }

  lemma ShownNet(rows: seq<BalanceReplay.ParsedRow>, l: Ledger, w: Wording, from: nat, to: nat, keys: seq<Key>)
    requires ShowsDays(FileRowsOf(rows), l, w, from, to) && keys == FileKeys(FileRowsOf(rows), w)
    ensures FaultLocalisation.TrueMoved(SignedRows(rows), 0, |rows|) == NetBetween(l.lines, from, to)
  {
    forall i | 0 <= i < |rows| ensures Within(from, rows[i].day, to) { ShownDaysWithin(FileRowsOf(rows), l, w, from, to, i); }
    MovedIsNet(rows, w, from, to, |rows|);
    assert keys[..|rows|] == keys;
    SameLinesSameNet(keys, l.lines, from, to);
  }

  /**
   * A file of whole ledger days, read right and printing true balances, is one the ledger
   * theorem accepts: the replay reports nothing and its closing balance is the bank's.
   */
  lemma FaithfulFileIsWholeDays(rows: seq<BalanceReplay.ParsedRow>, l: Ledger, w: Wording, from: nat, to: nat)
    requires ShowsDays(FileRowsOf(rows), l, w, from, to)
    requires BalanceReplay.Prints(rows) && FaultLocalisation.TrulyPrinted(rows, SignedRows(rows), TrueBalance(l, from - 1))
    ensures WholeDays(FileOf(rows), l, w, from, to)
    ensures BalanceReplay.ReplayOf(rows).mismatches == []
    ensures FileOf(rows).closing == Some(TrueBalance(l, to))
  {
    var truth, keys := SignedRows(rows), FileKeys(FileRowsOf(rows), w);
    FaultLocalisation.FaithfulStatementReconciles(rows, truth, TrueBalance(l, from - 1));
    ShownNet(rows, l, w, from, to, keys);
    SilentAfterLastRow(FileRowsOf(rows), l, w, from, to);
    NetSplits(l.lines, 0, from - 1, to);
  }
}
