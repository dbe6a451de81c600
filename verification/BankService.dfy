/** The bank account service: every operation ends by recomputing the balance from scratch. */
module BankService {
  import opened Common
  import opened BankRows
  import opened CounterDedup
  import opened Account

  datatype Outcome = Completed | EmptyFile | NoSuchRow
  datatype ImportReport = ImportReport(parsed: nat, imported: nat, skipped: nat, deposits: nat, withdrawals: nat)

  function Without(a: AccountState, i: nat): AccountState
    requires i < |a.rows|
  {
    a.(rows := a.rows[..i] + a.rows[i + 1..])
  }

  function PlaceOf(rows: seq<StoredRow>, id: nat): (r: Option<nat>)
    ensures r.Some? ==> r.value < |rows| && rows[r.value].id == id
    ensures r.None? ==> forall i | 0 <= i < |rows| :: rows[i].id != id
  {
    if rows == [] then None
    else if rows[|rows| - 1].id == id then Some(|rows| - 1)
    else PlaceOf(rows[..|rows| - 1], id)
  }

  function DepositsIn(rows: seq<FileRow>): nat {
    if rows == [] then 0 else DepositsIn(rows[..|rows| - 1]) + if rows[|rows| - 1].direction == Deposit then 1 else 0
  }

  class BankAccount {
    const wording: Wording
    var rows: seq<StoredRow>
    var nextRow: nat
    var statements: seq<Statement>
    var nextStatement: nat
    var anchor: Option<Anchor>
    var initialBalance: int
    /** A cached copy of the derived balance. */
    var currentBalance: int

    ghost function State(): AccountState
      reads this
    {
      AccountState(rows, nextRow, statements, nextStatement, anchor, initialBalance)
    }

    /** The cached balance is the derived one. */
    ghost predicate Current(today: nat)
      reads this
    {
      currentBalance == Derive(State(), today, wording).balance
    }

    constructor (wording: Wording, initial: int)
      ensures State() == AccountState([], 1, [], 1, None, initial) && this.wording == wording
      ensures forall today: nat :: Current(today)
    {
      this.wording, rows, nextRow, statements, nextStatement, anchor := wording, [], 1, [], 1, None;
      initialBalance, currentBalance := initial, initial;
    }

    method Anchored(today: nat) returns (found: Option<Anchor>)
      ensures found == FindAnchor(State(), today)
    {
      var fromStatement: Option<Anchor> := None;
      for i := 0 to |statements|
        invariant fromStatement == NewestAnchor(statements[..i], today)
      {
        assert statements[..i + 1][..i] == statements[..i];
        var s := statements[i];
        if CanAnchor(s, today) && (fromStatement.None? || s.to >= fromStatement.value.asOf) {
          fromStatement := Some(Anchor(s.to, s.closing.value));
        }
      }
      assert statements[..|statements|] == statements;
      var fromUser := if anchor.Some? && anchor.value.asOf <= today then anchor else None;
      if fromStatement.None? { return fromUser; }
      if fromUser.None? { return fromStatement; }
      found := if fromUser.value.asOf >= fromStatement.value.asOf then fromUser else fromStatement;
    }

    method NetFrom(lo: nat, today: nat) returns (net: int)
      ensures net == NetBetween(StoredKeys(rows, wording), lo, today)
    {
      net := 0;
      ghost var keys := StoredKeys(rows, wording);
      for i := 0 to |rows|
        invariant net == NetBetween(keys[..i], lo, today)
      {
        assert keys[..i + 1][..i] == keys[..i];
        if lo <= rows[i].day <= today { net := net + SignedAmount(rows[i].direction, rows[i].amount); }
      }
      assert keys[..|keys|] == keys;
    }

    method Recompute(today: nat)
      modifies this`currentBalance
      ensures Current(today)
    {
      var found := Anchored(today);
      if found.None? {
        var net := NetFrom(0, today);
        currentBalance := initialBalance + net;
      } else {
        var net := NetFrom(found.value.asOf + 1, today);
        currentBalance := found.value.balance + net;
      }
    }

    /** Store the rows not already present, and record the statement even when all of them are. */
    method TakeIn(f: StatementFile) returns (newRows: seq<FileRow>)
      requires f.rows != []
      modifies this`rows, this`nextRow, this`statements, this`nextStatement
      ensures newRows == FreshRows(old(State()), f.rows, wording) && |newRows| <= |f.rows|
      ensures State() == Imported(old(State()), f, wording)
    {
      var existing := KeysBetween(StoredKeys(rows, wording), FirstDay(f.rows), LastDay(f.rows));
      var places := FilterNew(existing, FileKeys(f.rows, wording));
      NewPlacesInRange(multiset(existing), FileKeys(f.rows, wording), |f.rows|);
      NewPlacesAtMost(multiset(existing), FileKeys(f.rows, wording), |f.rows|);
      newRows := Pick(f.rows, places);
      statements := statements + [Statement(nextStatement, FirstDay(f.rows), LastDay(f.rows), f.closing, |f.rows|, |newRows|)];
      rows := rows + StoreAll(newRows, nextRow, nextStatement, wording);
      nextRow, nextStatement := nextRow + |newRows|, nextStatement + 1;
    }

    /** The resolver's work on this account's rows; `pass` is what it brings to them. */
    method Resolve(pass: ResolvePass)
      modifies this`rows
      ensures rows == AllAfterPass(old(rows), wording, pass)
    {
      ghost var after := AllAfterPass(rows, wording, pass);
      for i := 0 to |rows|
        invariant |rows| == |after|
        invariant forall j | 0 <= j < i :: rows[j] == after[j]
        invariant forall j | i <= j < |rows| :: rows[j] == old(rows)[j]
      {
        var row := rows[i];
        if row.resolution != Some(ManualExcluded) {
          if row.resolution.Some? || pass.nullsSeen {
            rows := rows[i := row.(class_ := wording.classify(Text(row.description), if row.direction == Deposit then Deposit else Withdrawal))];
          }
          if row.id in pass.meanings { rows := rows[i := rows[i].(resolution := Some(pass.meanings[row.id]))]; }
        }
      }
      assert rows == after;
    }

    /** The file is taken in, the balance recomputed, and where a row was added the resolver runs. */
    method ImportStatement(f: StatementFile, today: nat, pass: ResolvePass) returns (outcome: Outcome, report: ImportReport)
      modifies this
      ensures outcome == if f.rows == [] then EmptyFile else Completed
      ensures outcome == EmptyFile ==> State() == old(State()) && currentBalance == old(currentBalance)
      ensures outcome == Completed ==> State() == Finished(old(State()), f, wording, pass) && Current(today)
      ensures outcome == Completed ==>
        && report.parsed == |f.rows| && report.imported + report.skipped == report.parsed
        && report.imported == |FreshRows(old(State()), f.rows, wording)| && report.deposits + report.withdrawals == report.imported
        && report.deposits == DepositsIn(FreshRows(old(State()), f.rows, wording))
    {
      report := ImportReport(0, 0, 0, 0, 0);
      if f.rows == [] { return EmptyFile, report; }
      var newRows := TakeIn(f);
      var deposits := CountDeposits(newRows);
      Recompute(today);
      if newRows != [] {
        PassKeepsBalance(State(), wording, pass, today);
        Resolve(pass);
      }
      outcome := Completed;
      report := ImportReport(|f.rows|, |newRows|, |f.rows| - |newRows|, deposits, |newRows| - deposits);
    }

    /** A row the user adds by hand is not classified and names no statement. */
    method CreateTransaction(day: nat, description: Option<string>, amount: int, direction: Direction, category: Option<nat>, today: nat)
      modifies this
      ensures State() == old(State()).(
        rows := old(rows) + [StoredRow(old(nextRow), day, description, amount, direction, LineClass(Standard, None), category, None, None)],
        nextRow := old(nextRow) + 1)
      ensures Current(today)
    {
      rows := rows + [StoredRow(nextRow, day, description, amount, direction, LineClass(Standard, None), category, None, None)];
      nextRow := nextRow + 1;
      Recompute(today);
    }

    method RemoveTransaction(id: nat, today: nat) returns (outcome: Outcome)
      modifies this
      ensures outcome == if PlaceOf(old(rows), id).None? then NoSuchRow else Completed
      ensures outcome == NoSuchRow ==> State() == old(State()) && currentBalance == old(currentBalance)
      ensures outcome == Completed ==> State() == Without(old(State()), PlaceOf(old(rows), id).value) && Current(today)
    {
      var place := PlaceOf(rows, id);
      if place.None? { return NoSuchRow; }
      rows := rows[..place.value] + rows[place.value + 1..];
      Recompute(today);
      outcome := Completed;
    }

    method SetAnchor(balance: int, asOf: nat, today: nat)
      modifies this
      ensures State() == old(State()).(anchor := Some(Anchor(asOf, balance))) && Current(today)
    {
      anchor := Some(Anchor(asOf, balance));
      Recompute(today);
    }
  }

  method CountDeposits(rows: seq<FileRow>) returns (n: nat)
    ensures n == DepositsIn(rows) && n <= |rows|
  {
    n := 0;
    for i := 0 to |rows|
      invariant n == DepositsIn(rows[..i]) && n <= i
    {
      assert rows[..i + 1][..i] == rows[..i];
      if rows[i].direction == Deposit { n := n + 1; }
    }
    assert rows[..|rows|] == rows;
  }
}
