/** One bank account: its rows, the statements taken in, and the balance derived from both. */
module Account {
  import opened Common
  import opened BankRows
  import opened CounterDedup

  /** Same day, amount, direction and trimmed description: the same line of a statement. */
  datatype Key = Key(day: nat, amount: int, direction: Direction, text: string)

  datatype FileRow = FileRow(day: nat, description: string, amount: int, direction: Direction)
  datatype StatementFile = StatementFile(rows: seq<FileRow>, closing: Option<int>)
  datatype StoredRow = StoredRow(
    id: nat, day: nat, description: Option<string>, amount: int, direction: Direction, class_: LineClass, category: Option<nat>,
    source: Option<nat>, resolution: Option<Resolution>)

  datatype Statement = Statement(id: nat, from: nat, to: nat, closing: Option<int>, parsed: nat, imported: nat)
  datatype Anchor = Anchor(asOf: nat, balance: int)

  datatype AccountState = AccountState(
    rows: seq<StoredRow>, nextRow: nat, statements: seq<Statement>, nextStatement: nat, anchor: Option<Anchor>, initial: int)

  /** How descriptions are trimmed, classified and categorized. */
  datatype Wording = Wording(
    trim: string -> string, classify: (string, Direction) -> LineClass, categorize: string -> Option<nat>)

  function Text(d: Option<string>): string { if d.Some? then d.value else "" }

  // ---------- Keys ----------

  function FileKey(r: FileRow, w: Wording): Key {
    Key(r.day, r.amount, r.direction, w.trim(r.description))
  }

  function StoredKey(r: StoredRow, w: Wording): Key {
    Key(r.day, r.amount, r.direction, w.trim(Text(r.description)))
  }

  function FileKeys(rows: seq<FileRow>, w: Wording): (ks: seq<Key>)
    ensures |ks| == |rows| && forall i | 0 <= i < |rows| :: ks[i] == FileKey(rows[i], w)
  {
    seq(|rows|, i requires 0 <= i < |rows| => FileKey(rows[i], w))
  }

  function StoredKeys(rows: seq<StoredRow>, w: Wording): (ks: seq<Key>)
    ensures |ks| == |rows| && forall i | 0 <= i < |rows| :: ks[i] == StoredKey(rows[i], w)
  {
    seq(|rows|, i requires 0 <= i < |rows| => StoredKey(rows[i], w))
  }

  predicate Within(lo: int, day: int, hi: int) { lo <= day <= hi }

  /** The keys of the rows dated lo..hi, in order. */
  function KeysBetween(keys: seq<Key>, lo: int, hi: int): seq<Key> {
    if keys == [] then []
    else KeysBetween(keys[..|keys| - 1], lo, hi) + if Within(lo, keys[|keys| - 1].day, hi) then [keys[|keys| - 1]] else []
  }

  function FirstDay(rows: seq<FileRow>): nat
    requires rows != []
  {
    if |rows| == 1 || rows[0].day <= FirstDay(rows[1..]) then rows[0].day else FirstDay(rows[1..])
  }

  function LastDay(rows: seq<FileRow>): nat
    requires rows != []
  {
    if |rows| == 1 || rows[0].day >= LastDay(rows[1..]) then rows[0].day else LastDay(rows[1..])
  }

  lemma {:induction false} DaysWithin(rows: seq<FileRow>)
    requires rows != []
    ensures forall i | 0 <= i < |rows| :: FirstDay(rows) <= rows[i].day <= LastDay(rows)
    ensures exists i | 0 <= i < |rows| :: rows[i].day == LastDay(rows)
  {
    if |rows| == 1 {
      assert rows[0].day == LastDay(rows);
    } else {
      DaysWithin(rows[1..]);
      assert forall i | 1 <= i < |rows| :: rows[i] == rows[1..][i - 1];
      var k :| 0 <= k < |rows[1..]| && rows[1..][k].day == LastDay(rows[1..]);
      assert rows[k + 1].day == LastDay(rows[1..]);
      assert rows[0].day == LastDay(rows) || rows[k + 1].day == LastDay(rows);
    }
  }

  // ---------- Import ----------

  function FreshRows(a: AccountState, rows: seq<FileRow>, w: Wording): seq<FileRow>
    requires rows != []
  {
    var existing := KeysBetween(StoredKeys(a.rows, w), FirstDay(rows), LastDay(rows));
    NewRows(multiset(existing), rows, FileKeys(rows, w))
  }

  function ToStored(r: FileRow, id: nat, source: nat, w: Wording): StoredRow {
    StoredRow(id, r.day, Some(r.description), r.amount, r.direction, w.classify(r.description, r.direction),
              if r.direction == Withdrawal then w.categorize(r.description) else None, Some(source), None)
  }

  function StoreAll(rows: seq<FileRow>, first: nat, source: nat, w: Wording): (s: seq<StoredRow>)
    ensures |s| == |rows| && forall i | 0 <= i < |rows| :: s[i] == ToStored(rows[i], first + i, source, w)
  {
    seq(|rows|, i requires 0 <= i < |rows| => ToStored(rows[i], first + i, source, w))
  }

  /** The account after a file is taken in: the statement is recorded even when every row is a duplicate. */
  function Imported(a: AccountState, f: StatementFile, w: Wording): AccountState {
    if f.rows == [] then a
    else
      var newRows := FreshRows(a, f.rows, w);
      a.(rows := a.rows + StoreAll(newRows, a.nextRow, a.nextStatement, w),
         nextRow := a.nextRow + |newRows|,
         statements := a.statements + [Statement(a.nextStatement, FirstDay(f.rows), LastDay(f.rows), f.closing, |f.rows|, |newRows|)],
         nextStatement := a.nextStatement + 1)
  }

  // ---------- The resolve pass ----------

  /**
   * What the resolver brings to one account's rows: whether its backfill visits rows without a
   * resolution, and the meaning it reached for each row it decided.
   */
  datatype ResolvePass = ResolvePass(nullsSeen: bool, meanings: map<nat, Resolution>)

  /** The backfill reclassifies the row. */
  predicate Visited(r: StoredRow, nullsSeen: bool) {
    r.resolution != Some(ManualExcluded) && (r.resolution.Some? || nullsSeen)
  }

  function Refiled(r: StoredRow, w: Wording, nullsSeen: bool): StoredRow {
    if Visited(r, nullsSeen) then r.(class_ := w.classify(Text(r.description), if r.direction == Deposit then Deposit else Withdrawal)) else r
  }

  function AfterPass(r: StoredRow, w: Wording, pass: ResolvePass): StoredRow {
    var s := Refiled(r, w, pass.nullsSeen);
    if r.resolution == Some(ManualExcluded) || r.id !in pass.meanings then s else s.(resolution := Some(pass.meanings[r.id]))
  }

  function AllAfterPass(rows: seq<StoredRow>, w: Wording, pass: ResolvePass): (s: seq<StoredRow>)
    ensures |s| == |rows| && forall i | 0 <= i < |rows| :: s[i] == AfterPass(rows[i], w, pass)
  {
    seq(|rows|, i requires 0 <= i < |rows| => AfterPass(rows[i], w, pass))
  }

  /** The whole import: the file is taken in, and where that brought a row, a resolve pass follows. */
  function Finished(a: AccountState, f: StatementFile, w: Wording, pass: ResolvePass): AccountState {
    var i := Imported(a, f, w);
    if |i.rows| == |a.rows| then i else i.(rows := AllAfterPass(i.rows, w, pass))
  }

  /** A pass changes what rows mean, never what lines they are. */
  lemma PassKeepsLines(rows: seq<StoredRow>, w: Wording, pass: ResolvePass)
    ensures StoredKeys(AllAfterPass(rows, w, pass), w) == StoredKeys(rows, w)
  {
  }

  lemma FinishedKeepsLines(a: AccountState, f: StatementFile, w: Wording, pass: ResolvePass)
    ensures StoredKeys(Finished(a, f, w, pass).rows, w) == StoredKeys(Imported(a, f, w).rows, w)
    ensures Finished(a, f, w, pass).statements == Imported(a, f, w).statements
    ensures Finished(a, f, w, pass).anchor == a.anchor && Finished(a, f, w, pass).initial == a.initial
  {
    PassKeepsLines(Imported(a, f, w).rows, w, pass);
  }

  // ---------- Derived balance ----------

  function SignedAmount(direction: Direction, amount: int): int {
    if direction == Deposit then amount else -amount
  }

  /** The net movement of the keys dated lo..hi. */
  function NetBetween(keys: seq<Key>, lo: int, hi: int): int {
    if keys == [] then 0
    else
      var last := keys[|keys| - 1];
      NetBetween(keys[..|keys| - 1], lo, hi) + if Within(lo, last.day, hi) then SignedAmount(last.direction, last.amount) else 0
  }

  predicate CanAnchor(s: Statement, today: nat) {
    s.closing.Some? && s.to <= today
  }

  /** The newest statement with a printed closing balance, the later import on a tie. */
  function NewestAnchor(statements: seq<Statement>, today: nat): Option<Anchor> {
    if statements == [] then None
    else
      var best, last := NewestAnchor(statements[..|statements| - 1], today), statements[|statements| - 1];
      if CanAnchor(last, today) && (best.None? || last.to >= best.value.asOf) then Some(Anchor(last.to, last.closing.value)) else best
  }

  /** That statement or the balance the user stated, whichever is later; the user's on a tie. */
  function FindAnchor(a: AccountState, today: nat): Option<Anchor> {
    var fromStatement := NewestAnchor(a.statements, today);
    var fromUser := if a.anchor.Some? && a.anchor.value.asOf <= today then a.anchor else None;
    if fromStatement.None? then fromUser
    else if fromUser.None? then fromStatement
    else if fromUser.value.asOf >= fromStatement.value.asOf then fromUser
    else fromStatement
  }

  datatype Basis = FromStatement | Accumulated
  datatype DerivedBalance = DerivedBalance(balance: int, basis: Basis, anchor: Option<Anchor>, afterNet: int)

  function Derive(a: AccountState, today: nat, w: Wording): DerivedBalance {
    var keys := StoredKeys(a.rows, w);
    match FindAnchor(a, today)
    case None => DerivedBalance(a.initial + NetBetween(keys, 0, today), Accumulated, None, NetBetween(keys, 0, today))
    case Some(anchor) =>
      var after := NetBetween(keys, anchor.asOf + 1, today);
      DerivedBalance(anchor.balance + after, FromStatement, Some(anchor), after)
  }

  // ---------- Import is a max-union ----------

  lemma {:induction false} CountBetween(keys: seq<Key>, lo: int, hi: int, k: Key)
    ensures multiset(KeysBetween(keys, lo, hi))[k] == if Within(lo, k.day, hi) then multiset(keys)[k] else 0
  {
    if keys != [] {
      CountBetween(keys[..|keys| - 1], lo, hi, k);
      assert keys == keys[..|keys| - 1] + [keys[|keys| - 1]];
    }
  }

  lemma KeysOfStored(rows: seq<FileRow>, places: seq<nat>, first: nat, source: nat, w: Wording)
    requires forall i | 0 <= i < |places| :: places[i] < |rows|
    ensures StoredKeys(StoreAll(Pick(rows, places), first, source, w), w) == Pick(FileKeys(rows, w), places)
  {
  }

  lemma KeysOfBoth(a: seq<StoredRow>, b: seq<StoredRow>, w: Wording)
    ensures StoredKeys(a + b, w) == StoredKeys(a, w) + StoredKeys(b, w)
  {
  }

  /** The keys an import adds: the places of the file past what is already stored. */
  lemma ImportedKeys(a: AccountState, f: StatementFile, w: Wording, places: seq<nat>)
    requires f.rows != []
    requires places == NewPlaces(multiset(KeysBetween(StoredKeys(a.rows, w), FirstDay(f.rows), LastDay(f.rows))), FileKeys(f.rows, w), |f.rows|)
    ensures forall i | 0 <= i < |places| :: places[i] < |f.rows|
    ensures StoredKeys(Imported(a, f, w).rows, w) == StoredKeys(a.rows, w) + Pick(FileKeys(f.rows, w), places)
  {
    NewPlacesInRange(multiset(KeysBetween(StoredKeys(a.rows, w), FirstDay(f.rows), LastDay(f.rows))), FileKeys(f.rows, w), |f.rows|);
    var added := StoreAll(Pick(f.rows, places), a.nextRow, a.nextStatement, w);
    KeysOfStored(f.rows, places, a.nextRow, a.nextStatement, w);
    KeysOfBoth(a.rows, added, w);
    assert Imported(a, f, w).rows == a.rows + added;
  }

  lemma OutsideTheFile(rows: seq<FileRow>, w: Wording, k: Key)
    requires rows != [] && !Within(FirstDay(rows), k.day, LastDay(rows))
    ensures multiset(FileKeys(rows, w))[k] == 0
  {
    DaysWithin(rows);
    assert k !in FileKeys(rows, w);
  }

  lemma TakenInKeepsBusier(a: AccountState, f: StatementFile, w: Wording, k: Key)
    ensures multiset(StoredKeys(Imported(a, f, w).rows, w))[k]
         == Max(multiset(StoredKeys(a.rows, w))[k], multiset(FileKeys(f.rows, w))[k])
  {
    if f.rows == [] {
      assert FileKeys(f.rows, w) == [];
    } else {
      var had, keys := StoredKeys(a.rows, w), FileKeys(f.rows, w);
      var existing := multiset(KeysBetween(had, FirstDay(f.rows), LastDay(f.rows)));
      var places := NewPlaces(existing, keys, |keys|);
      ImportedKeys(a, f, w, places);
      NewCounts(existing, keys, |keys|, k);
      assert keys[..|keys|] == keys;
      CountBetween(had, FirstDay(f.rows), LastDay(f.rows), k);
      if !Within(FirstDay(f.rows), k.day, LastDay(f.rows)) { OutsideTheFile(f.rows, w, k); }
    }
  }

  /** After an import the account holds, of every line, as many as the busier of what it had and the file. */
  lemma ImportKeepsBusier(a: AccountState, f: StatementFile, w: Wording, pass: ResolvePass, k: Key)
    ensures multiset(StoredKeys(Finished(a, f, w, pass).rows, w))[k]
         == Max(multiset(StoredKeys(a.rows, w))[k], multiset(FileKeys(f.rows, w))[k])
  {
    FinishedKeepsLines(a, f, w, pass);
    TakenInKeepsBusier(a, f, w, k);
  }

  /** No stored row is lost by an import: its rows come first, each as it was or as a resolve pass leaves it. */
  lemma ImportOnlyAppends(a: AccountState, f: StatementFile, w: Wording, pass: ResolvePass)
    ensures var after := Finished(a, f, w, pass).rows;
      |a.rows| <= |after| && forall i | 0 <= i < |a.rows| :: after[i] == if |after| == |a.rows| then a.rows[i] else AfterPass(a.rows[i], w, pass)
  {
    TakenInAppends(a, f, w);
  }

  lemma TakenInAppends(a: AccountState, f: StatementFile, w: Wording)
    ensures a.rows <= Imported(a, f, w).rows
  {
  }

  /** The balance is read off lines and anchors alone, so a pass leaves it. */
  lemma PassKeepsBalance(a: AccountState, w: Wording, pass: ResolvePass, today: nat)
    ensures Derive(a.(rows := AllAfterPass(a.rows, w, pass)), today, w) == Derive(a, today, w)
  {
    PassKeepsLines(a.rows, w, pass);
  }
}
