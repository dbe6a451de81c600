/**
 * Statements overlap, repeat and arrive in any order; the account still holds
 * exactly the bank's own ledger on the covered days, and the derived balance is
 * the bank's.
 */
module LedgerTheorem {
  import opened Common
  import opened Account

  // ---------- Any list of files ----------

  /** A file, and the resolve pass its import ends with. */
  datatype Upload = Upload(file: StatementFile, pass: ResolvePass)

  function FilesOf(uploads: seq<Upload>): (files: seq<StatementFile>)
    ensures |files| == |uploads| && forall i | 0 <= i < |files| :: files[i] == uploads[i].file
  {
    seq(|uploads|, i requires 0 <= i < |uploads| => uploads[i].file)
  }

  function ImportAll(a: AccountState, uploads: seq<Upload>, w: Wording): AccountState {
    if uploads == [] then a
    else
      var last := uploads[|uploads| - 1];
      Finished(ImportAll(a, uploads[..|uploads| - 1], w), last.file, w, last.pass)
  }

  /** The most copies of a line that any one file shows. */
  function Busiest(files: seq<StatementFile>, w: Wording, k: Key): nat {
    if files == [] then 0 else Max(Busiest(files[..|files| - 1], w, k), multiset(FileKeys(files[|files| - 1].rows, w))[k])
  }

  lemma {:induction false} ImportAllCounts(a: AccountState, uploads: seq<Upload>, w: Wording, k: Key)
    ensures multiset(StoredKeys(ImportAll(a, uploads, w).rows, w))[k] == Max(multiset(StoredKeys(a.rows, w))[k], Busiest(FilesOf(uploads), w, k))
  {
    if uploads != [] {
      var init, last := uploads[..|uploads| - 1], uploads[|uploads| - 1];
      ImportAllCounts(a, init, w, k);
      assert FilesOf(uploads)[..|init|] == FilesOf(init);
      ImportKeepsBusier(ImportAll(a, init, w), last.file, w, last.pass, k);
    }
  }

  lemma {:induction false} BusiestBounds(files: seq<StatementFile>, w: Wording, k: Key)
    ensures forall f | f in files :: multiset(FileKeys(f.rows, w))[k] <= Busiest(files, w, k)
    ensures Busiest(files, w, k) > 0 ==> exists f | f in files :: multiset(FileKeys(f.rows, w))[k] == Busiest(files, w, k)
  {
    if files != [] {
      BusiestBounds(files[..|files| - 1], w, k);
      assert files == files[..|files| - 1] + [files[|files| - 1]];
    }
  }

  /** Only which files were taken in matters: not their order, and not how often. */
  lemma OrderAndRepeatsDoNotMatter(a: AccountState, us: seq<Upload>, vs: seq<Upload>, w: Wording, k: Key)
    requires forall f :: f in FilesOf(us) <==> f in FilesOf(vs)
    ensures multiset(StoredKeys(ImportAll(a, us, w).rows, w))[k] == multiset(StoredKeys(ImportAll(a, vs, w).rows, w))[k]
  {
    ImportAllCounts(a, us, w, k);
    ImportAllCounts(a, vs, w, k);
    BusiestBounds(FilesOf(us), w, k);
    BusiestBounds(FilesOf(vs), w, k);
  }

  /** Removing a row and uploading its file again brings the line back exactly when the file shows as many copies as there were. */
  lemma ReuploadRestoresIff(a: AccountState, i: nat, f: StatementFile, w: Wording, pass: ResolvePass, k: Key)
    requires i < |a.rows| && forall x :: multiset(FileKeys(f.rows, w))[x] <= multiset(StoredKeys(a.rows, w))[x]
    ensures var without := a.(rows := a.rows[..i] + a.rows[i + 1..]);
      multiset(StoredKeys(Finished(without, f, w, pass).rows, w))[k] == multiset(StoredKeys(a.rows, w))[k] <==>
        k != StoredKey(a.rows[i], w) || multiset(FileKeys(f.rows, w))[k] == multiset(StoredKeys(a.rows, w))[k]
  {
    ImportKeepsBusier(a.(rows := a.rows[..i] + a.rows[i + 1..]), f, w, pass, k);
    OneRowLess(a.rows, i, w, k);
    assert multiset(FileKeys(f.rows, w))[k] <= multiset(StoredKeys(a.rows, w))[k];
  }

  lemma OneRowLess(rows: seq<StoredRow>, i: nat, w: Wording, k: Key)
    requires i < |rows|
    ensures multiset(StoredKeys(rows, w))[k] ==
      multiset(StoredKeys(rows[..i] + rows[i + 1..], w))[k] + if k == StoredKey(rows[i], w) then 1 else 0
  {
    var keys := StoredKeys(rows, w);
    KeysOfBoth(rows[..i], rows[i + 1..], w);
    assert keys == keys[..i] + [keys[i]] + keys[i + 1..];
    assert keys[..i] == StoredKeys(rows[..i], w) && keys[i + 1..] == StoredKeys(rows[i + 1..], w);
  }

  // ---------- The bank's ledger ----------

  /** Every line the bank booked, and the balance before the first of them. */
  datatype Ledger = Ledger(lines: seq<Key>, start: int)

  function TrueBalance(l: Ledger, day: int): int {
    l.start + NetBetween(l.lines, 0, day)
  }

  /** The file is the ledger's whole days from..to, and what it prints as its closing balance is true. */
  ghost predicate WholeDays(f: StatementFile, l: Ledger, w: Wording, from: nat, to: nat) {
    && f.rows != []
    && (forall k :: multiset(FileKeys(f.rows, w))[k] == if Within(from, k.day, to) then multiset(l.lines)[k] else 0)
    && (f.closing.Some? ==> f.closing.value == TrueBalance(l, LastDay(f.rows)))
  }

  datatype Op =
    | Import(file: StatementFile, from: nat, to: nat, pass: ResolvePass)
    | Resolve(pass: ResolvePass)
    | StateBalance(asOf: nat, balance: int)

  ghost predicate TrueOp(op: Op, l: Ledger, w: Wording) {
    match op
    case Import(file, from, to, _) => WholeDays(file, l, w, from, to)
    case Resolve(_) => true
    case StateBalance(asOf, balance) => balance == TrueBalance(l, asOf)
  }

  function Do(a: AccountState, op: Op, w: Wording): AccountState {
    match op
    case Import(file, _, _, pass) => Finished(a, file, w, pass)
    case Resolve(pass) => a.(rows := AllAfterPass(a.rows, w, pass))
    case StateBalance(asOf, balance) => a.(anchor := Some(Anchor(asOf, balance)))
  }

  function Run(a: AccountState, ops: seq<Op>, w: Wording): AccountState {
    if ops == [] then a else Do(Run(a, ops[..|ops| - 1], w), ops[|ops| - 1], w)
  }

  predicate Covers(op: Op, day: nat) {
    op.Import? && op.from <= day <= op.to
  }

  ghost predicate Covered(ops: seq<Op>, day: nat) {
    exists i | 0 <= i < |ops| :: Covers(ops[i], day)
  }

  ghost predicate AllTrue(ops: seq<Op>, l: Ledger, w: Wording) {
    forall i | 0 <= i < |ops| :: TrueOp(ops[i], l, w)
  }

  /** Some statement covers every ledger day from `lo` to `day`. */
  ghost predicate CoveredFrom(ops: seq<Op>, l: Ledger, lo: nat, day: nat) {
    forall k | k in l.lines && lo <= k.day <= day :: Covered(ops, k.day)
  }

  /** No statement reaches past `day`, save into the future. */
  ghost predicate NothingLater(ops: seq<Op>, day: nat, today: nat) {
    forall d: nat | day < d <= today :: !Covered(ops, d)
  }

  function NewAccount(initial: int): AccountState {
    AccountState([], 1, [], 1, None, initial)
  }

  /** A true import tops a line up to the ledger's count on its own days, and leaves the others alone. */
  lemma TrueOpCounts(a: AccountState, op: Op, l: Ledger, w: Wording, k: Key)
    requires TrueOp(op, l, w)
    ensures multiset(StoredKeys(Do(a, op, w).rows, w))[k] ==
      if Covers(op, k.day) then Max(multiset(StoredKeys(a.rows, w))[k], multiset(l.lines)[k]) else multiset(StoredKeys(a.rows, w))[k]
  {
    match op
    case Import(file, _, _, pass) => ImportKeepsBusier(a, file, w, pass, k);
    case Resolve(pass) => PassKeepsLines(a.rows, w, pass);
    case StateBalance(_, _) =>
  }

  lemma CoveredByLast(ops: seq<Op>, day: nat)
    requires ops != []
    ensures Covered(ops, day) <==> Covered(ops[..|ops| - 1], day) || Covers(ops[|ops| - 1], day)
  {
  }

  /** On covered days the account holds exactly the ledger's lines; on the others, none. */
  lemma {:induction false} StoredIsTheLedger(ops: seq<Op>, l: Ledger, w: Wording, initial: int, k: Key)
    requires AllTrue(ops, l, w)
    ensures multiset(StoredKeys(Run(NewAccount(initial), ops, w).rows, w))[k] == if Covered(ops, k.day) then multiset(l.lines)[k] else 0
  {
    if ops == [] {
      assert StoredKeys([], w) == [];
    } else {
      var init, last := ops[..|ops| - 1], ops[|ops| - 1];
      StoredIsTheLedger(init, l, w, initial, k);
      CoveredByLast(ops, k.day);
      TrueOpCounts(Run(NewAccount(initial), init, w), last, l, w, k);
    }
  }

  ghost predicate AnchorsTrue(a: AccountState, l: Ledger) {
    && (forall i | 0 <= i < |a.statements| && a.statements[i].closing.Some? :: a.statements[i].closing.value == TrueBalance(l, a.statements[i].to))
    && (a.anchor.Some? ==> a.anchor.value.balance == TrueBalance(l, a.anchor.value.asOf))
  }

  lemma {:induction false} AnchorsStayTrue(ops: seq<Op>, l: Ledger, w: Wording, initial: int)
    requires AllTrue(ops, l, w)
    ensures AnchorsTrue(Run(NewAccount(initial), ops, w), l)
  {
    if ops != [] {
      AnchorsStayTrue(ops[..|ops| - 1], l, w, initial);
      assert TrueOp(ops[|ops| - 1], l, w);
    }
  }

  lemma {:induction false} NewestIsNewest(statements: seq<Statement>, today: nat)
    ensures forall i | 0 <= i < |statements| && CanAnchor(statements[i], today) ::
      NewestAnchor(statements, today).Some? && statements[i].to <= NewestAnchor(statements, today).value.asOf
  {
    if statements != [] {
      NewestIsNewest(statements[..|statements| - 1], today);
    }
  }

  lemma {:induction false} NewestAnchorIsTrue(statements: seq<Statement>, today: nat, l: Ledger)
    requires forall i | 0 <= i < |statements| && statements[i].closing.Some? :: statements[i].closing.value == TrueBalance(l, statements[i].to)
    ensures var best := NewestAnchor(statements, today);
      best.Some? ==> best.value.balance == TrueBalance(l, best.value.asOf) && best.value.asOf <= today
  {
    if statements != [] {
      NewestAnchorIsTrue(statements[..|statements| - 1], today, l);
    }
  }

  // ---------- Sums over equal lines ----------

  lemma {:induction false} NetSplits(keys: seq<Key>, lo: int, mid: int, hi: int)
    requires lo <= mid + 1 && mid <= hi
    ensures NetBetween(keys, lo, hi) == NetBetween(keys, lo, mid) + NetBetween(keys, mid + 1, hi)
  {
    if keys != [] {
      NetSplits(keys[..|keys| - 1], lo, mid, hi);
    }
  }

  lemma {:induction false} NothingNetsToZero(keys: seq<Key>, lo: int, hi: int)
    requires forall k: Key | Within(lo, k.day, hi) :: multiset(keys)[k] == 0
    ensures NetBetween(keys, lo, hi) == 0
  {
    if keys != [] {
      var init, last := keys[..|keys| - 1], keys[|keys| - 1];
      assert keys == init + [last];
      NothingNetsToZero(init, lo, hi);
      assert multiset(keys)[last] > 0;
    }
  }

  lemma {:induction false} NetAppends(a: seq<Key>, b: seq<Key>, lo: int, hi: int)
    ensures NetBetween(a + b, lo, hi) == NetBetween(a, lo, hi) + NetBetween(b, lo, hi)
  {
    if b == [] {
      assert a + b == a;
    } else {
      NetAppends(a, b[..|b| - 1], lo, hi);
      assert (a + b)[..|a + b| - 1] == a + b[..|b| - 1];
    }
  }

  /** The lines without one copy of `x`. */
  lemma WithoutOne(keys: seq<Key>, x: Key, lo: int, hi: int) returns (rest: seq<Key>)
    requires multiset(keys)[x] > 0 && Within(lo, x.day, hi)
    ensures multiset(rest) == multiset(keys) - multiset{x}
    ensures NetBetween(keys, lo, hi) == NetBetween(rest, lo, hi) + SignedAmount(x.direction, x.amount)
  {
    var p :| 0 <= p < |keys| && keys[p] == x;
    var before, after := keys[..p], keys[p + 1..];
    rest := before + after;
    assert keys == before + ([x] + after);
    NetAppends(before, [x] + after, lo, hi);
    NetAppends([x], after, lo, hi);
    NetAppends(before, after, lo, hi);
    assert NetBetween([x], lo, hi) == SignedAmount(x.direction, x.amount) by { assert [x][..0] == []; }
  }

  /** Equal lines on lo..hi net to the same sum, in whatever order they were stored. */
  lemma {:induction false} SameLinesSameNet(a: seq<Key>, b: seq<Key>, lo: int, hi: int)
    requires forall k: Key | Within(lo, k.day, hi) :: multiset(a)[k] == multiset(b)[k]
    ensures NetBetween(a, lo, hi) == NetBetween(b, lo, hi)
    decreases |a|
  {
    if a == [] {
      NothingNetsToZero(b, lo, hi);
    } else {
      var init, last := a[..|a| - 1], a[|a| - 1];
      assert a == init + [last];
      if Within(lo, last.day, hi) {
        assert multiset(a)[last] > 0;
        var rest := WithoutOne(b, last, lo, hi);
        SameLinesSameNet(init, rest, lo, hi);
      } else {
        SameLinesSameNet(init, b, lo, hi);
      }
    }
  }

  // ---------- The balance ----------

  /** From `lo` on the account nets what the ledger nets up to `day`, once those days are covered and no later one is. */
  lemma CoveredDaysNet(ops: seq<Op>, l: Ledger, w: Wording, initial: int, today: nat, day: nat, lo: nat)
    requires AllTrue(ops, l, w)
    requires lo <= day + 1 && day <= today
    requires CoveredFrom(ops, l, lo, day)
    requires NothingLater(ops, day, today)
    ensures NetBetween(StoredKeys(Run(NewAccount(initial), ops, w).rows, w), lo, today) == NetBetween(l.lines, lo, day)
  {
    var stored := StoredKeys(Run(NewAccount(initial), ops, w).rows, w);
    forall k: Key | Within(lo, k.day, day) ensures multiset(stored)[k] == multiset(l.lines)[k] {
      StoredIsTheLedger(ops, l, w, initial, k);
    }
    SameLinesSameNet(stored, l.lines, lo, day);
    forall k: Key | Within(day + 1, k.day, today) ensures multiset(stored)[k] == 0 {
      StoredIsTheLedger(ops, l, w, initial, k);
    }
    NothingNetsToZero(stored, day + 1, today);
    NetSplits(stored, lo, day, today);
  }

  lemma FoundAnchorIsTrue(a: AccountState, l: Ledger, today: nat)
    requires AnchorsTrue(a, l) && FindAnchor(a, today).Some?
    ensures FindAnchor(a, today).value.balance == TrueBalance(l, FindAnchor(a, today).value.asOf)
  {
    NewestAnchorIsTrue(a.statements, today, l);
  }

  /** No eligible statement, nor the stated balance, is newer than the anchor chosen. */
  lemma AnchorIsNewest(a: AccountState, today: nat)
    ensures forall i | 0 <= i < |a.statements| && CanAnchor(a.statements[i], today) ::
      FindAnchor(a, today).Some? && a.statements[i].to <= FindAnchor(a, today).value.asOf
    ensures a.anchor.Some? && a.anchor.value.asOf <= today ==>
      FindAnchor(a, today).Some? && a.anchor.value.asOf <= FindAnchor(a, today).value.asOf
  {
    NewestIsNewest(a.statements, today);
  }

  lemma DeriveFromAnchor(a: AccountState, today: nat, w: Wording)
    requires FindAnchor(a, today).Some?
    ensures var anchor := FindAnchor(a, today).value;
      Derive(a, today, w).balance == anchor.balance + NetBetween(StoredKeys(a.rows, w), anchor.asOf + 1, today)
  {
  }

  lemma DeriveAccumulated(a: AccountState, today: nat, w: Wording)
    requires FindAnchor(a, today).None?
    ensures Derive(a, today, w).balance == a.initial + NetBetween(StoredKeys(a.rows, w), 0, today)
    ensures Derive(a, today, w).basis == Accumulated
  {
  }

  lemma {:induction false} InitialStays(initial: int, ops: seq<Op>, w: Wording)
    ensures Run(NewAccount(initial), ops, w).initial == initial
  {
    if ops != [] {
      InitialStays(initial, ops[..|ops| - 1], w);
    }
  }

  /**
   * From any run of true statements and stated balances, in any order, overlapping and
   * repeated: if every ledger day after the anchor up to `day` is covered, and nothing is
   * stored after `day` that is not still in the future, the derived balance is the bank's
   * balance on `day`.
   */
  lemma DerivedBalanceIsTrue(ops: seq<Op>, l: Ledger, w: Wording, initial: int, a: AccountState, today: nat, day: nat)
    requires AllTrue(ops, l, w) && a == Run(NewAccount(initial), ops, w)
    requires FindAnchor(a, today).Some? && FindAnchor(a, today).value.asOf <= day <= today
    requires CoveredFrom(ops, l, FindAnchor(a, today).value.asOf + 1, day) && NothingLater(ops, day, today)
    ensures Derive(a, today, w).balance == TrueBalance(l, day)
  {
    var anchor, keys := FindAnchor(a, today).value, StoredKeys(a.rows, w);
    AnchorsStayTrue(ops, l, w, initial);
    FoundAnchorIsTrue(a, l, today);
    CoveredDaysNet(ops, l, w, initial, today, day, anchor.asOf + 1);
    BalanceFromAnchor(a, l, w, today, day, anchor, keys);
  }

  /** A true anchor and the true net of the days after it give the true balance. */
  lemma BalanceFromAnchor(a: AccountState, l: Ledger, w: Wording, today: nat, day: nat, anchor: Anchor, keys: seq<Key>)
    requires FindAnchor(a, today) == Some(anchor) && keys == StoredKeys(a.rows, w) && anchor.asOf <= day
    requires anchor.balance == TrueBalance(l, anchor.asOf)
    requires NetBetween(keys, anchor.asOf + 1, today) == NetBetween(l.lines, anchor.asOf + 1, day)
    ensures Derive(a, today, w).balance == TrueBalance(l, day)
  {
    NetSplits(l.lines, 0, anchor.asOf, day);
    DeriveFromAnchor(a, today, w);
  }

  /** With no printed or stated balance at all, the accumulated figure is true once everything is covered and the opening is. */
  lemma AccumulatedBalanceIsTrue(ops: seq<Op>, l: Ledger, w: Wording, a: AccountState, today: nat, day: nat)
    requires AllTrue(ops, l, w) && a == Run(NewAccount(l.start), ops, w)
    requires FindAnchor(a, today).None? && day <= today
    requires CoveredFrom(ops, l, 0, day) && NothingLater(ops, day, today)
    ensures Derive(a, today, w).balance == TrueBalance(l, day) && Derive(a, today, w).basis == Accumulated
  {
    CoveredDaysNet(ops, l, w, l.start, today, day, 0);
    InitialStays(l.start, ops, w);
    DeriveAccumulated(a, today, w);
  }
}
