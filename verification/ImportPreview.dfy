/** Debits as the approval screen sees them: stored ones merged with those of a file not yet imported. */
module ImportPreview {
  import opened Common
  import opened BankRows
  import opened CounterDedup
  import opened Account

  datatype Debit = Debit(day: nat, description: string, amount: int, kind: LineKind, loanRef: Option<string>)
  datatype DebitKey = DebitKey(day: nat, amount: int, description: string)

  // ---------- Classification ----------

  /** The wording tests behind the classifier, with the order it applies them in. */
  datatype Patterns = Patterns(
    lineKind: string -> LineClass, drawdown: string -> bool, cardPayment: string -> bool, loanRef: string -> Option<string>)

  function ClassifyBankLine(p: Patterns, description: string, direction: Direction): LineClass {
    var base := p.lineKind(description);
    if base.kind in {LoanInterest, OverdraftInterest} && direction == Deposit then LineClass(InterestCredit, None)
    else if direction == Deposit && base.kind == Standard && p.drawdown(description) then LineClass(LoanDrawdown, p.loanRef(description))
    else if direction == Withdrawal && base.kind == Standard && p.cardPayment(description) then LineClass(CreditCardPayment, None)
    else base
  }

  // ---------- Merging ----------

  function KeyOf(d: Debit): DebitKey { DebitKey(d.day, d.amount, d.description) }

  function KeysOf(ds: seq<Debit>): (ks: seq<DebitKey>)
    ensures |ks| == |ds| && forall i | 0 <= i < |ds| :: ks[i] == KeyOf(ds[i])
  {
    seq(|ds|, i requires 0 <= i < |ds| => KeyOf(ds[i]))
  }

  /** The incoming debits that the stored ones do not account for. */
  function Extras(stored: multiset<DebitKey>, incoming: seq<Debit>): seq<Debit> {
    NewRows(stored, incoming, KeysOf(incoming))
  }

  function Merged(stored: seq<Debit>, incoming: seq<Debit>): seq<Debit> {
    stored + Extras(multiset(KeysOf(stored)), incoming)
  }

  method MergeRows(stored: seq<Debit>, incoming: seq<Debit>) returns (merged: seq<Debit>)
    ensures merged == Merged(stored, incoming)
  {
    var places := FilterNew(KeysOf(stored), KeysOf(incoming));
    NewPlacesInRange(multiset(KeysOf(stored)), KeysOf(incoming), |incoming|);
    merged := stored + Pick(incoming, places);
  }

  function StoredDebits(rows: seq<StoredRow>): seq<Debit> {
    if rows == [] then []
    else
      var r := rows[|rows| - 1];
      StoredDebits(rows[..|rows| - 1]) +
      if r.direction == Withdrawal then [StoredDebit(r)] else []
  }

  function IncomingDebits(rows: seq<FileRow>, p: Patterns): seq<Debit> {
    if rows == [] then []
    else
      var r := rows[|rows| - 1];
      IncomingDebits(rows[..|rows| - 1], p) +
      if r.direction == Withdrawal then [IncomingDebit(r, p)] else []
  }

  // ---------- Counting the same lines ----------

  ghost predicate TrimmedRows(rows: seq<StoredRow>, w: Wording) {
    forall i | 0 <= i < |rows| && rows[i].direction == Withdrawal :: w.trim(Text(rows[i].description)) == Text(rows[i].description)
  }

  ghost predicate TrimmedFile(rows: seq<FileRow>, w: Wording) {
    forall i | 0 <= i < |rows| && rows[i].direction == Withdrawal :: w.trim(rows[i].description) == rows[i].description
  }

  function LineKey(k: DebitKey): Key { Key(k.day, k.amount, Withdrawal, k.description) }

  lemma KeysOfAppend(ds: seq<Debit>, d: Debit)
    ensures KeysOf(ds + [d]) == KeysOf(ds) + [KeyOf(d)]
  {
  }

  function StoredDebit(r: StoredRow): Debit {
    Debit(r.day, Text(r.description), r.amount, r.class_.kind, r.class_.loanRef)
  }

  function IncomingDebit(r: FileRow, p: Patterns): Debit {
    Debit(r.day, r.description, r.amount, p.lineKind(r.description).kind, p.lineKind(r.description).loanRef)
  }

  function Occurs(yes: bool): nat { if yes then 1 else 0 }

  lemma DebitCounted(ds: seq<Debit>, d: Debit, k: DebitKey)
    ensures multiset(KeysOf(ds + [d]))[k] == multiset(KeysOf(ds))[k] + Occurs(LineKey(KeyOf(d)) == LineKey(k))
  {
    KeysOfAppend(ds, d);
  }

  lemma LineCounted(keys: seq<Key>, key: Key, k: DebitKey)
    ensures multiset(keys + [key])[LineKey(k)] == multiset(keys)[LineKey(k)] + Occurs(key == LineKey(k))
  {
  }

  lemma {:induction false} StoredCount(rows: seq<StoredRow>, w: Wording, k: DebitKey)
    requires TrimmedRows(rows, w)
    ensures multiset(KeysOf(StoredDebits(rows)))[k] == multiset(StoredKeys(rows, w))[LineKey(k)]
  {
    if rows == [] {
      assert KeysOf([]) == [] && StoredKeys([], w) == [];
    } else {
      var init, r := rows[..|rows| - 1], rows[|rows| - 1];
      StoredCount(init, w, k);
      LineCounted(StoredKeys(init, w), StoredKey(r, w), k);
      assert StoredKeys(rows, w) == StoredKeys(init, w) + [StoredKey(r, w)];
      if r.direction == Withdrawal {
        DebitCounted(StoredDebits(init), StoredDebit(r), k);
        assert rows[|rows| - 1].direction == Withdrawal;
        assert StoredKey(r, w) == LineKey(KeyOf(StoredDebit(r)));
      } else {
        assert StoredDebits(rows) == StoredDebits(init);
        assert StoredKey(r, w).direction != LineKey(k).direction;
      }
    }
  }

  lemma {:induction false} IncomingCount(rows: seq<FileRow>, w: Wording, p: Patterns, k: DebitKey)
    requires TrimmedFile(rows, w)
    ensures multiset(KeysOf(IncomingDebits(rows, p)))[k] == multiset(FileKeys(rows, w))[LineKey(k)]
  {
    if rows == [] {
      assert KeysOf([]) == [] && FileKeys([], w) == [];
    } else {
      var init, r := rows[..|rows| - 1], rows[|rows| - 1];
      IncomingCount(init, w, p, k);
      LineCounted(FileKeys(init, w), FileKey(r, w), k);
      assert FileKeys(rows, w) == FileKeys(init, w) + [FileKey(r, w)];
      if r.direction == Withdrawal {
        DebitCounted(IncomingDebits(init, p), IncomingDebit(r, p), k);
        assert rows[|rows| - 1].direction == Withdrawal;
        assert FileKey(r, w) == LineKey(KeyOf(IncomingDebit(r, p)));
      } else {
        assert IncomingDebits(rows, p) == IncomingDebits(init, p);
        assert FileKey(r, w).direction != LineKey(k).direction;
      }
    }
  }

  // ---------- The same extras ----------

  lemma {:induction false} NewPlacesOfPrefix<K>(stored: multiset<K>, keys: seq<K>, more: seq<K>, n: nat)
    requires n <= |keys|
    ensures NewPlaces(stored, keys + more, n) == NewPlaces(stored, keys, n)
  {
    if n > 0 {
      NewPlacesOfPrefix(stored, keys, more, n - 1);
      assert (keys + more)[..n - 1] == keys[..n - 1];
    }
  }

  /** One more incoming debit is extra when its earlier copies used up the stored ones. */
  lemma ExtrasGrow(stored: multiset<DebitKey>, ds: seq<Debit>, d: Debit)
    ensures Extras(stored, ds + [d]) ==
      Extras(stored, ds) + if multiset(KeysOf(ds))[KeyOf(d)] >= stored[KeyOf(d)] then [d] else []
  {
    KeysOfAppend(ds, d);
    var keys := KeysOf(ds);
    NewPlacesOfPrefix(stored, keys, [KeyOf(d)], |keys|);
    NewPlacesInRange(stored, keys, |keys|);
    NewPlacesInRange(stored, keys + [KeyOf(d)], |keys| + 1);
    assert (keys + [KeyOf(d)])[..|keys|] == keys;
    assert Pick(ds + [d], NewPlaces(stored, keys, |keys|)) == Pick(ds, NewPlaces(stored, keys, |keys|));
  }

  function FreshUpTo(existing: multiset<Key>, rows: seq<FileRow>, w: Wording, n: nat): seq<FileRow>
    requires n <= |rows|
  {
    NewPlacesInRange(existing, FileKeys(rows, w), n);
    Pick(rows, NewPlaces(existing, FileKeys(rows, w), n))
  }

  predicate IsNewLine(existing: multiset<Key>, rows: seq<FileRow>, w: Wording, i: nat)
    requires i < |rows|
  {
    multiset(FileKeys(rows, w)[..i])[FileKey(rows[i], w)] >= existing[FileKey(rows[i], w)]
  }

  predicate IsNewDebit(stored: multiset<DebitKey>, before: seq<FileRow>, r: FileRow, p: Patterns) {
    multiset(KeysOf(IncomingDebits(before, p)))[KeyOf(IncomingDebit(r, p))] >= stored[KeyOf(IncomingDebit(r, p))]
  }

  /** Of every incoming withdrawal line, import and preview let the same number through. */
  ghost predicate SameSurplus(existing: multiset<Key>, stored: multiset<DebitKey>, rows: seq<FileRow>, p: Patterns) {
    forall i | 0 <= i < |rows| && rows[i].direction == Withdrawal :: SurplusAgrees(existing, stored, rows, p, KeyOf(IncomingDebit(rows[i], p)))
  }

  ghost predicate SurplusAgrees(existing: multiset<Key>, stored: multiset<DebitKey>, rows: seq<FileRow>, p: Patterns, k: DebitKey) {
    var n := multiset(KeysOf(IncomingDebits(rows, p)))[k];
    Surplus(n, existing[LineKey(k)]) == Surplus(n, stored[k])
  }

  /** Import and preview agree on row i: both take it, or neither. */
  ghost predicate VerdictAgrees(existing: multiset<Key>, stored: multiset<DebitKey>, rows: seq<FileRow>, w: Wording, p: Patterns, i: nat)
    requires i < |rows|
  {
    rows[i].direction == Withdrawal ==> IsNewLine(existing, rows, w, i) == IsNewDebit(stored, rows[..i], rows[i], p)
  }

  lemma IncomingOfAppend(rows: seq<FileRow>, r: FileRow, p: Patterns)
    ensures IncomingDebits(rows + [r], p) == IncomingDebits(rows, p) + if r.direction == Withdrawal then [IncomingDebit(r, p)] else []
  {
    assert (rows + [r])[..|rows|] == rows;
  }

  lemma {:induction false} SameExtras(existing: multiset<Key>, stored: multiset<DebitKey>, rows: seq<FileRow>, w: Wording, p: Patterns, n: nat)
    requires n <= |rows| && forall i | 0 <= i < n :: VerdictAgrees(existing, stored, rows, w, p, i)
    ensures IncomingDebits(FreshUpTo(existing, rows, w, n), p) == Extras(stored, IncomingDebits(rows[..n], p))
  {
    if n > 0 {
      SameExtras(existing, stored, rows, w, p, n - 1);
      assert VerdictAgrees(existing, stored, rows, w, p, n - 1);
      SameExtrasGrow(existing, stored, rows, w, p, n, FreshUpTo(existing, rows, w, n - 1), IsNewLine(existing, rows, w, n - 1));
    }
  }

  lemma SameExtrasGrow(existing: multiset<Key>, stored: multiset<DebitKey>, rows: seq<FileRow>, w: Wording, p: Patterns, n: nat,
                       taken: seq<FileRow>, isNew: bool)
    requires 0 < n <= |rows| && taken == FreshUpTo(existing, rows, w, n - 1) && isNew == IsNewLine(existing, rows, w, n - 1)
    requires rows[n - 1].direction == Withdrawal ==> isNew == IsNewDebit(stored, rows[..n - 1], rows[n - 1], p)
    requires IncomingDebits(taken, p) == Extras(stored, IncomingDebits(rows[..n - 1], p))
    ensures IncomingDebits(FreshUpTo(existing, rows, w, n), p) == Extras(stored, IncomingDebits(rows[..n], p))
  {
    FreshGrows(existing, rows, w, n);
    PrefixGrows(rows, n);
    ExtrasStepTo(stored, rows[..n - 1], rows[n - 1], rows[..n], taken, isNew, FreshUpTo(existing, rows, w, n), p);
  }

  lemma PrefixGrows(rows: seq<FileRow>, n: nat)
    requires 0 < n <= |rows|
    ensures rows[..n] == rows[..n - 1] + [rows[n - 1]]
  {
  }

  lemma ExtrasStepTo(stored: multiset<DebitKey>, rows: seq<FileRow>, r: FileRow, whole: seq<FileRow>, taken: seq<FileRow>, isNew: bool, after: seq<FileRow>, p: Patterns)
    requires whole == rows + [r] && after == taken + if isNew then [r] else []
    requires IncomingDebits(taken, p) == Extras(stored, IncomingDebits(rows, p))
    requires r.direction == Withdrawal ==> isNew == IsNewDebit(stored, rows, r, p)
    ensures IncomingDebits(after, p) == Extras(stored, IncomingDebits(whole, p))
  {
    ExtrasStep(stored, rows, r, taken, isNew, p);
  }

  lemma ExtrasStep(stored: multiset<DebitKey>, rows: seq<FileRow>, r: FileRow, taken: seq<FileRow>, isNew: bool, p: Patterns)
    requires IncomingDebits(taken, p) == Extras(stored, IncomingDebits(rows, p))
    requires r.direction == Withdrawal ==> isNew == IsNewDebit(stored, rows, r, p)
    ensures IncomingDebits(taken + if isNew then [r] else [], p) == Extras(stored, IncomingDebits(rows + [r], p))
  {
    IncomingOfAppend(rows, r, p);
    IncomingOfAppend(taken, r, p);
    if r.direction == Withdrawal {
      ExtrasGrow(stored, IncomingDebits(rows, p), IncomingDebit(r, p));
    } else {
      assert IncomingDebits(rows + [r], p) == IncomingDebits(rows, p);
    }
    if !isNew { assert taken + [] == taken; }
  }

  lemma SameVerdict(existing: multiset<Key>, stored: multiset<DebitKey>, rows: seq<FileRow>, w: Wording, p: Patterns, i: nat)
    requires i < |rows| && TrimmedFile(rows, w) && SameSurplus(existing, stored, rows, p)
    ensures VerdictAgrees(existing, stored, rows, w, p, i)
  {
    if rows[i].direction == Withdrawal {
      var d := IncomingDebit(rows[i], p);
      IncomingCount(rows[..i], w, p, KeyOf(d));
      assert FileKeys(rows, w)[..i] == FileKeys(rows[..i], w);
      assert FileKey(rows[i], w) == LineKey(KeyOf(d));
      EarlierCopies(rows, p, i);
      assert SurplusAgrees(existing, stored, rows, p, KeyOf(d));
    }
  }

  lemma {:induction false} IncomingGrows(rows: seq<FileRow>, p: Patterns, n: nat, k: DebitKey)
    requires n <= |rows|
    ensures multiset(KeysOf(IncomingDebits(rows[..n], p)))[k] <= multiset(KeysOf(IncomingDebits(rows, p)))[k]
    decreases |rows| - n
  {
    if n == |rows| {
      assert rows[..n] == rows;
    } else {
      IncomingGrows(rows, p, n + 1, k);
      IncomingOfAppend(rows[..n], rows[n], p);
      assert rows[..n + 1] == rows[..n] + [rows[n]];
      if rows[n].direction == Withdrawal {
        DebitCounted(IncomingDebits(rows[..n], p), IncomingDebit(rows[n], p), k);
      } else {
        assert IncomingDebits(rows[..n + 1], p) == IncomingDebits(rows[..n], p);
      }
    }
  }

  /** A line's earlier copies are fewer than all its copies. */
  lemma EarlierCopies(rows: seq<FileRow>, p: Patterns, i: nat)
    requires i < |rows| && rows[i].direction == Withdrawal
    ensures var k := KeyOf(IncomingDebit(rows[i], p));
      multiset(KeysOf(IncomingDebits(rows[..i], p)))[k] < multiset(KeysOf(IncomingDebits(rows, p)))[k]
  {
    var d := IncomingDebit(rows[i], p);
    IncomingOfAppend(rows[..i], rows[i], p);
    assert rows[..i + 1] == rows[..i] + [rows[i]];
    DebitCounted(IncomingDebits(rows[..i], p), d, KeyOf(d));
    IncomingGrows(rows, p, i + 1, KeyOf(d));
  }

  lemma FreshGrows(existing: multiset<Key>, rows: seq<FileRow>, w: Wording, n: nat)
    requires 0 < n <= |rows|
    ensures FreshUpTo(existing, rows, w, n) ==
      FreshUpTo(existing, rows, w, n - 1) + if IsNewLine(existing, rows, w, n - 1) then [rows[n - 1]] else []
  {
  }

  // ---------- Preview against import ----------

  /** The stored lines an import compares a file with. */
  function StoredAround(a: AccountState, rows: seq<FileRow>, w: Wording): multiset<Key>
    requires rows != []
  {
    multiset(KeysBetween(StoredKeys(a.rows, w), FirstDay(rows), LastDay(rows)))
  }

  function StoredCounts(a: AccountState): multiset<DebitKey> {
    multiset(KeysOf(StoredDebits(a.rows)))
  }

  /** The debit as the import stores it: the same payment, classified with its direction. */
  function Committed(d: Debit, p: Patterns): Debit {
    var c := ClassifyBankLine(p, d.description, Withdrawal);
    d.(kind := c.kind, loanRef := c.loanRef)
  }

  function AllCommitted(ds: seq<Debit>, p: Patterns): (r: seq<Debit>)
    ensures |r| == |ds| && forall i | 0 <= i < |ds| :: r[i] == Committed(ds[i], p)
  {
    seq(|ds|, i requires 0 <= i < |ds| => Committed(ds[i], p))
  }

  /** The account files rows under the classifier's own answer. */
  ghost predicate SameClassifier(w: Wording, p: Patterns) {
    forall d, direction :: w.classify(d, direction) == ClassifyBankLine(p, d, direction)
  }

  lemma {:induction false} StoredDebitsAppend(a: seq<StoredRow>, b: seq<StoredRow>)
    ensures StoredDebits(a + b) == StoredDebits(a) + StoredDebits(b)
  {
    if b == [] {
      assert a + b == a;
    } else {
      StoredDebitsAppend(a, b[..|b| - 1]);
      assert (a + b)[..|a + b| - 1] == a + b[..|b| - 1];
    }
  }

  lemma {:induction false} StoredWhenCommitted(rows: seq<FileRow>, first: nat, source: nat, w: Wording, p: Patterns)
    requires SameClassifier(w, p)
    ensures StoredDebits(StoreAll(rows, first, source, w)) == AllCommitted(IncomingDebits(rows, p), p)
  {
    if rows != [] {
      var init := rows[..|rows| - 1];
      StoredWhenCommitted(init, first, source, w, p);
      assert StoreAll(rows, first, source, w)[..|rows| - 1] == StoreAll(init, first, source, w);
    }
  }

  /** The debits stored after an import: those before it, then the new rows' debits. */
  lemma DebitsAfterImport(a: AccountState, f: StatementFile, w: Wording, p: Patterns)
    requires f.rows != [] && SameClassifier(w, p)
    ensures StoredDebits(Imported(a, f, w).rows) ==
      StoredDebits(a.rows) + AllCommitted(IncomingDebits(FreshUpTo(StoredAround(a, f.rows, w), f.rows, w, |f.rows|), p), p)
  {
    var newRows := FreshRows(a, f.rows, w);
    StoredDebitsAppend(a.rows, StoreAll(newRows, a.nextRow, a.nextStatement, w));
    StoredWhenCommitted(newRows, a.nextRow, a.nextStatement, w, p);
  }

  lemma ExtrasCount(stored: multiset<DebitKey>, ds: seq<Debit>, k: DebitKey)
    ensures multiset(KeysOf(Extras(stored, ds)))[k] == Surplus(multiset(KeysOf(ds))[k], stored[k])
  {
    var keys := KeysOf(ds);
    NewPlacesInRange(stored, keys, |keys|);
    NewCounts(stored, keys, |keys|, k);
    assert keys[..|keys|] == keys;
    assert KeysOf(Extras(stored, ds)) == Pick(keys, NewPlaces(stored, keys, |keys|));
  }

  lemma FreshCount(existing: multiset<Key>, rows: seq<FileRow>, w: Wording, p: Patterns, k: DebitKey)
    requires TrimmedFile(rows, w)
    ensures multiset(KeysOf(IncomingDebits(FreshUpTo(existing, rows, w, |rows|), p)))[k]
         == Surplus(multiset(KeysOf(IncomingDebits(rows, p)))[k], existing[LineKey(k)])
  {
    var keys := FileKeys(rows, w);
    NewPlacesInRange(existing, keys, |keys|);
    var newRows := FreshUpTo(existing, rows, w, |rows|);
    IncomingCount(newRows, w, p, k);
    assert FileKeys(newRows, w) == Pick(keys, NewPlaces(existing, keys, |keys|));
    NewCounts(existing, keys, |keys|, LineKey(k));
    assert keys[..|keys|] == keys;
    IncomingCount(rows, w, p, k);
  }

  lemma SameDebits(existing: multiset<Key>, stored: multiset<DebitKey>, rows: seq<FileRow>, w: Wording, p: Patterns)
    requires TrimmedFile(rows, w) && SameSurplus(existing, stored, rows, p)
    ensures IncomingDebits(FreshUpTo(existing, rows, w, |rows|), p) == Extras(stored, IncomingDebits(rows, p))
  {
    forall i | 0 <= i < |rows| ensures VerdictAgrees(existing, stored, rows, w, p, i) {
      SameVerdict(existing, stored, rows, w, p, i);
    }
    SameExtras(existing, stored, rows, w, p, |rows|);
    assert rows[..|rows|] == rows;
  }

  lemma SameKeysMeansSameSurplus(existing: multiset<Key>, stored: multiset<DebitKey>, rows: seq<FileRow>, w: Wording, p: Patterns)
    requires TrimmedFile(rows, w)
    requires KeysOf(IncomingDebits(FreshUpTo(existing, rows, w, |rows|), p)) == KeysOf(Extras(stored, IncomingDebits(rows, p)))
    ensures SameSurplus(existing, stored, rows, p)
  {
    forall k ensures SurplusAgrees(existing, stored, rows, p, k) {
      FreshCount(existing, rows, w, p, k);
      ExtrasCount(stored, IncomingDebits(rows, p), k);
    }
  }

  // ---------- What detection reads ----------

  /** The debits a recurring series may be built from; the rest of the test reads only the description. */
  predicate RecurringInput(d: Debit, p: Patterns) {
    d.kind == Standard && d.amount > 0 && ClassifyBankLine(p, d.description, Withdrawal).kind == Standard
  }

  predicate LoanInput(d: Debit) {
    d.kind in {LoanPrincipal, LoanInterest, LoanMixed, LoanFee}
  }

  /** What is left of the debits for detection to read. */
  function DetectionInputs(ds: seq<Debit>, p: Patterns): seq<Debit> {
    if ds == [] then []
    else
      var d := ds[|ds| - 1];
      DetectionInputs(ds[..|ds| - 1], p) + if RecurringInput(d, p) || LoanInput(d) then [d] else []
  }

  lemma {:induction false} InputsOfJoin(a: seq<Debit>, b: seq<Debit>, p: Patterns)
    ensures DetectionInputs(a + b, p) == DetectionInputs(a, p) + DetectionInputs(b, p)
  {
    if b == [] {
      assert a + b == a;
    } else {
      InputsOfJoin(a, b[..|b| - 1], p);
      assert (a + b)[..|a + b| - 1] == a + b[..|b| - 1];
    }
  }

  /** A debit still carrying the parser's own class. */
  ghost predicate AsParsed(d: Debit, p: Patterns) {
    LineClass(d.kind, d.loanRef) == p.lineKind(d.description)
  }

  /** Committing changes only card settlements, and detection drops those either way. */
  lemma {:induction false} InputsOfCommitted(ds: seq<Debit>, p: Patterns)
    requires forall i | 0 <= i < |ds| :: AsParsed(ds[i], p)
    ensures DetectionInputs(AllCommitted(ds, p), p) == DetectionInputs(ds, p)
  {
    if ds != [] {
      var init := ds[..|ds| - 1];
      InputsOfCommitted(init, p);
      assert AllCommitted(ds, p)[..|ds| - 1] == AllCommitted(init, p);
      assert AsParsed(ds[|ds| - 1], p);
    }
  }

  lemma {:induction false} IncomingAsParsed(rows: seq<FileRow>, p: Patterns)
    ensures forall i | 0 <= i < |IncomingDebits(rows, p)| :: AsParsed(IncomingDebits(rows, p)[i], p)
  {
    if rows != [] {
      IncomingAsParsed(rows[..|rows| - 1], p);
    }
  }
}
