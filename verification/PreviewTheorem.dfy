/** What the approval screen detects before an import, against what is detected after it. */
module PreviewTheorem {
  import opened Common
  import opened BankRows
  import opened CounterDedup
  import opened Account
  import opened ImportPreview

  // ---------- The same lines ----------

  lemma KeysOfJoin(a: seq<Debit>, b: seq<Debit>)
    ensures KeysOf(a + b) == KeysOf(a) + KeysOf(b)
  {
  }

  lemma SameTail<T>(a: seq<T>, b: seq<T>, c: seq<T>)
    ensures a + b == a + c <==> b == c
  {
    assert (a + b)[|a|..] == b && (a + c)[|a|..] == c;
  }

  /** A pass changes no debit's day, amount or text. */
  lemma {:induction false} PassKeepsDebitKeys(rows: seq<StoredRow>, w: Wording, pass: ResolvePass)
    ensures KeysOf(StoredDebits(AllAfterPass(rows, w, pass))) == KeysOf(StoredDebits(rows))
  {
    if rows != [] {
      var init, r := rows[..|rows| - 1], rows[|rows| - 1];
      PassKeepsDebitKeys(init, w, pass);
      assert AllAfterPass(rows, w, pass)[..|rows| - 1] == AllAfterPass(init, w, pass);
      if r.direction == Withdrawal {
        KeysOfAppend(StoredDebits(init), StoredDebit(r));
        KeysOfAppend(StoredDebits(AllAfterPass(init, w, pass)), StoredDebit(AfterPass(r, w, pass)));
      } else {
        assert StoredDebits(rows) == StoredDebits(init);
        assert StoredDebits(AllAfterPass(rows, w, pass)) == StoredDebits(AllAfterPass(init, w, pass));
      }
    }
  }

  /**
   * The debits offered before an import are, line by line, the debits stored once it and its
   * resolve pass are through, exactly when padding in stored descriptions hides no duplicate.
   */
  lemma PreviewMatchesIff(a: AccountState, f: StatementFile, w: Wording, p: Patterns, pass: ResolvePass)
    requires f.rows != [] && TrimmedFile(f.rows, w) && SameClassifier(w, p)
    ensures KeysOf(Merged(StoredDebits(a.rows), IncomingDebits(f.rows, p))) == KeysOf(StoredDebits(Finished(a, f, w, pass).rows))
       <==> SameSurplus(StoredAround(a, f.rows, w), StoredCounts(a), f.rows, p)
  {
    TakenInMatchesIff(a, f, w, p);
    PassKeepsDebitKeys(Imported(a, f, w).rows, w, pass);
  }

  lemma TakenInMatchesIff(a: AccountState, f: StatementFile, w: Wording, p: Patterns)
    requires f.rows != [] && TrimmedFile(f.rows, w) && SameClassifier(w, p)
    ensures KeysOf(Merged(StoredDebits(a.rows), IncomingDebits(f.rows, p))) == KeysOf(StoredDebits(Imported(a, f, w).rows))
       <==> SameSurplus(StoredAround(a, f.rows, w), StoredCounts(a), f.rows, p)
  {
    var existing, stored := StoredAround(a, f.rows, w), StoredCounts(a);
    var before, extras := StoredDebits(a.rows), Extras(stored, IncomingDebits(f.rows, p));
    var taken := IncomingDebits(FreshUpTo(existing, f.rows, w, |f.rows|), p);
    if SameSurplus(existing, stored, f.rows, p) { SameDebits(existing, stored, f.rows, w, p); }
    if KeysOf(taken) == KeysOf(extras) { SameKeysMeansSameSurplus(existing, stored, f.rows, w, p); }
    DebitsAfterImport(a, f, w, p);
    JoinedKeys(before, extras, taken, p);
  }

  lemma JoinedKeys(before: seq<Debit>, extras: seq<Debit>, taken: seq<Debit>, p: Patterns)
    ensures KeysOf(before + extras) == KeysOf(before + AllCommitted(taken, p)) <==> KeysOf(extras) == KeysOf(taken)
  {
    KeysOfJoin(before, extras);
    KeysOfJoin(before, AllCommitted(taken, p));
    assert KeysOf(AllCommitted(taken, p)) == KeysOf(taken);
    SameTail(KeysOf(before), KeysOf(extras), KeysOf(taken));
  }

  /** With no padding in what is stored, nothing is hidden. */
  lemma TrimmedHidesNothing(a: AccountState, rows: seq<FileRow>, w: Wording, p: Patterns)
    requires rows != [] && TrimmedRows(a.rows, w)
    ensures SameSurplus(StoredAround(a, rows, w), StoredCounts(a), rows, p)
  {
    DaysWithin(rows);
    forall i | 0 <= i < |rows| && rows[i].direction == Withdrawal
      ensures SurplusAgrees(StoredAround(a, rows, w), StoredCounts(a), rows, p, KeyOf(IncomingDebit(rows[i], p)))
    {
      var k := KeyOf(IncomingDebit(rows[i], p));
      CountBetween(StoredKeys(a.rows, w), FirstDay(rows), LastDay(rows), LineKey(k));
      StoredCount(a.rows, w, k);
    }
  }

  /** A hand-typed " rent" and the statement's "rent": one line to the import, two to the preview. */
  lemma PaddingOffersTwice(a: AccountState, f: StatementFile, w: Wording, p: Patterns, c: LineClass, pass: ResolvePass)
    requires w.trim("rent") == w.trim(" rent") == "rent"
    requires a.rows == [StoredRow(1, 5, Some(" rent"), 100, Withdrawal, c, None, None, None)]
    requires f.rows == [FileRow(5, "rent", 100, Withdrawal)]
    ensures Finished(a, f, w, pass).rows == a.rows
    ensures KeysOf(Merged(StoredDebits(a.rows), IncomingDebits(f.rows, p))) == [DebitKey(5, 100, " rent"), DebitKey(5, 100, "rent")]
  {
    AlikeAddsNothing(a, f, w);
    var mine, theirs := StoredDebit(a.rows[0]), IncomingDebit(f.rows[0], p);
    assert a.rows[..0] == [] && f.rows[..0] == [];
    assert StoredDebits(a.rows) == [mine] && IncomingDebits(f.rows, p) == [theirs];
    assert Text(Some(" rent"))[0] != "rent"[0];
    UnalikeAdds(mine, theirs);
  }

  lemma AlikeAddsNothing(a: AccountState, f: StatementFile, w: Wording)
    requires |a.rows| == 1 && |f.rows| == 1 && StoredKey(a.rows[0], w) == FileKey(f.rows[0], w)
    ensures Imported(a, f, w).rows == a.rows
  {
    var key := FileKey(f.rows[0], w);
    assert StoredKeys(a.rows, w) == [key] && FileKeys(f.rows, w) == [key];
    CountBetween([key], key.day, key.day, key);
    assert [key][..0] == [];
    assert NewPlaces(StoredAround(a, f.rows, w), [key], 0) == [];
    assert FreshRows(a, f.rows, w) == [];
  }

  lemma UnalikeAdds(mine: Debit, theirs: Debit)
    requires KeyOf(mine) != KeyOf(theirs)
    ensures KeysOf(Merged([mine], [theirs])) == [KeyOf(mine), KeyOf(theirs)]
  {
    assert KeysOf([theirs])[..0] == [];
    assert NewPlaces(multiset(KeysOf([mine])), KeysOf([theirs]), 0) == [];
  }

  // ---------- What detection reads ----------

  /** The rows as stored give detection what the preview's extras give it. */
  lemma TakenInReadsTheSame(a: AccountState, f: StatementFile, w: Wording, p: Patterns)
    requires f.rows != [] && TrimmedFile(f.rows, w) && SameClassifier(w, p)
    requires SameSurplus(StoredAround(a, f.rows, w), StoredCounts(a), f.rows, p)
    ensures DetectionInputs(Merged(StoredDebits(a.rows), IncomingDebits(f.rows, p)), p)
         == DetectionInputs(StoredDebits(Imported(a, f, w).rows), p)
  {
    var existing, stored := StoredAround(a, f.rows, w), StoredCounts(a);
    var before, extras := StoredDebits(a.rows), Extras(stored, IncomingDebits(f.rows, p));
    SameDebits(existing, stored, f.rows, w, p);
    DebitsAfterImport(a, f, w, p);
    IncomingAsParsed(FreshUpTo(existing, f.rows, w, |f.rows|), p);
    InputsOfCommitted(extras, p);
    InputsOfJoin(before, extras, p);
    InputsOfJoin(before, AllCommitted(extras, p), p);
  }

  // ---------- What the backfill does to it ----------

  /** What detection reads of one debit. */
  function InputOf(d: Debit, p: Patterns): seq<Debit> {
    if RecurringInput(d, p) || LoanInput(d) then [d] else []
  }

  /** What detection reads of one stored row. */
  function ReadOf(r: StoredRow, p: Patterns): seq<Debit> {
    if r.direction == Withdrawal then InputOf(StoredDebit(r), p) else []
  }

  /** Reclassifying the row, if the backfill visits it, changes nothing detection reads. */
  predicate ReadsAlike(r: StoredRow, w: Wording, p: Patterns, nullsSeen: bool) {
    ReadOf(Refiled(r, w, nullsSeen), p) == ReadOf(r, p)
  }

  predicate AllReadAlike(rows: seq<StoredRow>, w: Wording, p: Patterns, nullsSeen: bool) {
    forall i | 0 <= i < |rows| :: ReadsAlike(rows[i], w, p, nullsSeen)
  }

  /** A row of the kind its wording gives reads alike. */
  lemma CurrentRowsReadAlike(rows: seq<StoredRow>, w: Wording, p: Patterns, nullsSeen: bool)
    requires forall i | 0 <= i < |rows| && rows[i].direction == Withdrawal && Visited(rows[i], nullsSeen) ::
      rows[i].class_ == w.classify(Text(rows[i].description), Withdrawal)
    ensures AllReadAlike(rows, w, p, nullsSeen)
  {
    forall i | 0 <= i < |rows| ensures ReadsAlike(rows[i], w, p, nullsSeen) {
      assert rows[i].direction == Withdrawal && Visited(rows[i], nullsSeen) ==> Refiled(rows[i], w, nullsSeen) == rows[i];
    }
  }

  function Reads(rows: seq<StoredRow>, p: Patterns): seq<Debit> {
    DetectionInputs(StoredDebits(rows), p)
  }

  lemma ReadsOfMore(rows: seq<StoredRow>, r: StoredRow, p: Patterns)
    ensures Reads(rows + [r], p) == Reads(rows, p) + ReadOf(r, p)
  {
    assert (rows + [r])[..|rows|] == rows;
    if r.direction == Withdrawal {
      InputsOfJoin(StoredDebits(rows), [StoredDebit(r)], p);
      assert [StoredDebit(r)][..0] == [];
    } else {
      assert StoredDebits(rows + [r]) == StoredDebits(rows);
    }
  }

  /** How often detection reads debit `d`. */
  function TimesRead(d: Debit, rows: seq<StoredRow>, p: Patterns): nat {
    if rows == [] then 0 else TimesRead(d, rows[..|rows| - 1], p) + if ReadOf(rows[|rows| - 1], p) == [d] then 1 else 0
  }

  lemma OneMoreRead(before: seq<Debit>, one: seq<Debit>, d: Debit)
    requires |one| <= 1
    ensures multiset(before + one)[d] == multiset(before)[d] + if one == [d] then 1 else 0
  {
    if |one| == 1 { assert one == [one[0]]; } else { assert before + one == before; }
  }

  lemma {:induction false} TimesReadCounts(d: Debit, rows: seq<StoredRow>, p: Patterns)
    ensures multiset(Reads(rows, p))[d] == TimesRead(d, rows, p)
  {
    if rows != [] {
      var init, last := rows[..|rows| - 1], rows[|rows| - 1];
      TimesReadCounts(d, init, p);
      ReadsOfMore(init, last, p);
      OneMoreRead(Reads(init, p), ReadOf(last, p), d);
      assert rows == init + [last];
    }
  }

  /** One row fewer reads it, none more: read less often. */
  lemma {:induction false} ReadLessOften(d: Debit, less: seq<StoredRow>, more: seq<StoredRow>, p: Patterns, k: nat)
    requires |less| == |more| && forall i | 0 <= i < |less| :: ReadOf(less[i], p) == [d] ==> ReadOf(more[i], p) == [d]
    ensures TimesRead(d, less, p) <= TimesRead(d, more, p)
    ensures k < |less| && ReadOf(less[k], p) != [d] && ReadOf(more[k], p) == [d] ==> TimesRead(d, less, p) < TimesRead(d, more, p)
  {
    if less != [] {
      ReadLessOften(d, less[..|less| - 1], more[..|more| - 1], p, k);
    }
  }

  lemma PassReadsRefiled(r: StoredRow, w: Wording, p: Patterns, pass: ResolvePass)
    ensures ReadOf(AfterPass(r, w, pass), p) == ReadOf(Refiled(r, w, pass.nullsSeen), p)
  {
  }

  lemma {:induction false} ReadingAlikeReadsTheSame(rows: seq<StoredRow>, w: Wording, p: Patterns, pass: ResolvePass)
    requires AllReadAlike(rows, w, p, pass.nullsSeen)
    ensures Reads(AllAfterPass(rows, w, pass), p) == Reads(rows, p)
  {
    if rows != [] {
      var init, last := rows[..|rows| - 1], rows[|rows| - 1];
      ReadingAlikeReadsTheSame(init, w, p, pass);
      ReadsOfMore(init, last, p);
      ReadsOfMore(AllAfterPass(init, w, pass), AfterPass(last, w, pass), p);
      PassReadsRefiled(last, w, p, pass);
      assert ReadsAlike(last, w, p, pass.nullsSeen);
      assert rows == init + [last] && AllAfterPass(rows, w, pass) == AllAfterPass(init, w, pass) + [AfterPass(last, w, pass)];
    }
  }

  /** A debit that reclassifying brings in, it takes away nowhere: equal wording is equally classified. */
  lemma BroughtInNowhereLost(r: StoredRow, s: StoredRow, d: Debit, w: Wording, p: Patterns, nullsSeen: bool)
    requires !ReadsAlike(r, w, p, nullsSeen) && ReadOf(Refiled(r, w, nullsSeen), p) == [d] && ReadOf(s, p) == [d]
    ensures ReadOf(Refiled(s, w, nullsSeen), p) == [d]
  {
  }

  /** A debit that reclassifying takes away, it brings in nowhere. */
  lemma TakenAwayNowhereGained(r: StoredRow, s: StoredRow, d: Debit, w: Wording, p: Patterns, nullsSeen: bool)
    requires ReadOf(Refiled(r, w, nullsSeen), p) == [] && ReadOf(r, p) == [d] && ReadOf(Refiled(s, w, nullsSeen), p) == [d]
    ensures ReadOf(s, p) == [d]
  {
  }

  lemma OneUnalikeShows(rows: seq<StoredRow>, w: Wording, p: Patterns, pass: ResolvePass, k: nat)
    requires k < |rows| && !ReadsAlike(rows[k], w, p, pass.nullsSeen)
    ensures Reads(AllAfterPass(rows, w, pass), p) != Reads(rows, p)
  {
    var after, n := AllAfterPass(rows, w, pass), pass.nullsSeen;
    forall i | 0 <= i < |rows| ensures ReadOf(after[i], p) == ReadOf(Refiled(rows[i], w, n), p) { PassReadsRefiled(rows[i], w, p, pass); }
    if ReadOf(after[k], p) != [] {
      var d := ReadOf(after[k], p)[0];
      forall i | 0 <= i < |rows| && ReadOf(rows[i], p) == [d] ensures ReadOf(after[i], p) == [d] {
        BroughtInNowhereLost(rows[k], rows[i], d, w, p, n);
      }
      ReadLessOften(d, rows, after, p, k);
      TimesReadCounts(d, rows, p);
      TimesReadCounts(d, after, p);
    } else {
      var d := ReadOf(rows[k], p)[0];
      forall i | 0 <= i < |rows| && ReadOf(after[i], p) == [d] ensures ReadOf(rows[i], p) == [d] {
        TakenAwayNowhereGained(rows[k], rows[i], d, w, p, n);
      }
      ReadLessOften(d, after, rows, p, k);
      TimesReadCounts(d, rows, p);
      TimesReadCounts(d, after, p);
    }
  }

  /** A pass leaves what detection reads exactly when it leaves what is read of every row. */
  lemma PassReadsTheSameIff(rows: seq<StoredRow>, w: Wording, p: Patterns, pass: ResolvePass)
    ensures Reads(AllAfterPass(rows, w, pass), p) == Reads(rows, p) <==> AllReadAlike(rows, w, p, pass.nullsSeen)
  {
    if AllReadAlike(rows, w, p, pass.nullsSeen) {
      ReadingAlikeReadsTheSame(rows, w, p, pass);
    } else {
      var k :| 0 <= k < |rows| && !ReadsAlike(rows[k], w, p, pass.nullsSeen);
      OneUnalikeShows(rows, w, p, pass, k);
    }
  }

  // ---------- Preview against the whole import ----------

  /** Rows just taken in carry the class their wording gives. */
  lemma NewRowsReadAlike(rows: seq<FileRow>, first: nat, source: nat, w: Wording, p: Patterns, nullsSeen: bool)
    ensures AllReadAlike(StoreAll(rows, first, source, w), w, p, nullsSeen)
  {
    CurrentRowsReadAlike(StoreAll(rows, first, source, w), w, p, nullsSeen);
  }

  lemma ReadAlikeSplits(a: seq<StoredRow>, b: seq<StoredRow>, w: Wording, p: Patterns, nullsSeen: bool)
    requires AllReadAlike(b, w, p, nullsSeen)
    ensures AllReadAlike(a + b, w, p, nullsSeen) <==> AllReadAlike(a, w, p, nullsSeen)
  {
    if AllReadAlike(a + b, w, p, nullsSeen) {
      forall i | 0 <= i < |a| ensures ReadsAlike(a[i], w, p, nullsSeen) { assert (a + b)[i] == a[i]; }
    }
    if AllReadAlike(a, w, p, nullsSeen) {
      forall i | 0 <= i < |a + b| ensures ReadsAlike((a + b)[i], w, p, nullsSeen) {
        assert (a + b)[i] == if i < |a| then a[i] else b[i - |a|];
      }
    }
  }

  lemma TakenInReadsAlikeIff(a: AccountState, f: StatementFile, w: Wording, p: Patterns, nullsSeen: bool)
    ensures AllReadAlike(Imported(a, f, w).rows, w, p, nullsSeen) <==> AllReadAlike(a.rows, w, p, nullsSeen)
  {
    if f.rows != [] {
      var newRows := StoreAll(FreshRows(a, f.rows, w), a.nextRow, a.nextStatement, w);
      NewRowsReadAlike(FreshRows(a, f.rows, w), a.nextRow, a.nextStatement, w, p, nullsSeen);
      ReadAlikeSplits(a.rows, newRows, w, p, nullsSeen);
    }
  }

  /**
   * Detection reads the same debits before an import and once it is through exactly when the
   * import brings no row, or its backfill changes nothing read of any row already stored.
   */
  lemma PreviewEqualsCommitIff(a: AccountState, f: StatementFile, w: Wording, p: Patterns, pass: ResolvePass)
    requires f.rows != [] && TrimmedFile(f.rows, w) && SameClassifier(w, p)
    requires SameSurplus(StoredAround(a, f.rows, w), StoredCounts(a), f.rows, p)
    ensures DetectionInputs(Merged(StoredDebits(a.rows), IncomingDebits(f.rows, p)), p) == Reads(Finished(a, f, w, pass).rows, p)
       <==> FreshRows(a, f.rows, w) == [] || AllReadAlike(a.rows, w, p, pass.nullsSeen)
  {
    TakenInReadsTheSame(a, f, w, p);
    TakenInReadsAlikeIff(a, f, w, p, pass.nullsSeen);
    PassReadsTheSameIff(Imported(a, f, w).rows, w, p, pass);
  }

  // ---------- The statement end ----------

  function StoredDays(rows: seq<StoredRow>): set<nat> {
    set i | 0 <= i < |rows| :: rows[i].day
  }

  function FileDays(rows: seq<FileRow>): set<nat> {
    set i | 0 <= i < |rows| :: rows[i].day
  }

  /** The days the statement end is taken from are the same before and after. */
  lemma SameStatementDays(a: AccountState, f: StatementFile, w: Wording, pass: ResolvePass)
    ensures StoredDays(a.rows) + FileDays(f.rows) == StoredDays(Finished(a, f, w, pass).rows)
  {
    PassKeepsDays(Imported(a, f, w).rows, w, pass);
    TakenInDays(a, f, w);
  }

  lemma PassKeepsDays(rows: seq<StoredRow>, w: Wording, pass: ResolvePass)
    ensures StoredDays(AllAfterPass(rows, w, pass)) == StoredDays(rows)
  {
    assert forall i | 0 <= i < |rows| :: AllAfterPass(rows, w, pass)[i].day == rows[i].day;
  }

  lemma TakenInDays(a: AccountState, f: StatementFile, w: Wording)
    ensures StoredDays(a.rows) + FileDays(f.rows) == StoredDays(Imported(a, f, w).rows)
  {
    var after := Imported(a, f, w).rows;
    TakenInAppends(a, f, w);
    forall i | 0 <= i < |f.rows| ensures f.rows[i].day in StoredDays(after) { DayIsStored(a, f, w, i); }
    forall i: nat | i < |after| ensures after[i].day in StoredDays(a.rows) + FileDays(f.rows) { StoredDayIsKnown(a, f, w, i); }
  }

  lemma StoredDayIsKnown(a: AccountState, f: StatementFile, w: Wording, i: nat)
    requires i < |Imported(a, f, w).rows|
    ensures Imported(a, f, w).rows[i].day in StoredDays(a.rows) + FileDays(f.rows)
  {
    if i < |a.rows| {
      TakenInAppends(a, f, w);
      assert Imported(a, f, w).rows[i] == a.rows[i];
    } else {
      var keys := FileKeys(f.rows, w);
      var places := NewPlaces(StoredAround(a, f.rows, w), keys, |keys|);
      NewPlacesInRange(StoredAround(a, f.rows, w), keys, |keys|);
      assert Imported(a, f, w).rows[i].day == f.rows[places[i - |a.rows|]].day;
    }
  }

  lemma DayIsStored(a: AccountState, f: StatementFile, w: Wording, i: nat)
    requires i < |f.rows|
    ensures f.rows[i].day in StoredDays(Imported(a, f, w).rows)
  {
    var after, key := Imported(a, f, w).rows, FileKey(f.rows[i], w);
    assert FileKeys(f.rows, w)[i] == key;
    TakenInKeepsBusier(a, f, w, key);
    var j :| 0 <= j < |after| && StoredKeys(after, w)[j] == key;
    assert after[j].day == f.rows[i].day;
  }
}
