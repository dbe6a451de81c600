/** Taking in a credit-card statement: the same file once, the same charge once per card. */
module CreditImport {
  import opened Common
  import opened CounterDedup

  /** A charge's identifying fields, the business name trimmed. */
  datatype ChargeKey = ChargeKey(day: nat, business: string, amount: int, payments: nat, installment: Option<nat>)
  datatype Charge = Charge(day: nat, business: string, amount: int, payments: nat, installment: Option<nat>, financing: bool)
  datatype CardCharge = CardCharge(source: nat, card: Option<nat>, charge: Charge)

  datatype ImportRecord = ImportRecord(id: nat, hash: string, rows: nat, total: int)
  datatype Tables = Tables(charges: seq<CardCharge>, imports: seq<ImportRecord>, nextImport: nat)

  datatype Outcome = UnknownCard | SameFile(id: nat) | UnassignedTwin | NothingNew(skipped: nat) | Created(id: nat, skipped: nat)

  function KeyOf(c: Charge, trim: string -> string): ChargeKey {
    ChargeKey(c.day, trim(c.business), c.amount, c.payments, c.installment)
  }

  function FileKeys(rows: seq<Charge>, trim: string -> string): (ks: seq<ChargeKey>)
    ensures |ks| == |rows| && forall i | 0 <= i < |rows| :: ks[i] == KeyOf(rows[i], trim)
  {
    seq(|rows|, i requires 0 <= i < |rows| => KeyOf(rows[i], trim))
  }

  /** Which stored charges a statement is compared with: of its own card and of no card; of all cards when it names none. */
  datatype Scope = All | Cards(cards: set<Option<nat>>)

  predicate InScope(card: Option<nat>, scope: Scope) {
    scope.All? || card in scope.cards
  }

  function KeysIn(charges: seq<CardCharge>, scope: Scope, trim: string -> string): seq<ChargeKey> {
    if charges == [] then []
    else
      var last := charges[|charges| - 1];
      KeysIn(charges[..|charges| - 1], scope, trim) + if InScope(last.card, scope) then [KeyOf(last.charge, trim)] else []
  }

  function ScopeOf(card: Option<nat>): Scope {
    if card.Some? then Cards({card, None}) else All
  }

  /** The import of the same bytes, if there is one. */
  function ImportOf(imports: seq<ImportRecord>, hash: string): Option<nat> {
    if imports == [] then None else if imports[0].hash == hash then Some(imports[0].id) else ImportOf(imports[1..], hash)
  }

  /** A row of the file is also stored without a card. */
  predicate HasTwin(charges: seq<CardCharge>, rows: seq<Charge>, trim: string -> string) {
    exists i | 0 <= i < |rows| :: KeyOf(rows[i], trim) in KeysIn(charges, Cards({None}), trim)
  }

  function Fresh(charges: seq<CardCharge>, rows: seq<Charge>, card: Option<nat>, trim: string -> string): seq<Charge> {
    NewRows(multiset(KeysIn(charges, ScopeOf(card), trim)), rows, FileKeys(rows, trim))
  }

  function Stored(rows: seq<Charge>, source: nat, card: Option<nat>): (cs: seq<CardCharge>)
    ensures |cs| == |rows| && forall i | 0 <= i < |rows| :: cs[i] == CardCharge(source, card, rows[i])
  {
    seq(|rows|, i requires 0 <= i < |rows| => CardCharge(source, card, rows[i]))
  }

  /** The statement's displayed total: real spend, revolving-credit financing left out. */
  function TotalOf(rows: seq<Charge>): int {
    if rows == [] then 0 else TotalOf(rows[..|rows| - 1]) + if rows[|rows| - 1].financing then 0 else rows[|rows| - 1].amount
  }

  /** An upload: rows the user staged on the approval screen are taken as they are. */
  datatype Upload = Upload(hash: string, rows: seq<Charge>, card: Option<nat>, staged: bool)

  /** The rows an upload adds. */
  function Kept(charges: seq<CardCharge>, u: Upload, trim: string -> string): seq<Charge> {
    if u.staged then u.rows else Fresh(charges, u.rows, u.card, trim)
  }

  /** Why an upload changes nothing, if it is refused or known. */
  function Refusal(t: Tables, cards: set<nat>, u: Upload, trim: string -> string): Option<Outcome> {
    var same := ImportOf(t.imports, u.hash);
    if u.card.Some? && u.card.value !in cards then Some(UnknownCard)
    else if same.Some? then Some(SameFile(same.value))
    else if u.card.Some? && !u.staged && HasTwin(t.charges, u.rows, trim) then Some(UnassignedTwin)
    else None
  }

  /** The charges kept, under one new import. */
  function Recorded(t: Tables, u: Upload, kept: seq<Charge>): Tables {
    Tables(t.charges + Stored(kept, t.nextImport, u.card), t.imports + [ImportRecord(t.nextImport, u.hash, |kept|, TotalOf(kept))], t.nextImport + 1)
  }

  function Taken(t: Tables, cards: set<nat>, u: Upload, trim: string -> string): (Tables, Outcome) {
    var refusal, kept := Refusal(t, cards, u, trim), Kept(t.charges, u, trim);
    FreshIsNoLonger(t.charges, u.rows, u.card, trim);
    if refusal.Some? then (t, refusal.value)
    else if kept == [] then (t, NothingNew(|u.rows|))
    else (Recorded(t, u, kept), Created(t.nextImport, |u.rows| - |kept|))
  }

  predicate Accepted(o: Outcome) {
    o.Created? || o.NothingNew?
  }

  lemma FreshIsNoLonger(charges: seq<CardCharge>, rows: seq<Charge>, card: Option<nat>, trim: string -> string)
    ensures |Fresh(charges, rows, card, trim)| <= |rows|
  {
    NewPlacesAtMost(multiset(KeysIn(charges, ScopeOf(card), trim)), FileKeys(rows, trim), |rows|);
  }

  class Statements {
    var charges: seq<CardCharge>
    var imports: seq<ImportRecord>
    var nextImport: nat

    function Contents(): Tables
      reads this
    {
      Tables(charges, imports, nextImport)
    }

    method KeepFresh(rows: seq<Charge>, card: Option<nat>, trim: string -> string) returns (newRows: seq<Charge>)
      ensures newRows == Fresh(charges, rows, card, trim)
    {
      var places := FilterNew(KeysIn(charges, ScopeOf(card), trim), FileKeys(rows, trim));
      NewPlacesInRange(multiset(KeysIn(charges, ScopeOf(card), trim)), FileKeys(rows, trim), |rows|);
      newRows := Pick(rows, places);
    }

    method AddTotal(rows: seq<Charge>) returns (total: int)
      ensures total == TotalOf(rows)
    {
      total := 0;
      for i := 0 to |rows|
        invariant total == TotalOf(rows[..i])
      {
        assert rows[..i + 1][..i] == rows[..i];
        if !rows[i].financing { total := total + rows[i].amount; }
      }
      assert rows[..|rows|] == rows;
    }

    method Record(u: Upload, kept: seq<Charge>)
      modifies this
      ensures Contents() == Recorded(old(Contents()), u, kept)
    {
      var total := AddTotal(kept);
      charges := charges + Stored(kept, nextImport, u.card);
      imports := imports + [ImportRecord(nextImport, u.hash, |kept|, total)];
      nextImport := nextImport + 1;
    }

    method Refuse(cards: set<nat>, u: Upload, trim: string -> string) returns (refusal: Option<Outcome>)
      ensures refusal == Refusal(Contents(), cards, u, trim)
    {
      if u.card.Some? && u.card.value !in cards { return Some(UnknownCard); }
      var same := ImportOf(imports, u.hash);
      if same.Some? { return Some(SameFile(same.value)); }
      if u.card.Some? && !u.staged && HasTwin(charges, u.rows, trim) { return Some(UnassignedTwin); }
      refusal := None;
    }

    method CreateImport(cards: set<nat>, u: Upload, trim: string -> string) returns (outcome: Outcome)
      modifies this
      ensures (Contents(), outcome) == Taken(old(Contents()), cards, u, trim)
    {
      var refusal := Refuse(cards, u, trim);
      if refusal.Some? { return refusal.value; }
      var kept := u.rows;
      if !u.staged { kept := KeepFresh(u.rows, u.card, trim); }
      FreshIsNoLonger(charges, u.rows, u.card, trim);
      if kept == [] { return NothingNew(|u.rows|); }
      outcome := Created(nextImport, |u.rows| - |kept|);
      Record(u, kept);
    }
  }

  // ---------- What a card holds afterwards ----------

  /** How many charges of a key are stored within a scope. */
  function CountIn(charges: seq<CardCharge>, scope: Scope, k: ChargeKey, trim: string -> string): nat {
    multiset(KeysIn(charges, scope, trim))[k]
  }

  lemma {:induction false} KeysInAppend(a: seq<CardCharge>, b: seq<CardCharge>, scope: Scope, trim: string -> string)
    ensures KeysIn(a + b, scope, trim) == KeysIn(a, scope, trim) + KeysIn(b, scope, trim)
  {
    if b == [] {
      assert a + b == a;
    } else {
      KeysInAppend(a, b[..|b| - 1], scope, trim);
      assert (a + b)[..|a + b| - 1] == a + b[..|b| - 1];
    }
  }

  lemma LastApart<T>(s: seq<T>)
    requires s != []
    ensures s == s[..|s| - 1] + [s[|s| - 1]]
  {
  }

  lemma {:induction false} KeysOfStored(rows: seq<Charge>, source: nat, card: Option<nat>, scope: Scope, trim: string -> string)
    ensures KeysIn(Stored(rows, source, card), scope, trim) ==
      if InScope(card, scope) then FileKeys(rows, trim) else []
  {
    if rows == [] {
      assert FileKeys(rows, trim) == [];
    } else {
      var init, last := rows[..|rows| - 1], rows[|rows| - 1];
      LastApart(rows);
      KeysOfStored(init, source, card, scope, trim);
      OneMoreKey(init, last, source, card, scope, trim);
    }
  }

  lemma OneMoreKey(rows: seq<Charge>, r: Charge, source: nat, card: Option<nat>, scope: Scope, trim: string -> string)
    requires KeysIn(Stored(rows, source, card), scope, trim) == if InScope(card, scope) then FileKeys(rows, trim) else []
    ensures KeysIn(Stored(rows + [r], source, card), scope, trim) == if InScope(card, scope) then FileKeys(rows + [r], trim) else []
  {
    KeysInOneMore(Stored(rows, source, card), CardCharge(source, card, r), scope, trim);
    OneMoreRow(rows, r, source, card, trim);
  }

  lemma OneMoreRow(rows: seq<Charge>, r: Charge, source: nat, card: Option<nat>, trim: string -> string)
    ensures Stored(rows + [r], source, card) == Stored(rows, source, card) + [CardCharge(source, card, r)]
    ensures FileKeys(rows + [r], trim) == FileKeys(rows, trim) + [KeyOf(r, trim)]
  {
  }

  lemma KeysInOneMore(charges: seq<CardCharge>, c: CardCharge, scope: Scope, trim: string -> string)
    ensures KeysIn(charges + [c], scope, trim) ==
      if InScope(c.card, scope) then KeysIn(charges, scope, trim) + [KeyOf(c.charge, trim)] else KeysIn(charges, scope, trim)
  {
    assert (charges + [c])[..|charges|] == charges;
  }

  lemma {:induction false} ScopesAdd(charges: seq<CardCharge>, card: nat, k: ChargeKey, trim: string -> string)
    ensures CountIn(charges, Cards({Some(card), None}), k, trim) ==
      CountIn(charges, Cards({Some(card)}), k, trim) + CountIn(charges, Cards({None}), k, trim)
  {
    if charges != [] {
      ScopesAdd(charges[..|charges| - 1], card, k, trim);
    }
  }

  lemma FreshCounts(charges: seq<CardCharge>, rows: seq<Charge>, card: Option<nat>, k: ChargeKey, trim: string -> string)
    ensures multiset(FileKeys(Fresh(charges, rows, card, trim), trim))[k]
         == Surplus(multiset(FileKeys(rows, trim))[k], CountIn(charges, ScopeOf(card), k, trim))
  {
    var had, keys := multiset(KeysIn(charges, ScopeOf(card), trim)), FileKeys(rows, trim);
    NewPlacesInRange(had, keys, |keys|);
    NewCounts(had, keys, |keys|, k);
    assert keys[..|keys|] == keys;
    assert FileKeys(Fresh(charges, rows, card, trim), trim) == Pick(keys, NewPlaces(had, keys, |keys|));
  }

  lemma CountsAfter(t: Tables, cards: set<nat>, u: Upload, scope: Scope, k: ChargeKey, trim: string -> string)
    requires Accepted(Taken(t, cards, u, trim).1) && InScope(u.card, scope)
    ensures CountIn(Taken(t, cards, u, trim).0.charges, scope, k, trim)
         == CountIn(t.charges, scope, k, trim) + multiset(FileKeys(Kept(t.charges, u, trim), trim))[k]
  {
    var kept := Kept(t.charges, u, trim);
    KeysOfStored(kept, t.nextImport, u.card, scope, trim);
    if kept == [] {
      assert FileKeys(kept, trim) == [];
    } else {
      KeysInAppend(t.charges, Stored(kept, t.nextImport, u.card), scope, trim);
    }
  }

  /**
   * Taken in for a card, a statement leaves that card with, of every charge, as
   * many as the busier of what the card had and the file: the refusal of unassigned
   * twins is what makes charges of no card irrelevant.
   */
  lemma CardHoldsBusier(t: Tables, cards: set<nat>, u: Upload, card: nat, k: ChargeKey, trim: string -> string)
    requires Accepted(Taken(t, cards, u, trim).1) && u.card == Some(card) && !u.staged
    ensures CountIn(Taken(t, cards, u, trim).0.charges, Cards({Some(card)}), k, trim)
         == Max(CountIn(t.charges, Cards({Some(card)}), k, trim), multiset(FileKeys(u.rows, trim))[k])
  {
    CountsAfter(t, cards, u, Cards({Some(card)}), k, trim);
    FreshCounts(t.charges, u.rows, Some(card), k, trim);
    ScopesAdd(t.charges, card, k, trim);
    AcceptedHasNoTwin(t, cards, u, trim);
    NoTwins(t.charges, u.rows, k, trim);
  }

  lemma AcceptedHasNoTwin(t: Tables, cards: set<nat>, u: Upload, trim: string -> string)
    requires Accepted(Taken(t, cards, u, trim).1) && u.card.Some? && !u.staged
    ensures !HasTwin(t.charges, u.rows, trim)
  {
  }

  lemma NoTwins(charges: seq<CardCharge>, rows: seq<Charge>, k: ChargeKey, trim: string -> string)
    requires !HasTwin(charges, rows, trim)
    ensures multiset(FileKeys(rows, trim))[k] == 0 || CountIn(charges, Cards({None}), k, trim) == 0
  {
    if k in FileKeys(rows, trim) {
      var i :| 0 <= i < |rows| && FileKeys(rows, trim)[i] == k;
      assert KeyOf(rows[i], trim) !in KeysIn(charges, Cards({None}), trim);
    }
  }

  /** Taken in for no card, the busier source wins over all the user's charges. */
  lemma HouseholdHoldsBusier(t: Tables, cards: set<nat>, u: Upload, k: ChargeKey, trim: string -> string)
    requires Accepted(Taken(t, cards, u, trim).1) && u.card == None && !u.staged
    ensures CountIn(Taken(t, cards, u, trim).0.charges, All, k, trim)
         == Max(CountIn(t.charges, All, k, trim), multiset(FileKeys(u.rows, trim))[k])
  {
    CountsAfter(t, cards, u, All, k, trim);
    FreshCounts(t.charges, u.rows, None, k, trim);
  }

  lemma OnlyAppends(t: Tables, cards: set<nat>, u: Upload, trim: string -> string)
    ensures var after := Taken(t, cards, u, trim).0.charges;
      after == t.charges || after == t.charges + Stored(Kept(t.charges, u, trim), t.nextImport, u.card)
  {
  }

  /** Other cards' charges are neither compared with nor touched. */
  lemma OtherCardsStay(t: Tables, cards: set<nat>, u: Upload, other: Option<nat>, trim: string -> string)
    requires other != u.card
    ensures KeysIn(Taken(t, cards, u, trim).0.charges, Cards({other}), trim) == KeysIn(t.charges, Cards({other}), trim)
    ensures t.charges <= Taken(t, cards, u, trim).0.charges
  {
    OnlyAppends(t, cards, u, trim);
    NoneOfOther(t.charges, Kept(t.charges, u, trim), t.nextImport, u.card, other, trim);
  }

  lemma NoneOfOther(charges: seq<CardCharge>, kept: seq<Charge>, source: nat, card: Option<nat>, other: Option<nat>, trim: string -> string)
    requires other != card
    ensures KeysIn(charges + Stored(kept, source, card), Cards({other}), trim) == KeysIn(charges, Cards({other}), trim)
  {
    KeysOfStored(kept, source, card, Cards({other}), trim);
    KeysInAppend(charges, Stored(kept, source, card), Cards({other}), trim);
  }

  lemma NothingLeftOver(charges: seq<CardCharge>, rows: seq<Charge>, card: Option<nat>, trim: string -> string)
    requires forall k :: multiset(FileKeys(rows, trim))[k] <= CountIn(charges, ScopeOf(card), k, trim)
    ensures Fresh(charges, rows, card, trim) == []
  {
    var newRows := Fresh(charges, rows, card, trim);
    if newRows != [] {
      var k := FileKeys(newRows, trim)[0];
      FreshCounts(charges, rows, card, k, trim);
    }
  }

  /** The same charges again for the same card, in a file of other bytes, add nothing. */
  lemma SameChargesAddNothing(t: Tables, cards: set<nat>, u: Upload, again: Upload, card: nat, trim: string -> string)
    requires Accepted(Taken(t, cards, u, trim).1) && u.card == Some(card) && !u.staged && again == u.(hash := again.hash)
    ensures var once := Taken(t, cards, u, trim).0; Taken(once, cards, again, trim).0 == once
  {
    var once := Taken(t, cards, u, trim).0;
    forall k ensures multiset(FileKeys(u.rows, trim))[k] <= CountIn(once.charges, ScopeOf(Some(card)), k, trim) {
      CardHoldsBusier(t, cards, u, card, k, trim);
      ScopesAdd(once.charges, card, k, trim);
    }
    NothingLeftOver(once.charges, u.rows, Some(card), trim);
  }

  // ---------- The recorded total ----------

  /** What the charges of one import sum to, financing left out. */
  function SpentOn(charges: seq<CardCharge>, source: nat): int {
    if charges == [] then 0
    else
      var last := charges[|charges| - 1];
      SpentOn(charges[..|charges| - 1], source) + if last.source == source && !last.charge.financing then last.charge.amount else 0
  }

  /** Every import's recorded total is that of the charges stored under it. */
  ghost predicate TotalsHold(t: Tables) {
    && (forall i | 0 <= i < |t.charges| :: t.charges[i].source < t.nextImport)
    && (forall i | 0 <= i < |t.imports| :: t.imports[i].id < t.nextImport && t.imports[i].total == SpentOn(t.charges, t.imports[i].id))
  }

  lemma {:induction false} SpentOnStored(charges: seq<CardCharge>, kept: seq<Charge>, source: nat, card: Option<nat>, asked: nat)
    ensures SpentOn(charges + Stored(kept, source, card), asked) == SpentOn(charges, asked) + if asked == source then TotalOf(kept) else 0
  {
    if kept == [] {
      assert charges + Stored(kept, source, card) == charges;
    } else {
      var init := kept[..|kept| - 1];
      SpentOnStored(charges, init, source, card, asked);
      var all := charges + Stored(kept, source, card);
      assert all[..|all| - 1] == charges + Stored(init, source, card);
    }
  }

  lemma {:induction false} NothingSpentYet(charges: seq<CardCharge>, source: nat)
    requires forall i | 0 <= i < |charges| :: charges[i].source < source
    ensures SpentOn(charges, source) == 0
  {
    if charges != [] {
      NothingSpentYet(charges[..|charges| - 1], source);
    }
  }

  /** Over any uploads the recorded totals stay those of the stored charges. */
  lemma TotalsStayTrue(t: Tables, cards: set<nat>, u: Upload, trim: string -> string)
    requires TotalsHold(t)
    ensures TotalsHold(Taken(t, cards, u, trim).0)
  {
    var after, kept := Taken(t, cards, u, trim).0, Kept(t.charges, u, trim);
    if after != t {
      NothingSpentYet(t.charges, t.nextImport);
      forall i | 0 <= i < |after.imports|
        ensures after.imports[i].id < after.nextImport && after.imports[i].total == SpentOn(after.charges, after.imports[i].id)
      {
        SpentOnStored(t.charges, kept, t.nextImport, u.card, after.imports[i].id);
      }
    }
  }
}
