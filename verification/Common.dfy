/** Shared vocabulary: optional values, sums over sequences and over record tables. */
module Common {

  datatype Option<+T> = None | Some(value: T)

  function Abs(x: int): (r: int)
    ensures r >= 0 && (r == x || r == -x)
  {
    if x < 0 then -x else x
  }

  function Max(x: int, y: int): (r: int)
    ensures r >= x && r >= y && (r == x || r == y)
  {
    if x < y then y else x
  }

  /** The sum of a sequence of amounts. */
  function Sum(v: seq<int>): int {
    if v == [] then 0 else Sum(v[..|v| - 1]) + v[|v| - 1]
  }

  /** The sum of the amounts whose index is in `at`. */
  function SumAt(v: seq<int>, at: set<nat>): int {
    if v == [] then 0
    else SumAt(v[..|v| - 1], at) + if |v| - 1 in at then v[|v| - 1] else 0
  }

  lemma {:induction false} SumAtInsert(v: seq<int>, at: set<nat>, i: nat)
    requires i !in at
    ensures SumAt(v, at + {i}) == SumAt(v, at) + if i < |v| then v[i] else 0
  {
    if v != [] {
      SumAtInsert(v[..|v| - 1], at, i);
    }
  }

  lemma {:induction false} SumAtEmpty(v: seq<int>)
    ensures SumAt(v, {}) == 0
  {
    if v != [] {
      SumAtEmpty(v[..|v| - 1]);
    }
  }

  /** The sum a database aggregate takes: every record of the table whose id is in `ids`, once. */
  ghost function SumIds(table: map<nat, int>, ids: set<nat>): int {
    if ids == {} then 0
    else
      var id :| id in ids;
      (if id in table then table[id] else 0) + SumIds(table, ids - {id})
  }

  lemma {:induction false} SumIdsRemove(table: map<nat, int>, ids: set<nat>, id: nat)
    requires id in ids
    ensures SumIds(table, ids) == (if id in table then table[id] else 0) + SumIds(table, ids - {id})
    decreases ids
  {
    var pick :| pick in ids && SumIds(table, ids) == (if pick in table then table[pick] else 0) + SumIds(table, ids - {pick});
    if pick != id {
      SumIdsRemove(table, ids - {pick}, id);
      SumIdsRemove(table, ids - {id}, pick);
      assert ids - {pick} - {id} == ids - {id} - {pick};
    }
  }

  lemma {:induction false} SumIdsAgree(a: map<nat, int>, b: map<nat, int>, ids: set<nat>)
    requires forall id | id in ids :: (id in a <==> id in b) && (id in a ==> a[id] == b[id])
    ensures SumIds(a, ids) == SumIds(b, ids)
  {
    if ids != {} {
      var id :| id in ids;
      SumIdsRemove(a, ids, id);
      SumIdsRemove(b, ids, id);
      SumIdsAgree(a, b, ids - {id});
    }
  }

  /** Setting one entry moves the total by what the entry moved. */
  lemma SumIdsSet(table: map<nat, int>, k: nat, v: int)
    ensures SumIds(table[k := v], table.Keys + {k}) == SumIds(table, table.Keys) - (if k in table then table[k] else 0) + v
  {
    var others := table.Keys - {k};
    SumIdsRemove(table[k := v], table.Keys + {k}, k);
    assert table.Keys + {k} - {k} == others;
    SumIdsAgree(table[k := v], table, others);
    if k in table {
      SumIdsRemove(table, table.Keys, k);
    } else {
      assert others == table.Keys;
    }
  }

  /** A set that maps one-to-one into another is no larger. */
  lemma {:induction false} InjectionBound<T>(from: set<T>, f: T -> nat, into: set<nat>)
    requires forall a | a in from :: f(a) in into
    requires forall a, b | a in from && b in from && f(a) == f(b) :: a == b
    ensures |from| <= |into|
  {
    if a :| a in from {
      InjectionBound(from - {a}, f, into - {f(a)});
    }
  }
}
