/** Grouping rows under keys, in the order the keys are first seen. */
module Grouping {

  /** The distinct keys, in order of first appearance. */
  function FirstSeen<K(==)>(keys: seq<K>): seq<K> {
    if keys == [] then []
    else
      var seen, key := FirstSeen(keys[..|keys| - 1]), keys[|keys| - 1];
      if key in seen then seen else seen + [key]
  }

  /** The rows filed under one key, in order. */
  function Under<K(==), T>(keys: seq<K>, rows: seq<T>, key: K): seq<T>
    requires |keys| == |rows|
  {
    if keys == [] then []
    else
      var n := |keys| - 1;
      Under(keys[..n], rows[..n], key) + if keys[n] == key then [rows[n]] else []
  }

  method GroupBy<K(==), T>(keys: seq<K>, rows: seq<T>) returns (order: seq<K>, groups: map<K, seq<T>>)
    requires |keys| == |rows|
    ensures order == FirstSeen(keys)
    ensures groups.Keys == set k | k in order
    ensures forall k | k in groups :: groups[k] == Under(keys, rows, k)
  {
    order, groups := [], map[];
    for i := 0 to |keys|
      invariant order == FirstSeen(keys[..i])
      invariant groups.Keys == set k | k in order
      invariant forall k | k !in groups :: Under(keys[..i], rows[..i], k) == []
      invariant forall k | k in groups :: groups[k] == Under(keys[..i], rows[..i], k)
    {
      assert keys[..i + 1][..i] == keys[..i] && rows[..i + 1][..i] == rows[..i];
      var key := keys[i];
      if key !in groups { order := order + [key]; }
      groups := groups[key := (if key in groups then groups[key] else []) + [rows[i]]];
    }
    assert keys[..|keys|] == keys && rows[..|rows|] == rows;
  }

  ghost predicate Distinct<K(!new)>(s: seq<K>) {
    forall i, j | 0 <= i < j < |s| :: s[i] != s[j]
  }

  /** Every key is seen, each once. */
  lemma {:induction false} FirstSeenIsDistinct<K(!new)>(keys: seq<K>)
    ensures forall k :: k in FirstSeen(keys) <==> k in keys
    ensures Distinct(FirstSeen(keys))
    ensures |FirstSeen(keys)| <= |keys|
  {
    if keys != [] {
      FirstSeenIsDistinct(keys[..|keys| - 1]);
      assert keys == keys[..|keys| - 1] + [keys[|keys| - 1]];
    }
  }

  /** A group holds exactly the rows filed under its key. */
  lemma {:induction false} UnderHolds<K, T>(keys: seq<K>, rows: seq<T>, key: K, row: T)
    requires |keys| == |rows|
    ensures row in Under(keys, rows, key) <==> exists i | 0 <= i < |rows| :: keys[i] == key && rows[i] == row
  {
    if keys != [] {
      var n := |keys| - 1;
      UnderHolds(keys[..n], rows[..n], key, row);
      if i :| 0 <= i < n && keys[..n][i] == key && rows[..n][i] == row {
        assert keys[i] == key && rows[i] == row;
      }
      if i :| 0 <= i < |rows| && keys[i] == key && rows[i] == row {
        if i < n { assert keys[..n][i] == key && rows[..n][i] == row; }
      }
    }
  }

  /** A seen key's group is not empty. */
  lemma UnderIsInhabited<K(!new), T>(keys: seq<K>, rows: seq<T>, key: K)
    requires |keys| == |rows| && key in FirstSeen(keys)
    ensures Under(keys, rows, key) != []
  {
    FirstSeenIsDistinct(keys);
    var i :| 0 <= i < |keys| && keys[i] == key;
    UnderHolds(keys, rows, key, rows[i]);
  }
}
