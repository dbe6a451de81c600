/**
 * Overlap-safe import: count what is stored, let that many identical incoming
 * rows pass as duplicates, and keep the rest. Bank statements, credit statements
 * and the preview of an import all work this way, each on its own key.
 */
module CounterDedup {
  import opened Common

  function Surplus(a: nat, b: nat): nat {
    if a > b then a - b else 0
  }

  /** The n-th incoming key is new once its earlier copies have used up the stored ones. */
  function NewPlaces<K(==)>(stored: multiset<K>, keys: seq<K>, n: nat): seq<nat>
    requires n <= |keys|
  {
    if n == 0 then []
    else NewPlaces(stored, keys, n - 1) + if multiset(keys[..n - 1])[keys[n - 1]] >= stored[keys[n - 1]] then [n - 1] else []
  }

  lemma {:induction false} NewPlacesInRange<K>(stored: multiset<K>, keys: seq<K>, n: nat)
    requires n <= |keys|
    ensures forall i | 0 <= i < |NewPlaces(stored, keys, n)| :: NewPlaces(stored, keys, n)[i] < n
  {
    if n > 0 {
      NewPlacesInRange(stored, keys, n - 1);
    }
  }

  lemma {:induction false} NewPlacesAtMost<K>(stored: multiset<K>, keys: seq<K>, n: nat)
    requires n <= |keys|
    ensures |NewPlaces(stored, keys, n)| <= n
  {
    if n > 0 {
      NewPlacesAtMost(stored, keys, n - 1);
    }
  }

  function Pick<T>(rows: seq<T>, places: seq<nat>): (r: seq<T>)
    requires forall i | 0 <= i < |places| :: places[i] < |rows|
    ensures |r| == |places| && forall i | 0 <= i < |places| :: r[i] == rows[places[i]]
  {
    seq(|places|, i requires 0 <= i < |places| => rows[places[i]])
  }

  /** The rows of a file that an import adds. */
  function NewRows<T, K(==)>(stored: multiset<K>, rows: seq<T>, keys: seq<K>): seq<T>
    requires |keys| == |rows|
  {
    NewPlacesInRange(stored, keys, |keys|);
    Pick(rows, NewPlaces(stored, keys, |keys|))
  }

  function CountFrom<K(==)>(remaining: map<K, nat>, k: K): nat {
    if k in remaining then remaining[k] else 0
  }

  /** The counter map after the stored keys are tallied. */
  method TallyStored<K(==)>(stored: seq<K>) returns (remaining: map<K, nat>)
    ensures forall k :: CountFrom(remaining, k) == multiset(stored)[k]
  {
    remaining := map[];
    for i := 0 to |stored|
      invariant forall k :: CountFrom(remaining, k) == multiset(stored[..i])[k]
    {
      assert stored[..i + 1] == stored[..i] + [stored[i]];
      remaining := remaining[stored[i] := CountFrom(remaining, stored[i]) + 1];
    }
    assert stored[..|stored|] == stored;
  }

  /** The counters hold what is left of the stored keys once those seen are taken off. */
  ghost predicate Remains<K(!new)>(remaining: map<K, nat>, stored: multiset<K>, seen: multiset<K>) {
    forall k :: CountFrom(remaining, k) == Surplus(stored[k], seen[k])
  }

  lemma OneMoreSeen<K(!new)>(remaining: map<K, nat>, stored: multiset<K>, seen: multiset<K>, k: K)
    requires Remains(remaining, stored, seen)
    ensures CountFrom(remaining, k) == 0 ==> Remains(remaining, stored, seen + multiset{k})
    ensures CountFrom(remaining, k) > 0 ==> Remains(remaining[k := CountFrom(remaining, k) - 1], stored, seen + multiset{k})
  {
  }

  /** The filter that decrements a counter for every duplicate it lets go. */
  method FilterNew<K(==, !new)>(stored: seq<K>, keys: seq<K>) returns (places: seq<nat>)
    ensures places == NewPlaces(multiset(stored), keys, |keys|)
  {
    var remaining := TallyStored(stored);
    places := [];
    for i := 0 to |keys|
      invariant places == NewPlaces(multiset(stored), keys, i)
      invariant Remains(remaining, multiset(stored), multiset(keys[..i]))
    {
      assert keys[..i + 1] == keys[..i] + [keys[i]];
      OneMoreSeen(remaining, multiset(stored), multiset(keys[..i]), keys[i]);
      var left := CountFrom(remaining, keys[i]);
      if left == 0 {
        places := places + [i];
      } else {
        remaining := remaining[keys[i] := left - 1];
      }
    }
  }

  // ---------- Max-union ----------

  lemma {:induction false} NewCounts<K>(stored: multiset<K>, keys: seq<K>, n: nat, k: K)
    requires n <= |keys| && forall i | 0 <= i < |NewPlaces(stored, keys, n)| :: NewPlaces(stored, keys, n)[i] < |keys|
    ensures multiset(Pick(keys, NewPlaces(stored, keys, n)))[k] == Surplus(multiset(keys[..n])[k], stored[k])
  {
    if n > 0 {
      NewPlacesInRange(stored, keys, n - 1);
      NewCounts(stored, keys, n - 1, k);
      assert keys[..n] == keys[..n - 1] + [keys[n - 1]];
      var before, after := NewPlaces(stored, keys, n - 1), NewPlaces(stored, keys, n);
      if after != before {
        assert Pick(keys, after) == Pick(keys, before) + [keys[n - 1]];
      }
    }
  }

  /** Stored and added keys together hold, of every key, as many as the busier source. */
  lemma ImportIsMaxUnion<K>(stored: seq<K>, keys: seq<K>, k: K)
    ensures multiset(stored + NewRows(multiset(stored), keys, keys))[k] == Max(multiset(stored)[k], multiset(keys)[k])
  {
    NewPlacesInRange(multiset(stored), keys, |keys|);
    NewCounts(multiset(stored), keys, |keys|, k);
    assert keys[..|keys|] == keys;
  }
}
