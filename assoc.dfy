/**
  A JavaScript object used as a dictionary (`Record<K, V>` filled at run time): its entries in
  insertion order, which is the order `Object.entries` visits. Reading a missing key gives
  `undefined`; assigning a missing key appends it, assigning a present key replaces its value in
  place.
*/
module Assoc {
  import opened Wrappers
  import opened Folds

  /** The position of key `k`, or -1 when the object has no such key. */
  function KeyIndex<K(==), V>(acc: seq<(K, V)>, k: K): (j: int)
    ensures -1 <= j < |acc|
    ensures 0 <= j ==> acc[j].0 == k && forall i :: 0 <= i < j ==> acc[i].0 != k
    ensures j == -1 ==> forall i :: 0 <= i < |acc| ==> acc[i].0 != k
  {
    if acc == [] then -1
    else if acc[0].0 == k then 0
    else
      var j := KeyIndex(acc[1..], k);
      if j == -1 then -1 else j + 1
  }

  /** `acc[k]`; `None` is `undefined`. */
  function Lookup<K(==), V>(acc: seq<(K, V)>, k: K): Option<V> {
    var j := KeyIndex(acc, k);
    if j == -1 then None else Some(acc[j].1)
  }

  /** `acc[k] = v`. */
  function Store<K(==), V>(acc: seq<(K, V)>, k: K, v: V): seq<(K, V)> {
    var j := KeyIndex(acc, k);
    if j == -1 then acc + [(k, v)] else acc[j := (k, v)]
  }

  /** No key occurs twice. */
  ghost predicate DistinctKeys<K, V>(acc: seq<(K, V)>) {
    forall i, j :: 0 <= i < j < |acc| ==> acc[i].0 != acc[j].0
  }

  /** The first position holding key `k` is the one `KeyIndex` finds. */
  lemma {:induction false} KeyIndexIs<K, V>(acc: seq<(K, V)>, k: K, j: int)
    requires -1 <= j < |acc|
    requires 0 <= j ==> acc[j].0 == k && forall i :: 0 <= i < j ==> acc[i].0 != k
    requires j == -1 ==> forall i :: 0 <= i < |acc| ==> acc[i].0 != k
    ensures KeyIndex(acc, k) == j
  {
  }

  /** Reading a key after storing it gives the stored value. */
  lemma {:induction false} StoreThenLookup<K, V>(acc: seq<(K, V)>, k: K, v: V)
    ensures Lookup(Store(acc, k, v), k) == Some(v)
  {
    var j := KeyIndex(acc, k);
    if j == -1 {
      KeyIndexIs(acc + [(k, v)], k, |acc|);
    } else {
      KeyIndexIs(acc[j := (k, v)], k, j);
    }
  }

  /** Storing one key leaves every other key reading as before. */
  lemma {:induction false} StoreKeepsOthers<K, V>(acc: seq<(K, V)>, k: K, v: V, other: K)
    requires other != k
    ensures Lookup(Store(acc, k, v), other) == Lookup(acc, other)
  {
    var j := KeyIndex(acc, k);
    var i := KeyIndex(acc, other);
    if j == -1 {
      KeyIndexIs(acc + [(k, v)], other, i);
    } else {
      KeyIndexIs(acc[j := (k, v)], other, i);
    }
  }

  /** Storing a value changes a sum over the entries by the new entry less the one it replaces. */
  lemma {:induction false} StoreSum<K, V>(acc: seq<(K, V)>, k: K, v: V, f: ((K, V)) -> int)
    ensures SumOf(Store(acc, k, v), f)
            == SumOf(acc, f) + f((k, v)) - (match Lookup(acc, k) case None => 0 case Some(u) => f((k, u)))
  {
    var j := KeyIndex(acc, k);
    if j == -1 {
      SumSnoc(acc, (k, v), f);
    } else {
      SumUpdate(acc, j, (k, v), f);
    }
  }
}
