/**
 * Insertion-ordered dictionaries, the semantics of a Python `dict`: assigning to an existing key
 * keeps its position, assigning to a new key appends it, and `pop` removes the key.
 */
module Dicts {
  import opened Wrappers

  predicate Distinct<K(==)>(s: seq<K>)
  {
    forall i, j :: 0 <= i < j < |s| ==> s[i] != s[j]
  }

  /** A dictionary: its contents and its keys in iteration order. */
  datatype Dict<K(==,!new), V> = Dict(m: map<K, V>, order: seq<K>)
  {
    ghost predicate Valid()
    {
      Distinct(order) && (forall k :: k in m <==> k in order)
    }

    function Get(k: K): Option<V>
    {
      if k in m then Some(m[k]) else None
    }

    /** `d[k] = v`. */
    function Put(k: K, v: V): (r: Dict<K, V>)
      requires Valid()
      ensures r.Valid()
      ensures r.m == m[k := v]
      ensures r.order == if k in m then order else order + [k]
    {
      if k in m then Dict(m[k := v], order) else Dict(m[k := v], order + [k])
    }

    /** `d.pop(k, None)`. */
    function Pop(k: K): (r: Dict<K, V>)
      requires Valid()
      ensures r.Valid()
      ensures r.m == m - {k}
      ensures forall x :: x in r.order <==> x in order && x != k
    {
      Dict(m - {k}, Without(order, k))
    }
  }

  /** Assigning a key twice leaves the second value, at the position the first gave it. */
  lemma PutPut<K(!new), V>(d: Dict<K, V>, k: K, v: V, w: V)
    requires d.Valid()
    ensures d.Put(k, v).Put(k, w) == d.Put(k, w)
  {
  }

  function Empty<K(==,!new), V>(): (r: Dict<K, V>)
    ensures r.Valid()
  {
    Dict(map[], [])
  }

  /** The sequence with every occurrence of `k` removed, order kept. */
  function Without<K(==,!new)>(s: seq<K>, k: K): (r: seq<K>)
    ensures forall x :: x in r <==> x in s && x != k
    ensures Distinct(s) ==> Distinct(r)
    ensures |r| <= |s|
  {
    if |s| == 0 then []
    else
      var t := Without(s[1..], k);
      assert forall x :: x in s <==> x == s[0] || x in s[1..];
      assert Distinct(s) ==> s[0] !in s[1..];
      if s[0] == k then t else [s[0]] + t
  }
}
