/** Python's `dict`, which remembers the order in which its keys were first inserted.
    The summary engine accumulates into two of them. */
module OrderedDict {

  /** A dictionary: its entries, and its keys in insertion order. */
  datatype Dict<K, V> = Dict(keys: seq<K>, entries: map<K, V>)

  predicate Distinct<K(==)>(s: seq<K>)
  {
    forall i, j :: 0 <= i < j < |s| ==> s[i] != s[j]
  }

  /** The key order lists each key of the map exactly once. */
  ghost predicate Valid<K(!new), V>(d: Dict<K, V>)
  {
    Distinct(d.keys) && forall k :: k in d.entries <==> k in d.keys
  }

  function Empty<K, V>(): Dict<K, V>
  {
    Dict([], map[])
  }

  /** `d[k] = v`: a new key goes to the end of the order, a present key keeps its place. */
  function Put<K(==, !new), V>(d: Dict<K, V>, k: K, v: V): (r: Dict<K, V>)
    requires Valid(d)
    ensures Valid(r)
  {
    if k in d.entries then Dict(d.keys, d.entries[k := v]) else Dict(d.keys + [k], d.entries[k := v])
  }

  /** Writing a key twice is writing it once with the second value. */
  lemma PutTwice<K(!new), V>(d: Dict<K, V>, k: K, v1: V, v2: V)
    requires Valid(d)
    ensures Put(Put(d, k, v1), k, v2) == Put(d, k, v2)
  {
    assert d.entries[k := v1][k := v2] == d.entries[k := v2];
  }

  /** `d.get(k, default)`. */
  function Get<K(==), V>(d: Dict<K, V>, k: K, default: V): V
  {
    if k in d.entries then d.entries[k] else default
  }

  /** Index of the first occurrence of `x` in `s`. */
  function FirstIndex<K(==)>(s: seq<K>, x: K): (i: nat)
    requires x in s
    ensures i < |s| && s[i] == x && x !in s[..i]
  {
    if s[0] == x then 0 else 1 + FirstIndex(s[1..], x)
  }

  /** `keys` lists the distinct elements of `stream`, each once, in the order of their first appearance. */
  ghost predicate InFirstSeenOrder<K(!new)>(keys: seq<K>, stream: seq<K>)
  {
    && Distinct(keys)
    && (forall x :: x in keys <==> x in stream)
    && forall i, j :: 0 <= i < j < |keys| ==> FirstIndex(stream, keys[i]) < FirstIndex(stream, keys[j])
  }

  /** Appending to a stream does not move the first occurrence of an element already in it. */
  lemma {:induction false} FirstIndexAppend<K>(s: seq<K>, y: K, x: K)
    requires x in s
    ensures FirstIndex(s + [y], x) == FirstIndex(s, x)
  {
    if s[0] != x {
      assert (s + [y])[1..] == s[1..] + [y];
      FirstIndexAppend(s[1..], y, x);
    }
  }

  /** The dictionary filled by `d[k] = v` for each `k` of a stream keeps its keys in first-seen order. */
  lemma PutKeepsFirstSeenOrder<K(!new), V>(d: Dict<K, V>, stream: seq<K>, k: K, v: V)
    requires Valid(d) && InFirstSeenOrder(d.keys, stream)
    ensures InFirstSeenOrder(Put(d, k, v).keys, stream + [k])
  {
    var keys := Put(d, k, v).keys;
    var stream' := stream + [k];
    forall x | x in stream ensures FirstIndex(stream', x) == FirstIndex(stream, x) {
      FirstIndexAppend(stream, k, x);
    }
    if k !in d.entries {
      assert k !in stream;
      assert FirstIndex(stream', k) == |stream| by {
        assert stream'[..|stream|] == stream;
      }
      forall i, j | 0 <= i < j < |keys|
        ensures FirstIndex(stream', keys[i]) < FirstIndex(stream', keys[j])
      {
        if j == |keys| - 1 {
          assert keys[i] in d.keys;
        } else {
          assert keys[i] == d.keys[i] && keys[j] == d.keys[j];
        }
      }
    }
  }

  /** Sum over the keys, in order, of `f` applied to each key's entry. */
  function SumOf<K(==), V>(keys: seq<K>, m: map<K, V>, f: V -> int): int
    requires forall k :: k in keys ==> k in m
  {
    if keys == [] then 0 else SumOf(keys[..|keys| - 1], m, f) + f(m[keys[|keys| - 1]])
  }

  /** Changing the entry of a key outside the key list leaves the sum alone. */
  lemma {:induction false} SumOfOtherKey<K, V>(keys: seq<K>, m: map<K, V>, k: K, v: V, f: V -> int)
    requires forall x :: x in keys ==> x in m
    requires k !in keys
    ensures SumOf(keys, m[k := v], f) == SumOf(keys, m, f)
  {
    if keys != [] {
      SumOfOtherKey(keys[..|keys| - 1], m, k, v, f);
    }
  }

  /** Changing the entry of a listed key changes the sum by the difference of `f` on it. */
  lemma {:induction false} SumOfUpdate<K, V>(keys: seq<K>, m: map<K, V>, k: K, v: V, f: V -> int)
    requires forall x :: x in keys ==> x in m
    requires Distinct(keys) && k in keys
    ensures SumOf(keys, m[k := v], f) == SumOf(keys, m, f) - f(m[k]) + f(v)
  {
    var init := keys[..|keys| - 1];
    if keys[|keys| - 1] == k {
      assert k !in init;
      SumOfOtherKey(init, m, k, v, f);
    } else {
      assert k in init;
      SumOfUpdate(init, m, k, v, f);
    }
  }

  /** `d[k] = v` changes the sum over the dictionary by `f(v)` less what `k` held before. */
  lemma SumOfPut<K(!new), V>(d: Dict<K, V>, k: K, v: V, f: V -> int)
    requires Valid(d)
    ensures SumOf(Put(d, k, v).keys, Put(d, k, v).entries, f)
         == SumOf(d.keys, d.entries, f) - (if k in d.entries then f(d.entries[k]) else 0) + f(v)
  {
    var r := Put(d, k, v);
    if k in d.entries {
      SumOfUpdate(d.keys, d.entries, k, v, f);
    } else {
      assert r.keys[..|r.keys| - 1] == d.keys;
      SumOfOtherKey(d.keys, d.entries, k, v, f);
    }
  }

  /** Sum of `g` over a list, left to right. */
  function SumBy<T>(s: seq<T>, g: T -> int): int
  {
    if s == [] then 0 else SumBy(s[..|s| - 1], g) + g(s[|s| - 1])
  }

  /** A list that lays out a dictionary's entries in key order has the dictionary's sum. */
  lemma {:induction false} SumByListsSumOf<K, V, T>(s: seq<T>, g: T -> int, keys: seq<K>, m: map<K, V>, f: V -> int)
    requires forall k :: k in keys ==> k in m
    requires |s| == |keys|
    requires forall i :: 0 <= i < |s| ==> g(s[i]) == f(m[keys[i]])
    ensures SumBy(s, g) == SumOf(keys, m, f)
  {
    if s != [] {
      SumByListsSumOf(s[..|s| - 1], g, keys[..|keys| - 1], m, f);
    }
  }
}
