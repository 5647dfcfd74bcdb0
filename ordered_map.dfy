/**
 * An insertion-ordered dictionary, as a JavaScript `Map` behaves: a list of
 * key/value pairs kept in the order in which each key was first set. Setting
 * a key that is already present replaces its value where it stands.
 */
module OrderedMap {
  import opened Wrappers

  /** The keys of `m`, in insertion order. */
  function Keys<K, V>(m: seq<(K, V)>): (ks: seq<K>)
    ensures |ks| == |m|
  {
    if m == [] then [] else [m[0].0] + Keys(m[1..])
  }

  predicate Distinct<T(==)>(s: seq<T>)
  {
    forall i, j :: 0 <= i < j < |s| ==> s[i] != s[j]
  }

  /** `Map.prototype.get`: the value stored under `k`, if any. */
  function Get<K(==), V>(m: seq<(K, V)>, k: K): Option<V>
  {
    if m == [] then None
    else if m[0].0 == k then Some(m[0].1)
    else Get(m[1..], k)
  }

  /**
   * `Map.prototype.set`: a new key goes to the end, an existing key keeps
   * its position and gets the new value; every other key is untouched.
   */
  function Put<K(==,!new), V>(m: seq<(K, V)>, k: K, v: V): (r: seq<(K, V)>)
    ensures Get(r, k) == Some(v)
    ensures forall k' :: k' != k ==> Get(r, k') == Get(m, k')
  {
    if m == [] then [(k, v)]
    else if m[0].0 == k then
      assert ([(k, v)] + m[1..])[1..] == m[1..];
      [(k, v)] + m[1..]
    else
      var rest := Put(m[1..], k, v);
      assert ([m[0]] + rest)[1..] == rest;
      [m[0]] + rest
  }

  /** A key has a value exactly when it is one of the keys. */
  lemma {:induction false} GetKeys<K, V>(m: seq<(K, V)>, k: K)
    ensures Get(m, k).Some? <==> k in Keys(m)
  {
    if m != [] {
      GetKeys(m[1..], k);
    }
  }

  /** A new key goes to the end of the key order; an existing key keeps its place. */
  lemma {:induction false} PutKeys<K(!new), V>(m: seq<(K, V)>, k: K, v: V)
    ensures Keys(Put(m, k, v)) == if k in Keys(m) then Keys(m) else Keys(m) + [k]
  {
    if m == [] {
      assert Keys(Put(m, k, v)) == [k];
    } else if m[0].0 == k {
      var r := Put(m, k, v);
      assert r[0].0 == k && r[1..] == m[1..];
      assert Keys(r) == [k] + Keys(m[1..]) == Keys(m);
    } else {
      var rest := Put(m[1..], k, v);
      PutKeys(m[1..], k, v);
      assert ([m[0]] + rest)[1..] == rest;
      assert Keys(m) == [m[0].0] + Keys(m[1..]);
      assert Keys(Put(m, k, v)) == [m[0].0] + Keys(rest);
      assert k in Keys(m) <==> k in Keys(m[1..]);
    }
  }

  /** Setting a key twice leaves only the second value. */
  lemma {:induction false} PutPut<K(!new), V>(m: seq<(K, V)>, k: K, v1: V, v2: V)
    ensures Put(Put(m, k, v1), k, v2) == Put(m, k, v2)
  {
    if m != [] && m[0].0 != k {
      PutPut(m[1..], k, v1, v2);
    }
  }

  /** Setting a key to the value it already holds changes nothing. */
  lemma {:induction false} PutUnchanged<K(!new), V>(m: seq<(K, V)>, k: K, v: V)
    requires Get(m, k) == Some(v)
    ensures Put(m, k, v) == m
  {
    if m[0].0 != k {
      PutUnchanged(m[1..], k, v);
    }
  }

  /** Appending a pair appends its key. */
  lemma {:induction false} KeysSnoc<K, V>(m: seq<(K, V)>, p: (K, V))
    ensures Keys(m + [p]) == Keys(m) + [p.0]
  {
    if m != [] {
      KeysSnoc(m[1..], p);
      assert (m + [p])[1..] == m[1..] + [p];
    }
  }

  /** The `i`-th key is the key of the `i`-th pair. */
  lemma {:induction false} KeysAt<K, V>(m: seq<(K, V)>, i: nat)
    requires i < |m|
    ensures Keys(m)[i] == m[i].0
  {
    if i > 0 {
      KeysAt(m[1..], i - 1);
    }
  }

  /** With distinct keys, the pair at position `i` is the one `Get` finds. */
  lemma {:induction false} GetAt<K, V>(m: seq<(K, V)>, i: nat)
    requires Distinct(Keys(m)) && i < |m|
    ensures Get(m, m[i].0) == Some(m[i].1)
  {
    if i > 0 {
      KeysAt(m, 0);
      KeysAt(m, i);
      assert Keys(m)[1..] == Keys(m[1..]);
      GetAt(m[1..], i - 1);
    }
  }

  /**
   * `ks` extended by every element of `xs` that it does not already hold,
   * in the order of first occurrence: the key order that a run of `set`
   * calls with the keys `xs` produces from a map whose keys are `ks`.
   */
  function AppendNew<T(==,!new)>(ks: seq<T>, xs: seq<T>): (r: seq<T>)
    ensures forall x :: x in r <==> x in ks || x in xs
    ensures Distinct(ks) ==> Distinct(r)
    decreases |xs|
  {
    if xs == [] then ks
    else
      var prev := AppendNew(ks, xs[..|xs| - 1]);
      if xs[|xs| - 1] in prev then prev else prev + [xs[|xs| - 1]]
  }

  /** Adding new elements in two batches is adding the concatenation. */
  lemma {:induction false} AppendNewConcat<T(!new)>(ks: seq<T>, xs: seq<T>, ys: seq<T>)
    ensures AppendNew(AppendNew(ks, xs), ys) == AppendNew(ks, xs + ys)
    decreases |ys|
  {
    if ys == [] {
      assert xs + ys == xs;
    } else {
      AppendNewConcat(ks, xs, ys[..|ys| - 1]);
      assert (xs + ys)[..|xs + ys| - 1] == xs + ys[..|ys| - 1];
    }
  }
}
