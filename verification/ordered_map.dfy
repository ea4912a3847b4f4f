/**
 * Python dictionaries as the model sees them: (key, value) entries in insertion
 * order. Assigning to an existing key keeps its position; a new key is appended.
 */
module OrderedMaps {

  type OrderedMap<K, V> = seq<(K, V)>

  predicate HasKey<K(==), V>(m: OrderedMap<K, V>, k: K) {
    exists i | 0 <= i < |m| :: m[i].0 == k
  }

  /** No key appears twice, as in every Python dictionary. */
  predicate DistinctKeys<K(==), V>(m: OrderedMap<K, V>) {
    forall i, j | 0 <= i < j < |m| :: m[i].0 != m[j].0
  }

  /** The keys in iteration order, as `list(m)` gives them. */
  function KeysOf<K, V>(m: OrderedMap<K, V>): (ks: seq<K>)
    ensures |ks| == |m|
  {
    if |m| == 0 then [] else [m[0].0] + KeysOf(m[1..])
  }

  /** The `i`-th key is the key of the `i`-th entry. */
  lemma {:induction false} KeysOfIndex<K, V>(m: OrderedMap<K, V>)
    ensures forall i | 0 <= i < |m| :: KeysOf(m)[i] == m[i].0
  {
    if |m| > 0 {
      KeysOfIndex(m[1..]);
      forall i | 0 < i < |m| ensures KeysOf(m)[i] == m[i].0 {
        assert KeysOf(m)[i] == KeysOf(m[1..])[i - 1];
      }
    }
  }

  /** Two maps whose entries carry the same keys, position by position, have the same key sequence. */
  lemma {:induction false} KeysOfSame<K, V>(a: OrderedMap<K, V>, b: OrderedMap<K, V>)
    requires |a| == |b| && forall i | 0 <= i < |a| :: a[i].0 == b[i].0
    ensures KeysOf(a) == KeysOf(b)
  {
    KeysOfIndex(a);
    KeysOfIndex(b);
  }

  /** A key is present exactly when it is among the keys. */
  lemma {:induction false} KeysOfHasKey<K, V>(m: OrderedMap<K, V>, k: K)
    ensures k in KeysOf(m) <==> HasKey(m, k)
  {
    KeysOfIndex(m);
    if HasKey(m, k) {
      var i :| 0 <= i < |m| && m[i].0 == k;
      assert KeysOf(m)[i] == k;
    }
  }

  /** Python's `m.get(k, default)`: reading never inserts. */
  function Get<K(==), V>(m: OrderedMap<K, V>, k: K, default: V): (r: V)
    ensures !HasKey(m, k) ==> r == default
  {
    if |m| == 0 then default
    else if m[0].0 == k then m[0].1
    else
      assert HasKey(m[1..], k) ==> HasKey(m, k);
      Get(m[1..], k, default)
  }

  /** A key that is present reads as a value stored with it. */
  lemma {:induction false} GetIsEntry<K, V>(m: OrderedMap<K, V>, k: K, default: V)
    ensures HasKey(m, k) ==> (k, Get(m, k, default)) in m
    decreases |m|
  {
    if |m| > 0 && m[0].0 != k {
      GetIsEntry(m[1..], k, default);
      if HasKey(m, k) {
        var i :| 0 <= i < |m| && m[i].0 == k;
        assert m[1..][i - 1] == m[i];
      }
    }
  }

  /** In a dictionary, `get` returns the value stored with the key. */
  lemma {:induction false} GetAt<K, V>(m: OrderedMap<K, V>, i: nat, default: V)
    requires i < |m| && DistinctKeys(m)
    ensures Get(m, m[i].0, default) == m[i].1
    decreases i
  {
    if i > 0 {
      assert DistinctKeys(m[1..]) by {
        forall a, b | 0 <= a < b < |m[1..]| ensures m[1..][a].0 != m[1..][b].0 {
          assert m[1..][a] == m[a + 1] && m[1..][b] == m[b + 1];
        }
      }
      GetAt(m[1..], i - 1, default);
      assert m[1..][i - 1] == m[i];
    }
  }

  /** Python's `m[k] = v`: overwrite in place when `k` is present, append otherwise. */
  function Put<K(==), V>(m: OrderedMap<K, V>, k: K, v: V): (r: OrderedMap<K, V>)
    ensures HasKey(m, k) ==> |r| == |m|
    ensures !HasKey(m, k) ==> r == m + [(k, v)]
    ensures forall i | 0 <= i < |m| :: r[i].0 == m[i].0
    ensures forall i | 0 <= i < |m| && m[i].0 != k :: r[i] == m[i]
  {
    if |m| == 0 then [(k, v)]
    else if m[0].0 == k then
      var r := [(k, v)] + m[1..];
      assert r[0].0 == k;
      assert forall i | 1 <= i < |m| :: r[i] == m[i];
      r
    else
      var tail := m[1..];
      var rest := Put(tail, k, v);
      var r := [m[0]] + rest;
      assert HasKey(m, k) <==> HasKey(tail, k) by {
        if HasKey(m, k) {
          var i :| 0 <= i < |m| && m[i].0 == k;
          assert tail[i - 1] == m[i];
        }
        if HasKey(tail, k) {
          var i :| 0 <= i < |tail| && tail[i].0 == k;
          assert m[i + 1] == tail[i];
        }
      }
      assert !HasKey(m, k) ==> r == m + [(k, v)] by {
        if !HasKey(m, k) {
          assert m == [m[0]] + tail;
        }
      }
      assert forall i | 1 <= i < |m| :: r[i] == rest[i - 1] && m[i] == tail[i - 1];
      r
  }

  /** `m[k] = v` keeps the keys of a dictionary distinct. */
  lemma PutDistinct<K, V>(m: OrderedMap<K, V>, k: K, v: V)
    ensures DistinctKeys(m) ==> DistinctKeys(Put(m, k, v))
  {
    var r := Put(m, k, v);
    if DistinctKeys(m) && !HasKey(m, k) {
      forall i, j | 0 <= i < j < |r| ensures r[i].0 != r[j].0 {
        if j == |m| {
          assert r[j].0 == k && r[i].0 == m[i].0;
        }
      }
    }
  }

  /** Every entry after `m[k] = v` is the new one or an entry that was already there. */
  lemma {:induction false} PutEntries<K, V>(m: OrderedMap<K, V>, k: K, v: V)
    ensures forall e | e in Put(m, k, v) :: e == (k, v) || e in m
    decreases |m|
  {
    if |m| > 0 && m[0].0 != k {
      PutEntries(m[1..], k, v);
      assert forall e | e in m[1..] :: e in m;
    }
  }

  /** After `m[k] = v`, reading `k` gives `v` and reading any other key is unaffected. */
  lemma {:induction false} GetPut<K, V>(m: OrderedMap<K, V>, k: K, v: V, k2: K, default: V)
    ensures Get(Put(m, k, v), k2, default) == if k2 == k then v else Get(m, k2, default)
    decreases |m|
  {
    if |m| == 0 {
    } else if m[0].0 == k {
      assert ([(k, v)] + m[1..])[1..] == m[1..];
    } else {
      GetPut(m[1..], k, v, k2, default);
      assert ([m[0]] + Put(m[1..], k, v))[1..] == Put(m[1..], k, v);
    }
  }

  /** `GetPut` for every other key at once. */
  lemma PutFrame<K(!new), V>(m: OrderedMap<K, V>, k: K, v: V, default: V)
    ensures Get(Put(m, k, v), k, default) == v
    ensures forall k2 | k2 != k :: Get(Put(m, k, v), k2, default) == Get(m, k2, default)
  {
    GetPut(m, k, v, k, default);
    forall k2 | k2 != k ensures Get(Put(m, k, v), k2, default) == Get(m, k2, default) {
      GetPut(m, k, v, k2, default);
    }
  }
}
