/** A Python `dict` as its entries in insertion order: writing an existing key
    replaces its value in place, writing a new key appends it.  `requests`
    url-encodes a dict body in this order. */
module Dict {
  import opened Wrappers

  type Dict<K, V> = seq<(K, V)>

  predicate HasKey<K(==), V>(d: Dict<K, V>, k: K) {
    exists i :: 0 <= i < |d| && d[i].0 == k
  }

  /** No key appears in two entries. */
  predicate DistinctKeys<K(==), V>(d: Dict<K, V>) {
    forall i, j :: 0 <= i < j < |d| ==> d[i].0 != d[j].0
  }

  /** `d.get(k)`: the value of the first entry for `k`, if there is one. */
  function Lookup<K(==), V>(d: Dict<K, V>, k: K): (r: Option<V>)
    ensures r.Some? <==> HasKey(d, k)
  {
    if |d| == 0 then None
    else if d[0].0 == k then Some(d[0].1)
    else
      HasKeyTail(d, k);
      Lookup(d[1..], k)
  }

  /** Keys only found past the first entry. */
  lemma HasKeyTail<K, V>(d: Dict<K, V>, k: K)
    requires |d| > 0 && d[0].0 != k
    ensures HasKey(d, k) <==> HasKey(d[1..], k)
  {
    if HasKey(d, k) {
      var i :| 0 <= i < |d| && d[i].0 == k;
      assert d[1..][i - 1].0 == k;
    }
    if HasKey(d[1..], k) {
      var i :| 0 <= i < |d[1..]| && d[1..][i].0 == k;
      assert d[i + 1].0 == k;
    }
  }

  /** `d[k] = v`: an existing key keeps its position, a new key goes last. */
  function Put<K(==), V>(d: Dict<K, V>, k: K, v: V): (r: Dict<K, V>)
    ensures HasKey(d, k) ==> |r| == |d|
    ensures !HasKey(d, k) ==> r == d + [(k, v)]
  {
    if |d| == 0 then [(k, v)]
    else if d[0].0 == k then [(k, v)] + d[1..]
    else
      HasKeyTail(d, k);
      [d[0]] + Put(d[1..], k, v)
  }

  /** `d[k] = v` keeps every existing entry's key at its position. */
  lemma {:induction false} PutKeepsOrder<K, V>(d: Dict<K, V>, k: K, v: V, i: nat)
    requires i < |d|
    ensures i < |Put(d, k, v)| && Put(d, k, v)[i].0 == d[i].0
  {
    if i > 0 && d[0].0 != k {
      PutKeepsOrder(d[1..], k, v, i - 1);
    }
  }

  /** `d[k] = v` leaves every entry whose key is not `k` as it was. */
  lemma {:induction false} PutOverwrite<K, V>(d: Dict<K, V>, k: K, v: V, i: nat)
    requires i < |d| && d[i].0 != k
    ensures i < |Put(d, k, v)| && Put(d, k, v)[i] == d[i]
  {
    if i > 0 && d[0].0 != k {
      PutOverwrite(d[1..], k, v, i - 1);
    }
  }

  /** Writing a key again right after it was appended replaces that last
      entry. */
  lemma {:induction false} PutAgain<K, V>(d: Dict<K, V>, k: K, w: V, v: V)
    requires !HasKey(d, k)
    ensures Put(d + [(k, w)], k, v) == d + [(k, v)]
  {
    if |d| > 0 {
      HasKeyTail(d, k);
      assert (d + [(k, w)])[1..] == d[1..] + [(k, w)];
      PutAgain(d[1..], k, w, v);
      assert d == [d[0]] + d[1..];
    }
  }

  /** After `d[k] = v`, `k` holds `v` and every other key what it held. */
  lemma {:induction false} PutLookup<K, V>(d: Dict<K, V>, k: K, v: V, k': K)
    ensures Lookup(Put(d, k, v), k) == Some(v)
    ensures k' != k ==> Lookup(Put(d, k, v), k') == Lookup(d, k')
  {
    if |d| > 0 && d[0].0 != k {
      PutLookup(d[1..], k, v, k');
      assert Put(d, k, v)[1..] == Put(d[1..], k, v);
    } else if |d| > 0 {
      assert Put(d, k, v)[1..] == d[1..];
    }
  }

  /** Writing a key never creates a duplicate. */
  lemma {:induction false} PutDistinct<K, V>(d: Dict<K, V>, k: K, v: V)
    requires DistinctKeys(d)
    ensures DistinctKeys(Put(d, k, v))
  {
    if |d| > 0 && d[0].0 != k {
      PutDistinct(d[1..], k, v);
      var r := Put(d, k, v);
      assert r == [d[0]] + Put(d[1..], k, v);
      forall i, j | 0 <= i < j < |r| ensures r[i].0 != r[j].0 {
        if i > 0 {
          assert r[i].0 == Put(d[1..], k, v)[i - 1].0;
          assert r[j].0 == Put(d[1..], k, v)[j - 1].0;
        } else if j < |d| {
          PutKeepsOrder(d, k, v, j);
        } else {
          HasKeyTail(d, k);
          assert r[j] == (k, v);
        }
      }
    }
  }
}
