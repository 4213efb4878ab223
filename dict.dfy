/**
 * Python's insertion-ordered `dict`, as the sequence of its items. A dict
 * comprehension inserts its pairs in order: a repeated key keeps the
 * position of its first insertion and takes the value of its last.
 */
module Dict {
  import opened Wrappers

  type Dict<K, V> = seq<(K, V)>

  /** `list(d.keys())`. */
  function Keys<K, V>(d: Dict<K, V>): (ks: seq<K>)
    ensures |ks| == |d| && forall i | 0 <= i < |d| :: ks[i] == d[i].0
  {
    if d == [] then [] else [d[0].0] + Keys(d[1..])
  }

  /** `list(d.values())`. */
  function Values<K, V>(d: Dict<K, V>): (vs: seq<V>)
    ensures |vs| == |d| && forall i | 0 <= i < |d| :: vs[i] == d[i].1
  {
    if d == [] then [] else [d[0].1] + Values(d[1..])
  }

  /** No key occurs twice: what every dict satisfies. */
  ghost predicate DistinctKeys<K, V>(d: Dict<K, V>) {
    forall i, j | 0 <= i < j < |d| :: d[i].0 != d[j].0
  }

  /** `d.get(k)`: the value of the first item with key `k`. */
  function Lookup<K(==), V>(d: Dict<K, V>, k: K): Option<V> {
    if d == [] then None
    else if d[0].0 == k then Some(d[0].1)
    else Lookup(d[1..], k)
  }

  /** `d[k] = v`: replace the value in place, or append a new item. */
  function Put<K(==), V>(d: Dict<K, V>, k: K, v: V): Dict<K, V> {
    if d == [] then [(k, v)]
    else if d[0].0 == k then [(k, v)] + d[1..]
    else [d[0]] + Put(d[1..], k, v)
  }

  /** `{k: v for k, v in ps}`. */
  function FromPairs<K(==), V>(ps: seq<(K, V)>): Dict<K, V> {
    if ps == [] then []
    else
      var last := ps[|ps| - 1];
      Put(FromPairs(ps[..|ps| - 1]), last.0, last.1)
  }

  /** The value of the last pair with key `k`. */
  function LastPairValue<K(==), V>(ps: seq<(K, V)>, k: K): Option<V> {
    if ps == [] then None
    else if ps[|ps| - 1].0 == k then Some(ps[|ps| - 1].1)
    else LastPairValue(ps[..|ps| - 1], k)
  }

  lemma {:induction false} LookupFound<K, V>(d: Dict<K, V>, k: K)
    ensures Lookup(d, k).Some? <==> k in Keys(d)
  {
    if d != [] {
      LookupFound(d[1..], k);
      assert Keys(d) == [d[0].0] + Keys(d[1..]);
    }
  }

  /** Putting changes only the item for `k`, adding it at the end if it was new. */
  lemma PutKeys<K, V>(d: Dict<K, V>, k: K, v: V)
    ensures Keys(Put(d, k, v)) == if k in Keys(d) then Keys(d) else Keys(d) + [k]
  {
    if k in Keys(d) {
      PutExistingKeys(d, k, v);
    } else {
      PutNew(d, k, v);
      assert Keys(d + [(k, v)]) == Keys(d) + [k];
    }
  }

  lemma {:induction false} PutExistingKeys<K, V>(d: Dict<K, V>, k: K, v: V)
    requires k in Keys(d)
    ensures Keys(Put(d, k, v)) == Keys(d)
  {
    assert Keys(d) == [d[0].0] + Keys(d[1..]);
    if d[0].0 != k {
      PutExistingKeys(d[1..], k, v);
      assert Keys(Put(d, k, v)) == [d[0].0] + Keys(Put(d[1..], k, v));
    } else {
      assert Keys(Put(d, k, v)) == [k] + Keys(d[1..]);
    }
  }

  lemma PutDistinct<K, V>(d: Dict<K, V>, k: K, v: V)
    requires DistinctKeys(d)
    ensures DistinctKeys(Put(d, k, v))
  {
    var r := Put(d, k, v);
    PutKeys(d, k, v);
    forall i, j | 0 <= i < j < |r|
      ensures r[i].0 != r[j].0
    {
      assert Keys(r)[i] == r[i].0 && Keys(r)[j] == r[j].0;
      if k !in Keys(d) && j == |d| {
        assert Keys(r)[i] == Keys(d)[i] && Keys(d)[i] in Keys(d);
      } else {
        assert Keys(r)[i] == Keys(d)[i] && Keys(r)[j] == Keys(d)[j];
      }
    }
  }

  lemma {:induction false} PutLookup<K, V>(d: Dict<K, V>, k: K, v: V, k': K)
    requires DistinctKeys(d)
    ensures Lookup(Put(d, k, v), k') == if k' == k then Some(v) else Lookup(d, k')
  {
    if d != [] && d[0].0 != k {
      PutLookup(d[1..], k, v, k');
    }
  }

  /** A dict comprehension builds a dict with distinct keys. */
  lemma {:induction false} FromPairsDistinct<K, V>(ps: seq<(K, V)>)
    ensures DistinctKeys(FromPairs(ps))
  {
    if ps != [] {
      var init := ps[..|ps| - 1];
      FromPairsDistinct(init);
      PutDistinct(FromPairs(init), ps[|ps| - 1].0, ps[|ps| - 1].1);
    }
  }

  /** Its keys are those of the pairs. */
  lemma {:induction false} FromPairsKeys<K, V>(ps: seq<(K, V)>, k: K)
    ensures k in Keys(FromPairs(ps)) <==> k in Keys(ps)
  {
    if ps != [] {
      var init := ps[..|ps| - 1];
      var last := ps[|ps| - 1];
      FromPairsKeys(init, k);
      PutKeys(FromPairs(init), last.0, last.1);
      KeysOfPrefix(ps);
    }
  }

  /** Each key takes the value of the last pair that names it. */
  lemma {:induction false} FromPairsLookup<K, V>(ps: seq<(K, V)>, k: K)
    ensures Lookup(FromPairs(ps), k) == LastPairValue(ps, k)
  {
    if ps != [] {
      var init := ps[..|ps| - 1];
      var last := ps[|ps| - 1];
      FromPairsLookup(init, k);
      FromPairsDistinct(init);
      PutLookup(FromPairs(init), last.0, last.1, k);
    }
  }

  /** With distinct keys the comprehension gives back its pairs unchanged, in order. */
  lemma {:induction false} FromDistinctPairs<K, V>(ps: seq<(K, V)>)
    requires DistinctKeys(ps)
    ensures FromPairs(ps) == ps
  {
    if ps != [] {
      var init := ps[..|ps| - 1];
      var last := ps[|ps| - 1];
      FromDistinctPairs(init);
      assert last.0 !in Keys(init);
      PutNew(init, last.0, last.1);
    }
  }

  lemma {:induction false} PutNew<K, V>(d: Dict<K, V>, k: K, v: V)
    requires k !in Keys(d)
    ensures Put(d, k, v) == d + [(k, v)]
  {
    if d != [] {
      assert Keys(d) == [d[0].0] + Keys(d[1..]);
      PutNew(d[1..], k, v);
      assert d == [d[0]] + d[1..];
    }
  }

  /** Every item of `d[k] = v` was an item of `d` or is the new one. */
  lemma {:induction false} PutItems<K, V>(d: Dict<K, V>, k: K, v: V, p: (K, V))
    requires p in Put(d, k, v)
    ensures p in d || p == (k, v)
  {
    if d != [] && d[0].0 != k && p != d[0] {
      assert p in Put(d[1..], k, v);
      PutItems(d[1..], k, v, p);
    } else if d != [] && d[0].0 == k && p != (k, v) {
      assert p in d[1..];
    }
  }

  /** Every item of a dict comprehension is one of its pairs. */
  lemma {:induction false} FromPairsItems<K, V>(ps: seq<(K, V)>, p: (K, V))
    requires p in FromPairs(ps)
    ensures p in ps
  {
    var init := ps[..|ps| - 1];
    var last := ps[|ps| - 1];
    PutItems(FromPairs(init), last.0, last.1, p);
    if p != last {
      FromPairsItems(init, p);
    }
  }

  /** A found value is that of an item of the dict. */
  lemma {:induction false} LookupIndex<K, V>(d: Dict<K, V>, k: K) returns (i: nat)
    requires Lookup(d, k).Some?
    ensures i < |d| && d[i] == (k, Lookup(d, k).value)
  {
    if d[0].0 == k {
      i := 0;
    } else {
      var j := LookupIndex(d[1..], k);
      i := j + 1;
    }
  }

  /** `list(d.keys())` of all items but the last, then the last key. */
  lemma {:induction false} KeysOfPrefix<K, V>(d: Dict<K, V>)
    requires d != []
    ensures Keys(d) == Keys(d[..|d| - 1]) + [d[|d| - 1].0]
  {
    var init := d[..|d| - 1];
    assert |Keys(d)| == |Keys(init) + [d[|d| - 1].0]|;
    forall i | 0 <= i < |d|
      ensures Keys(d)[i] == (Keys(init) + [d[|d| - 1].0])[i]
    {
      if i < |init| {
        assert init[i] == d[i];
      }
    }
  }

  /** Dicts with the same keys, in order, are alike in having distinct keys. */
  lemma SameKeysDistinct<K, V, W>(a: Dict<K, V>, b: Dict<K, W>)
    requires DistinctKeys(a) && Keys(a) == Keys(b)
    ensures DistinctKeys(b)
  {
    forall i, j | 0 <= i < j < |b|
      ensures b[i].0 != b[j].0
    {
      assert Keys(a)[i] == a[i].0 && Keys(a)[j] == a[j].0;
    }
  }
}
