/**
 * Python's `sorted(xs, key=...)` (a stable sort) and `itertools.groupby(xs, key=...)`
 * over sequences, with the facts the frame assembly relies on: sorting keeps every
 * element and, for each key, the elements' relative order; grouping a sorted
 * sequence yields one group per key, in increasing key order.
 */
module Ordering {

  /** `lt` is a strict total order: irreflexive, transitive and connected. */
  ghost predicate StrictTotalOrder<K(!new)>(lt: (K, K) -> bool) {
    && Irreflexive(lt)
    && (forall a, b, c :: lt(a, b) && lt(b, c) ==> lt(a, c))
    && (forall a, b :: a != b ==> lt(a, b) || lt(b, a))
  }

  ghost predicate Irreflexive<K(!new)>(lt: (K, K) -> bool) {
    forall a :: !lt(a, a)
  }

  /** Python's `<` on integers, for the z-slice sort key. */
  predicate NatLt(a: nat, b: nat) {
    a < b
  }

  lemma NatLtIsStrictTotalOrder()
    ensures StrictTotalOrder(NatLt)
  {
  }

  /** No element's key is below the key of an element before it. */
  ghost predicate SortedBy<T, K>(s: seq<T>, key: T -> K, lt: (K, K) -> bool) {
    forall i, j :: 0 <= i < j < |s| ==> !lt(key(s[j]), key(s[i]))
  }

  /** The elements of `s` whose key is `k`, in the order in which `s` holds them. */
  function Matching<T, K(==)>(s: seq<T>, key: T -> K, k: K): seq<T>
  {
    if s == [] then []
    else (if key(s[0]) == k then [s[0]] else []) + Matching(s[1..], key, k)
  }

  lemma {:induction false} MatchingMembers<T, K>(s: seq<T>, key: T -> K, k: K)
    ensures forall x :: x in Matching(s, key, k) <==> x in s && key(x) == k
  {
    if s != [] {
      MatchingMembers(s[1..], key, k);
      assert s == [s[0]] + s[1..];
    }
  }

  lemma MatchingCons<T, K>(x: T, s: seq<T>, key: T -> K, k: K)
    ensures Matching([x] + s, key, k) == (if key(x) == k then [x] else []) + Matching(s, key, k)
  {
    assert ([x] + s)[1..] == s;
  }

  lemma {:induction false} MatchingConcat<T, K>(a: seq<T>, b: seq<T>, key: T -> K, k: K)
    ensures Matching(a + b, key, k) == Matching(a, key, k) + Matching(b, key, k)
  {
    if a != [] {
      var head := if key(a[0]) == k then [a[0]] else [];
      calc {
        Matching(a + b, key, k);
        { assert a + b == [a[0]] + (a[1..] + b); MatchingCons(a[0], a[1..] + b, key, k); }
        head + Matching(a[1..] + b, key, k);
        { MatchingConcat(a[1..], b, key, k); }
        head + (Matching(a[1..], key, k) + Matching(b, key, k));
        (head + Matching(a[1..], key, k)) + Matching(b, key, k);
        { assert a == [a[0]] + a[1..]; MatchingCons(a[0], a[1..], key, k); }
        Matching(a, key, k) + Matching(b, key, k);
      }
    } else {
      assert a + b == b;
    }
  }

  lemma {:induction false} MatchingAll<T, K>(s: seq<T>, key: T -> K, k: K)
    requires forall x | x in s :: key(x) == k
    ensures Matching(s, key, k) == s
  {
    if s != [] {
      MatchingAll(s[1..], key, k);
    }
  }

  lemma {:induction false} MatchingNone<T, K>(s: seq<T>, key: T -> K, k: K)
    requires forall x | x in s :: key(x) != k
    ensures Matching(s, key, k) == []
  {
    if s != [] {
      MatchingNone(s[1..], key, k);
    }
  }

  /** Places `x` before the first element whose key is not below `key(x)`. */
  function Insert<T, K>(x: T, s: seq<T>, key: T -> K, lt: (K, K) -> bool): seq<T>
  {
    if s == [] || !lt(key(s[0]), key(x)) then [x] + s
    else [s[0]] + Insert(x, s[1..], key, lt)
  }

  lemma {:induction false} InsertPermutes<T, K>(x: T, s: seq<T>, key: T -> K, lt: (K, K) -> bool)
    ensures multiset(Insert(x, s, key, lt)) == multiset(s) + multiset{x}
  {
    if s != [] && lt(key(s[0]), key(x)) {
      InsertPermutes(x, s[1..], key, lt);
      assert s == [s[0]] + s[1..];
    }
  }

  lemma {:induction false} InsertSorted<T, K(!new)>(x: T, s: seq<T>, key: T -> K, lt: (K, K) -> bool)
    requires StrictTotalOrder(lt)
    requires SortedBy(s, key, lt)
    ensures SortedBy(Insert(x, s, key, lt), key, lt)
  {
    var r := Insert(x, s, key, lt);
    if s == [] || !lt(key(s[0]), key(x)) {
      forall j | 0 < j < |r|
        ensures !lt(key(r[j]), key(x))
      {
        assert r[j] == s[j - 1];
        if j > 1 {
          assert !lt(key(s[j - 1]), key(s[0]));
        }
      }
    } else {
      var tail := Insert(x, s[1..], key, lt);
      InsertSorted(x, s[1..], key, lt);
      InsertPermutes(x, s[1..], key, lt);
      forall y | y in tail
        ensures !lt(key(y), key(s[0]))
      {
        assert y in multiset(tail);
        if y != x {
          assert y in multiset(s[1..]);
          var j :| 0 <= j < |s[1..]| && s[1..][j] == y;
          assert s[j + 1] == y;
        }
      }
    }
  }

  lemma {:induction false} InsertMatching<T, K(!new)>(x: T, s: seq<T>, key: T -> K, lt: (K, K) -> bool, k: K)
    requires Irreflexive(lt)
    ensures Matching(Insert(x, s, key, lt), key, k)
         == (if key(x) == k then [x] else []) + Matching(s, key, k)
  {
    if s == [] || !lt(key(s[0]), key(x)) {
      MatchingCons(x, s, key, k);
    } else {
      var tail := Insert(x, s[1..], key, lt);
      InsertMatching(x, s[1..], key, lt, k);
      MatchingCons(s[0], tail, key, k);
      MatchingCons(s[0], s[1..], key, k);
      assert s == [s[0]] + s[1..];
      if key(x) == k {
        assert key(s[0]) != k;
      }
    }
  }

  /** Python's `sorted(s, key=key)` for keys compared by `lt`: an insertion sort that is stable. */
  function SortBy<T, K(!new)>(s: seq<T>, key: T -> K, lt: (K, K) -> bool): (r: seq<T>)
    requires StrictTotalOrder(lt)
    ensures |r| == |s| && multiset(r) == multiset(s)
    ensures SortedBy(r, key, lt)
    ensures forall k :: Matching(r, key, k) == Matching(s, key, k)
  {
    if s == [] then []
    else
      var rest := SortBy(s[1..], key, lt);
      assert s == [s[0]] + s[1..];
      InsertSorted(s[0], rest, key, lt);
      InsertPermutes(s[0], rest, key, lt);
      assert forall k :: Matching(Insert(s[0], rest, key, lt), key, k) == Matching(s, key, k) by {
        forall k
          ensures Matching(Insert(s[0], rest, key, lt), key, k) == Matching(s, key, k)
        {
          InsertMatching(s[0], rest, key, lt, k);
        }
      }
      var r := Insert(s[0], rest, key, lt);
      assert |r| == |multiset(r)|;
      r
  }

  /** The concatenation of the groups' members. */
  function Flatten<K, T>(gs: seq<(K, seq<T>)>): seq<T>
  {
    if gs == [] then [] else gs[0].1 + Flatten(gs[1..])
  }

  lemma {:induction false} FlattenMembers<K, T>(gs: seq<(K, seq<T>)>)
    ensures forall x :: x in Flatten(gs) <==> exists i :: 0 <= i < |gs| && x in gs[i].1
  {
    if gs != [] {
      FlattenMembers(gs[1..]);
      assert forall i :: 0 < i < |gs| ==> gs[i] == gs[1..][i - 1];
    }
  }

  /**
   * The groups of `itertools.groupby(s, key=key)`: the maximal runs of consecutive
   * elements with equal keys, each paired with that key.
   */
  function GroupRuns<T, K(==)>(s: seq<T>, key: T -> K): (r: seq<(K, seq<T>)>)
    ensures Flatten(r) == s
    ensures forall i | 0 <= i < |r| :: r[i].1 != [] && forall x | x in r[i].1 :: key(x) == r[i].0
    ensures forall i, j | 0 <= i < j < |r| && j == i + 1 :: r[i].0 != r[j].0
    ensures s == [] <==> r == []
    ensures s != [] ==> r[0].0 == key(s[0])
  {
    if s == [] then []
    else
      var rest := GroupRuns(s[1..], key);
      if rest != [] && rest[0].0 == key(s[0]) then
        var r := [(rest[0].0, [s[0]] + rest[0].1)] + rest[1..];
        assert r[1..] == rest[1..];
        assert Flatten(rest) == rest[0].1 + Flatten(rest[1..]);
        r
      else
        var r := [(key(s[0]), [s[0]])] + rest;
        assert r[1..] == rest;
        r
  }

  /** Facts about the groups of a sorted sequence, as `GroupRunsOfSorted` states them. */
  ghost predicate OrderedGroupsOf<T, K>(s: seq<T>, r: seq<(K, seq<T>)>, key: T -> K, lt: (K, K) -> bool) {
    && (forall i, j | 0 <= i < j < |r| :: lt(r[i].0, r[j].0))
    && (forall i | 0 <= i < |r| :: r[i].1 == Matching(s, key, r[i].0))
  }

  /**
   * Grouping a sorted sequence: the group keys strictly increase, so each key has
   * exactly one group, and a key's group holds every element with that key, in order.
   */
  lemma {:induction false} GroupRunsOfSorted<T, K(!new)>(s: seq<T>, key: T -> K, lt: (K, K) -> bool)
    requires StrictTotalOrder(lt)
    requires SortedBy(s, key, lt)
    ensures OrderedGroupsOf(s, GroupRuns(s, key), key, lt)
  {
    if s != [] {
      var x, tail := s[0], s[1..];
      assert s == [x] + tail;
      GroupRunsOfSorted(tail, key, lt);
      var rest := GroupRuns(tail, key);
      if rest != [] && rest[0].0 == key(x) {
        RunJoinsFirstGroup(x, tail, rest, key, lt);
      } else if rest != [] {
        assert !lt(key(tail[0]), key(x));
        forall y | y in tail
          ensures !lt(key(y), key(tail[0]))
        {
          var j :| 0 <= j < |tail| && tail[j] == y;
          if j > 0 {
            assert !lt(key(s[j + 1]), key(s[1]));
          }
        }
        RunStartsNewGroup(x, tail, rest, key, lt);
      }
    }
  }

  lemma RunJoinsFirstGroup<T, K(!new)>(x: T, tail: seq<T>, rest: seq<(K, seq<T>)>, key: T -> K, lt: (K, K) -> bool)
    requires StrictTotalOrder(lt)
    requires OrderedGroupsOf(tail, rest, key, lt)
    requires rest != [] && rest[0].0 == key(x)
    ensures OrderedGroupsOf([x] + tail, [(key(x), [x] + rest[0].1)] + rest[1..], key, lt)
  {
    var s := [x] + tail;
    var r := [(key(x), [x] + rest[0].1)] + rest[1..];
    forall i | 0 <= i < |r|
      ensures r[i].1 == Matching(s, key, r[i].0)
    {
      MatchingCons(x, tail, key, r[i].0);
      if i > 0 {
        assert r[i] == rest[i];
        assert lt(rest[0].0, rest[i].0);
      }
    }
    forall i, j | 0 <= i < j < |r|
      ensures lt(r[i].0, r[j].0)
    {
      assert r[j] == rest[j];
      if i > 0 {
        assert r[i] == rest[i];
      }
    }
  }

  lemma RunStartsNewGroup<T, K(!new)>(x: T, tail: seq<T>, rest: seq<(K, seq<T>)>, key: T -> K, lt: (K, K) -> bool)
    requires StrictTotalOrder(lt)
    requires OrderedGroupsOf(tail, rest, key, lt)
    requires tail != [] && rest != [] && rest[0].0 == key(tail[0])
    requires !lt(key(tail[0]), key(x)) && key(tail[0]) != key(x)
    requires forall y | y in tail :: !lt(key(y), key(tail[0]))
    ensures OrderedGroupsOf([x] + tail, [(key(x), [x])] + rest, key, lt)
  {
    var s := [x] + tail;
    var r := [(key(x), [x])] + rest;
    assert lt(key(x), rest[0].0);
    forall y | y in tail
      ensures key(y) != key(x)
    {
      assert !lt(key(y), key(tail[0]));
    }
    MatchingNone(tail, key, key(x));
    MatchingCons(x, tail, key, key(x));
    forall i | 1 <= i < |r|
      ensures lt(r[0].0, r[i].0) && r[i].1 == Matching(s, key, r[i].0)
    {
      assert r[i] == rest[i - 1];
      if i > 1 {
        assert lt(rest[0].0, rest[i - 1].0);
      }
      MatchingCons(x, tail, key, r[i].0);
    }
    forall i, j | 0 <= i < j < |r|
      ensures lt(r[i].0, r[j].0)
    {
      if i > 0 {
        assert r[i] == rest[i - 1] && r[j] == rest[j - 1];
      }
    }
  }
}
