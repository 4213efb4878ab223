/**
 * The string operations the converters apply to file names: Python's
 * `str.split("_")`, `str.endswith`, the `<` order on `str` and the
 * `stem` of a `pathlib.Path`.
 */
module Text {
  import opened Ordering

  /** Python's `s.split("_")`: the pieces between underscores; never empty. */
  function Split(s: string): (r: seq<string>)
    ensures |r| >= 1
    ensures forall k | 0 <= k < |r| :: '_' !in r[k]
    ensures |r| >= 2 <==> '_' in s
  {
    if s == [] then [""]
    else
      var rest := Split(s[1..]);
      assert '_' in s <==> s[0] == '_' || '_' in s[1..];
      if s[0] == '_' then [""] + rest
      else [[s[0]] + rest[0]] + rest[1..]
  }

  /** Python's `"_".join(ts)`. */
  function Join(ts: seq<string>): string {
    if ts == [] then ""
    else if |ts| == 1 then ts[0]
    else ts[0] + "_" + Join(ts[1..])
  }

  /** Joining the pieces of a split gives back the name. */
  lemma {:induction false} JoinSplit(s: string)
    ensures Join(Split(s)) == s
  {
    if s != [] {
      var rest := Split(s[1..]);
      JoinSplit(s[1..]);
      if s[0] == '_' {
        assert Split(s) == [""] + rest;
        assert Join(Split(s)) == "" + "_" + Join(rest);
        assert s == "_" + s[1..];
      } else if |rest| == 1 {
        assert Split(s) == [[s[0]] + rest[0]];
        assert s == [s[0]] + s[1..];
      } else {
        var r := Split(s);
        assert r == [[s[0]] + rest[0]] + rest[1..];
        assert r[1..] == rest[1..];
        assert Join(rest) == rest[0] + "_" + Join(rest[1..]);
        assert s == [s[0]] + s[1..];
      }
    }
  }

  lemma {:induction false} SplitWithoutSeparator(a: string, b: string)
    requires '_' !in a
    ensures Split(a + b) == [a + Split(b)[0]] + Split(b)[1..]
  {
    if a != [] {
      assert (a + b)[0] == a[0];
      assert (a + b)[1..] == a[1..] + b;
      SplitWithoutSeparator(a[1..], b);
      assert [a[0]] + (a[1..] + Split(b)[0]) == a + Split(b)[0];
    } else {
      var sb := Split(b);
      assert a + b == b;
      assert a + sb[0] == sb[0];
      assert sb == [sb[0]] + sb[1..];
    }
  }

  /** Splitting joined underscore-free pieces gives back the pieces. */
  lemma {:induction false} SplitJoin(ts: seq<string>)
    requires |ts| >= 1
    requires forall k | 0 <= k < |ts| :: '_' !in ts[k]
    ensures Split(Join(ts)) == ts
  {
    if |ts| == 1 {
      SplitWithoutSeparator(ts[0], "");
      assert ts[0] + "" == ts[0];
    } else {
      var tail := Join(ts[1..]);
      SplitJoin(ts[1..]);
      assert Join(ts) == ts[0] + ("_" + tail);
      SplitWithoutSeparator(ts[0], "_" + tail);
      assert ("_" + tail)[0] == '_';
      assert ("_" + tail)[1..] == tail;
      assert Split("_" + tail) == [""] + ts[1..];
      assert ts[0] + "" == ts[0];
      assert ts == [ts[0]] + ts[1..];
    }
  }

  /** Python's `s.endswith(suffix)`. */
  predicate EndsWith(s: string, suffix: string) {
    |suffix| <= |s| && s[|s| - |suffix|..] == suffix
  }

  /** Python's `a < b` on `str`: lexicographic by code point, a proper prefix first. */
  predicate StrLt(a: string, b: string) {
    if a == [] then b != []
    else if b == [] then false
    else if a[0] != b[0] then a[0] < b[0]
    else StrLt(a[1..], b[1..])
  }

  lemma {:induction false} StrLtIrreflexive(a: string)
    ensures !StrLt(a, a)
  {
    if a != [] {
      StrLtIrreflexive(a[1..]);
    }
  }

  lemma {:induction false} StrLtTransitive(a: string, b: string, c: string)
    requires StrLt(a, b) && StrLt(b, c)
    ensures StrLt(a, c)
  {
    if a != [] && a[0] == b[0] && b[0] == c[0] {
      StrLtTransitive(a[1..], b[1..], c[1..]);
    }
  }

  lemma {:induction false} StrLtConnected(a: string, b: string)
    requires a != b
    ensures StrLt(a, b) || StrLt(b, a)
  {
    if a != [] && b != [] && a[0] == b[0] {
      assert a == [a[0]] + a[1..] && b == [b[0]] + b[1..];
      StrLtConnected(a[1..], b[1..]);
    }
  }

  /** The order on channel codes and label tokens used for `sorted` is a strict total order. */
  lemma StrLtIsStrictTotalOrder()
    ensures StrictTotalOrder(StrLt)
  {
    forall a
      ensures !StrLt(a, a)
    {
      StrLtIrreflexive(a);
    }
    forall a, b, c | StrLt(a, b) && StrLt(b, c)
      ensures StrLt(a, c)
    {
      StrLtTransitive(a, b, c);
    }
    forall a, b | a != b
      ensures StrLt(a, b) || StrLt(b, a)
    {
      StrLtConnected(a, b);
    }
  }

  /** The position of the last `c` in `s`, or -1 (Python's `s.rfind(c)`). */
  function RFind(s: string, c: char): (i: int)
    ensures -1 <= i < |s|
    ensures i >= 0 ==> s[i] == c
    ensures forall j | i < j < |s| :: s[j] != c
  {
    if s == [] then -1
    else if s[|s| - 1] == c then |s| - 1
    else RFind(s[..|s| - 1], c)
  }

  /**
   * The `stem` of `pathlib.Path(name)` for a name without a separator: the name
   * without its last suffix, where a suffix is a dot that is neither the first
   * nor the last character, and what follows it. The path "." has an empty name.
   */
  function Stem(name: string): (r: string)
    ensures name == "." ==> r == ""
    ensures name != "." ==> r <= name
    ensures name != "." ==> (|r| < |name| <==> exists i | 0 < i < |name| - 1 :: name[i] == '.' && '.' !in name[i + 1..])
    ensures name != "." && |r| < |name| ==> 0 < |r| < |name| - 1 && name[|r|] == '.' && '.' !in name[|r| + 1..]
  {
    if name == "." then ""
    else
      var i := RFind(name, '.');
      if 0 < i < |name| - 1 then name[..i] else name
  }
}
