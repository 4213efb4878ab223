/**
 * The z-slice number carried in a microscope file name: the digits of the
 * leftmost `_ZS<digits>_` in the name, read as a decimal number, or 0 when
 * the name has no such marker.
 */
module ZSlice {
  import opened Wrappers

  predicate IsDigit(c: char) {
    '0' <= c <= '9'
  }

  predicate AllDigits(ds: string) {
    forall k | 0 <= k < |ds| :: IsDigit(ds[k])
  }

  function DigitValue(c: char): (d: nat)
    requires IsDigit(c)
    ensures d < 10
  {
    c as int - '0' as int
  }

  /** Python's `int(ds)` on a string of decimal digits. */
  function DigitsValue(ds: string): nat
    requires AllDigits(ds)
  {
    if ds == [] then 0 else DigitsValue(ds[..|ds| - 1]) * 10 + DigitValue(ds[|ds| - 1])
  }

  /** `_ZS` starts at position `i` of `s`. */
  predicate TagAt(s: string, i: nat) {
    i + 3 <= |s| && s[i] == '_' && s[i + 1] == 'Z' && s[i + 2] == 'S'
  }

  /** The pattern `_ZS(\d+)_` matches `s` at `i`, its group being the `n` characters after `_ZS`. */
  predicate MatchesAt(s: string, i: nat, n: nat) {
    TagAt(s, i) && 1 <= n && i + 3 + n < |s| && AllDigits(s[i + 3..i + 3 + n]) && s[i + 3 + n] == '_'
  }

  /** The length of the run of digits that starts at `i`. */
  function DigitRun(s: string, i: nat): (n: nat)
    requires i <= |s|
    ensures i + n <= |s|
    ensures forall k | i <= k < i + n :: IsDigit(s[k])
    ensures i + n < |s| ==> !IsDigit(s[i + n])
    decreases |s| - i
  {
    if i < |s| && IsDigit(s[i]) then 1 + DigitRun(s, i + 1) else 0
  }

  /**
   * Whether the pattern matches at `i`, and with what group length. The
   * greedy `\d+` takes the whole run of digits; backing off a digit leaves a
   * digit, not `_`, after the group, so the run is the only candidate.
   */
  function MarkerAt(s: string, i: nat): (r: Option<nat>)
    ensures r.Some? ==> MatchesAt(s, i, r.value)
    ensures forall n: nat :: MatchesAt(s, i, n) ==> r == Some(n)
  {
    if TagAt(s, i) then
      var n := DigitRun(s, i + 3);
      assert forall m: nat :: MatchesAt(s, i, m) ==> m == n by {
        forall m: nat | MatchesAt(s, i, m)
          ensures m == n
        {
          assert !IsDigit(s[i + 3 + m]);
          forall k | i + 3 <= k < i + 3 + m
            ensures IsDigit(s[k])
          {
            assert s[i + 3..i + 3 + m][k - (i + 3)] == s[k];
          }
        }
      }
      if 1 <= n && i + 3 + n < |s| && s[i + 3 + n] == '_' then
        var group := s[i + 3..i + 3 + n];
        assert AllDigits(group) by {
          forall k | 0 <= k < n
            ensures IsDigit(group[k])
          {
            assert group[k] == s[i + 3 + k];
          }
        }
        Some(n)
      else None
    else None
  }

  /** The leftmost position at or after `from` where the pattern matches (`re.search`). */
  function FindMarker(s: string, from: nat): (r: Option<nat>)
    ensures r.Some? ==> from <= r.value && MarkerAt(s, r.value).Some?
    ensures forall j: nat, n: nat | from <= j && (r.None? || j < r.value) :: !MatchesAt(s, j, n)
    decreases |s| + 1 - from
  {
    if from > |s| then
      assert forall j | from <= j :: !TagAt(s, j);
      None
    else if MarkerAt(s, from).Some? then Some(from)
    else FindMarker(s, from + 1)
  }

  /** `extract_z_slice_number_from_filename`. */
  function ExtractZSliceNumber(filename: string): nat {
    match FindMarker(filename, 0)
    case None => 0
    case Some(i) =>
      var n := MarkerAt(filename, i).value;
      DigitsValue(filename[i + 3..i + 3 + n])
  }

  /** A name in which the pattern matches nowhere has slice number 0. */
  lemma ExtractWithoutMatch(s: string)
    requires forall i: nat, n: nat :: !MatchesAt(s, i, n)
    ensures ExtractZSliceNumber(s) == 0
  {
  }

  /** Otherwise the number is the value of the group of the leftmost match. */
  lemma ExtractLeftmostMatch(s: string, i: nat, n: nat)
    requires MatchesAt(s, i, n)
    requires forall j: nat, m: nat | j < i :: !MatchesAt(s, j, m)
    ensures ExtractZSliceNumber(s) == DigitsValue(s[i + 3..i + 3 + n])
  {
  }

  /** A name without `_ZS` anywhere has slice number 0. */
  lemma {:induction false} ExtractWithoutTag(s: string)
    requires forall j: nat :: !TagAt(s, j)
    ensures ExtractZSliceNumber(s) == 0
  {
    ExtractWithoutMatch(s);
  }

  /** `int` ignores one leading zero. */
  lemma {:induction false} LeadingZeroIgnored(ds: string)
    requires AllDigits(ds)
    ensures AllDigits("0" + ds) && DigitsValue("0" + ds) == DigitsValue(ds)
  {
    var t := "0" + ds;
    assert AllDigits(t) by {
      forall k | 0 <= k < |t|
        ensures IsDigit(t[k])
      {
        if k > 0 {
          assert t[k] == ds[k - 1];
        }
      }
    }
    if ds != [] {
      var init := ds[..|ds| - 1];
      assert t[..|t| - 1] == "0" + init;
      assert t[|t| - 1] == ds[|ds| - 1];
      LeadingZeroIgnored(init);
    } else {
      assert t[..|t| - 1] == "";
    }
  }

  /** `k` zeros. */
  function Zeros(k: nat): (z: string)
    ensures |z| == k && AllDigits(z)
  {
    if k == 0 then "" else "0" + Zeros(k - 1)
  }

  /** `int` ignores any number of leading zeros. */
  lemma {:induction false} LeadingZerosIgnored(k: nat, ds: string)
    requires AllDigits(ds)
    ensures AllDigits(Zeros(k) + ds) && DigitsValue(Zeros(k) + ds) == DigitsValue(ds)
  {
    if k == 0 {
      assert Zeros(k) + ds == ds;
    } else {
      LeadingZerosIgnored(k - 1, ds);
      assert Zeros(k) + ds == "0" + (Zeros(k - 1) + ds);
      LeadingZeroIgnored(Zeros(k - 1) + ds);
    }
  }

  function DigitChar(d: nat): (c: char)
    requires d < 10
    ensures IsDigit(c) && DigitValue(c) == d
  {
    ('0' as int + d) as char
  }

  /** The decimal digits of `n`, without leading zeros (Python's `str(n)`). */
  function NatDigits(n: nat): (ds: string)
    ensures 1 <= |ds| && AllDigits(ds)
    decreases n
  {
    var last := [DigitChar(n % 10)];
    var ds := (if n < 10 then "" else NatDigits(n / 10)) + last;
    assert AllDigits(ds) by {
      forall k | 0 <= k < |ds|
        ensures IsDigit(ds[k])
      {
        if k == |ds| - 1 {
          assert ds[k] == last[0];
        }
      }
    }
    ds
  }

  /** Reading back the digits of `n` gives `n`. */
  lemma {:induction false} NatDigitsValue(n: nat)
    ensures DigitsValue(NatDigits(n)) == n
    decreases n
  {
    var ds := NatDigits(n);
    var init := if n < 10 then "" else NatDigits(n / 10);
    assert ds == init + [DigitChar(n % 10)];
    assert ds[..|ds| - 1] == init;
    if n >= 10 {
      NatDigitsValue(n / 10);
    }
    assert DigitsValue(ds) == DigitsValue(init) * 10 + n % 10;
  }

  /** `n` written in decimal, zero-padded on the left to `width` characters (`f"{n:0{width}d}"`). */
  function ZeroPad(n: nat, width: nat): (ds: string)
    ensures AllDigits(ds) && DigitsValue(ds) == n
    ensures |ds| == if width > |NatDigits(n)| then width else |NatDigits(n)|
  {
    var digits := NatDigits(n);
    var pad := if width > |digits| then width - |digits| else 0;
    LeadingZerosIgnored(pad, digits);
    NatDigitsValue(n);
    Zeros(pad) + digits
  }

  /** A name whose first `_ZS` begins a marker `_ZS<digits>_` gives the value of those digits. */
  lemma {:induction false} ExtractFirstMarker(prefix: string, ds: string, suffix: string)
    requires forall j: nat :: !TagAt(prefix, j)
    requires ds != [] && AllDigits(ds)
    ensures ExtractZSliceNumber(prefix + "_ZS" + ds + "_" + suffix) == DigitsValue(ds)
  {
    var rest := "_ZS" + ds + "_" + suffix;
    var s := prefix + rest;
    assert s == prefix + "_ZS" + ds + "_" + suffix;
    var p := |prefix|;
    assert s[p + 3..p + 3 + |ds|] == ds;
    assert MatchesAt(s, p, |ds|) by {
      assert s[p..p + 3] == "_ZS";
      assert s[p + 3 + |ds|] == '_';
    }
    NoTagBefore(prefix, rest);
    ExtractLeftmostMatch(s, p, |ds|);
  }

  /** A tag-free prefix followed by `_` has no `_ZS` starting inside the prefix. */
  lemma NoTagBefore(prefix: string, rest: string)
    requires forall j: nat :: !TagAt(prefix, j)
    requires rest != [] && rest[0] == '_'
    ensures forall j: nat, m: nat | j < |prefix| :: !MatchesAt(prefix + rest, j, m)
  {
    var s, p := prefix + rest, |prefix|;
    forall j: nat | j < p
      ensures !TagAt(s, j)
    {
      if j + 3 <= p {
        assert s[j..j + 3] == prefix[j..j + 3];
        assert !TagAt(prefix, j);
      } else if j + 1 == p {
        assert s[j + 1] == '_';
      } else {
        assert s[j + 2] == '_';
      }
    }
  }

  /**
   * Round trip: a name that carries the slice number `n`, written as a
   * zero-padded `_ZS<digits>_` marker after a prefix without `_ZS`, gives back `n`.
   */
  lemma {:induction false} ExtractFormattedSlice(prefix: string, n: nat, width: nat, suffix: string)
    requires forall j: nat :: !TagAt(prefix, j)
    ensures ExtractZSliceNumber(prefix + "_ZS" + ZeroPad(n, width) + "_" + suffix) == n
  {
    ExtractFirstMarker(prefix, ZeroPad(n, width), suffix);
  }

  /** A bare `_ZS_`, with no digits, is not a marker: the number is 0. */
  lemma {:induction false} ExtractBareTag(prefix: string, suffix: string)
    requires forall j: nat :: !TagAt(prefix, j)
    requires forall j: nat :: !TagAt("_" + suffix, j)
    ensures ExtractZSliceNumber(prefix + "_ZS_" + suffix) == 0
  {
    var s := prefix + "_ZS_" + suffix;
    var p := |prefix|;
    var rest := "_" + suffix;
    assert s == prefix + "_ZS" + rest;
    forall i: nat, m: nat
      ensures !MatchesAt(s, i, m)
    {
      if i + 3 <= p {
        assert s[i..i + 3] == prefix[i..i + 3];
        assert !TagAt(prefix, i);
      } else if i + 1 == p {
        assert s[i + 1] == '_';
      } else if i + 2 == p {
        assert s[i + 2] == '_';
      } else if i == p {
        assert !IsDigit(s[p + 3]);
      } else if i == p + 1 {
        assert s[i] == 'Z';
      } else if i == p + 2 {
        assert s[i] == 'S';
      } else if TagAt(s, i) {
        var q := i - (p + 3);
        assert s[i..i + 3] == rest[q..q + 3];
        assert TagAt(rest, q);
      }
    }
    ExtractWithoutMatch(s);
  }

  /** A string without `Z` has no `_ZS` anywhere. */
  lemma TagFreeWithoutZ(s: string)
    requires 'Z' !in s
    ensures forall j: nat :: !TagAt(s, j)
  {
    forall j: nat | j + 3 <= |s|
      ensures !TagAt(s, j)
    {
      assert s[j + 1] in s;
    }
  }

  /** File names from the repository's test cases, with the numbers they are expected to give. */
  lemma ExampleWithMarker()
    ensures ExtractZSliceNumber("C10-1_405_ZS034_FOV-1.tif") == 34
  {
    ExampleWithMarkerParts();
    ExampleWithMarkerDigits();
    TagFreeWithoutZ("C10-1_405");
    ExtractFirstMarker("C10-1_405", "034", "FOV-1.tif");
  }

  /** The test name above, cut at its marker. */
  lemma ExampleWithMarkerParts()
    ensures "C10-1_405" + "_ZS" + "034" + "_" + "FOV-1.tif" == "C10-1_405_ZS034_FOV-1.tif"
  {
  }

  lemma ExampleWithMarkerDigits()
    ensures AllDigits("034") && DigitsValue("034") == 34
  {
    assert "034"[..2] == "03" && "03"[..1] == "0" && "0"[..0] == "";
  }

  lemma ExampleWithoutMarker()
    ensures ExtractZSliceNumber("C10-1_405_FOV-1.tif") == 0
  {
    TagFreeWithoutZ("C10-1_405_FOV-1.tif");
    ExtractWithoutTag("C10-1_405_FOV-1.tif");
  }

  lemma ExampleBareTag()
    ensures ExtractZSliceNumber("C10-1_405_ZS_FOV-1.tif") == 0
  {
    var prefix := "C10-1_405";
    TagFreeWithoutZ(prefix);
    TagFreeWithoutZ("_FOV-1.tif");
    ExtractBareTag(prefix, "FOV-1.tif");
    assert prefix + "_ZS_" + "FOV-1.tif" == "C10-1_405_ZS_FOV-1.tif";
  }
}
