/** String operations of the .NET base library that the generator relies on,
    with ordinal (character by character) comparison. */
module Strings {

  /** `s.StartsWith(prefix)`. */
  predicate StartsWith(s: string, prefix: string) {
    |prefix| <= |s| && s[..|prefix|] == prefix
  }

  /** `pattern` occurs in `s` starting at position `i`. */
  predicate OccursAt(s: string, pattern: string, i: nat) {
    i <= |s| && StartsWith(s[i..], pattern)
  }

  /** `s.Contains(pattern)`. */
  predicate Contains(s: string, pattern: string) {
    exists i: nat | i <= |s| :: OccursAt(s, pattern, i)
  }

  /** No proper prefix of `p` is also a suffix of `p`: two occurrences of such a
      pattern can never overlap. */
  predicate BorderFree(p: string) {
    forall k :: 0 < k < |p| ==> p[..k] != p[|p| - k..]
  }

  /** `s.Replace(pattern, replacement)`: every occurrence, scanning left to right,
      is replaced; occurrences do not overlap and the inserted text is not
      scanned again. */
  function Replace(s: string, pattern: string, replacement: string): string
    requires |pattern| > 0
    decreases |s|
  {
    if |s| == 0 then ""
    else if StartsWith(s, pattern) then replacement + Replace(s[|pattern|..], pattern, replacement)
    else [s[0]] + Replace(s[1..], pattern, replacement)
  }

  lemma ContainsTail(s: string, pattern: string)
    requires |s| > 0
    requires !Contains(s, pattern)
    ensures !Contains(s[1..], pattern)
  {
    forall i: nat | OccursAt(s[1..], pattern, i)
      ensures false
    {
      assert s[1..][i..] == s[i + 1..];
      assert OccursAt(s, pattern, i + 1);
    }
  }

  /** Replacing a pattern that does not occur leaves the string unchanged. */
  lemma {:induction false} ReplaceWithoutOccurrence(s: string, pattern: string, replacement: string)
    requires |pattern| > 0
    requires !Contains(s, pattern)
    ensures Replace(s, pattern, replacement) == s
    decreases |s|
  {
    if |s| > 0 {
      assert s[0..] == s;
      assert !OccursAt(s, pattern, 0);
      ContainsTail(s, pattern);
      ReplaceWithoutOccurrence(s[1..], pattern, replacement);
      assert [s[0]] + s[1..] == s;
    }
  }

  /** A pattern whose first character occurs nowhere else in it is border-free. */
  lemma UniqueHeadIsBorderFree(p: string)
    requires |p| > 0
    requires forall i :: 0 < i < |p| ==> p[i] != p[0]
    ensures BorderFree(p)
  {
    forall k | 0 < k < |p|
      ensures p[..k] != p[|p| - k..]
    {
      assert p[..k][0] == p[0];
      assert p[|p| - k..][0] == p[|p| - k];
    }
  }

  /** An occurrence at the start of `x + pattern + rest`, for a border-free
      pattern and a non-empty clean `x`, is impossible. */
  lemma NoOccurrenceStraddles(x: string, pattern: string, rest: string)
    requires |x| > 0
    requires BorderFree(pattern)
    requires !Contains(x, pattern)
    ensures !StartsWith(x + pattern + rest, pattern)
  {
    var s := x + pattern + rest;
    if |x| >= |pattern| {
      assert s[..|pattern|] == x[..|pattern|];
      assert x[0..] == x;
      assert !OccursAt(x, pattern, 0);
    } else {
      var k := |pattern| - |x|;
      assert s[..|pattern|] == x + pattern[..k];
      assert pattern[|pattern| - k..] == pattern[|x|..];
    }
  }

  /** A text that starts with a clean part `x` (no occurrence of a border-free
      pattern) followed by the pattern is rewritten as `x`, the replacement,
      and the rewritten rest: no occurrence can straddle the boundary. */
  lemma {:induction false} ReplaceAfterCleanPrefix(x: string, pattern: string, replacement: string, rest: string)
    requires |pattern| > 0
    requires BorderFree(pattern)
    requires !Contains(x, pattern)
    ensures Replace(x + pattern + rest, pattern, replacement)
         == x + replacement + Replace(rest, pattern, replacement)
    decreases |x|
  {
    var s := x + pattern + rest;
    if |x| == 0 {
      assert s == pattern + rest;
      assert s[..|pattern|] == pattern;
      assert s[|pattern|..] == rest;
    } else {
      NoOccurrenceStraddles(x, pattern, rest);
      assert s[1..] == x[1..] + pattern + rest;
      ContainsTail(x, pattern);
      ReplaceAfterCleanPrefix(x[1..], pattern, replacement, rest);
      assert [x[0]] + x[1..] == x;
    }
  }

  // ----- decimal rendering of indices (`int.ToString()` on a non-negative int) -----

  function DigitChar(d: nat): (c: char)
    requires d < 10
    ensures '0' <= c <= '9'
    ensures c as int - '0' as int == d
  {
    "0123456789"[d]
  }

  predicate IsDigits(s: string) {
    forall i :: 0 <= i < |s| ==> '0' <= s[i] <= '9'
  }

  /** The decimal text of `n`, without sign or leading zeros. */
  function NatToDecimal(n: nat): (r: string)
    ensures |r| >= 1
    ensures IsDigits(r)
    ensures |r| > 1 ==> r[0] != '0'
  {
    if n < 10 then [DigitChar(n)] else NatToDecimal(n / 10) + [DigitChar(n % 10)]
  }

  /** The number a string of decimal digits denotes (an independent reading of
      `NatToDecimal`'s output). */
  function DecimalValue(s: string): nat
    requires IsDigits(s)
  {
    if |s| == 0 then 0
    else DecimalValue(s[..|s| - 1]) * 10 + (s[|s| - 1] as int - '0' as int)
  }

  /** Reading back the decimal text of `n` yields `n`. */
  lemma {:induction false} DecimalRoundTrip(n: nat)
    ensures DecimalValue(NatToDecimal(n)) == n
  {
    if n >= 10 {
      var r := NatToDecimal(n);
      DecimalRoundTrip(n / 10);
      assert r[..|r| - 1] == NatToDecimal(n / 10);
    }
  }

  /** Distinct positions get distinct decimal names. */
  lemma DecimalNamesAreDistinct(m: nat, n: nat)
    requires m != n
    ensures NatToDecimal(m) != NatToDecimal(n)
  {
    DecimalRoundTrip(m);
    DecimalRoundTrip(n);
  }
}
