/** Decimal digit strings: what `\d+` matches and what `int(...)` and
    `f"{n}"` do with them, restricted to the ASCII digits '0'..'9'. */
module Decimal {

  predicate IsDigit(c: char) {
    '0' <= c <= '9'
  }

  predicate AllDigits(s: string) {
    forall i :: 0 <= i < |s| ==> IsDigit(s[i])
  }

  function DigitValue(c: char): (v: nat)
    requires IsDigit(c)
    ensures v < 10
  {
    (c as int - '0' as int) as nat
  }

  function DigitChar(v: nat): (c: char)
    requires v < 10
    ensures IsDigit(c) && DigitValue(c) == v
  {
    ('0' as int + v) as char
  }

  function Pow10(k: nat): (p: nat)
    ensures p > 0
  {
    if k == 0 then 1 else 10 * Pow10(k - 1)
  }

  /** `int(s)` for a string of decimal digits (leading zeros allowed):
      below 10 to the number of digits. */
  function Value(s: string): (v: nat)
    requires AllDigits(s)
    ensures v < Pow10(|s|)
  {
    if s == [] then 0 else Value(s[..|s| - 1]) * 10 + DigitValue(s[|s| - 1])
  }

  /** `str(n)`: the decimal spelling of n, without leading zeros. */
  function Show(n: nat): (s: string)
    ensures |s| > 0 && AllDigits(s)
    ensures s[0] == '0' <==> n == 0
    decreases n
  {
    if n < 10 then [DigitChar(n)] else Show(n / 10) + [DigitChar(n % 10)]
  }

  lemma {:induction false} ValueOfShow(n: nat)
    ensures Value(Show(n)) == n
    decreases n
  {
    var s := Show(n);
    if n < 10 {
      assert s[..|s| - 1] == [];
    } else {
      assert s[..|s| - 1] == Show(n / 10);
      ValueOfShow(n / 10);
    }
  }

  /** Length of the maximal run of digits in s starting at index i:
      how far a greedy `\d+` reaches. */
  function RunLength(s: string, i: nat): (k: nat)
    requires i <= |s|
    ensures i + k <= |s|
    ensures AllDigits(s[i..i + k])
    ensures i + k == |s| || !IsDigit(s[i + k])
    decreases |s| - i
  {
    if i < |s| && IsDigit(s[i]) then
      var k := RunLength(s, i + 1);
      assert s[i..i + 1 + k] == [s[i]] + s[i + 1..i + 1 + k];
      1 + k
    else 0
  }

  /** The number a greedy `(\d+)` group starting at index i captures. */
  function RunValue(s: string, i: nat): nat
    requires i <= |s|
  {
    Value(s[i..i + RunLength(s, i)])
  }

  /** A run of digits that extends to the end of the string is captured whole. */
  lemma {:induction false} RunLengthOfDigitTail(p: string, d: string)
    requires AllDigits(d)
    ensures RunLength(p + d, |p|) == |d|
    decreases |d|
  {
    if d != [] {
      assert (p + [d[0]]) + d[1..] == p + d;
      RunLengthOfDigitTail(p + [d[0]], d[1..]);
    }
  }

  /** A run of digits followed by a non-digit (or by nothing) is captured
      up to that point. */
  lemma {:induction false} RunLengthUpTo(a: string, t: string, i: nat)
    requires i <= |a| && AllDigits(a[i..])
    requires t == [] || !IsDigit(t[0])
    ensures RunLength(a + t, i) == |a| - i
    decreases |a| - i
  {
    if i < |a| {
      assert (a + t)[i] == a[i..][0];
      assert a[i + 1..] == a[i..][1..];
      RunLengthUpTo(a, t, i + 1);
    } else if t != [] {
      assert (a + t)[i] == t[0];
    }
  }

  lemma RunValueOfShow(p: string, n: nat)
    ensures RunValue(p + Show(n), |p|) == n
  {
    RunLengthOfDigitTail(p, Show(n));
    assert (p + Show(n))[|p|..|p| + |Show(n)|] == Show(n);
    ValueOfShow(n);
  }
}
