/** The two pieces of .NET string behaviour the sample harness relies on:
    ordinal `String.LastIndexOf(string)` and `int.ToString()` of a
    non-negative number. */
module Strings {

  /** `pat` occurs in `s` starting at index `k`. */
  predicate OccursAt(s: string, pat: string, k: int) {
    0 <= k && k + |pat| <= |s| && s[k..k + |pat|] == pat
  }

  /** Backward scan for `pat`, trying start indices `from`, `from - 1`, ..., `0`. */
  function LastIndexFrom(s: string, pat: string, from: int): (k: int)
    requires -1 <= from <= |s| - |pat|
    decreases from + 1
    ensures k == -1 || (0 <= k <= from && OccursAt(s, pat, k))
    ensures forall j :: k < j <= from ==> !OccursAt(s, pat, j)
  {
    if from < 0 then -1
    else if s[from..from + |pat|] == pat then from
    else LastIndexFrom(s, pat, from - 1)
  }

  /** Ordinal `LastIndexOf`: the start of the last occurrence of `pat` in `s`,
      or -1 when there is none. */
  function LastIndexOf(s: string, pat: string): (k: int)
    ensures k == -1 || OccursAt(s, pat, k)
    ensures forall j :: k < j ==> !OccursAt(s, pat, j)
    ensures k == -1 <==> forall j :: !OccursAt(s, pat, j)
  {
    if |pat| > |s| then -1 else LastIndexFrom(s, pat, |s| - |pat|)
  }

  /** A single character needle occurs exactly where that character is. */
  lemma OccursAtChar(s: string, c: char, k: int)
    ensures OccursAt(s, [c], k) <==> 0 <= k < |s| && s[k] == c
  {
  }

  function Digit(d: nat): (c: char)
    requires d < 10
    ensures '0' <= c <= '9'
  {
    "0123456789"[d]
  }

  function DigitValue(c: char): nat {
    if '0' <= c <= '9' then (c - '0') as nat else 0
  }

  predicate IsDecimal(s: string) {
    |s| >= 1 && (forall c :: c in s ==> '0' <= c <= '9') && (|s| > 1 ==> s[0] != '0')
  }

  /** Decimal rendering of a non-negative number, as `int.ToString()` gives it. */
  function NatToString(n: nat): (s: string)
    ensures IsDecimal(s)
    ensures n < 10 <==> |s| == 1
  {
    if n < 10 then [Digit(n)] else NatToString(n / 10) + [Digit(n % 10)]
  }

  /** Reads a string of decimal digits back as a number. */
  function ParseDecimal(s: string): nat {
    if |s| == 0 then 0 else ParseDecimal(s[..|s| - 1]) * 10 + DigitValue(s[|s| - 1])
  }

  /** Rendering then reading gives the number back, so the rendering is injective. */
  lemma {:induction false} ParseNatToString(n: nat)
    ensures ParseDecimal(NatToString(n)) == n
  {
    if n >= 10 {
      var s := NatToString(n);
      assert s[..|s| - 1] == NatToString(n / 10);
      ParseNatToString(n / 10);
    }
  }

  lemma NatToStringInjective(m: nat, n: nat)
    ensures NatToString(m) == NatToString(n) <==> m == n
  {
    if NatToString(m) == NatToString(n) {
      ParseNatToString(m);
      ParseNatToString(n);
    }
  }
}
