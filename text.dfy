/** String helpers shared by the models: ASCII case folding (what JavaScript's
    case-insensitive regular expressions and toLowerCase do on the ASCII
    patterns used here), prefix/suffix/substring tests and decimal rendering. */
module Text {

  /** Lower-cases an ASCII upper-case letter; every other character is kept. */
  function Lower(c: char): (r: char)
    ensures 'A' <= c <= 'Z' ==> r as int == c as int + 32
    ensures !('A' <= c <= 'Z') ==> r == c
  {
    if 'A' <= c <= 'Z' then (c as int + 32) as char else c
  }

  function LowerStr(s: string): (r: string)
    ensures |r| == |s|
    ensures forall i :: 0 <= i < |s| ==> r[i] == Lower(s[i])
  {
    if s == [] then [] else [Lower(s[0])] + LowerStr(s[1..])
  }

  predicate StartsWith(s: string, prefix: string)
  {
    |prefix| <= |s| && s[..|prefix|] == prefix
  }

  predicate EndsWith(s: string, suffix: string)
  {
    |suffix| <= |s| && s[|s| - |suffix|..] == suffix
  }

  /** `p` (already lower-case) occurs in `s` at position `i`, ignoring ASCII case. */
  predicate OccursAtCI(s: string, p: string, i: int)
  {
    0 <= i && i + |p| <= |s| && forall k :: 0 <= k < |p| ==> Lower(s[i + k]) == p[k]
  }

  /** `/p/i.test(s)` for a lower-case literal pattern `p`. */
  predicate ContainsCI(s: string, p: string)
  {
    exists i | 0 <= i <= |s| - |p| :: OccursAtCI(s, p, i)
  }

  /** `/p$/i.test(s)` for a lower-case literal pattern `p`. */
  predicate EndsWithCI(s: string, p: string)
  {
    |p| <= |s| && forall k :: 0 <= k < |p| ==> Lower(s[|s| - |p| + k]) == p[k]
  }

  /** A case-insensitive occurrence of `p + q` contains one of `p` at the same place. */
  lemma OccursAtPrefixCI(s: string, p: string, q: string, i: int)
    requires OccursAtCI(s, p + q, i)
    ensures OccursAtCI(s, p, i)
  {
    forall k | 0 <= k < |p|
      ensures Lower(s[i + k]) == p[k]
    {
      assert (p + q)[k] == p[k];
    }
  }

  /** A pattern of the form `p + q` found anywhere means `p` is found there too. */
  lemma ContainsPrefixCI(s: string, p: string, q: string)
    requires ContainsCI(s, p + q)
    ensures ContainsCI(s, p)
  {
    var i :| 0 <= i <= |s| - |p + q| && OccursAtCI(s, p + q, i);
    OccursAtPrefixCI(s, p, q, i);
  }

  function DigitChar(d: nat): (c: char)
    requires d < 10
    ensures '0' <= c <= '9'
  {
    "0123456789"[d]
  }

  /** Decimal rendering of a natural number, as JavaScript's string concatenation prints it. */
  function NatToString(n: nat): (r: string)
    ensures |r| >= 1
    ensures forall i :: 0 <= i < |r| ==> '0' <= r[i] <= '9'
    ensures n > 0 ==> r[0] != '0'
    decreases n
  {
    if n < 10 then [DigitChar(n)] else NatToString(n / 10) + [DigitChar(n % 10)]
  }

  function DigitValue(c: char): nat
    requires '0' <= c <= '9'
  {
    c as int - '0' as int
  }

  /** Reads back a string of decimal digits. */
  function ParseDigits(s: string): nat
    requires forall i :: 0 <= i < |s| ==> '0' <= s[i] <= '9'
  {
    if s == [] then 0 else ParseDigits(s[..|s| - 1]) * 10 + DigitValue(s[|s| - 1])
  }

  /** The rendering loses nothing: reading the digits back gives the number. */
  lemma {:induction false} NatToStringRoundTrip(n: nat)
    ensures ParseDigits(NatToString(n)) == n
  {
    if n >= 10 {
      NatToStringRoundTrip(n / 10);
      var s := NatToString(n);
      assert s[..|s| - 1] == NatToString(n / 10);
    }
  }
}
