/**
 * Decimal rendering of integers, as JavaScript's `Number.prototype.toString()`
 * renders an integral number, and the canonical array-index parse that decides
 * whether a property key names an array element.
 */
module Decimal {
  import opened Wrappers

  /** The character of decimal digit `d`. */
  function DigitChar(d: nat): (c: char)
    requires d < 10
    ensures '0' <= c <= '9' && c as int - '0' as int == d
  {
    (d + '0' as int) as char
  }

  predicate IsDigit(c: char) {
    '0' <= c <= '9'
  }

  function DigitValue(c: char): nat
    requires IsDigit(c)
  {
    c as int - '0' as int
  }

  /** Decimal digits of `n`, most significant first, without leading zeros. */
  function NatToString(n: nat): (s: string)
    decreases n
  {
    if n < 10 then [DigitChar(n)] else NatToString(n / 10) + [DigitChar(n % 10)]
  }

  /** `String(i)` for an integral number `i`. */
  function IntToString(i: int): string {
    if i < 0 then "-" + NatToString(-i) else NatToString(i)
  }

  /** Value of a non-empty string of decimal digits, most significant first. */
  function DigitsValue(s: string): nat
    requires forall j :: 0 <= j < |s| ==> IsDigit(s[j])
  {
    if |s| == 0 then 0 else DigitsValue(s[..|s| - 1]) * 10 + DigitValue(s[|s| - 1])
  }

  /** A canonical decimal numeral: digits only, non-empty, no leading zero unless it is "0". */
  predicate IsCanonical(s: string) {
    && |s| > 0
    && (forall j :: 0 <= j < |s| ==> IsDigit(s[j]))
    && (s[0] == '0' ==> |s| == 1)
  }

  /** The index a property key denotes, if it is a canonical numeral. */
  function ParseIndex(s: string): (r: Option<nat>)
    ensures r.Some? <==> IsCanonical(s)
  {
    if IsCanonical(s) then Some(DigitsValue(s)) else None
  }

  lemma {:induction false} NatToStringCanonical(n: nat)
    ensures IsCanonical(NatToString(n))
    ensures DigitsValue(NatToString(n)) == n
    decreases n
  {
    if n >= 10 {
      NatToStringCanonical(n / 10);
      var s := NatToString(n);
      assert s[..|s| - 1] == NatToString(n / 10);
    }
  }

  /** Rendering an index and parsing it back gives the index. */
  lemma ParseShow(n: nat)
    ensures ParseIndex(NatToString(n)) == Some(n)
  {
    NatToStringCanonical(n);
  }

  /** A canonical numeral is the rendering of the index it parses to. */
  lemma {:induction false} ShowParse(s: string)
    requires IsCanonical(s)
    ensures NatToString(DigitsValue(s)) == s
    decreases |s|
  {
    if |s| > 1 {
      var p := s[..|s| - 1];
      assert IsCanonical(p) && p[0] == s[0];
      ShowParse(p);
      LeadingNonZero(p);
    }
  }

  /** A numeral that does not start with '0' denotes a positive number. */
  lemma {:induction false} LeadingNonZero(s: string)
    requires IsCanonical(s) && s[0] != '0'
    ensures DigitsValue(s) >= 1
    decreases |s|
  {
    if |s| > 1 {
      var p := s[..|s| - 1];
      assert IsCanonical(p) && p[0] == s[0];
      LeadingNonZero(p);
    }
  }

  /** Distinct indices render to distinct keys. */
  lemma NatToStringInjective(m: nat, n: nat)
    requires NatToString(m) == NatToString(n)
    ensures m == n
  {
    NatToStringCanonical(m);
    NatToStringCanonical(n);
  }

  /** A one-digit number renders as its digit. */
  lemma SingleDigit(d: nat)
    requires d < 10
    ensures IntToString(d) == [DigitChar(d)]
  {
  }
}
