/**
 * The pure parts of the custom fast-check arbitraries (src/arbitraries.ts):
 * the character filter of `alphanumeric` and the map of `phoneNumber`.
 * A character's code is its `charCodeAt(0)`; the empty string has code NaN,
 * which fails every comparison.
 */
module Arbitraries {
  import Decimal

  /** `charCodeAt(0)` compared against an inclusive range; false for the empty string. */
  predicate CodeIn(str: string, lo: int, hi: int) {
    |str| > 0 && lo <= str[0] as int <= hi
  }

  /**
   * The filter of `alphanumeric` as written (src/arbitraries.ts:4-18): the
   * digit range is `0x30..0x30`, so of the digits only `'0'` passes.
   */
  predicate Alphanumeric(str: string) {
    if CodeIn(str, 0x30, 0x30) then true
    else if CodeIn(str, 0x41, 0x5a) then true
    else if CodeIn(str, 0x61, 0x7a) then true
    else false
  }

  /** The filter with the digit range the comments name, `0x30..0x39`. */
  predicate AlphanumericIntended(str: string) {
    CodeIn(str, 0x30, 0x39) || CodeIn(str, 0x41, 0x5a) || CodeIn(str, 0x61, 0x7a)
  }

  /** The `n` characters from `first` on, in code order. */
  function Run(first: char, n: nat): (r: string)
    requires first as int + n <= 0xD800
    ensures |r| == n && forall i :: 0 <= i < n ==> r[i] as int == first as int + i
  {
    seq(n, i requires 0 <= i < n => (first as int + i) as char)
  }

  /** The characters `alphanumeric` is meant to produce: the ten digits and the two Latin alphabets. */
  function AlphanumericChars(): string {
    Run('0', 10) + Run('A', 26) + Run('a', 26)
  }

  /** A character is in a run exactly when its code is in the run's range. */
  lemma RunMembers(first: char, n: nat, c: char)
    requires first as int + n <= 0xD800
    ensures c in Run(first, n) <==> first as int <= c as int < first as int + n
  {
    if first as int <= c as int < first as int + n {
      assert Run(first, n)[c as int - first as int] == c;
    }
  }

  /** The intended filter accepts a string exactly when its first character is in the listing. */
  lemma IntendedAcceptsListing(str: string)
    ensures AlphanumericIntended(str) <==> |str| > 0 && str[0] in AlphanumericChars()
  {
    if |str| > 0 {
      RunMembers('0', 10, str[0]);
      RunMembers('A', 26, str[0]);
      RunMembers('a', 26, str[0]);
    }
  }

  /** As written, the filter accepts the letters and `'0'`, and rejects every other character, the other digits included. */
  lemma AsWrittenAccepts(str: string)
    ensures Alphanumeric(str) <==> AlphanumericIntended(str) && !(|str| > 0 && '1' <= str[0] <= '9')
    ensures Alphanumeric(str) ==> |str| > 0 && (str[0] == '0' || 'A' <= str[0] <= 'Z' || 'a' <= str[0] <= 'z')
  {
  }

  /** The digit `'1'` is the smallest input on which the written filter and the intended one differ. */
  lemma DigitOneRejected()
    ensures !Alphanumeric("1") && AlphanumericIntended("1")
    ensures forall c: char :: c < '1' ==> (Alphanumeric([c]) <==> AlphanumericIntended([c]))
  {
  }

  /** `ints.map(i => i.toString()).join("")`: the decimal forms of the integers, concatenated. */
  function PhoneNumber(ints: seq<int>): (r: string)
    ensures |r| >= |ints|
    decreases |ints|
  {
    if |ints| == 0 then "" else PhoneNumber(ints[..|ints| - 1]) + Decimal.IntToString(ints[|ints| - 1])
  }

  /** Single digits map to one character each: the i-th character is the digit of the i-th integer. */
  lemma {:induction false} PhoneNumberDigits(ints: seq<int>)
    requires forall i :: 0 <= i < |ints| ==> 0 <= ints[i] <= 9
    ensures |PhoneNumber(ints)| == |ints|
    ensures forall i :: 0 <= i < |ints| ==> PhoneNumber(ints)[i] == Decimal.DigitChar(ints[i])
    decreases |ints|
  {
    if |ints| > 0 {
      var n := |ints| - 1;
      PhoneNumberDigits(ints[..n]);
      Decimal.SingleDigit(ints[n]);
    }
  }

  /** The digits read back from the phone number are the integers drawn: the map loses nothing. */
  lemma PhoneNumberReadBack(ints: seq<int>)
    requires forall i :: 0 <= i < |ints| ==> 0 <= ints[i] <= 9
    ensures var r := PhoneNumber(ints);
            && |r| == |ints|
            && (forall i :: 0 <= i < |r| ==> Decimal.IsDigit(r[i]))
            && (forall i :: 0 <= i < |r| ==> Decimal.DigitValue(r[i]) == ints[i])
  {
    PhoneNumberDigits(ints);
  }
}
