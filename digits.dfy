/** ASCII decimal digit strings and their values, as used by the tokenizer's number literals. */
module Digits {

  import opened Wrappers

  /** The largest value of an unsigned 64-bit integer (u64::MAX). */
  const U64_MAX: nat := 0xFFFF_FFFF_FFFF_FFFF

  predicate IsAsciiDigit(c: char) {
    '0' <= c <= '9'
  }

  predicate AllDigits(s: string) {
    forall k :: 0 <= k < |s| ==> IsAsciiDigit(s[k])
  }

  function DigitValue(c: char): (d: nat)
    requires IsAsciiDigit(c)
    ensures d < 10
  {
    c as int - '0' as int
  }

  function DigitChar(d: nat): (c: char)
    requires d < 10
    ensures IsAsciiDigit(c) && DigitValue(c) == d
  {
    ('0' as int + d) as char
  }

  /** The value of a decimal numeral, most significant digit first (leading zeros allowed). */
  function DecimalValue(s: string): nat
    requires AllDigits(s)
  {
    if s == [] then 0 else DecimalValue(s[..|s| - 1]) * 10 + DigitValue(s[|s| - 1])
  }

  /** The shortest decimal numeral of n. */
  function DecimalString(n: nat): (s: string)
    ensures |s| > 0 && AllDigits(s)
    ensures |s| == 1 || s[0] != '0'
  {
    if n < 10 then [DigitChar(n)] else DecimalString(n / 10) + [DigitChar(n % 10)]
  }

  /** Reading back a rendered numeral gives the number that was rendered. */
  lemma {:induction false} DecimalRoundTrip(n: nat)
    ensures DecimalValue(DecimalString(n)) == n
  {
    if n >= 10 {
      var s := DecimalString(n);
      assert s[..|s| - 1] == DecimalString(n / 10);
      DecimalRoundTrip(n / 10);
    }
  }

  /** A prefix of a numeral never has a larger value than the whole numeral. */
  lemma {:induction false} PrefixValue(s: string, k: nat)
    requires AllDigits(s) && k <= |s|
    ensures DecimalValue(s[..k]) <= DecimalValue(s)
    decreases |s| - k
  {
    if k < |s| {
      var t := s[..|s| - 1];
      assert t[..k] == s[..k];
      PrefixValue(t, k);
    } else {
      assert s[..k] == s;
    }
  }

  /**
   * `str::parse::<u64>` on a run of ASCII digits: the value is accumulated digit by
   * digit with checked arithmetic, and the parse fails as soon as it leaves the
   * 64-bit range, or when there is no digit at all.
   */
  method ParseU64(digits: string) returns (r: Option<nat>)
    requires AllDigits(digits)
    ensures r.Some? <==> |digits| > 0 && DecimalValue(digits) <= U64_MAX
    ensures r.Some? ==> r.value == DecimalValue(digits)
  {
    if |digits| == 0 {
      return None;
    }
    var acc: nat := 0;
    var k := 0;
    while k < |digits|
      invariant 0 <= k <= |digits|
      invariant acc == DecimalValue(digits[..k]) && acc <= U64_MAX
    {
      var next := k + 1;
      assert digits[..next][..k] == digits[..k];
      acc := acc * 10 + DigitValue(digits[k]);
      k := next;
      if acc > U64_MAX {
        PrefixValue(digits, k);
        return None;
      }
    }
    assert digits[..k] == digits;
    return Some(acc);
  }
}
