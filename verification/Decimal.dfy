/**
 Decimal text: `to_string` on integers and `FromStr` for Rust's integer types.
 */
module Decimal {
  import opened Types

  const ZERO: byte := 48
  const MINUS: byte := 45
  const PLUS: byte := 43

  predicate IsDigit(b: byte) {
    ZERO <= b <= 57
  }

  predicate AllDigits(s: Bytes) {
    forall i :: 0 <= i < |s| ==> IsDigit(s[i])
  }

  /** `to_string` of an unsigned integer. */
  function NatText(n: nat): (s: Bytes)
    ensures |s| > 0 && AllDigits(s)
  {
    if n < 10 then [(48 + n) as byte] else NatText(n / 10) + [(48 + n % 10) as byte]
  }

  /** `to_string` of a signed integer. */
  function IntText(n: int): Bytes {
    if n < 0 then [MINUS] + NatText(-n) else NatText(n)
  }

  /** Value of a digit string. */
  function DigitsValue(s: Bytes): nat
    requires AllDigits(s)
  {
    if s == [] then 0 else DigitsValue(s[..|s| - 1]) * 10 + (s[|s| - 1] as int - 48)
  }

  /** `str::parse` for an integer type whose values are `lo..hi`: an optional `+`, or `-` if the
      type is signed, then one or more digits whose value the type can hold. */
  function ParseInt(s: Bytes, lo: int, hi: int): Option<int> {
    if s == [] then None
    else
      var negative := s[0] == MINUS && lo < 0;
      var digits := if negative || s[0] == PLUS then s[1..] else s;
      if digits == [] || !AllDigits(digits) then None
      else
        var magnitude: int := DigitsValue(digits);
        var n := if negative then -magnitude else magnitude;
        if lo <= n < hi then Some(n) else None
  }

  lemma {:induction false} NatTextValue(n: nat)
    ensures DigitsValue(NatText(n)) == n
  {
    if n >= 10 {
      NatTextValue(n / 10);
      var s := NatText(n);
      assert s[..|s| - 1] == NatText(n / 10);
    }
  }

  /** Printing an integer and reading it back is the identity. */
  lemma ParseIntText(n: int, lo: int, hi: int)
    requires lo <= n < hi && lo <= 0
    ensures ParseInt(IntText(n), lo, hi) == Some(n)
  {
    NatTextValue(if n < 0 then -n else n);
    var s := IntText(n);
    if n < 0 {
      assert s[1..] == NatText(-n);
    } else {
      assert IsDigit(s[0]);
    }
  }

  lemma TextIsAscii(n: int)
    ensures IsAscii(IntText(n)) && ValidUtf8(IntText(n))
  {
    var s := IntText(n);
    forall i | 0 <= i < |s| ensures s[i] < 0x80 {
      if n < 0 && i > 0 {
        assert IsDigit(NatText(-n)[i - 1]);
      } else if n >= 0 {
        assert IsDigit(s[i]);
      }
    }
    AsciiIsUtf8(s);
  }
}
