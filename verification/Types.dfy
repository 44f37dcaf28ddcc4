/**
 Values shared by every component: bytes, machine integers, text and options
 (`src/types.rs`). Machine integers are subsets of `int`, so every place where the
 program wraps around or truncates is written out where it happens.
 */
module Types {
  newtype byte = b: int | 0 <= b < 256

  type Bytes = seq<byte>

  /** A store key: any bytes, UTF-8 or not. */
  type Key = Bytes

  const U16_LIMIT: int := 0x1_0000
  const U32_LIMIT: int := 0x1_0000_0000
  const U64_LIMIT: int := 0x1_0000_0000_0000_0000
  const I64_LIMIT: int := 0x8000_0000_0000_0000

  type u16 = n: int | 0 <= n < U16_LIMIT
  type u32 = n: int | 0 <= n < U32_LIMIT
  type u64 = n: int | 0 <= n < U64_LIMIT
  type i64 = n: int | -I64_LIMIT <= n < I64_LIMIT

  datatype Option<+T> = None | Some(value: T)

  const CR: byte := 13
  const LF: byte := 10
  const CRLF: Bytes := [CR, LF]

  /** The bytes of an ASCII literal. */
  function Ascii(text: string): Bytes {
    seq(|text|, i requires 0 <= i < |text| => (text[i] as int % 256) as byte)
  }

  /** `+` wrapping around at 64 bits, as the release build computes it. */
  function WrapU64(n: nat): u64 {
    n % U64_LIMIT
  }

  /** Signed 64-bit wrap-around. */
  function WrapI64(n: int): i64 {
    (n + I64_LIMIT) % U64_LIMIT - I64_LIMIT
  }

  predicate Within(b: byte, lo: byte, hi: byte) {
    lo <= b <= hi
  }

  predicate IsContinuation(b: byte) {
    Within(b, 0x80, 0xBF)
  }

  /** Length of the well-formed UTF-8 sequence at the head of `s` (Table 3-7 of the
      Unicode standard), or 0 when `s` does not start with one. */
  function Utf8Head(s: Bytes): (n: nat)
    ensures n <= |s|
  {
    if |s| == 0 then 0
    else if s[0] < 0x80 then 1
    else if Within(s[0], 0xC2, 0xDF) then
      if |s| >= 2 && IsContinuation(s[1]) then 2 else 0
    else if Within(s[0], 0xE0, 0xEF) then
      var lo := if s[0] == 0xE0 then 0xA0 else 0x80;
      var hi := if s[0] == 0xED then 0x9F else 0xBF;
      if |s| >= 3 && Within(s[1], lo, hi) && IsContinuation(s[2]) then 3 else 0
    else if Within(s[0], 0xF0, 0xF4) then
      var lo := if s[0] == 0xF0 then 0x90 else 0x80;
      var hi := if s[0] == 0xF4 then 0x8F else 0xBF;
      if |s| >= 4 && Within(s[1], lo, hi) && IsContinuation(s[2]) && IsContinuation(s[3]) then 4 else 0
    else 0
  }

  /** What `str::from_utf8` accepts. */
  predicate ValidUtf8(s: Bytes) {
    |s| == 0 || (Utf8Head(s) > 0 && ValidUtf8(s[Utf8Head(s)..]))
  }

  /** Rust's `String`: bytes known to be UTF-8. */
  type Text = s: Bytes | ValidUtf8(s)

  predicate IsAscii(s: Bytes) {
    forall i :: 0 <= i < |s| ==> s[i] < 0x80
  }

  lemma {:induction false} AsciiIsUtf8(s: Bytes)
    requires IsAscii(s)
    ensures ValidUtf8(s)
  {
    if |s| > 0 {
      AsciiIsUtf8(s[1..]);
    }
  }
}
