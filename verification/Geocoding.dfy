/**
 Geohash scores (`src/geocoding.rs:1-86`). The bits are bit-vectors and follow the program
 step by step; the grid arithmetic is exact, over the reals, so rounding is not modelled.
 */
module Geocoding {
  import opened Types

  // ----------------------------------------------------------------- spreading the bits

  predicate Odd(v: bv32) {
    v & 1 == 1
  }

  function Half(v: bv32): bv32 {
    v >> 1
  }

  /** `v` with one bit put in at the low end. */
  function Join(one: bool, v: bv32): bv32 {
    if one then (v << 1) | 1 else v << 1
  }

  /** A bit below a spread value: the two lowest places are free. */
  function Below(bit: bool, rest: bv64): bv64 {
    (if bit then 1 else 0) + 4 * rest
  }

  /** The low `n` bits of `v`, each moved to twice its position: the low bit, plus four times the spread of
      the rest. */
  function SpreadBits(v: bv32, n: nat): bv64 {
    if n == 0 then 0 else Below(Odd(v), SpreadBits(Half(v), n - 1))
  }

  function Spread(v: bv32): bv64 {
    SpreadBits(v, 32)
  }

  predicate Odd64(v: bv64) {
    v & 1 == 1
  }

  function Quarter(v: bv64): bv64 {
    v >> 2
  }

  /** `n` of the bits in even places, packed. */
  function CompactBits(v: bv64, n: nat): bv32 {
    if n == 0 then 0 else Join(Odd64(v), CompactBits(Quarter(v), n - 1))
  }

  function Compact(v: bv64): bv32 {
    CompactBits(v, 32)
  }

  /** `spread_int32_to_int64`. */
  method SpreadByMasks(v: bv32) returns (result: bv64)
    ensures result == Spread(v)
  {
    result := v as bv64;
    result := (result | (result << 16)) & 0x0000FFFF0000FFFF;
    result := (result | (result << 8)) & 0x00FF00FF00FF00FF;
    result := (result | (result << 4)) & 0x0F0F0F0F0F0F0F0F;
    result := (result | (result << 2)) & 0x3333333333333333;
    result := (result | (result << 1)) & 0x5555555555555555;
    MasksSpread(v);
  }

  /** `compact_int64_to_int32`. */
  method CompactByMasks(v: bv64) returns (packed: bv32)
    ensures packed == Compact(v)
  {
    var result := v & 0x5555555555555555;
    result := (result | (result >> 1)) & 0x3333333333333333;
    result := (result | (result >> 2)) & 0x0F0F0F0F0F0F0F0F;
    result := (result | (result >> 4)) & 0x00FF00FF00FF00FF;
    result := (result | (result >> 8)) & 0x0000FFFF0000FFFF;
    packed := ((result | (result >> 16)) & 0x00000000FFFFFFFF) as bv32;
    MasksCompact(v);
  }

  /** The masks and shifts as one expression, for the proofs. */
  function MaskSpread(v: bv32): bv64 {
    var r0 := v as bv64;
    var r1 := (r0 | (r0 << 16)) & 0x0000FFFF0000FFFF;
    var r2 := (r1 | (r1 << 8)) & 0x00FF00FF00FF00FF;
    var r3 := (r2 | (r2 << 4)) & 0x0F0F0F0F0F0F0F0F;
    var r4 := (r3 | (r3 << 2)) & 0x3333333333333333;
    (r4 | (r4 << 1)) & 0x5555555555555555
  }

  function MaskCompact(v: bv64): bv32 {
    var r0 := v & 0x5555555555555555;
    var r1 := (r0 | (r0 >> 1)) & 0x3333333333333333;
    var r2 := (r1 | (r1 >> 2)) & 0x0F0F0F0F0F0F0F0F;
    var r3 := (r2 | (r2 >> 4)) & 0x00FF00FF00FF00FF;
    var r4 := (r3 | (r3 >> 8)) & 0x0000FFFF0000FFFF;
    ((r4 | (r4 >> 16)) & 0x00000000FFFFFFFF) as bv32
  }

  predicate Under(v: bv32, m: bv32) {
    v & m == v
  }

  /** `m` has exactly its low `n` bits set. */
  predicate LowMask(m: bv32, n: nat) {
    if n == 0 then m == 0 else Odd(m) && LowMask(Half(m), n - 1)
  }

  lemma HalfUnder(v: bv32, m: bv32)
    requires Under(v, m)
    ensures Under(Half(v), Half(m))
  {
  }

  lemma NothingUnder(v: bv32)
    requires Under(v, 0)
    ensures v == 0
  {
  }

  /** A bit goes in at the low end of what leaves room at the high end. */
  lemma JoinFits(one: bool, v: bv32, m: bv32)
    requires Under(v, Half(m)) && Odd(m)
    ensures Half(Join(one, v)) == v && (Odd(Join(one, v)) <==> one) && Under(Join(one, v), m)
  {
    hide Under, Half, Odd, Join;
    if one {
      JoinOne(v, m);
    } else {
      JoinZero(v, m);
    }
  }

  lemma JoinOne(v: bv32, m: bv32)
    requires Under(v, Half(m)) && Odd(m)
    ensures Half(Join(true, v)) == v && Odd(Join(true, v)) && Under(Join(true, v), m)
  {
  }

  lemma JoinZero(v: bv32, m: bv32)
    requires Under(v, Half(m)) && Odd(m)
    ensures Half(Join(false, v)) == v && !Odd(Join(false, v)) && Under(Join(false, v), m)
  {
  }

  lemma JoinHalf(v: bv32)
    ensures Join(Odd(v), Half(v)) == v
  {
  }

  lemma LongerMask(m: bv32, n: nat)
    requires LowMask(m, n) && Under(m, 0x7FFF_FFFF)
    ensures LowMask(Join(true, m), n + 1)
  {
    hide Odd, Half, Join, Under;
    AllOnes();
    JoinFits(true, m, 0xFFFF_FFFF);
  }

  lemma AllOnes()
    ensures Half(0xFFFF_FFFF) == 0x7FFF_FFFF && Odd(0xFFFF_FFFF)
  {
  }

  lemma FourMoreOnes(m: bv32, n: nat)
    requires LowMask(m, n) && Under(m, 0x0FFF_FFFF)
    ensures LowMask((m << 4) | 15, n + 4)
  {
    hide LowMask, Odd, Half, Join, Under;
    FourOnes(m);
    RoomForOne(m);
    RoomForTwo(Join(true, m));
    RoomForThree(Join(true, Join(true, m)));
    LongerMask(m, n);
    LongerMask(Join(true, m), n + 1);
    LongerMask(Join(true, Join(true, m)), n + 2);
    LongerMask(Join(true, Join(true, Join(true, m))), n + 3);
  }

  lemma FourOnes(m: bv32)
    requires Under(m, 0x0FFF_FFFF)
    ensures Join(true, Join(true, Join(true, Join(true, m)))) == (m << 4) | 15
  {
  }

  lemma RoomForOne(m: bv32)
    requires Under(m, 0x0FFF_FFFF)
    ensures Under(m, 0x7FFF_FFFF) && Under(Join(true, m), 0x1FFF_FFFF)
  {
  }

  lemma RoomForTwo(m: bv32)
    requires Under(m, 0x1FFF_FFFF)
    ensures Under(m, 0x7FFF_FFFF) && Under(Join(true, m), 0x3FFF_FFFF)
  {
  }

  lemma RoomForThree(m: bv32)
    requires Under(m, 0x3FFF_FFFF)
    ensures Under(m, 0x7FFF_FFFF) && Under(Join(true, m), 0x7FFF_FFFF)
  {
  }

  lemma Masks()
    ensures LowMask(0xFFFF_FFFF, 32)
    ensures LowMask(0x03FF_FFFF, 26)
  {
    hide LowMask;
    FirstMask();
    FourMoreOnes(0, 0);
    FourMoreOnes(0xF, 4);
    FourMoreOnes(0xFF, 8);
    FourMoreOnes(0xFFF, 12);
    FourMoreOnes(0xFFFF, 16);
    FourMoreOnes(0xF_FFFF, 20);
    FourMoreOnes(0xFF_FFFF, 24);
    FourMoreOnes(0xFFF_FFFF, 28);
    LongerMask(0xFF_FFFF, 24);
    LongerMask(0x1FF_FFFF, 25);
  }

  lemma FirstMask()
    ensures LowMask(0, 0)
  {
  }

  lemma {:induction false} SpreadByBits(v: bv32, m: bv32, n: nat)
    requires LowMask(m, n) && Under(v, m)
    ensures MaskSpread(v) == SpreadBits(v, n)
    decreases n
  {
    hide Under, Odd, Half, MaskSpread, Below;
    if n == 0 {
      NothingUnder(v);
      NothingSpread();
    } else {
      HalfUnder(v, m);
      SpreadByBits(Half(v), Half(m), n - 1);
      OneBitSpread(v);
    }
  }

  lemma NothingSpread()
    ensures MaskSpread(0) == 0 && MaskCompact(0) == 0
  {
  }

  lemma OneBitSpread(v: bv32)
    ensures MaskSpread(v) == Below(Odd(v), MaskSpread(Half(v)))
  {
  }

  lemma MasksSpread(v: bv32)
    ensures MaskSpread(v) == Spread(v)
  {
    hide MaskSpread, SpreadBits, LowMask;
    Masks();
    SpreadByBits(v, 0xFFFF_FFFF, 32);
  }

  predicate Under64(v: bv64, m: bv64) {
    v & m == v
  }

  predicate LowPair(m: bv64) {
    m & 3 == 3
  }

  /** Two bits of the mask for each packed one. */
  predicate WideMask(m: bv64, n: nat) {
    if n == 0 then m == 0 else LowPair(m) && WideMask(Quarter(m), n - 1)
  }

  lemma FourMorePairs(m: bv64, n: nat)
    requires WideMask(m, n) && Under64(m, 0x00FF_FFFF_FFFF_FFFF)
    ensures WideMask((m << 8) | 0xFF, n + 4)
  {
    var w := (m << 8) | 0xFF;
    hide Quarter, LowPair, Under64;
    assert WideMask(Quarter(Quarter(Quarter(w))), n + 1);
    assert WideMask(Quarter(Quarter(w)), n + 2);
  }

  lemma WideMasks()
    ensures WideMask(0xFFFF_FFFF_FFFF_FFFF, 32)
  {
    hide WideMask;
    FirstWideMask();
    FourMorePairs(0, 0);
    FourMorePairs(0xFF, 4);
    FourMorePairs(0xFFFF, 8);
    FourMorePairs(0xFF_FFFF, 12);
    FourMorePairs(0xFFFF_FFFF, 16);
    FourMorePairs(0xFF_FFFF_FFFF, 20);
    FourMorePairs(0xFFFF_FFFF_FFFF, 24);
    FourMorePairs(0xFF_FFFF_FFFF_FFFF, 28);
  }

  lemma FirstWideMask()
    ensures WideMask(0, 0)
  {
  }

  lemma {:induction false} CompactByBits(v: bv64, m: bv64, n: nat)
    requires WideMask(m, n) && Under64(v, m)
    ensures MaskCompact(v) == CompactBits(v, n)
    decreases n
  {
    hide Under64, Odd64, Quarter, MaskCompact, LowPair, Join;
    if n == 0 {
      NothingUnder64(v);
      NothingSpread();
    } else {
      QuarterUnder(v, m);
      CompactByBits(Quarter(v), Quarter(m), n - 1);
      OneBitCompact(v);
    }
  }

  lemma NothingUnder64(v: bv64)
    requires Under64(v, 0)
    ensures v == 0
  {
  }

  lemma QuarterUnder(v: bv64, m: bv64)
    requires Under64(v, m)
    ensures Under64(Quarter(v), Quarter(m))
  {
  }

  lemma OneBitCompact(v: bv64)
    ensures MaskCompact(v) == Join(Odd64(v), MaskCompact(Quarter(v)))
  {
  }

  lemma MasksCompact(v: bv64)
    ensures MaskCompact(v) == Compact(v)
  {
    hide MaskCompact, CompactBits, WideMask;
    WideMasks();
    CompactByBits(v, 0xFFFF_FFFF_FFFF_FFFF, 32);
  }

  /** Compacting undoes spreading on every 32-bit value. */
  lemma CompactUndoesSpread(v: bv32)
    ensures Compact(Spread(v)) == v
  {
    MasksSpread(v);
    MasksCompact(Spread(v));
    hide Spread, Compact;
  }

  /** The bits of `x` in the even places, those of `y` in the odd ones. */
  function Interleave(x: bv32, y: bv32): bv64 {
    Spread(x) | (Spread(y) << 1)
  }

  /** Both numbers can be read back from an interleaving. */
  lemma InterleaveSplits(x: bv32, y: bv32)
    ensures Compact(Interleave(x, y)) == x && Compact(Interleave(x, y) >> 1) == y
  {
    MasksSpread(x);
    MasksSpread(y);
    MasksCompact(Interleave(x, y));
    MasksCompact(Interleave(x, y) >> 1);
    hide Spread, Compact;
  }

  /** And every 64-bit value is the interleaving of its two halves. */
  lemma SplitInterleaves(code: bv64)
    ensures Interleave(Compact(code), Compact(code >> 1)) == code
  {
    MasksCompact(code);
    MasksCompact(code >> 1);
    MasksSpread(Compact(code));
    MasksSpread(Compact(code >> 1));
    hide Spread, Compact;
  }

  const SCORE_LIMIT: bv64 := 0x10_0000_0000_0000
  const GRID_LIMIT: bv32 := 0x400_0000

  /** The interleaving stays below 2^52 exactly when both numbers stay below 2^26. */
  lemma InterleaveFitsIff(x: bv32, y: bv32)
    ensures Interleave(x, y) < SCORE_LIMIT <==> x < GRID_LIMIT && y < GRID_LIMIT
  {
    MasksSpread(x);
    MasksSpread(y);
    hide Spread, Compact;
  }

  // -------------------------------------------------------------- bits and their values

  function Pow2(n: nat): (p: nat)
    ensures p > 0
  {
    if n == 0 then 1 else 2 * Pow2(n - 1)
  }

  /** The number the low `n` bits of `v` stand for. */
  function LowValue(v: bv32, n: nat): (value: nat)
    ensures value < Pow2(n)
  {
    if n == 0 then 0 else (if Odd(v) then 1 else 0) + 2 * LowValue(Half(v), n - 1)
  }

  /** The low `n` bits of a number. */
  function LowBits(x: nat, n: nat): bv32 {
    if n == 0 then 0 else Join(x % 2 == 1, LowBits(x / 2, n - 1))
  }

  function ValueOf(v: bv32): nat {
    LowValue(v, 32)
  }

  function BitsOf(x: nat): bv32 {
    LowBits(x, 32)
  }

  lemma {:induction false} BitsOfLowValue(v: bv32, m: bv32, n: nat)
    requires LowMask(m, n) && Under(v, m)
    ensures LowBits(LowValue(v, n), n) == v
    decreases n
  {
    hide Odd, Half, Join, Under;
    if n > 0 {
      HalfUnder(v, m);
      BitsOfLowValue(Half(v), Half(m), n - 1);
      Halving(Odd(v), LowValue(Half(v), n - 1));
      JoinHalf(v);
    } else {
      NothingUnder(v);
    }
  }

  lemma Halving(one: bool, rest: nat)
    ensures
      var x := (if one then 1 else 0) + 2 * rest;
      x / 2 == rest && (x % 2 == 1 <==> one)
  {
  }

  lemma {:induction false} LowValueOfBits(x: nat, m: bv32, n: nat)
    requires LowMask(m, n) && x < Pow2(n)
    ensures LowValue(LowBits(x, n), n) == x
    ensures Under(LowBits(x, n), m)
  {
    if n > 0 {
      hide Odd, Half, Join, Under;
      LowValueOfBits(x / 2, Half(m), n - 1);
      JoinFits(x % 2 == 1, LowBits(x / 2, n - 1), m);
    }
  }

  lemma Powers()
    ensures Pow2(26) == 0x400_0000 && Pow2(32) == U32_LIMIT
  {
    assert Pow2(8) == 0x100;
    assert Pow2(16) == 0x1_0000;
    assert Pow2(24) == 0x100_0000;
  }

  lemma AllUnder(v: bv32)
    ensures Under(v, 0xFFFF_FFFF)
    ensures v < GRID_LIMIT <==> Under(v, 0x03FF_FFFF)
  {
  }

  /** Reading a value back. */
  lemma BitsOfValue(v: bv32)
    ensures BitsOf(ValueOf(v)) == v
  {
    hide LowValue, LowBits, LowMask, Under;
    Masks();
    AllUnder(v);
    BitsOfLowValue(v, 0xFFFF_FFFF, 32);
  }

  lemma ValueOfBits(x: nat)
    requires x < U32_LIMIT
    ensures ValueOf(BitsOf(x)) == x
  {
    hide LowValue, LowBits, LowMask;
    Masks();
    Powers();
    LowValueOfBits(x, 0xFFFF_FFFF, 32);
  }

  /** Bits beyond those a number needs are zero. */
  lemma {:induction false} ShortNumber(x: nat, m: bv32, n: nat, k: nat)
    requires LowMask(m, n) && n <= k && x < Pow2(n)
    ensures Under(LowBits(x, k), m)
  {
    if n > 0 {
      hide Odd, Half, Join, Under;
      ShortNumber(x / 2, Half(m), n - 1, k - 1);
      JoinFits(x % 2 == 1, LowBits(x / 2, k - 1), m);
    } else {
      ZeroBits(k);
    }
  }

  lemma {:induction false} ZeroBits(n: nat)
    ensures LowBits(0, n) == 0
  {
    if n > 0 {
      ZeroBits(n - 1);
    }
  }

  lemma {:induction false} ShortBits(v: bv32, m: bv32, n: nat, k: nat)
    requires LowMask(m, n) && Under(v, m) && n <= k
    ensures LowValue(v, k) < Pow2(n)
    decreases n
  {
    hide Odd, Half, Under;
    if n > 0 {
      HalfUnder(v, m);
      ShortBits(Half(v), Half(m), n - 1, k - 1);
    } else {
      NothingUnder(v);
      ZeroValue(k);
    }
  }

  lemma {:induction false} ZeroValue(n: nat)
    ensures LowValue(0, n) == 0
  {
    if n > 0 {
      ZeroValue(n - 1);
    }
  }

  lemma GridBound(v: bv32)
    ensures ValueOf(v) < U32_LIMIT
    ensures v < GRID_LIMIT <==> ValueOf(v) < 0x400_0000
  {
    hide LowValue, LowBits, LowMask, Under;
    Masks();
    Powers();
    AllUnder(v);
    if Under(v, 0x03FF_FFFF) {
      ShortBits(v, 0x03FF_FFFF, 26, 32);
    }
    if ValueOf(v) < 0x400_0000 {
      BitsOfValue(v);
      ShortNumber(ValueOf(v), 0x03FF_FFFF, 26, 32);
    }
  }

  lemma {:induction false} MaskValue(m: bv32, n: nat)
    requires LowMask(m, n)
    ensures LowValue(m, n) == Pow2(n) - 1
    decreases n
  {
    hide Odd, Half;
    if n > 0 {
      MaskValue(Half(m), n - 1);
    }
  }

  lemma LargestValue(v: bv32)
    ensures ValueOf(v) == U32_LIMIT - 1 <==> v == 0xFFFF_FFFF
  {
    hide LowValue, LowBits, LowMask;
    Masks();
    Powers();
    MaskValue(0xFFFF_FFFF, 32);
    BitsOfValue(v);
    BitsOfValue(0xFFFF_FFFF);
  }

  lemma {:induction false} NextLowValue(v: bv32, n: nat)
    requires v != 0xFFFF_FFFF
    ensures LowValue(v + 1, n) == if LowValue(v, n) == Pow2(n) - 1 then 0 else LowValue(v, n) + 1
    decreases n
  {
    hide Odd, Half;
    if n > 0 {
      CarryBit(v);
      if Odd(v) {
        NextLowValue(Half(v), n - 1);
      }
    }
  }

  lemma CarryBit(v: bv32)
    requires v != 0xFFFF_FFFF
    ensures !Odd(v) ==> Half(v + 1) == Half(v) && Odd(v + 1)
    ensures Odd(v) ==> Half(v + 1) == Half(v) + 1 && !Odd(v + 1) && Half(v) != 0xFFFF_FFFF
  {
  }

  /** Adding one adds one, except that the largest number wraps around to 0. */
  lemma ValueOfNext(v: bv32)
    ensures ValueOf(v + 1) == if v == 0xFFFF_FFFF then 0 else ValueOf(v) + 1
  {
    hide LowValue;
    LargestValue(v);
    Powers();
    if v == 0xFFFF_FFFF {
      ZeroValue(32);
    } else {
      NextLowValue(v, 32);
    }
  }

  // ------------------------------------------------------------------------- the grid

  const MIN_LATITUDE := -85.05112878
  const LATITUDE_RANGE := 85.05112878 - MIN_LATITUDE
  const MIN_LONGITUDE := -180.0
  const LONGITUDE_RANGE := 180.0 - MIN_LONGITUDE

  /** 2^26 cells each way. */
  const CELLS := 67108864.0

  datatype Coordinates = Coordinates(latitude: real, longitude: real)

  /** `as u32` on a float saturates. */
  function SaturatingU32(x: real): nat {
    if x <= 0.0 then 0 else if x.Floor >= U32_LIMIT then U32_LIMIT - 1 else x.Floor
  }

  function Normalized(x: real, min: real, range: real): real
    requires range > 0.0
  {
    CELLS * (x - min) / range
  }

  function GridNumber(x: real, min: real, range: real): bv32
    requires range > 0.0
  {
    BitsOf(SaturatingU32(Normalized(x, min, range)))
  }

  function EncodePoint(p: Coordinates): bv64 {
    Interleave(GridNumber(p.latitude, MIN_LATITUDE, LATITUDE_RANGE),
               GridNumber(p.longitude, MIN_LONGITUDE, LONGITUDE_RANGE))
  }

  /** Halfway between the grid lines `n` and `m`. */
  function Midpoint(n: real, m: real, min: real, range: real): real {
    var lo := min + range * (n / CELLS);
    var hi := min + range * (m / CELLS);
    (lo + hi) / 2.0
  }

  /** The middle of a cell. The next grid number is computed in 32 bits. */
  function CellCenter(g: bv32, min: real, range: real): real {
    Midpoint(ValueOf(g) as real, ValueOf(g + 1) as real, min, range)
  }

  function DecodeScore(code: bv64): Coordinates {
    Coordinates(CellCenter(Compact(code), MIN_LATITUDE, LATITUDE_RANGE),
                CellCenter(Compact(code >> 1), MIN_LONGITUDE, LONGITUDE_RANGE))
  }

  /** Multiplying by a positive number keeps the order. */
  lemma Scaled(a: real, b: real, r: real)
    requires r > 0.0
    ensures a < b <==> a * r < b * r
    ensures a == b <==> a * r == b * r
    ensures a <= b <==> a * r <= b * r
  {
    assert (b - a) * r == b * r - a * r;
    assert (a - b) * r == a * r - b * r;
    if a < b {
      assert (b - a) * r > 0.0;
    } else if b < a {
      assert (a - b) * r > 0.0;
    }
  }

  /** A quotient is the number that gives back the dividend. */
  lemma Quotient(a: real, r: real, q: real)
    requires r > 0.0
    ensures q * r == a <==> a / r == q
  {
    assert (a / r) * r == a;
    Scaled(a / r, q, r);
  }

  /** Seen from the grid, the centre of cell `n` to `m` is halfway between `n` and `m`. */
  lemma CenterNormalizes(n: real, m: real, min: real, range: real)
    requires range > 0.0
    ensures Normalized(Midpoint(n, m, min, range), min, range) == (n + m) / 2.0
  {
    var center := Midpoint(n, m, min, range);
    var half := (n + m) / 2.0;
    assert range * (n / CELLS) == (n * range) / CELLS;
    assert range * (m / CELLS) == (m * range) / CELLS;
    assert half * range == (n * range + m * range) / 2.0;
    Quotient(CELLS * (center - min), range, half);
  }

  lemma HalfwayNumber(n: nat)
    requires n < U32_LIMIT
    ensures SaturatingU32((n as real + (n + 1) as real) / 2.0) == n
    ensures SaturatingU32(((U32_LIMIT - 1) as real + 0.0) / 2.0) == 0x7FFF_FFFF
  {
    assert (n as real + 0.5).Floor == n;
  }

  lemma CellRoundTrip(g: bv32, min: real, range: real)
    requires range > 0.0
    ensures GridNumber(CellCenter(g, min, range), min, range) == g <==> g != 0xFFFF_FFFF
  {
    hide ValueOf, BitsOf, Normalized, SaturatingU32, Midpoint;
    var next := ValueOf(g + 1);
    ValueOfNext(g);
    LargestValue(g);
    GridBound(g);
    BitsOfValue(g);
    HalfwayNumber(ValueOf(g));
    ValueOfBits(0x7FFF_FFFF);
    CenterNormalizes(ValueOf(g) as real, next as real, min, range);
  }

  /** A score survives decoding and encoding exactly when neither of its grid numbers is the largest 32-bit
      number, for which the end of the cell wraps around. */
  lemma ScoreRoundTripIff(code: bv64)
    ensures EncodePoint(DecodeScore(code)) == code <==>
            Compact(code) != 0xFFFF_FFFF && Compact(code >> 1) != 0xFFFF_FFFF
  {
    hide Spread, Compact, Interleave, CellCenter, GridNumber;
    var x := Compact(code);
    var y := Compact(code >> 1);
    SplitInterleaves(code);
    CellRoundTrip(x, MIN_LATITUDE, LATITUDE_RANGE);
    CellRoundTrip(y, MIN_LONGITUDE, LONGITUDE_RANGE);
    var p := DecodeScore(code);
    InterleaveSplits(GridNumber(p.latitude, MIN_LATITUDE, LATITUDE_RANGE),
                     GridNumber(p.longitude, MIN_LONGITUDE, LONGITUDE_RANGE));
  }

  /** In particular every score below 2^52 survives. */
  lemma ScoreRoundTrip(code: bv64)
    requires code < SCORE_LIMIT
    ensures EncodePoint(DecodeScore(code)) == code
  {
    ScoreRoundTripIff(code);
    SplitInterleaves(code);
    InterleaveFitsIff(Compact(code), Compact(code >> 1));
  }

  /** The points GEOADD accepts. */
  predicate OnMap(p: Coordinates) {
    && MIN_LATITUDE <= p.latitude <= MIN_LATITUDE + LATITUDE_RANGE
    && MIN_LONGITUDE <= p.longitude <= MIN_LONGITUDE + LONGITUDE_RANGE
  }

  lemma NormalizedBounds(x: real, min: real, range: real)
    requires range > 0.0 && min <= x <= min + range
    ensures 0.0 <= Normalized(x, min, range) <= CELLS
    ensures Normalized(x, min, range) == CELLS <==> x == min + range
  {
    var t := Normalized(x, min, range);
    Quotient(CELLS * (x - min), range, t);
    Scaled(0.0, t, range);
    Scaled(t, CELLS, range);
  }

  lemma OnMapGrid(x: real, min: real, range: real)
    requires range > 0.0 && min <= x <= min + range
    ensures ValueOf(GridNumber(x, min, range)) == Normalized(x, min, range).Floor
    ensures GridNumber(x, min, range) < GRID_LIMIT <==> x != min + range
  {
    hide ValueOf, BitsOf, Normalized;
    NormalizedBounds(x, min, range);
    var n := Normalized(x, min, range).Floor;
    assert 0 <= n <= 0x400_0000;
    assert SaturatingU32(Normalized(x, min, range)) == n;
    ValueOfBits(n);
    GridBound(GridNumber(x, min, range));
  }

  /** The score of an accepted point is below 2^52, so exact as a float, unless it lies on the northern edge
      or at longitude 180. */
  lemma ScoreFitsIff(p: Coordinates)
    requires OnMap(p)
    ensures EncodePoint(p) < SCORE_LIMIT <==>
            p.latitude != MIN_LATITUDE + LATITUDE_RANGE && p.longitude != MIN_LONGITUDE + LONGITUDE_RANGE
  {
    hide Spread, Interleave, GridNumber;
    OnMapGrid(p.latitude, MIN_LATITUDE, LATITUDE_RANGE);
    OnMapGrid(p.longitude, MIN_LONGITUDE, LONGITUDE_RANGE);
    InterleaveFitsIff(GridNumber(p.latitude, MIN_LATITUDE, LATITUDE_RANGE),
                      GridNumber(p.longitude, MIN_LONGITUDE, LONGITUDE_RANGE));
  }

  /** Which coordinate goes where: the bits in even places are the row of the cell, counted from the south in 2^26 rows, and
      those in odd places its column, counted from the west in 2^26 columns. */
  lemma ScoreIsRowAndColumn(p: Coordinates)
    requires OnMap(p)
    ensures ValueOf(Compact(EncodePoint(p))) == (67108864.0 * (p.latitude + 85.05112878) / 170.10225756).Floor
    ensures ValueOf(Compact(EncodePoint(p) >> 1)) == (67108864.0 * (p.longitude + 180.0) / 360.0).Floor
  {
    hide Spread, Compact, Interleave, GridNumber, ValueOf;
    InterleaveSplits(GridNumber(p.latitude, MIN_LATITUDE, LATITUDE_RANGE),
                     GridNumber(p.longitude, MIN_LONGITUDE, LONGITUDE_RANGE));
    OnMapGrid(p.latitude, MIN_LATITUDE, LATITUDE_RANGE);
    OnMapGrid(p.longitude, MIN_LONGITUDE, LONGITUDE_RANGE);
  }

  /** A cell is a 2^26th of the range, so half a cell is a 2^27th of it. */
  predicate WithinHalfACell(a: real, b: real, range: real) {
    -range <= 2.0 * (CELLS * (a - b)) <= range
  }

  lemma CenterIsNear(x: real, min: real, range: real)
    requires range > 0.0 && min <= x <= min + range
    ensures WithinHalfACell(CellCenter(GridNumber(x, min, range), min, range), x, range)
  {
    hide ValueOf, GridNumber, Normalized, Midpoint;
    var g := GridNumber(x, min, range);
    OnMapGrid(x, min, range);
    NormalizedBounds(x, min, range);
    LargestValue(g);
    ValueOfNext(g);
    var n := ValueOf(g);
    var center := CellCenter(g, min, range);
    CenterNormalizes(n as real, (n + 1) as real, min, range);
    assert (n + 1) as real == n as real + 1.0;
    NearOnGrid(center, x, min, range);
  }

  lemma HalfMore(s: real, t: real, x: real, y: real, range: real)
    requires range > 0.0 && s * range == x && t * range == y && s <= t + 0.5
    ensures x <= y + 0.5 * range
  {
    Scaled(s, t + 0.5, range);
    assert (t + 0.5) * range == y + 0.5 * range;
  }

  lemma HalfApart(s: real, t: real, x: real, y: real, range: real)
    requires range > 0.0 && s * range == x && t * range == y && -0.5 <= s - t <= 0.5
    ensures x <= y + 0.5 * range && y <= x + 0.5 * range
  {
    HalfMore(s, t, x, y, range);
    HalfMore(t, s, y, x, range);
  }

  /** Half a cell apart on the grid is half a cell apart on the map. */
  lemma NearOnGrid(a: real, b: real, min: real, range: real)
    requires range > 0.0
    requires -0.5 <= Normalized(a, min, range) - Normalized(b, min, range) <= 0.5
    ensures WithinHalfACell(a, b, range)
  {
    var x := CELLS * (a - min);
    var y := CELLS * (b - min);
    Quotient(x, range, Normalized(a, min, range));
    Quotient(y, range, Normalized(b, min, range));
    hide Normalized;
    HalfApart(Normalized(a, min, range), Normalized(b, min, range), x, y, range);
    assert x - y == CELLS * (a - b);
  }

  /** Decoding the score of an accepted point gives a point within half a cell of it, each way. */
  lemma DecodedPointIsNear(p: Coordinates)
    requires OnMap(p)
    ensures
      var q := DecodeScore(EncodePoint(p));
      WithinHalfACell(q.latitude, p.latitude, LATITUDE_RANGE) && WithinHalfACell(q.longitude, p.longitude, LONGITUDE_RANGE)
  {
    hide Spread, Compact, Interleave, GridNumber, CellCenter;
    InterleaveSplits(GridNumber(p.latitude, MIN_LATITUDE, LATITUDE_RANGE),
                     GridNumber(p.longitude, MIN_LONGITUDE, LONGITUDE_RANGE));
    CenterIsNear(p.latitude, MIN_LATITUDE, LATITUDE_RANGE);
    CenterIsNear(p.longitude, MIN_LONGITUDE, LONGITUDE_RANGE);
  }
}
