/**
 * The De Bruijn lookups of `MathematicalExtensions` in Telefrek.Core:
 * `MSB` and `LSB` find the highest and the lowest set bit of a 32-bit
 * integer. Both work on the bits of their `int` argument, which the model
 * takes as a `bv32`, its two's-complement pattern.
 */
module MathBits {

  const MsbDeBruijnLookup: seq<int> := [0, 9, 1, 10, 13, 21, 2, 29, 11, 14, 16, 18, 22, 25, 3, 30,
                                        8, 12, 20, 28, 15, 17, 24, 7, 19, 27, 23, 6, 26, 5, 4, 31]
  const LsbDeBruijnLookup: seq<int> := [0, 1, 28, 2, 29, 14, 24, 3, 30, 22, 20, 15, 25, 17, 4, 8,
                                        31, 27, 13, 23, 21, 19, 16, 7, 26, 12, 18, 6, 11, 5, 10, 9]

  /** `v >> n` on an `int`: the sign bit is copied into the vacated positions. */
  function ShiftRight(v: bv32, n: bv32): bv32
    requires n < 32
  {
    if v >> 31 == 1 then !(!v >> n) else v >> n
  }

  /** One `x |= x >> n` step. */
  function Spread(x: bv32, n: bv32): bv32
    requires n < 32
  {
    x | ShiftRight(x, n)
  }

  /** The five `x |= x >> k` steps: every position below the highest set bit becomes set. */
  function Smear(x: bv32): bv32
  {
    Spread(Spread(Spread(Spread(Spread(x, 1), 2), 4), 8), 16)
  }

  /** `(uint)(v * 0x07C4ACDDU) >> 27`: the top five bits of the low word of the product. */
  function MsbIndex(v: bv32): int
  {
    ((v * 0x07C4ACDD) >> 27) as int
  }

  /** `(uint)(v * 0x077CB531U) >> 27`. */
  function LsbIndex(v: bv32): int
  {
    ((v * 0x077CB531) >> 27) as int
  }

  /** `MSB(x)`. */
  function Msb(x: bv32): int
  {
    MsbDeBruijnLookup[MsbIndex(Smear(x))]
  }

  /** `LSB(x)`: `x & -x` keeps only the lowest set bit. */
  function Lsb(x: bv32): int
  {
    LsbDeBruijnLookup[LsbIndex(x & -x)]
  }

  function Ones(k: bv32): bv32
    requires k < 32
  {
    ((1 as bv32) << (k + 1)) - 1
  }

  /** Bit `k` is the highest set bit of `x`. */
  predicate HighestSetAt(x: bv32, k: bv32)
  {
    k < 32 && x >> k == 1
  }

  /** Every bit of `x` below `k` is clear. */
  predicate ZeroBelow(x: bv32, k: bv32)
    requires k <= 32
  {
    x & (((1 as bv32) << k) - 1) == 0
  }

  /** Bit `k` is the lowest set bit of `x`. */
  predicate LowestSetAt(x: bv32, k: bv32)
  {
    k < 32 && x & ((1 as bv32) << k) != 0 && ZeroBelow(x, k)
  }

  /** `y` lies within bits `0..k` and holds the `m` highest of them. */
  predicate Smeared(y: bv32, k: bv32, m: bv32)
    requires k < 32 && m <= 32
  {
    y | (Ones(k) >> m) == Ones(k)
  }

  lemma SmearStart(x: bv32, k: bv32)
    requires HighestSetAt(x, k)
    ensures Smeared(x, k, 1)
  {
  }

  lemma SmearStep1(y: bv32, k: bv32)
    requires k < 32 && Smeared(y, k, 1)
    ensures Smeared(Spread(y, 1), k, 2)
  {
  }

  lemma SmearStep2(y: bv32, k: bv32)
    requires k < 32 && Smeared(y, k, 2)
    ensures Smeared(Spread(y, 2), k, 4)
  {
  }

  lemma SmearStep4(y: bv32, k: bv32)
    requires k < 32 && Smeared(y, k, 4)
    ensures Smeared(Spread(y, 4), k, 8)
  {
  }

  lemma SmearStep8(y: bv32, k: bv32)
    requires k < 32 && Smeared(y, k, 8)
    ensures Smeared(Spread(y, 8), k, 16)
  {
  }

  lemma SmearStep16(y: bv32, k: bv32)
    requires k < 32 && Smeared(y, k, 16)
    ensures Smeared(Spread(y, 16), k, 32)
  {
  }

  lemma SmearDone(y: bv32, k: bv32)
    requires k < 32 && Smeared(y, k, 32)
    ensures y == Ones(k)
  {
  }

  /** Smearing a value whose highest set bit is `k` leaves exactly bits `0..k` set. */
  lemma SmearIsOnes(x: bv32, k: bv32)
    requires HighestSetAt(x, k)
    ensures Smear(x) == Ones(k)
  {
    SmearStart(x, k);
    SmearStep1(x, k);
    var a := Spread(x, 1);
    SmearStep2(a, k);
    var b := Spread(a, 2);
    SmearStep4(b, k);
    var c := Spread(b, 4);
    SmearStep8(c, k);
    var d := Spread(c, 8);
    SmearStep16(d, k);
    SmearDone(Spread(d, 16), k);
  }

  lemma IsolateLowest(x: bv32, k: bv32)
    requires LowestSetAt(x, k)
    ensures x & -x == (1 as bv32) << k
  {
  }

  /** The entries of the two tables, one by one. */
  lemma MsbEntries0()
    ensures MsbDeBruijnLookup[0] == 0
    ensures MsbDeBruijnLookup[1] == 9
    ensures MsbDeBruijnLookup[2] == 1
    ensures MsbDeBruijnLookup[3] == 10
    ensures MsbDeBruijnLookup[4] == 13
    ensures MsbDeBruijnLookup[5] == 21
    ensures MsbDeBruijnLookup[6] == 2
    ensures MsbDeBruijnLookup[7] == 29
    ensures MsbDeBruijnLookup[8] == 11
    ensures MsbDeBruijnLookup[9] == 14
    ensures MsbDeBruijnLookup[10] == 16
    ensures MsbDeBruijnLookup[11] == 18
    ensures MsbDeBruijnLookup[12] == 22
    ensures MsbDeBruijnLookup[13] == 25
    ensures MsbDeBruijnLookup[14] == 3
    ensures MsbDeBruijnLookup[15] == 30
  {
    assert MsbDeBruijnLookup[0] == 0;
    assert MsbDeBruijnLookup[1] == 9;
    assert MsbDeBruijnLookup[2] == 1;
    assert MsbDeBruijnLookup[3] == 10;
    assert MsbDeBruijnLookup[4] == 13;
    assert MsbDeBruijnLookup[5] == 21;
    assert MsbDeBruijnLookup[6] == 2;
    assert MsbDeBruijnLookup[7] == 29;
    assert MsbDeBruijnLookup[8] == 11;
    assert MsbDeBruijnLookup[9] == 14;
    assert MsbDeBruijnLookup[10] == 16;
    assert MsbDeBruijnLookup[11] == 18;
    assert MsbDeBruijnLookup[12] == 22;
    assert MsbDeBruijnLookup[13] == 25;
    assert MsbDeBruijnLookup[14] == 3;
    assert MsbDeBruijnLookup[15] == 30;
  }

  lemma MsbEntries1()
    ensures MsbDeBruijnLookup[16] == 8
    ensures MsbDeBruijnLookup[17] == 12
    ensures MsbDeBruijnLookup[18] == 20
    ensures MsbDeBruijnLookup[19] == 28
    ensures MsbDeBruijnLookup[20] == 15
    ensures MsbDeBruijnLookup[21] == 17
    ensures MsbDeBruijnLookup[22] == 24
    ensures MsbDeBruijnLookup[23] == 7
    ensures MsbDeBruijnLookup[24] == 19
    ensures MsbDeBruijnLookup[25] == 27
    ensures MsbDeBruijnLookup[26] == 23
    ensures MsbDeBruijnLookup[27] == 6
    ensures MsbDeBruijnLookup[28] == 26
    ensures MsbDeBruijnLookup[29] == 5
    ensures MsbDeBruijnLookup[30] == 4
    ensures MsbDeBruijnLookup[31] == 31
  {
    assert MsbDeBruijnLookup[16] == 8;
    assert MsbDeBruijnLookup[17] == 12;
    assert MsbDeBruijnLookup[18] == 20;
    assert MsbDeBruijnLookup[19] == 28;
    assert MsbDeBruijnLookup[20] == 15;
    assert MsbDeBruijnLookup[21] == 17;
    assert MsbDeBruijnLookup[22] == 24;
    assert MsbDeBruijnLookup[23] == 7;
    assert MsbDeBruijnLookup[24] == 19;
    assert MsbDeBruijnLookup[25] == 27;
    assert MsbDeBruijnLookup[26] == 23;
    assert MsbDeBruijnLookup[27] == 6;
    assert MsbDeBruijnLookup[28] == 26;
    assert MsbDeBruijnLookup[29] == 5;
    assert MsbDeBruijnLookup[30] == 4;
    assert MsbDeBruijnLookup[31] == 31;
  }

  lemma LsbEntries0()
    ensures LsbDeBruijnLookup[0] == 0
    ensures LsbDeBruijnLookup[1] == 1
    ensures LsbDeBruijnLookup[2] == 28
    ensures LsbDeBruijnLookup[3] == 2
    ensures LsbDeBruijnLookup[4] == 29
    ensures LsbDeBruijnLookup[5] == 14
    ensures LsbDeBruijnLookup[6] == 24
    ensures LsbDeBruijnLookup[7] == 3
    ensures LsbDeBruijnLookup[8] == 30
    ensures LsbDeBruijnLookup[9] == 22
    ensures LsbDeBruijnLookup[10] == 20
    ensures LsbDeBruijnLookup[11] == 15
    ensures LsbDeBruijnLookup[12] == 25
    ensures LsbDeBruijnLookup[13] == 17
    ensures LsbDeBruijnLookup[14] == 4
    ensures LsbDeBruijnLookup[15] == 8
  {
    assert LsbDeBruijnLookup[0] == 0;
    assert LsbDeBruijnLookup[1] == 1;
    assert LsbDeBruijnLookup[2] == 28;
    assert LsbDeBruijnLookup[3] == 2;
    assert LsbDeBruijnLookup[4] == 29;
    assert LsbDeBruijnLookup[5] == 14;
    assert LsbDeBruijnLookup[6] == 24;
    assert LsbDeBruijnLookup[7] == 3;
    assert LsbDeBruijnLookup[8] == 30;
    assert LsbDeBruijnLookup[9] == 22;
    assert LsbDeBruijnLookup[10] == 20;
    assert LsbDeBruijnLookup[11] == 15;
    assert LsbDeBruijnLookup[12] == 25;
    assert LsbDeBruijnLookup[13] == 17;
    assert LsbDeBruijnLookup[14] == 4;
    assert LsbDeBruijnLookup[15] == 8;
  }

  lemma LsbEntries1()
    ensures LsbDeBruijnLookup[16] == 31
    ensures LsbDeBruijnLookup[17] == 27
    ensures LsbDeBruijnLookup[18] == 13
    ensures LsbDeBruijnLookup[19] == 23
    ensures LsbDeBruijnLookup[20] == 21
    ensures LsbDeBruijnLookup[21] == 19
    ensures LsbDeBruijnLookup[22] == 16
    ensures LsbDeBruijnLookup[23] == 7
    ensures LsbDeBruijnLookup[24] == 26
    ensures LsbDeBruijnLookup[25] == 12
    ensures LsbDeBruijnLookup[26] == 18
    ensures LsbDeBruijnLookup[27] == 6
    ensures LsbDeBruijnLookup[28] == 11
    ensures LsbDeBruijnLookup[29] == 5
    ensures LsbDeBruijnLookup[30] == 10
    ensures LsbDeBruijnLookup[31] == 9
  {
    assert LsbDeBruijnLookup[16] == 31;
    assert LsbDeBruijnLookup[17] == 27;
    assert LsbDeBruijnLookup[18] == 13;
    assert LsbDeBruijnLookup[19] == 23;
    assert LsbDeBruijnLookup[20] == 21;
    assert LsbDeBruijnLookup[21] == 19;
    assert LsbDeBruijnLookup[22] == 16;
    assert LsbDeBruijnLookup[23] == 7;
    assert LsbDeBruijnLookup[24] == 26;
    assert LsbDeBruijnLookup[25] == 12;
    assert LsbDeBruijnLookup[26] == 18;
    assert LsbDeBruijnLookup[27] == 6;
    assert LsbDeBruijnLookup[28] == 11;
    assert LsbDeBruijnLookup[29] == 5;
    assert LsbDeBruijnLookup[30] == 10;
    assert LsbDeBruijnLookup[31] == 9;
  }

  /** The De Bruijn index of every run of low ones, and of every single bit. */
  lemma MsbIndexes0()
    ensures MsbIndex(Ones(0)) == 0
    ensures MsbIndex(Ones(1)) == 2
    ensures MsbIndex(Ones(2)) == 6
    ensures MsbIndex(Ones(3)) == 14
    ensures MsbIndex(Ones(4)) == 30
    ensures MsbIndex(Ones(5)) == 29
    ensures MsbIndex(Ones(6)) == 27
    ensures MsbIndex(Ones(7)) == 23
  {
  }

  lemma MsbIndexes1()
    ensures MsbIndex(Ones(8)) == 16
    ensures MsbIndex(Ones(9)) == 1
    ensures MsbIndex(Ones(10)) == 3
    ensures MsbIndex(Ones(11)) == 8
    ensures MsbIndex(Ones(12)) == 17
    ensures MsbIndex(Ones(13)) == 4
    ensures MsbIndex(Ones(14)) == 9
    ensures MsbIndex(Ones(15)) == 20
  {
  }

  lemma MsbIndexes2()
    ensures MsbIndex(Ones(16)) == 10
    ensures MsbIndex(Ones(17)) == 21
    ensures MsbIndex(Ones(18)) == 11
    ensures MsbIndex(Ones(19)) == 24
    ensures MsbIndex(Ones(20)) == 18
    ensures MsbIndex(Ones(21)) == 5
    ensures MsbIndex(Ones(22)) == 12
    ensures MsbIndex(Ones(23)) == 26
  {
  }

  lemma MsbIndexes3()
    ensures MsbIndex(Ones(24)) == 22
    ensures MsbIndex(Ones(25)) == 13
    ensures MsbIndex(Ones(26)) == 28
    ensures MsbIndex(Ones(27)) == 25
    ensures MsbIndex(Ones(28)) == 19
    ensures MsbIndex(Ones(29)) == 7
    ensures MsbIndex(Ones(30)) == 15
    ensures MsbIndex(Ones(31)) == 31
  {
  }

  lemma LsbIndexes0()
    ensures LsbIndex((1 as bv32) << 0) == 0
    ensures LsbIndex((1 as bv32) << 1) == 1
    ensures LsbIndex((1 as bv32) << 2) == 3
    ensures LsbIndex((1 as bv32) << 3) == 7
    ensures LsbIndex((1 as bv32) << 4) == 14
    ensures LsbIndex((1 as bv32) << 5) == 29
    ensures LsbIndex((1 as bv32) << 6) == 27
    ensures LsbIndex((1 as bv32) << 7) == 23
  {
  }

  lemma LsbIndexes1()
    ensures LsbIndex((1 as bv32) << 8) == 15
    ensures LsbIndex((1 as bv32) << 9) == 31
    ensures LsbIndex((1 as bv32) << 10) == 30
    ensures LsbIndex((1 as bv32) << 11) == 28
    ensures LsbIndex((1 as bv32) << 12) == 25
    ensures LsbIndex((1 as bv32) << 13) == 18
    ensures LsbIndex((1 as bv32) << 14) == 5
    ensures LsbIndex((1 as bv32) << 15) == 11
  {
  }

  lemma LsbIndexes2()
    ensures LsbIndex((1 as bv32) << 16) == 22
    ensures LsbIndex((1 as bv32) << 17) == 13
    ensures LsbIndex((1 as bv32) << 18) == 26
    ensures LsbIndex((1 as bv32) << 19) == 21
    ensures LsbIndex((1 as bv32) << 20) == 10
    ensures LsbIndex((1 as bv32) << 21) == 20
    ensures LsbIndex((1 as bv32) << 22) == 9
    ensures LsbIndex((1 as bv32) << 23) == 19
  {
  }

  lemma LsbIndexes3()
    ensures LsbIndex((1 as bv32) << 24) == 6
    ensures LsbIndex((1 as bv32) << 25) == 12
    ensures LsbIndex((1 as bv32) << 26) == 24
    ensures LsbIndex((1 as bv32) << 27) == 17
    ensures LsbIndex((1 as bv32) << 28) == 2
    ensures LsbIndex((1 as bv32) << 29) == 4
    ensures LsbIndex((1 as bv32) << 30) == 8
    ensures LsbIndex((1 as bv32) << 31) == 16
  {
  }

  /** The MSB table inverts the De Bruijn index of every run of low ones. */
  lemma MsbTable(k: bv32)
    requires k < 32
    ensures MsbDeBruijnLookup[MsbIndex(Ones(k))] == k as int
  {
    MsbEntries0();
    MsbEntries1();
    MsbIndexes0();
    MsbIndexes1();
    MsbIndexes2();
    MsbIndexes3();
    assert k == 0 || k == 1 || k == 2 || k == 3 || k == 4 || k == 5 || k == 6 || k == 7 ||
           k == 8 || k == 9 || k == 10 || k == 11 || k == 12 || k == 13 || k == 14 || k == 15 ||
           k == 16 || k == 17 || k == 18 || k == 19 || k == 20 || k == 21 || k == 22 || k == 23 ||
           k == 24 || k == 25 || k == 26 || k == 27 || k == 28 || k == 29 || k == 30 || k == 31;
  }

  /** The LSB table inverts the De Bruijn index of every single bit. */
  lemma LsbTable(k: bv32)
    requires k < 32
    ensures LsbDeBruijnLookup[LsbIndex((1 as bv32) << k)] == k as int
  {
    LsbEntries0();
    LsbEntries1();
    LsbIndexes0();
    LsbIndexes1();
    LsbIndexes2();
    LsbIndexes3();
    assert k == 0 || k == 1 || k == 2 || k == 3 || k == 4 || k == 5 || k == 6 || k == 7 ||
           k == 8 || k == 9 || k == 10 || k == 11 || k == 12 || k == 13 || k == 14 || k == 15 ||
           k == 16 || k == 17 || k == 18 || k == 19 || k == 20 || k == 21 || k == 22 || k == 23 ||
           k == 24 || k == 25 || k == 26 || k == 27 || k == 28 || k == 29 || k == 30 || k == 31;
  }

  /** `MSB` returns the position of the highest set bit; for a negative `int` that is the sign bit, 31. */
  lemma MsbIsHighestSetBit(x: bv32, k: bv32)
    requires HighestSetAt(x, k)
    ensures Msb(x) == k as int
  {
    SmearIsOnes(x, k);
    MsbTable(k);
  }

  /** `LSB` returns the position of the lowest set bit. */
  lemma LsbIsLowestSetBit(x: bv32, k: bv32)
    requires LowestSetAt(x, k)
    ensures Lsb(x) == k as int
  {
    IsolateLowest(x, k);
    LsbTable(k);
  }

  /** Both lookups give 0 for 0, the same answer as for 1. */
  lemma ZeroLookups()
    ensures Msb(0) == 0 && Lsb(0) == 0 && Msb(1) == 0 && Lsb(1) == 0
  {
    MsbIsHighestSetBit(1, 0);
    LsbIsLowestSetBit(1, 0);
  }

  // ---------------------------------------------------------------------
  // Reference searches for the set bits
  // ---------------------------------------------------------------------

  lemma NoneBelowTop(x: bv32)
    requires x != 0
    ensures !ZeroBelow(x, 32)
  {
  }

  lemma ZeroBelowStep(x: bv32, k: bv32)
    requires k < 32 && ZeroBelow(x, k) && x & ((1 as bv32) << k) == 0
    ensures ZeroBelow(x, k + 1)
  {
    assert ((1 as bv32) << (k + 1)) - 1 == (((1 as bv32) << k) - 1) | ((1 as bv32) << k);
  }

  /** The first set bit at or above `k`, looking upwards one position at a time. */
  function LowestSetFrom(x: bv32, k: bv32): bv32
    requires x != 0 && k <= 32 && ZeroBelow(x, k)
    decreases 32 - k as int
  {
    if k == 32 then NoneBelowTop(x); assert false; 0
    else if x & ((1 as bv32) << k) != 0 then k
    else ZeroBelowStep(x, k); LowestSetFrom(x, k + 1)
  }

  lemma {:induction false} LowestSetFromIsLowest(x: bv32, k: bv32)
    requires x != 0 && k <= 32 && ZeroBelow(x, k)
    ensures LowestSetAt(x, LowestSetFrom(x, k))
    decreases 32 - k as int
  {
    if k == 32 {
      NoneBelowTop(x);
      assert false;
    } else if x & ((1 as bv32) << k) == 0 {
      ZeroBelowStep(x, k);
      LowestSetFromIsLowest(x, k + 1);
      assert LowestSetFrom(x, k) == LowestSetFrom(x, k + 1);
    } else {
      assert LowestSetFrom(x, k) == k;
      assert LowestSetAt(x, k);
    }
  }

  /** The lowest set bit of a non-zero value, by linear search. */
  function LowestSetBit(x: bv32): (k: bv32)
    requires x != 0
    ensures LowestSetAt(x, k)
  {
    LowestSetFromIsLowest(x, 0);
    LowestSetFrom(x, 0)
  }

  /** `LSB` agrees with the linear search on every non-zero value. */
  lemma LsbIsLowestSearch(x: bv32)
    requires x != 0
    ensures Lsb(x) == LowestSetBit(x) as int
  {
    LsbIsLowestSetBit(x, LowestSetBit(x));
  }

  /** Every bit of `x` at or above `k` is clear. */
  predicate ZeroFrom(x: bv32, k: bv32)
    requires k <= 32
  {
    x >> k == 0
  }

  lemma ZeroFromStep(x: bv32, k: bv32)
    requires k < 32 && ZeroFrom(x, k + 1) && x >> k == 0
    ensures ZeroFrom(x, k)
  {
  }

  lemma TopOfRest(x: bv32, k: bv32)
    requires k < 32 && ZeroFrom(x, k + 1) && x >> k != 0
    ensures HighestSetAt(x, k)
  {
  }

  /** The first set bit at or below `k`, looking downwards one position at a time. */
  function HighestSetFrom(x: bv32, k: bv32): bv32
    requires x != 0 && k < 32 && ZeroFrom(x, k + 1)
    decreases k
  {
    if x >> k != 0 then k
    else ZeroFromStep(x, k); HighestSetFrom(x, k - 1)
  }

  lemma {:induction false} HighestSetFromIsHighest(x: bv32, k: bv32)
    requires x != 0 && k < 32 && ZeroFrom(x, k + 1)
    ensures HighestSetAt(x, HighestSetFrom(x, k))
    decreases k
  {
    if x >> k != 0 {
      TopOfRest(x, k);
    } else {
      ZeroFromStep(x, k);
      HighestSetFromIsHighest(x, k - 1);
    }
  }

  /** The highest set bit of a non-zero value, by linear search. */
  function HighestSetBit(x: bv32): (k: bv32)
    requires x != 0
    ensures HighestSetAt(x, k)
  {
    HighestSetFromIsHighest(x, 31);
    HighestSetFrom(x, 31)
  }

  /** `MSB` agrees with the linear search on every non-zero value. */
  lemma MsbIsHighestSearch(x: bv32)
    requires x != 0
    ensures Msb(x) == HighestSetBit(x) as int
  {
    MsbIsHighestSetBit(x, HighestSetBit(x));
  }
}
