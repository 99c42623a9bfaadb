/**
 * `BitMask` in Telefrek.Core: a fixed number of bits packed into 64-bit
 * words. Bit `b` lives in word `b / 64` at offset `b % 64`, and offset `o`
 * is the word's bit `63 - o`: offset 0 is the most significant bit. A set
 * bit marks a slot as taken; `NextAvailableSlot` looks for a clear one.
 */
module BitMasks {
  import opened MathBits

  // ---------------------------------------------------------------------
  // Single bits of a word
  // ---------------------------------------------------------------------

  /** A word with exactly one bit set. */
  predicate Single(m: bv64)
  {
    m != 0 && m & (m - 1) == 0
  }

  /**
   * `63 - o`, the shift count of offset `o`, counted down from offset 63.
   * It is defined by recursion rather than as the cast `(63 - o) as bv8`,
   * because the solver cannot relate that cast back to `63 - o` cheaply.
   */
  function Pos(o: int): bv8
    requires 0 <= o < 64
    decreases 63 - o
  {
    if o == 63 then 0 else Pos(o + 1) + 1
  }

  lemma {:induction false} PosValue(o: int)
    requires 0 <= o < 64
    ensures Pos(o) as int == 63 - o
    decreases 63 - o
  {
    if o < 63 {
      PosValue(o + 1);
    }
  }

  /** `1UL << (63 - o)`: the mask of offset `o`. */
  function Mask(o: int): bv64
    requires 0 <= o < 64
  {
    (1 as bv64) << ((Pos(o) & 63) as bv64)
  }

  /** `w | mask`: `w` with offset `o` set. */
  function SetWord(w: bv64, o: int): bv64
    requires 0 <= o < 64
  {
    w | Mask(o)
  }

  /** `w & ~mask`: `w` with offset `o` cleared. */
  function ClearWord(w: bv64, o: int): bv64
    requires 0 <= o < 64
  {
    w & !Mask(o)
  }

  lemma ShiftSingle(p: bv64)
    requires p < 64
    ensures Single((1 as bv64) << p)
  {
  }

  lemma ShiftsDistinct(p: bv64, q: bv64)
    requires p < 64 && q < 64 && p != q
    ensures (1 as bv64) << p != (1 as bv64) << q
  {
  }

  lemma SinglesDisjoint(m: bv64, n: bv64)
    requires Single(m) && Single(n) && m != n
    ensures m & n == 0
  {
  }

  lemma OrSame(w: bv64, m: bv64)
    requires Single(m)
    ensures (w | m) & m != 0
  {
  }

  lemma OrOther(w: bv64, m: bv64, n: bv64)
    requires m & n == 0
    ensures (w | m) & n == w & n
  {
  }

  lemma AndNotSame(w: bv64, m: bv64)
    ensures (w & !m) & m == 0
  {
  }

  lemma AndNotOther(w: bv64, m: bv64, n: bv64)
    requires m & n == 0
    ensures (w & !m) & n == w & n
  {
  }

  lemma MaskSingle(o: int)
    requires 0 <= o < 64
    ensures Single(Mask(o))
  {
    ShiftSingle((Pos(o) & 63) as bv64);
  }

  /** The masks of two offsets share no bit. */
  lemma MaskDisjoint(o: int, q: int)
    requires 0 <= o < 64 && 0 <= q < 64 && o != q
    ensures Mask(o) & Mask(q) == 0
  {
    PosValue(o);
    PosValue(q);
    ShiftsDistinct((Pos(o) & 63) as bv64, (Pos(q) & 63) as bv64);
    MaskSingle(o);
    MaskSingle(q);
    SinglesDisjoint(Mask(o), Mask(q));
  }

  lemma SetSameWord(w: bv64, o: int)
    requires 0 <= o < 64
    ensures SetWord(w, o) & Mask(o) != 0
  {
    MaskSingle(o);
    OrSame(w, Mask(o));
  }

  lemma SetOtherWord(w: bv64, o: int, q: int)
    requires 0 <= o < 64 && 0 <= q < 64 && o != q
    ensures SetWord(w, o) & Mask(q) == w & Mask(q)
  {
    MaskDisjoint(o, q);
    OrOther(w, Mask(o), Mask(q));
  }

  lemma ClearSameWord(w: bv64, o: int)
    requires 0 <= o < 64
    ensures ClearWord(w, o) & Mask(o) == 0
  {
    AndNotSame(w, Mask(o));
  }

  lemma ClearOtherWord(w: bv64, o: int, q: int)
    requires 0 <= o < 64 && 0 <= q < 64 && o != q
    ensures ClearWord(w, o) & Mask(q) == w & Mask(q)
  {
    MaskDisjoint(o, q);
    AndNotOther(w, Mask(o), Mask(q));
  }

  lemma FullWord(o: int)
    requires 0 <= o < 64
    ensures 0xFFFF_FFFF_FFFF_FFFF & Mask(o) != 0
  {
    MaskSingle(o);
  }

  /** Whether offset `o` of `w` is set. */
  predicate Has(w: bv64, o: int)
    requires 0 <= o < 64
  {
    w & Mask(o) != 0
  }

  lemma HasSetSame(w: bv64, o: int)
    requires 0 <= o < 64
    ensures Has(SetWord(w, o), o)
  {
    SetSameWord(w, o);
  }

  lemma HasSetOther(w: bv64, o: int, q: int)
    requires 0 <= o < 64 && 0 <= q < 64 && o != q
    ensures Has(SetWord(w, o), q) == Has(w, q)
  {
    SetOtherWord(w, o, q);
  }

  lemma HasClearSame(w: bv64, o: int)
    requires 0 <= o < 64
    ensures !Has(ClearWord(w, o), o)
  {
    ClearSameWord(w, o);
  }

  lemma HasClearOther(w: bv64, o: int, q: int)
    requires 0 <= o < 64 && 0 <= q < 64 && o != q
    ensures Has(ClearWord(w, o), q) == Has(w, q)
  {
    ClearOtherWord(w, o, q);
  }

  lemma HasSet(w: bv64, o: int, q: int)
    requires 0 <= o < 64 && 0 <= q < 64
    ensures Has(SetWord(w, o), q) <==> o == q || Has(w, q)
  {
    if o == q {
      HasSetSame(w, o);
    } else {
      HasSetOther(w, o, q);
    }
  }

  lemma HasClear(w: bv64, o: int, q: int)
    requires 0 <= o < 64 && 0 <= q < 64
    ensures Has(ClearWord(w, o), q) <==> o != q && Has(w, q)
  {
    if o == q {
      HasClearSame(w, o);
    } else {
      HasClearOther(w, o, q);
    }
  }
  // ---------------------------------------------------------------------
  // Bits of a sequence of words
  // ---------------------------------------------------------------------

  /** The number of words for `size` bits: `(size >> 6) + (rem > 0 ? 1 : 0)`. */
  function WordCount(size: nat): (n: nat)
    ensures size <= 64 * n < size + 64
  {
    size / 64 + if size % 64 > 0 then 1 else 0
  }

  /** `(bit >> 6) < _raw.Length`: the word of `bit` exists. */
  predicate InRange(words: seq<bv64>, bit: nat)
  {
    bit / 64 < |words|
  }

  /** `(_raw[bit >> 6] & (1UL << (63 - (bit & 63)))) > 0`. */
  predicate Test(words: seq<bv64>, bit: nat)
    requires InRange(words, bit)
  {
    Has(words[bit / 64], bit % 64)
  }

  /**
   * The words after `Set(bit)`: unchanged when the word does not exist or
   * the bit is already set, otherwise `_raw[bit >> 6] |= mask`.
   */
  function SetBit(words: seq<bv64>, bit: nat): (r: seq<bv64>)
    ensures |r| == |words|
  {
    if !InRange(words, bit) || Test(words, bit) then words
    else words[bit / 64 := SetWord(words[bit / 64], bit % 64)]
  }

  /** The words after `_raw[bit >> 6] &= ~mask`, or unchanged when the word does not exist. */
  function ClearBit(words: seq<bv64>, bit: nat): (r: seq<bv64>)
    ensures |r| == |words|
  {
    if InRange(words, bit) then words[bit / 64 := ClearWord(words[bit / 64], bit % 64)] else words
  }

  lemma SameBit(bit: nat, c: nat)
    ensures bit / 64 == c / 64 && bit % 64 == c % 64 <==> bit == c
  {
  }

  /** Or-ing a mask into word `i` sets offset `o` of that word and nothing else. */
  lemma SetWordOffset(words: seq<bv64>, i: int, o: int, j: int, q: int)
    ensures 0 <= i < |words| && 0 <= j < |words| && 0 <= o < 64 && 0 <= q < 64 ==>
      (Has(words[i := SetWord(words[i], o)][j], q) <==> (i == j && o == q) || Has(words[j], q))
  {
    if 0 <= i < |words| && 0 <= j < |words| && 0 <= o < 64 && 0 <= q < 64 && i == j {
      var w := SetWord(words[i], o);
      assert words[i := w][j] == w;
      HasSet(words[i], o, q);
    }
  }

  /** And-ing the complement of a mask into word `i` clears offset `o` of that word and nothing else. */
  lemma ClearWordOffset(words: seq<bv64>, i: int, o: int, j: int, q: int)
    ensures 0 <= i < |words| && 0 <= j < |words| && 0 <= o < 64 && 0 <= q < 64 ==>
      (Has(words[i := ClearWord(words[i], o)][j], q) <==> !(i == j && o == q) && Has(words[j], q))
  {
    if 0 <= i < |words| && 0 <= j < |words| && 0 <= o < 64 && 0 <= q < 64 && i == j {
      HasClear(words[i], o, q);
    }
  }

  /** Setting a bit sets that bit and no other. */
  lemma TestSetBit(words: seq<bv64>, bit: nat, c: nat)
    requires InRange(words, c)
    ensures Test(SetBit(words, bit), c) <==> c == bit || Test(words, c)
  {
    if InRange(words, bit) {
      SameBit(bit, c);
      SetWordOffset(words, bit / 64, bit % 64, c / 64, c % 64);
    }
  }

  /** Clearing a bit clears that bit and no other. */
  lemma TestClearBit(words: seq<bv64>, bit: nat, c: nat)
    requires InRange(words, c)
    ensures Test(ClearBit(words, bit), c) <==> c != bit && Test(words, c)
  {
    if InRange(words, bit) {
      SameBit(bit, c);
      ClearWordOffset(words, bit / 64, bit % 64, c / 64, c % 64);
    }
  }

  /** Every bit of the words, in order. */
  function Bits(words: seq<bv64>): (s: seq<bool>)
    ensures |s| == 64 * |words|
    ensures forall c :: 0 <= c < |s| ==> s[c] == Test(words, c)
  {
    seq(64 * |words|, c requires 0 <= c < 64 * |words| => Test(words, c))
  }

  // ---------------------------------------------------------------------
  // The highest clear bit
  // ---------------------------------------------------------------------

  /** The highest clear bit below `b`, or -1 when every bit below `b` is set. */
  function HighestClearBelow(bits: seq<bool>, b: nat): (r: int)
    requires b <= |bits|
    ensures -1 <= r < b
  {
    if b == 0 then -1
    else if !bits[b - 1] then b - 1
    else HighestClearBelow(bits, b - 1)
  }

  /** The highest clear bit, or -1 when all are set. */
  function HighestClear(bits: seq<bool>): int
  {
    HighestClearBelow(bits, |bits|)
  }

  /** `HighestClearBelow` finds a clear bit with every bit above it up to `b` set, or reports that all are set. */
  lemma {:induction false} HighestClearBelowIsHighest(bits: seq<bool>, b: nat)
    requires b <= |bits|
    ensures var r := HighestClearBelow(bits, b);
      (r == -1 ==> forall c :: 0 <= c < b ==> bits[c]) &&
      (r >= 0 ==> !bits[r] && forall c :: r < c < b ==> bits[c])
  {
    if b > 0 && bits[b - 1] {
      HighestClearBelowIsHighest(bits, b - 1);
    }
  }

  /** A clear bit with every bit above it up to `b` set is the one `HighestClearBelow` finds. */
  lemma {:induction false} HighestClearBelowFound(bits: seq<bool>, b: nat, r: nat)
    requires r < b <= |bits|
    requires !bits[r] && forall c :: r < c < b ==> bits[c]
    ensures HighestClearBelow(bits, b) == r
  {
    if b - 1 != r {
      HighestClearBelowFound(bits, b - 1, r);
    }
  }

  /** A run of set bits is skipped. */
  lemma {:induction false} SkipSet(bits: seq<bool>, lo: nat, hi: nat)
    requires lo <= hi <= |bits|
    requires forall c :: lo <= c < hi ==> bits[c]
    ensures HighestClearBelow(bits, hi) == HighestClearBelow(bits, lo)
  {
    if lo < hi {
      SkipSet(bits, lo, hi - 1);
    }
  }
  // ---------------------------------------------------------------------
  // The two halves NextAvailableSlot looks at
  // ---------------------------------------------------------------------

  function Low(w: bv64): bv32
  {
    (w & 0xFFFF_FFFF) as bv32
  }

  function High(w: bv64): bv32
  {
    ((w >> 32) & 0xFFFF_FFFF) as bv32
  }

  lemma LowAnd(w: bv64, m: bv32)
    ensures Low(w) & m == 0 <==> w & (m as bv64) == 0
  {
  }

  lemma HighAnd(w: bv64, m: bv32)
    ensures High(w) & m == 0 <==> w & ((m as bv64) << 32) == 0
  {
  }

  lemma Complement(w: bv64, m: bv64)
    requires Single(m)
    ensures (!w) & m == 0 <==> w & m != 0
  {
  }

  lemma WidenShift(k: bv32)
    requires k < 32
    ensures ((1 as bv32) << k) as bv64 == (1 as bv64) << (k as bv64)
  {
  }

  lemma WidenShiftHigh(k: bv32)
    requires k < 32
    ensures (((1 as bv32) << k) as bv64) << 32 == (1 as bv64) << (k as bv64 + 32)
  {
  }

  lemma MaskLowHalf(k: bv32)
    requires k < 32
    ensures Mask(63 - k as int) == ((1 as bv32) << k) as bv64
  {
    PosValue(63 - k as int);
    assert (Pos(63 - k as int) & 63) as bv64 == k as bv64;
    WidenShift(k);
  }

  lemma MaskHighHalf(k: bv32)
    requires k < 32
    ensures Mask(31 - k as int) == (((1 as bv32) << k) as bv64) << 32
  {
    PosValue(31 - k as int);
    assert (Pos(31 - k as int) & 63) as bv64 == k as bv64 + 32;
    WidenShiftHigh(k);
  }

  /** Offset `o` of `w` is set exactly when bit `k` of the low half of `!w` is clear. */
  lemma HasLow(w: bv64, k: bv32, o: int)
    requires k < 32 && 0 <= o < 64 && Mask(o) == ((1 as bv32) << k) as bv64
    ensures Has(w, o) <==> Low(!w) & ((1 as bv32) << k) == 0
  {
    MaskSingle(o);
    Complement(w, Mask(o));
    LowAnd(!w, (1 as bv32) << k);
  }

  /** Offset `o` of `w` is set exactly when bit `k` of the high half of `!w` is clear. */
  lemma HasHigh(w: bv64, k: bv32, o: int)
    requires k < 32 && 0 <= o < 64 && Mask(o) == (((1 as bv32) << k) as bv64) << 32
    ensures Has(w, o) <==> High(!w) & ((1 as bv32) << k) == 0
  {
    MaskSingle(o);
    Complement(w, Mask(o));
    HighAnd(!w, (1 as bv32) << k);
  }

  lemma BelowLowest(p: bv32, k: bv32, j: bv32)
    requires LowestSetAt(p, k) && j < k
    ensures p & ((1 as bv32) << j) == 0
  {
  }

  lemma HalvesOf(w: bv64)
    ensures w == 0 <==> Low(w) == 0 && High(w) == 0
  {
  }

  lemma BitNumberBound(k: bv32)
    requires k < 32
    ensures k as int < 32
  {
  }

  lemma ByteOfInt(q: int)
    requires 0 <= q < 32
    ensures (q as bv8) as int == q
  {
  }

  lemma WidenByte(j: bv8)
    requires j < 32
    ensures (j as bv32) as int == j as int && j as bv32 < 32
  {
  }

  lemma NarrowToByte(k: bv32)
    requires k < 32
    ensures (k as bv8) as int == k as int
  {
  }

  lemma ByteLess(a: bv8, b: bv8)
    requires a as int < b as int
    ensures a < b
  {
  }

  lemma WidenLess(a: bv8, k: bv32)
    requires k < 32 && a < k as bv8
    ensures a as bv32 < k
  {
  }

  /** The bit number `q` as a shift count, converted through a byte. */
  function BitNumber(q: int): bv32
    requires 0 <= q < 32
  {
    (q as bv8) as bv32
  }

  lemma BitNumberValue(q: int)
    requires 0 <= q < 32
    ensures BitNumber(q) < 32 && BitNumber(q) as int == q
  {
    ByteOfInt(q);
    WidenByte(q as bv8);
  }

  lemma BitNumberBelow(q: int, k: bv32)
    requires 0 <= q < k as int && k < 32
    ensures BitNumber(q) < k
  {
    ByteOfInt(q);
    NarrowToByte(k);
    ByteLess(q as bv8, k as bv8);
    WidenLess(q as bv8, k);
  }

  /** Offsets above `63 - k` are set when `k` is the lowest set bit of the low half of `!w`. */
  lemma AboveLowSlot(w: bv64, k: bv32, q: int)
    requires LowestSetAt(Low(!w), k) && 63 - k as int < q < 64
    ensures Has(w, q)
  {
    var j := BitNumber(63 - q);
    BitNumberValue(63 - q);
    BitNumberBelow(63 - q, k);
    BelowLowest(Low(!w), k, j);
    MaskLowHalf(j);
    HasLow(w, j, q);
  }

  /** Offsets of the high half above `31 - k` are set when `k` is the lowest set bit of the high half of `!w`. */
  lemma AboveHighSlot(w: bv64, k: bv32, q: int)
    requires LowestSetAt(High(!w), k) && 31 - k as int < q < 32
    ensures Has(w, q)
  {
    var j := BitNumber(31 - q);
    BitNumberValue(31 - q);
    BitNumberBelow(31 - q, k);
    BelowLowest(High(!w), k, j);
    MaskHighHalf(j);
    HasHigh(w, j, q);
  }

  /** Offsets of the low half are set when the low half of `!w` is zero. */
  lemma LowHalfFull(w: bv64, q: int)
    requires Low(!w) == 0 && 32 <= q < 64
    ensures Has(w, q)
  {
    var j := BitNumber(63 - q);
    BitNumberValue(63 - q);
    MaskLowHalf(j);
    HasLow(w, j, q);
  }

  /** When `k` is the lowest set bit of the low half of `!w`, offset `63 - k` is the highest clear offset of `w`. */
  lemma LowSlotAt(w: bv64, k: bv32)
    requires LowestSetAt(Low(!w), k)
    ensures var o := 63 - k as int;
      32 <= o < 64 && !Has(w, o) && forall q :: o < q < 64 ==> Has(w, q)
  {
    BitNumberBound(k);
    MaskLowHalf(k);
    HasLow(w, k, 63 - k as int);
    forall q | 63 - k as int < q < 64 {
      AboveLowSlot(w, k, q);
    }
  }

  /** When the low half of `!w` is zero and `k` is the lowest set bit of its high half, offset `31 - k` is the highest clear offset of `w`. */
  lemma HighSlotAt(w: bv64, k: bv32)
    requires Low(!w) == 0 && LowestSetAt(High(!w), k)
    ensures var o := 31 - k as int;
      0 <= o < 32 && !Has(w, o) && forall q :: o < q < 64 ==> Has(w, q)
  {
    BitNumberBound(k);
    MaskHighHalf(k);
    HasHigh(w, k, 31 - k as int);
    forall q | 31 - k as int < q < 64
      ensures Has(w, q)
    {
      if q < 32 {
        AboveHighSlot(w, k, q);
      } else {
        LowHalfFull(w, q);
      }
    }
  }

  /** The lower-half branch of `NextAvailableSlot` finds the highest clear offset of the word. */
  lemma LowSlot(w: bv64)
    requires Low(!w) != 0
    ensures var o := 63 - Lsb(Low(!w));
      32 <= o < 64 && !Has(w, o) && forall q :: o < q < 64 ==> Has(w, q)
  {
    var k := LowestSetBit(Low(!w));
    LsbIsLowestSetBit(Low(!w), k);
    LowSlotAt(w, k);
  }

  /** The upper-half branch finds the highest clear offset when the lower half has none. */
  lemma HighSlot(w: bv64)
    requires Low(!w) == 0 && High(!w) != 0
    ensures var o := 31 - Lsb(High(!w));
      0 <= o < 32 && !Has(w, o) && forall q :: o < q < 64 ==> Has(w, q)
  {
    var k := LowestSetBit(High(!w));
    LsbIsLowestSetBit(High(!w), k);
    HighSlotAt(w, k);
  }

  /** A word whose complement is zero has every offset set. */
  lemma FullSlot(w: bv64, q: int)
    requires !w == 0 && 0 <= q < 64
    ensures Has(w, q)
  {
    assert w == 0xFFFF_FFFF_FFFF_FFFF;
    FullWord(q);
  }

  /** Every offset of `w` is set exactly when `w` is all ones. */
  lemma AllSetIsFull(w: bv64)
    ensures (forall q :: 0 <= q < 64 ==> Has(w, q)) <==> w == 0xFFFF_FFFF_FFFF_FFFF
  {
    if w == 0xFFFF_FFFF_FFFF_FFFF {
      forall q | 0 <= q < 64 {
        FullSlot(w, q);
      }
    } else {
      HalvesOf(!w);
      if Low(!w) != 0 {
        LowSlot(w);
      } else {
        HighSlot(w);
      }
    }
  }

  // ---------------------------------------------------------------------
  // From words to bits
  // ---------------------------------------------------------------------

  lemma BitOfWord(n: int, o: int)
    requires 0 <= n && 0 <= o < 64
    ensures (64 * n + o) / 64 == n && (64 * n + o) % 64 == o
  {
  }

  /** Bit `64 * n + o` of the words is offset `o` of word `n`. */
  lemma WordBit(words: seq<bv64>, n: int, w: bv64, o: int)
    requires 0 <= n < |words| && words[n] == w && 0 <= o < 64
    ensures 64 * n + o < |Bits(words)| && Bits(words)[64 * n + o] == Has(w, o)
  {
    BitOfWord(n, o);
  }

  /** A word whose offsets above `o` are set and whose offset `o` is clear holds the highest clear bit below its end. */
  lemma FoundInWord(words: seq<bv64>, n: int, w: bv64, o: int)
    requires 0 <= n < |words| && words[n] == w && 0 <= o < 64
    requires !Has(w, o) && forall q :: o < q < 64 ==> Has(w, q)
    ensures 64 * (n + 1) <= |Bits(words)|
    ensures HighestClearBelow(Bits(words), 64 * (n + 1)) == 64 * n + o
  {
    var bits := Bits(words);
    var base := 64 * n;
    assert 64 * (n + 1) == base + 64;
    WordBit(words, n, w, o);
    forall c | base + o < c < base + 64
      ensures bits[c]
    {
      WordBit(words, n, w, c - base);
    }
    HighestClearBelowFound(bits, base + 64, base + o);
  }

  /** A word with every offset set is skipped. */
  lemma SkipWord(words: seq<bv64>, n: int, w: bv64)
    requires 0 <= n < |words| && words[n] == w && forall q :: 0 <= q < 64 ==> Has(w, q)
    ensures 64 * (n + 1) <= |Bits(words)|
    ensures HighestClearBelow(Bits(words), 64 * (n + 1)) == HighestClearBelow(Bits(words), 64 * n)
  {
    var bits := Bits(words);
    forall c | 64 * n <= c < 64 * (n + 1)
      ensures bits[c]
    {
      WordBit(words, n, w, c - 64 * n);
    }
    SkipSet(bits, 64 * n, 64 * (n + 1));
  }

  /** Setting a bit in range sets that bit of the view and leaves the others. */
  lemma BitsSetBit(words: seq<bv64>, bit: nat)
    ensures Bits(SetBit(words, bit)) == if InRange(words, bit) then Bits(words)[bit := true] else Bits(words)
  {
    if InRange(words, bit) {
      forall c | 0 <= c < 64 * |words|
        ensures Bits(SetBit(words, bit))[c] == Bits(words)[bit := true][c]
      {
        TestSetBit(words, bit, c);
      }
    }
  }

  /** Clearing a bit in range clears that bit of the view and leaves the others. */
  lemma BitsClearBit(words: seq<bv64>, bit: nat)
    ensures Bits(ClearBit(words, bit)) == if InRange(words, bit) then Bits(words)[bit := false] else Bits(words)
  {
    if InRange(words, bit) {
      forall c | 0 <= c < 64 * |words|
        ensures Bits(ClearBit(words, bit))[c] == Bits(words)[bit := false][c]
      {
        TestClearBit(words, bit, c);
      }
    }
  }

  // ---------------------------------------------------------------------
  // The padding of a fresh mask
  // ---------------------------------------------------------------------

  /** Offsets `lo` to 63 of `w` are set and no others. */
  predicate SetFrom(w: bv64, lo: int)
  {
    forall o :: 0 <= o < 64 ==> (Has(w, o) <==> lo <= o)
  }

  lemma NothingSet()
    ensures SetFrom(0, 64)
  {
  }

  lemma SetFromAt(w: bv64, p: int, o: int)
    requires 0 <= p < 64 && 0 <= o < 64 && (Has(w, o) <==> p + 1 <= o)
    ensures Has(SetWord(w, p), o) <==> p <= o
  {
    HasSet(w, p, o);
  }

  /** Setting offset `p` below a run of set offsets starting at `p + 1` extends the run. */
  lemma SetFromStep(w: bv64, p: int)
    requires 0 <= p < 64 && SetFrom(w, p + 1)
    ensures SetFrom(SetWord(w, p), p)
  {
    var v := SetWord(w, p);
    forall o | 0 <= o < 64
      ensures Has(v, o) <==> p <= o
    {
      SetFromAt(w, p, o);
    }
  }

  /** The bits of a fresh mask as the constructor leaves them: the top `size % 64` offsets of the last word. */
  function AsWrittenBits(size: nat): (s: seq<bool>)
    ensures |s| == 64 * WordCount(size)
  {
    seq(64 * WordCount(size), c => size % 64 > 0 && c / 64 == size / 64 && 64 - size % 64 <= c % 64)
  }

  /** The bits of a fresh mask whose positions past its length are marked taken. */
  function PaddedBits(size: nat): (s: seq<bool>)
    ensures |s| == 64 * WordCount(size)
  {
    seq(64 * WordCount(size), c => c >= size)
  }

  /** Words that are zero except for the lowest `i` positions of word `size / 64`. */
  lemma FreshWords(words: seq<bv64>, size: nat, i: int)
    requires |words| == WordCount(size) && 0 <= i <= 64
    requires forall j :: 0 <= j < |words| && j != size / 64 ==> words[j] == 0
    requires size % 64 > 0 ==> SetFrom(words[size / 64], 64 - i)
    ensures forall c :: 0 <= c < |Bits(words)| ==>
      (Bits(words)[c] <==> size % 64 > 0 && c / 64 == size / 64 && 64 - i <= c % 64)
  {
    forall c | 0 <= c < |Bits(words)|
      ensures Bits(words)[c] <==> size % 64 > 0 && c / 64 == size / 64 && 64 - i <= c % 64
    {
      if c / 64 != size / 64 {
        assert words[c / 64] == 0;
      }
    }
  }

  lemma AsWrittenWords(words: seq<bv64>, size: nat)
    requires |words| == WordCount(size)
    requires forall j :: 0 <= j < |words| && j != size / 64 ==> words[j] == 0
    requires size % 64 > 0 ==> SetFrom(words[size / 64], 64 - size % 64)
    ensures Bits(words) == AsWrittenBits(size)
  {
    FreshWords(words, size, size % 64);
  }

  lemma PaddedWords(words: seq<bv64>, size: nat)
    requires |words| == WordCount(size)
    requires forall j :: 0 <= j < |words| && j != size / 64 ==> words[j] == 0
    requires size % 64 > 0 ==> SetFrom(words[size / 64], size % 64)
    ensures Bits(words) == PaddedBits(size)
  {
    FreshWords(words, size, 64 - size % 64);
  }

  /**
   * As the constructor is written, the highest clear bit of a fresh mask
   * whose length is not a multiple of 64 is offset `63 - size % 64` of its
   * last word.
   */
  lemma AsWrittenFreshSlot(size: nat)
    requires size % 64 > 0
    ensures HighestClear(AsWrittenBits(size)) == 64 * (size / 64) + 63 - size % 64
  {
    var bits := AsWrittenBits(size);
    var n := size / 64;
    BitOfWord(n, 63 - size % 64);
    forall c | 64 * n + 63 - size % 64 < c < 64 * (n + 1)
      ensures bits[c]
    {
      BitOfWord(n, c - 64 * n);
    }
    HighestClearBelowFound(bits, |bits|, 64 * n + 63 - size % 64);
  }

  /** So a fresh mask of one bit offers slot 62, past its length. */
  lemma AsWrittenSlotPastEnd()
    ensures HighestClear(AsWrittenBits(1)) == 62
  {
    AsWrittenFreshSlot(1);
  }

  /** With the positions past the length marked taken, a fresh mask offers its last slot, or none when empty. */
  lemma PaddedFreshSlot(size: nat)
    ensures HighestClear(PaddedBits(size)) == size - 1
  {
    var bits := PaddedBits(size);
    if size > 0 {
      HighestClearBelowFound(bits, |bits|, size - 1);
    }
  }

  // ---------------------------------------------------------------------
  // What the free-slot search reports
  // ---------------------------------------------------------------------

  /** Words that are all ones have every bit set, and words that are zero have none. */
  lemma UniformWords(words: seq<bv64>, w: bv64)
    requires w == 0 || w == 0xFFFF_FFFF_FFFF_FFFF
    requires forall j :: 0 <= j < |words| ==> words[j] == w
    ensures forall c :: 0 <= c < |Bits(words)| ==> Bits(words)[c] == (w != 0)
  {
    forall c | 0 <= c < |Bits(words)|
      ensures Bits(words)[c] == (w != 0)
    {
      if w != 0 {
        FullSlot(words[c / 64], c % 64);
      }
    }
  }

  /**
   * The highest clear bit is -1 exactly when every word is all ones;
   * otherwise it is a clear bit with every bit above it set.
   */
  lemma HighestClearOfWords(words: seq<bv64>)
    ensures var r := HighestClear(Bits(words));
      (r == -1 <==> forall j :: 0 <= j < |words| ==> words[j] == 0xFFFF_FFFF_FFFF_FFFF) &&
      (r >= 0 ==> r < 64 * |words| && !Test(words, r) && forall c :: r < c < 64 * |words| ==> Test(words, c))
  {
    var bits := Bits(words);
    HighestClearBelowIsHighest(bits, |bits|);
    if HighestClear(bits) == -1 {
      forall j | 0 <= j < |words|
        ensures words[j] == 0xFFFF_FFFF_FFFF_FFFF
      {
        var w := words[j];
        forall q | 0 <= q < 64
          ensures Has(w, q)
        {
          WordBit(words, j, w, q);
        }
        AllSetIsFull(w);
      }
    }
    if forall j :: 0 <= j < |words| ==> words[j] == 0xFFFF_FFFF_FFFF_FFFF {
      UniformWords(words, 0xFFFF_FFFF_FFFF_FFFF);
    }
  }

  /** A mask whose words are all zero offers its last bit. */
  lemma HighestClearOfZeros(words: seq<bv64>)
    requires forall j :: 0 <= j < |words| ==> words[j] == 0
    ensures HighestClear(Bits(words)) == 64 * |words| - 1
  {
    UniformWords(words, 0);
    var bits := Bits(words);
    if |words| > 0 {
      HighestClearBelowFound(bits, |bits|, |bits| - 1);
    }
  }

  /** A word with no clear offset is skipped by the search. */
  lemma FullStep(words: seq<bv64>, n: int, w: bv64)
    requires 0 <= n < |words| && words[n] == w && !w == 0
    ensures 64 * (n + 1) <= |Bits(words)|
    ensures HighestClearBelow(Bits(words), 64 * (n + 1)) == HighestClearBelow(Bits(words), 64 * n)
  {
    AllSetIsFull(w);
    SkipWord(words, n, w);
  }

  /** A clear offset in the lower half of word `n` is the one the search finds. */
  lemma LowStep(words: seq<bv64>, n: int, w: bv64)
    requires 0 <= n < |words| && words[n] == w && Low(!w) != 0
    ensures 64 * (n + 1) <= |Bits(words)|
    ensures HighestClearBelow(Bits(words), 64 * (n + 1)) == 64 * n + (63 - Lsb(Low(!w)))
  {
    LowSlot(w);
    FoundInWord(words, n, w, 63 - Lsb(Low(!w)));
  }

  /** Otherwise a clear offset is in the upper half of word `n`. */
  lemma HighStep(words: seq<bv64>, n: int, w: bv64)
    requires 0 <= n < |words| && words[n] == w && !w != 0 && Low(!w) == 0
    ensures High(!w) != 0
    ensures 64 * (n + 1) <= |Bits(words)|
    ensures HighestClearBelow(Bits(words), 64 * (n + 1)) == 64 * n + (31 - Lsb(High(!w)))
  {
    HalvesOf(!w);
    HighSlot(w);
    FoundInWord(words, n, w, 31 - Lsb(High(!w)));
  }

  /**
   * The loop of `NextAvailableSlot` over the words: from the last word down,
   * the first word whose complement is nonzero gives the slot, its lower
   * half tried before its upper half.
   */
  method FindSlot(words: seq<bv64>) returns (slot: int)
    ensures slot == HighestClear(Bits(words))
  {
    var n := |words| - 1;
    slot := -1;
    while n >= 0
      invariant -1 <= n < |words|
      invariant HighestClear(Bits(words)) == HighestClearBelow(Bits(words), 64 * (n + 1))
    {
      var w := words[n];
      var i := !w;
      if i != 0 {
        var p := Low(i);
        if p != 0 {
          LowStep(words, n, w);
          return 64 * n + (63 - Lsb(p));
        }
        // the source tests the upper half against zero as well; with `i`
        // nonzero and its lower half zero that test always succeeds
        p := High(i);
        HighStep(words, n, w);
        return 64 * n + (31 - Lsb(p));
      }
      FullStep(words, n, w);
      n := n - 1;
    }
  }

  // ---------------------------------------------------------------------
  // The mask
  // ---------------------------------------------------------------------

  /** `BitMask`: the length `_sz` and the words `_raw`, whose contents change in place. */
  class BitMask {
    const size: nat
    const raw: array<bv64>

    /** `new BitMask(size)`, as written: the lowest `size % 64` bit positions of the last word are set. */
    constructor(size: nat)
      ensures this.size == size && raw.Length == WordCount(size) && fresh(raw)
      ensures Bits(raw[..]) == AsWrittenBits(size)
    {
      this.size := size;
      var rem := size % 64;
      // `_raw[_sz >> 6] |= 1UL << i` for each `i < rem`, gathered in `last`
      // first: the word starts at zero, and bit position `i` is offset `63 - i`
      var last: bv64 := 0;
      NothingSet();
      var i := 0;
      while i < rem
        invariant 0 <= i <= rem
        invariant SetFrom(last, 64 - i)
      {
        SetFromStep(last, 63 - i);
        last := SetWord(last, 63 - i);
        i := i + 1;
      }
      raw := new bv64[WordCount(size)](j => if rem > 0 && j == size / 64 then last else 0);
      new;
      AsWrittenWords(raw[..], size);
    }

    /** A fresh mask whose positions past `size`, the `64 - size % 64` lowest positions of the last word, are set. */
    constructor Padded(size: nat)
      ensures this.size == size && raw.Length == WordCount(size) && fresh(raw)
      ensures Bits(raw[..]) == PaddedBits(size)
    {
      this.size := size;
      var rem := size % 64;
      var pad := if rem > 0 then 64 - rem else 0;
      var last: bv64 := 0;
      NothingSet();
      var i := 0;
      while i < pad
        invariant 0 <= i <= pad
        invariant SetFrom(last, 64 - i)
      {
        SetFromStep(last, 63 - i);
        last := SetWord(last, 63 - i);
        i := i + 1;
      }
      raw := new bv64[WordCount(size)](j => if rem > 0 && j == size / 64 then last else 0);
      new;
      PaddedWords(raw[..], size);
    }

    /** `Length`. */
    function Length(): int
    {
      size
    }

    /** `Load(words)`: an `ArgumentOutOfRangeException`, here `false`, unless the lengths agree; then a copy. */
    method Load(words: seq<bv64>) returns (ok: bool)
      modifies raw
      ensures ok <==> |words| == raw.Length
      ensures ok ==> raw[..] == words
      ensures !ok ==> raw[..] == old(raw[..])
    {
      if |words| != raw.Length {
        return false;
      }
      var i := 0;
      while i < |words|
        invariant 0 <= i <= |words|
        invariant raw[..i] == words[..i]
      {
        raw[i] := words[i];
        i := i + 1;
      }
      return true;
    }

    /** `IsSet(bit)`: a bit whose word does not exist reads as set. */
    function IsSet(bit: int): (r: bool)
      requires 0 <= bit
      reads raw
      ensures !InRange(raw[..], bit) ==> r
      ensures InRange(raw[..], bit) ==> bit < |Bits(raw[..])| && (r <==> Bits(raw[..])[bit])
    {
      bit / 64 >= raw.Length || raw[bit / 64] & Mask(bit % 64) != 0
    }

    /** `Set(bit)`: true when the bit was clear and its word exists; only then does anything change. */
    method Set(bit: int) returns (changed: bool)
      requires 0 <= bit
      modifies raw
      ensures changed <==> InRange(old(raw[..]), bit) && !Test(old(raw[..]), bit)
      ensures raw[..] == SetBit(old(raw[..]), bit)
    {
      if bit / 64 >= raw.Length {
        return false;
      }
      // `(_raw[bit >> 6] & mask) > 0`
      if Test(raw[..], bit) {
        return false;
      }
      raw[bit / 64] := SetWord(raw[bit / 64], bit % 64);
      return true;
    }

    /** `Clear(bit)`: nothing happens when the word does not exist. */
    method Clear(bit: int)
      requires 0 <= bit
      modifies raw
      ensures raw[..] == ClearBit(old(raw[..]), bit)
    {
      if bit / 64 >= raw.Length {
        return;
      }
      raw[bit / 64] := ClearWord(raw[bit / 64], bit % 64);
    }

    /** The indexer's setter: `true` clears the bit and `false` sets it; the getter is `IsSet`. */
    method SetItem(bit: int, value: bool)
      requires 0 <= bit
      modifies raw
      ensures raw[..] == if value then ClearBit(old(raw[..]), bit) else SetBit(old(raw[..]), bit)
      ensures InRange(old(raw[..]), bit) ==> (IsSet(bit) <==> !value)
    {
      ghost var words := raw[..];
      if value {
        Clear(bit);
      } else {
        var _ := Set(bit);
      }
      if InRange(words, bit) {
        TestSetBit(words, bit, bit);
        TestClearBit(words, bit, bit);
      }
    }

    /** `NextAvailableSlot`: the highest clear bit, or -1 when every bit is set. */
    method NextAvailableSlot() returns (slot: int)
      ensures slot == HighestClear(Bits(raw[..]))
    {
      slot := FindSlot(raw[..]);
    }

    /** `SetAll`: every word all ones. */
    method SetAll()
      modifies raw
      ensures forall j :: 0 <= j < raw.Length ==> raw[j] == 0xFFFF_FFFF_FFFF_FFFF
      ensures forall c :: 0 <= c < |Bits(raw[..])| ==> Bits(raw[..])[c]
    {
      var i := 0;
      while i < raw.Length
        invariant 0 <= i <= raw.Length
        invariant forall j :: 0 <= j < i ==> raw[j] == 0xFFFF_FFFF_FFFF_FFFF
      {
        raw[i] := 0xFFFF_FFFF_FFFF_FFFF;
        i := i + 1;
      }
      UniformWords(raw[..], 0xFFFF_FFFF_FFFF_FFFF);
    }

    /** `ClearAll`: every word zero. */
    method ClearAll()
      modifies raw
      ensures forall j :: 0 <= j < raw.Length ==> raw[j] == 0
      ensures forall c :: 0 <= c < |Bits(raw[..])| ==> !Bits(raw[..])[c]
    {
      var i := 0;
      while i < raw.Length
        invariant 0 <= i <= raw.Length
        invariant forall j :: 0 <= j < i ==> raw[j] == 0
      {
        raw[i] := 0;
        i := i + 1;
      }
      UniformWords(raw[..], 0);
    }
  }
}
