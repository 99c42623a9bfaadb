/**
 * The `GCD` overloads of `MathematicalExtensions` in Telefrek.Core: the
 * binary (Stein) greatest common divisor in four integer widths.
 *
 * The loops only ever shift even values, so `>>= 1` is an exact halving and
 * `& 0x1` is the remainder by two; the model writes them as `/ 2` and `% 2`
 * on unbounded integers.
 */
module MathExtensions {
  import opened Wrappers

  type Int32 = x: int | -0x8000_0000 <= x < 0x8000_0000
  type UInt32 = x: int | 0 <= x < 0x1_0000_0000
  type Int64 = x: int | -0x8000_0000_0000_0000 <= x < 0x8000_0000_0000_0000
  type UInt64 = x: int | 0 <= x < 0x1_0000_0000_0000_0000

  // ---------------------------------------------------------------------
  // Divisibility and the greatest common divisor
  // ---------------------------------------------------------------------

  function Times(d: nat, k: nat): nat
  {
    d * k
  }

  /** `d` divides `n`: `n` is a multiple of `d` (only 0 is a multiple of 0). */
  ghost predicate Divides(d: nat, n: nat)
  {
    exists k: nat :: Times(d, k) == n
  }

  /** `g` is a greatest common divisor of `a` and `b`: a common divisor that every common divisor divides. */
  ghost predicate IsGcd(g: nat, a: nat, b: nat)
  {
    Divides(g, a) && Divides(g, b) && forall d: nat :: Divides(d, a) && Divides(d, b) ==> Divides(d, g)
  }

  /**
   * The reference definition: Euclid's algorithm by repeated subtraction of
   * the smaller argument from the larger.
   */
  function Gcd(a: nat, b: nat): nat
    decreases a + b
  {
    if a == 0 then b
    else if b == 0 then a
    else if a <= b then Gcd(a, b - a)
    else Gcd(a - b, b)
  }

  function Abs(x: int): nat
  {
    if x < 0 then -x else x
  }

  lemma DividesSelf(d: nat)
    ensures Divides(d, d) && Divides(d, 0)
  {
    assert Times(d, 1) == d;
    assert Times(d, 0) == 0;
  }

  lemma DividesMultiple(d: nat, n: nat, q: nat)
    requires Divides(d, n)
    ensures Divides(d, n * q)
  {
    var k: nat :| Times(d, k) == n;
    assert Times(d, k * q) == n * q;
  }

  lemma DividesSum(d: nat, a: nat, b: nat)
    requires Divides(d, a) && Divides(d, b)
    ensures Divides(d, a + b)
  {
    var i: nat :| Times(d, i) == a;
    var j: nat :| Times(d, j) == b;
    assert Times(d, i + j) == a + b;
  }

  lemma DividesDifference(d: nat, a: nat, b: nat)
    requires a <= b && Divides(d, a) && Divides(d, b)
    ensures Divides(d, b - a)
  {
    var i: nat :| Times(d, i) == a;
    var j: nat :| Times(d, j) == b;
    if d == 0 {
      assert Times(d, 0) == b - a;
    } else {
      MultiplesOrdered(d, i, j);
      assert d * j == d * i + d * (j - i);
      assert Times(d, j - i) == b - a;
    }
  }

  lemma MulGrows(d: nat, m: nat)
    requires m >= 1
    ensures d * m >= d
  {
    assert d * m == d * (m - 1) + d;
  }

  lemma MultiplesOrdered(d: nat, i: nat, j: nat)
    requires d > 0
    ensures d * i <= d * j ==> i <= j
  {
    if i > j {
      assert d * i == d * j + d * (i - j);
      MulGrows(d, i - j);
    }
  }

  /** A positive multiple is at least its divisor. */
  lemma DivisorBound(d: nat, n: nat)
    requires Divides(d, n) && n > 0
    ensures d <= n
  {
    var k: nat :| Times(d, k) == n;
    assert d * k == d + d * (k - 1);
  }

  lemma DividesAntisymmetric(x: nat, y: nat)
    requires Divides(x, y) && Divides(y, x)
    ensures x == y
  {
    if x != 0 && y != 0 {
      DivisorBound(x, y);
      DivisorBound(y, x);
    } else if x == 0 {
      var k: nat :| Times(x, k) == y;
    }
  }

  /** A product is odd exactly when both factors are. */
  lemma ProductParity(d: nat, k: nat)
    ensures (d * k) % 2 == 1 <==> d % 2 == 1 && k % 2 == 1
  {
    var a, b := d / 2, k / 2;
    var p, q := d % 2, k % 2;
    assert d * k == 2 * (2 * a * b + a * q + b * p) + p * q;
  }

  /** An odd number has only odd divisors. */
  lemma OddDivisor(d: nat, n: nat)
    requires n % 2 == 1 && Divides(d, n)
    ensures d % 2 == 1
  {
    var k: nat :| Times(d, k) == n;
    ProductParity(d, k);
  }

  lemma DoubleTimes(d: nat, m: nat)
    ensures Times(d, 2 * m) == 2 * Times(d, m)
  {
  }

  /** An odd divisor of `2a` divides `a`. */
  lemma OddDividesDouble(d: nat, a: nat)
    requires d % 2 == 1 && Divides(d, 2 * a)
    ensures Divides(d, a)
  {
    var k: nat :| Times(d, k) == 2 * a;
    ProductParity(d, k);
    DoubleTimes(d, k / 2);
    assert Times(d, k / 2) == a;
  }

  lemma {:induction false} GcdDivides(a: nat, b: nat)
    ensures Divides(Gcd(a, b), a) && Divides(Gcd(a, b), b)
    decreases a + b
  {
    if a == 0 {
      DividesSelf(b);
    } else if b == 0 {
      DividesSelf(a);
    } else if a <= b {
      GcdDivides(a, b - a);
      DividesSum(Gcd(a, b), a, b - a);
    } else {
      GcdDivides(a - b, b);
      DividesSum(Gcd(a, b), a - b, b);
    }
  }

  lemma {:induction false} GcdGreatest(d: nat, a: nat, b: nat)
    requires Divides(d, a) && Divides(d, b)
    ensures Divides(d, Gcd(a, b))
    decreases a + b
  {
    if a != 0 && b != 0 {
      if a <= b {
        DividesDifference(d, a, b);
        GcdGreatest(d, a, b - a);
      } else {
        DividesDifference(d, b, a);
        GcdGreatest(d, a - b, b);
      }
    }
  }

  /** Euclid's algorithm computes a greatest common divisor. */
  lemma GcdIsGcd(a: nat, b: nat)
    ensures IsGcd(Gcd(a, b), a, b)
  {
    GcdDivides(a, b);
    forall d: nat | Divides(d, a) && Divides(d, b)
      ensures Divides(d, Gcd(a, b))
    {
      GcdGreatest(d, a, b);
    }
  }

  /** There is only one greatest common divisor. */
  lemma GcdUnique(g: nat, a: nat, b: nat)
    requires IsGcd(g, a, b)
    ensures g == Gcd(a, b)
  {
    GcdIsGcd(a, b);
    GcdGreatest(g, a, b);
    DividesAntisymmetric(g, Gcd(a, b));
  }

  lemma GcdCommutes(a: nat, b: nat)
    ensures Gcd(a, b) == Gcd(b, a)
  {
    GcdIsGcd(b, a);
    GcdUnique(Gcd(b, a), a, b);
  }

  /** Subtracting the smaller argument from the larger keeps the divisor. */
  lemma GcdSubtract(a: nat, b: nat)
    requires a <= b
    ensures Gcd(a, b - a) == Gcd(a, b)
  {
  }

  /** A common factor of two comes out of the divisor. */
  lemma GcdDouble(a: nat, b: nat)
    ensures Gcd(2 * a, 2 * b) == 2 * Gcd(a, b)
  {
    var g := Gcd(a, b);
    GcdIsGcd(a, b);
    DividesMultiple(g, a, 2);
    DividesMultiple(g, b, 2);
    var i: nat :| Times(g, i) == a;
    var j: nat :| Times(g, j) == b;
    TimesDouble(g, i);
    TimesDouble(g, j);
    forall d: nat | Divides(d, 2 * a) && Divides(d, 2 * b)
      ensures Divides(d, 2 * g)
    {
      if d % 2 == 1 {
        OddDividesDouble(d, a);
        OddDividesDouble(d, b);
        GcdGreatest(d, a, b);
        DividesMultiple(d, g, 2);
      } else {
        EvenCommonDivisor(d, a, b);
      }
    }
    GcdUnique(2 * g, 2 * a, 2 * b);
  }

  /** An even common divisor of `2a` and `2b` is twice a common divisor of `a` and `b`. */
  lemma EvenCommonDivisor(d: nat, a: nat, b: nat)
    requires d % 2 == 0 && Divides(d, 2 * a) && Divides(d, 2 * b)
    ensures Divides(d, 2 * Gcd(a, b))
  {
    var e := d / 2;
    var p: nat :| Times(d, p) == 2 * a;
    var q: nat :| Times(d, q) == 2 * b;
    TimesDouble(e, p);
    TimesDouble(e, q);
    GcdGreatest(e, a, b);
    var m: nat :| Times(e, m) == Gcd(a, b);
    TimesDouble(e, m);
  }

  lemma TimesDouble(e: nat, m: nat)
    ensures Times(2 * e, m) == 2 * Times(e, m)
  {
  }

  /** A factor of two that the other argument lacks does not change the divisor. */
  lemma GcdHalve(a: nat, b: nat)
    requires b % 2 == 1
    ensures Gcd(2 * a, b) == Gcd(a, b)
  {
    var g := Gcd(a, b);
    GcdIsGcd(a, b);
    DividesMultiple(g, a, 2);
    forall d: nat | Divides(d, 2 * a) && Divides(d, b)
      ensures Divides(d, g)
    {
      OddDivisor(d, b);
      OddDividesDouble(d, a);
    }
    GcdUnique(g, 2 * a, b);
  }

  /** The divisor of two numbers is no larger than the larger one. */
  lemma GcdBound(a: nat, b: nat)
    ensures Gcd(a, b) <= if a < b then b else a
  {
    GcdDivides(a, b);
    if a > 0 {
      DivisorBound(Gcd(a, b), a);
    }
  }

  // ---------------------------------------------------------------------
  // Stein's algorithm
  // ---------------------------------------------------------------------

  /** `v << shift`. */
  function Shl(v: nat, shift: nat): nat
    decreases shift
  {
    if shift == 0 then v else Shl(2 * v, shift - 1)
  }

  /** Halving both arguments once more is undone by one more left shift. */
  lemma HalveBoth(x: nat, y: nat, shift: nat)
    requires x % 2 == 0 && y % 2 == 0
    ensures Shl(Gcd(x / 2, y / 2), shift + 1) == Shl(Gcd(x, y), shift)
  {
    GcdDouble(x / 2, y / 2);
  }

  /** With the second argument odd, halving an even first argument keeps the divisor. */
  lemma HalveLeft(x: nat, y: nat)
    requires x % 2 == 0 && y % 2 == 1
    ensures Gcd(x / 2, y) == Gcd(x, y)
  {
    GcdHalve(x / 2, y);
  }

  /** With the first argument odd, halving an even second argument keeps the divisor. */
  lemma HalveRight(x: nat, y: nat)
    requires x % 2 == 1 && y % 2 == 0
    ensures Gcd(x, y / 2) == Gcd(x, y)
  {
    GcdHalve(y / 2, x);
    GcdCommutes(x, y);
    GcdCommutes(x, y / 2);
  }

  /**
   * The body shared by the four `GCD` overloads on non-negative arguments.
   * `shift` counts the factors of two the arguments share; from the second
   * loop on `x` is odd; each pass of the last loop strips the factors of two
   * from `y`, orders the pair (the source swaps with three `^=`) and takes
   * the smaller from the larger, until `y` reaches zero.
   */
  method Stein(x0: nat, y0: nat) returns (r: nat)
    ensures r == Gcd(x0, y0)
  {
    if x0 == 0 {
      return y0;
    }
    if y0 == 0 {
      return x0;
    }
    var x: nat, y: nat, shift: nat := x0, y0, 0;
    while x % 2 == 0 && y % 2 == 0
      invariant x > 0 && y > 0
      invariant Shl(Gcd(x, y), shift) == Gcd(x0, y0)
      decreases x
    {
      HalveBoth(x, y, shift);
      x, y, shift := x / 2, y / 2, shift + 1;
    }
    while x % 2 == 0
      invariant x > 0 && y > 0 && (x % 2 == 1 || y % 2 == 1)
      invariant Shl(Gcd(x, y), shift) == Gcd(x0, y0)
      decreases x
    {
      HalveLeft(x, y);
      x := x / 2;
    }
    while true
      invariant x % 2 == 1 && y > 0
      invariant Shl(Gcd(x, y), shift) == Gcd(x0, y0)
      decreases x + y
    {
      ghost var before := x + y;
      while y % 2 == 0
        invariant y > 0 && x + y <= before
        invariant Shl(Gcd(x, y), shift) == Gcd(x0, y0)
        decreases y
      {
        HalveRight(x, y);
        y := y / 2;
      }
      if x > y {
        GcdCommutes(x, y);
        x, y := y, x;
      }
      GcdSubtract(x, y);
      y := y - x;
      if y == 0 {
        break;
      }
    }
    r := Shl(x, shift);
  }

  /** The answer `Stein` returns is a greatest common divisor: it divides both arguments and every common divisor divides it. */
  lemma SteinAnswerIsGreatest(x0: nat, y0: nat)
    ensures IsGcd(Gcd(x0, y0), x0, y0)
    ensures Gcd(x0, 0) == x0 && Gcd(0, y0) == y0
  {
    GcdIsGcd(x0, y0);
  }

  /** `GCD(uint, uint)`, the source's `uint` overload. */
  method GcdUInt32(x: UInt32, y: UInt32) returns (r: UInt32)
    ensures r == Gcd(x, y)
  {
    GcdBound(x, y);
    r := Stein(x, y);
  }

  /** `GCD(ulong, ulong)`, the source's separate `ulong` overload: the same loop on 64-bit words. */
  method GcdUInt64(x: UInt64, y: UInt64) returns (r: UInt64)
    ensures r == Gcd(x, y)
  {
    GcdBound(x, y);
    r := Stein(x, y);
  }

  /**
   * `GCD(int, int)`, corrected: the divisor of the magnitudes. It agrees with
   * the source wherever both arguments are non-negative. The result can be
   * 2^31 (for `int.MinValue` and 0), which an `int` does not hold.
   */
  method GcdInt32(x: Int32, y: Int32) returns (r: nat)
    ensures r == Gcd(Abs(x), Abs(y))
    ensures x >= 0 && y >= 0 ==> r == Gcd(x, y)
    ensures r <= 0x8000_0000
  {
    GcdBound(Abs(x), Abs(y));
    r := Stein(Abs(x), Abs(y));
  }

  /** `GCD(long, long)`, corrected like `GcdInt32`. */
  method GcdInt64(x: Int64, y: Int64) returns (r: nat)
    ensures r == Gcd(Abs(x), Abs(y))
    ensures x >= 0 && y >= 0 ==> r == Gcd(x, y)
    ensures r <= 0x8000_0000_0000_0000
  {
    GcdBound(Abs(x), Abs(y));
    r := Stein(Abs(x), Abs(y));
  }

  // ---------------------------------------------------------------------
  // The signed overloads as written, on negative arguments
  // ---------------------------------------------------------------------

  /**
   * The early returns of lines 18-19 as written: a zero argument gives back
   * the other one. Its magnitude is the greatest common divisor of the
   * magnitudes, but it keeps the other argument's sign.
   */
  function ZeroShortcut(x: int, y: int): (r: Option<int>)
    ensures r.Some? <==> x == 0 || y == 0
    ensures r.Some? ==> Abs(r.value) == Gcd(Abs(x), Abs(y)) && (r.value < 0 <==> x < 0 || y < 0)
  {
    if x == 0 then Some(y) else if y == 0 then Some(x) else None
  }

  /** The loop of lines 21-25 as written: halve both while both are even; the count of halvings. */
  function CommonTwos(x: int, y: int): (r: (int, int, nat))
    requires x != 0 && y != 0
    ensures r.0 != 0 && r.1 != 0 && (r.0 % 2 == 1 || r.1 % 2 == 1)
    ensures Abs(r.0) <= Abs(x) && Abs(r.1) <= Abs(y)
    decreases Abs(x)
  {
    if x % 2 == 0 && y % 2 == 0 then
      var (a, b, s) := CommonTwos(x / 2, y / 2);
      (a, b, s + 1)
    else (x, y, 0)
  }

  /** A `while ((v & 0x1) == 0x0) v >>= 1;` loop as written: the odd part of a non-zero value. */
  function OddPart(v: int): (r: int)
    requires v != 0
    ensures r % 2 == 1 && (v > 0 <==> r > 0)
    decreases Abs(v)
  {
    if v % 2 == 0 then OddPart(v / 2) else v
  }

  /** One pass of the `do ... while (y != 0)` loop of lines 30-43 as written, on any signs. */
  function SignedPass(x: int, y: int): (r: (int, int))
    requires y != 0
    ensures var y1 := OddPart(y); r.0 == (if x > y1 then y1 else x) && r.1 == (if x > y1 then x - y1 else y1 - x)
  {
    var y1 := OddPart(y);
    if x > y1 then (y1, x - y1) else (x, y1 - x)
  }

  /** `GCD(-4, 6)` as written: one shared factor of two, then `x` is stripped to -1, so the last loop starts at (-1, 3). */
  lemma NegativeArgumentStart()
    ensures CommonTwos(-4, 6) == (-2, 3, 1) && OddPart(-2) == -1
  {
    assert CommonTwos(-2, 3) == (-2, 3, 0);
    assert OddPart(-1) == -1;
  }

  /**
   * From (-1, 3) the last loop as written reaches (-1, 2), and a pass from
   * (-1, 2) leads back to (-1, 2) with `y` still non-zero: `GCD(-4, 6)`
   * never returns.
   */
  lemma NegativeArgumentLoops()
    ensures SignedPass(-1, 3) == (-1, 4)
    ensures SignedPass(-1, 4) == (-1, 2)
    ensures SignedPass(-1, 2) == (-1, 2)
  {
    assert OddPart(3) == 3;
    assert OddPart(1) == 1;
    assert OddPart(2) == 1;
    assert OddPart(4) == 1;
  }

  /**
   * Negative arguments that do terminate, as written. `GCD(0, -5)` returns
   * -5 at line 18. `GCD(-2, -4)` halves
   * once to (-1, -2); the last loop strips `y` to -1 and subtracts to 0, so
   * the result is `-1 << 1`, that is -2. `GCD(-3, -3)` has no shared factor
   * of two and one pass leaves (-3, 0), so the result is -3.
   */
  lemma NegativeResultsTerminate()
    ensures ZeroShortcut(0, -5) == Some(-5)
    ensures CommonTwos(-2, -4) == (-1, -2, 1) && OddPart(-1) == -1 && SignedPass(-1, -2) == (-1, 0)
    ensures CommonTwos(-3, -3) == (-3, -3, 0) && OddPart(-3) == -3 && SignedPass(-3, -3) == (-3, 0)
  {
    assert CommonTwos(-1, -2) == (-1, -2, 0);
    assert OddPart(-2) == OddPart(-1) == -1;
  }
}
