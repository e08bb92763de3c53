/** Integer arithmetic of the codec: machine words, shifts, rounding, saturation and the
    16x32-bit multiplies that the code splits into two 32-bit products.

    Word16, Word32 and Word64 are subset types: storing into one of them is a proof that
    the C variable does not overflow. Where the C code narrows with a cast, the model says
    so with Wrap16 or Wrap32. Dafny's `/` by a positive divisor rounds down, as `>>` does. */
module FixedPoint {
  type Word16 = x: int | -0x8000 <= x <= 0x7fff
  type Word32 = x: int | -0x8000_0000 <= x <= 0x7fff_ffff
  type Word64 = x: int | -0x8000_0000_0000_0000 <= x <= 0x7fff_ffff_ffff_ffff

  const MAX16: int := 0x7fff
  const MAX32: int := 0x7fff_ffff
  const MAX64: int := 0x7fff_ffff_ffff_ffff
  const MIN32: int := -0x8000_0000

  /** The cast (word16_t). */
  function Wrap16(x: int): Word16 {
    (x + 0x8000) % 0x1_0000 - 0x8000
  }

  /** The cast (word32_t). */
  function Wrap32(x: int): Word32 {
    (x + 0x8000_0000) % 0x1_0000_0000 - 0x8000_0000
  }

  function Saturate16(x: int): Word16 {
    if x > 0x7fff then 0x7fff else if x < -0x8000 then -0x8000 else x
  }

  function Abs(x: int): (a: int)
    ensures a >= 0
  {
    if x < 0 then -x else x
  }

  /** C division of integers: rounds toward zero. */
  function TruncDiv(a: int, b: int): int
    requires b != 0
  {
    if (a >= 0) == (b > 0) then Abs(a) / Abs(b) else -(Abs(a) / Abs(b))
  }

  function Pow2(n: nat): (p: int)
    ensures p > 0
  {
    if n == 0 then 1 else 2 * Pow2(n - 1)
  }

  lemma Pow2Monotone(m: nat, n: nat)
    requires m <= n
    ensures Pow2(m) <= Pow2(n)
  {
    if m < n {
      Pow2Monotone(m, n - 1);
    }
  }

  lemma {:induction false} Pow2Sum(m: nat, n: nat)
    ensures Pow2(m + n) == Pow2(m) * Pow2(n)
  {
    if m == 0 {
    } else {
      Pow2Sum(m - 1, n);
      assert 2 * (Pow2(m - 1) * Pow2(n)) == (2 * Pow2(m - 1)) * Pow2(n);
    }
  }

  // ----- the split multiplies ---------------------------------------------------------

  /** MULT16_32_Qs: the high part of b times a, plus the low part's product shifted back. */
  function SplitFloor(a: int, b: int, m: int): int
    requires m > 0
  {
    a * (b / m) + a * (b % m) / m
  }

  /** MULT16_32_Ps: the same with a rounded low part. */
  function SplitRound(a: int, b: int, m: int): int
    requires m > 0
  {
    a * (b / m) + (a * (b % m) + m / 2) / m
  }

  function MultQ12(a: int, b: int): int { SplitFloor(a, b, 0x1000) }
  function MultQ13(a: int, b: int): int { SplitFloor(a, b, 0x2000) }
  function MultQ15(a: int, b: int): int { SplitFloor(a, b, 0x8000) }
  function MultP15(a: int, b: int): int { SplitRound(a, b, 0x8000) }

  /** MULT16_32_Q12 in 32-bit arithmetic. */
  function MultiplyQ12(a: int, b: int): Word32 {
    Wrap32(Wrap32(a * (b / 0x1000)) + a * (b % 0x1000) / 0x1000)
  }

  lemma DivOfShifted(k: int, x: int, m: int)
    requires m > 0
    ensures (k * m + x) / m == k + x / m
  {
    var y := k * m + x;
    var q := k + x / m;
    assert y == q * m + x % m by {
      assert x == (x / m) * m + x % m;
      assert q * m == k * m + (x / m) * m;
    }
    QuotientIsUnique(y, m, q, x % m);
  }

  lemma QuotientIsUnique(y: int, m: int, q: int, r: int)
    requires m > 0 && 0 <= r < m && y == q * m + r
    ensures y / m == q
  {
    var q', r' := y / m, y % m;
    assert (q - q') * m == r' - r;
    assert (q' - q) * m == r - r';
    if q > q' {
      MulAtLeast(q - q', m);
    } else if q < q' {
      MulAtLeast(q' - q, m);
    }
  }

  lemma MulAtLeast(d: int, m: int)
    requires d >= 1 && m >= 0
    ensures d * m >= m
  {
    assert (d - 1) * m >= 0;
  }

  /** Dividing by a positive divisor moves toward zero, though not past -1. */
  lemma QuotientShrinks(x: int, p: int)
    requires p >= 1
    ensures if x >= 0 then 0 <= x / p <= x else x <= x / p < 0
  {
    var y, r := x / p, x % p;
    assert x == y * p + r;
    FromQuotient(x, p, y, r);
  }

  lemma FromQuotient(x: int, p: int, y: int, r: int)
    requires p >= 1 && 0 <= r < p && x == y * p + r
    ensures if x >= 0 then 0 <= y <= x else x <= y < 0
  {
    if y >= 0 {
      assert (p - 1) * y >= 0;
    } else {
      assert (p - 1) * (-y - 1) >= 0;
      assert (p - 1) * (-y - 1) == -(y * p) - p + y + 1;
    }
  }

  lemma ProductRange(a: int, b: int, m: int)
    requires -m <= a <= m
    ensures -m * Abs(b) <= a * b <= m * Abs(b)
  {
    if b >= 0 {
      assert (m - a) * b >= 0 && (m + a) * b >= 0;
    } else {
      assert (m - a) * -b >= 0 && (m + a) * -b >= 0;
    }
  }

  /** The split multiply is the floor of the full product, for every multiplier and operand. */
  lemma SplitFloorIsFloor(a: int, b: int, m: int)
    requires m > 0
    ensures SplitFloor(a, b, m) == (a * b) / m
  {
    SplitProduct(a, b, m);
    DivOfShifted(a * (b / m), a * (b % m), m);
  }

  /** The rounded split multiply is the full product rounded half up. */
  lemma SplitRoundIsRound(a: int, b: int, m: int)
    requires m > 0
    ensures SplitRound(a, b, m) == (a * b + m / 2) / m
  {
    SplitProduct(a, b, m);
    DivOfShifted(a * (b / m), a * (b % m) + m / 2, m);
  }

  lemma SplitProduct(a: int, b: int, m: int)
    requires m > 0
    ensures a * b == (a * (b / m)) * m + a * (b % m)
  {
    var q, r := b / m, b % m;
    assert b == q * m + r;
    assert a * (q * m + r) == a * (q * m) + a * r;
    assert a * (q * m) == (a * q) * m;
  }

  /** PSHR by 15 in 32-bit arithmetic. */
  function RoundQ15(a: int): int {
    Wrap32(a + 0x4000) / 0x8000
  }

  // ----- wrapping ---------------------------------------------------------------------

  lemma WrapDiffers32(x: int) returns (k: int)
    ensures x == Wrap32(x) + 0x1_0000_0000 * k
  {
    k := (x + 0x8000_0000) / 0x1_0000_0000;
  }

  lemma WrapIsPeriodic(x: int, k: int)
    ensures Wrap16(x + 0x1_0000 * k) == Wrap16(x)
  {
    var y := x + 0x8000;
    assert (y + 0x1_0000 * k) % 0x1_0000 == y % 0x1_0000;
  }

  lemma NoWrap32(x: int)
    requires MIN32 <= x <= MAX32
    ensures Wrap32(x) as int == x
  {
  }

  lemma NestedWrap32(x: int, y: int)
    ensures Wrap32(Wrap32(x) as int + y) == Wrap32(x + y)
  {
    var k := WrapDiffers32(x);
    var z := Wrap32(x) as int + y + 0x8000_0000;
    assert (z + 0x1_0000_0000 * k) % 0x1_0000_0000 == z % 0x1_0000_0000;
  }

  /** The 32-bit multiply is the wrapped floor of the product. */
  lemma MultiplyQ12IsFloor(a: int, b: int)
    ensures MultiplyQ12(a, b) == Wrap32(a * b / 0x1000)
  {
    hide Wrap32;
    NestedWrap32(a * (b / 0x1000), a * (b % 0x1000) / 0x1000);
    SplitFloorIsFloor(a, b, 0x1000);
  }

  /** A Q12 multiply followed by rounding by 15 bits and narrowing: 32-bit overflow on the way only
      shows up as narrowing of the final value. */
  lemma NarrowedMultiply(a: int, d: int)
    ensures Wrap16(RoundQ15(MultiplyQ12(a, d))) == Wrap16(((a * d) / 0x1000 + 0x4000) / 0x8000)
  {
    SplitFloorIsFloor(a, d, 0x1000);
    NarrowedSum(a * (d / 0x1000), a * (d % 0x1000) / 0x1000);
  }

  lemma NarrowedSum(high: int, low: int)
    ensures Wrap16(RoundQ15(Wrap32(Wrap32(high) + low))) == Wrap16((high + low + 0x4000) / 0x8000)
  {
    hide Wrap32, Wrap16;
    var j := WrapDiffers32(high);
    var k := WrapDiffers32(Wrap32(high) + low);
    var product: int := Wrap32(Wrap32(high) + low);
    var m := WrapDiffers32(product + 0x4000);
    var wrapped: int := Wrap32(product + 0x4000);
    var n := j + k + m;
    assert high + low + 0x4000 == (0x2_0000 * n) * 0x8000 + wrapped;
    DivOfShifted(0x2_0000 * n, wrapped, 0x8000);
    WrapIsPeriodic(wrapped / 0x8000, 2 * n);
  }

  // ----- normalisation ----------------------------------------------------------------

  /** The number of left shifts that bring x to [2^30, 2^31). */
  function LeadingZeros(x: Word32): (n: nat)
    requires x >= 0
    ensures n <= 31
    ensures x > 0 ==> n <= 30 && 0x4000_0000 <= x * Pow2(n) <= 0x7fff_ffff
    decreases 0x4000_0000 - x
  {
    if x == 0 then 31
    else if x >= 0x4000_0000 then 0
    else
      var n := LeadingZeros(2 * x);
      LeadingZerosStep(x, n);
      n + 1
  }

  lemma LeadingZerosStep(x: int, n: nat)
    requires x >= 1 && n <= 30 && 0x4000_0000 <= (2 * x) * Pow2(n) <= 0x7fff_ffff
    ensures n + 1 <= 30 && x * Pow2(n + 1) == (2 * x) * Pow2(n)
  {
    hide Pow2;
    if n == 30 {
      Pow2Of30(n);
    }
    Pow2Next(n);
    DoubleFactor(x, Pow2(n));
  }

  lemma Pow2Next(n: nat)
    ensures Pow2(n + 1) == 2 * Pow2(n)
  {
  }

  lemma DoubleFactor(x: int, p: int)
    ensures x * (2 * p) == (2 * x) * p
  {
  }

  lemma Pow2Of30(n: nat)
    requires n == 30
    ensures Pow2(n) == 0x4000_0000
  {
    Pow2Sum(10, 20);
    Pow2Sum(10, 10);
  }

  method CountLeadingZeros(x: Word32) returns (leadingZeros: nat)
    requires x >= 0
    ensures leadingZeros == LeadingZeros(x)
  {
    if x == 0 {
      return 31;
    }
    leadingZeros := 0;
    var y := x;
    while y < 0x4000_0000
      invariant 0 < y <= MAX32
      invariant leadingZeros + LeadingZeros(y) == LeadingZeros(x)
      decreases 0x4000_0000 - y
    {
      leadingZeros := leadingZeros + 1;
      y := 2 * y;
    }
  }
}
