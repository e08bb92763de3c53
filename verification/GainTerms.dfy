/** The error both gain computations of the encoder minimise, and the scaled inner products they minimise it
    with (sections 3.7.3 and 3.9 of Recommendation G.729). */
module GainTerms {
  import opened FixedPoint
  import opened BackwardFilter

  const N: nat := 40

  // ----- the error --------------------------------------------------------------------------------

  function Squared(d: int): int {
    d * d
  }

  /** What gp y + gc z leaves of the target x over n samples, squared; the target in Q14, as the gains. */
  function Error(x: seq<int>, y: seq<int>, z: seq<int>, gp: int, gc: int, n: nat): int
    requires n <= |x| && n <= |y| && n <= |z|
  {
    if n == 0 then 0
    else Error(x, y, z, gp, gc, n - 1) + Squared(0x4000 * x[n - 1] - gp * y[n - 1] - gc * z[n - 1])
  }

  /** The same from the six inner products. */
  function Form(xx: int, yy: int, zz: int, xy: int, xz: int, yz: int, gp: int, gc: int): int {
    0x1000_0000 * xx + gp * gp * yy + gc * gc * zz - 2 * (gp * 0x4000) * xy - 2 * (gc * 0x4000) * xz + 2 * (gp * gc) * yz
  }

  lemma {:induction false} ErrorIsForm(x: seq<int>, y: seq<int>, z: seq<int>, gp: int, gc: int, n: nat)
    requires n <= |x| && n <= |y| && n <= |z|
    ensures Error(x, y, z, gp, gc, n)
         == Form(Inner(x, x, n), Inner(y, y, n), Inner(z, z, n), Inner(x, y, n), Inner(x, z, n), Inner(y, z, n), gp, gc)
    decreases n
  {
    hide Form, Squared;
    if n == 0 {
      EmptyForm(gp, gc);
    } else {
      ErrorIsForm(x, y, z, gp, gc, n - 1);
      FormGrows(Inner(x, x, n - 1), Inner(y, y, n - 1), Inner(z, z, n - 1), Inner(x, y, n - 1), Inner(x, z, n - 1), Inner(y, z, n - 1),
                x[n - 1], y[n - 1], z[n - 1], gp, gc);
    }
  }

  lemma EmptyForm(gp: int, gc: int)
    ensures Form(0, 0, 0, 0, 0, 0, gp, gc) == 0
  {
  }

  lemma FormGrows(xx: int, yy: int, zz: int, xy: int, xz: int, yz: int, a: int, b: int, c: int, gp: int, gc: int)
    ensures Form(xx, yy, zz, xy, xz, yz, gp, gc) + Squared(0x4000 * a - gp * b - gc * c)
         == Form(xx + a * a, yy + b * b, zz + c * c, xy + a * b, xz + a * c, yz + b * c, gp, gc)
  {
    SquareOfThree(a, gp * b, gc * c);
    Distribute(gp * gp, yy, b * b);
    Distribute(gc * gc, zz, c * c);
    Distribute(2 * (gp * 0x4000), xy, a * b);
    Distribute(2 * (gc * 0x4000), xz, a * c);
    Distribute(2 * (gp * gc), yz, b * c);
    Rearranged(gp, b, gp, b);
    Rearranged(gc, c, gc, c);
    Rearranged(gp, b, gc, c);
    assert a * (gp * b) == gp * (a * b) && a * (gc * c) == gc * (a * c);
  }

  lemma SquareOfThree(a: int, u: int, v: int)
    ensures Squared(0x4000 * a - u - v) == 0x1000_0000 * (a * a) + u * u + v * v - 0x8000 * (a * u) - 0x8000 * (a * v) + 2 * (u * v)
  {
    var w := u + v;
    assert Squared(0x4000 * a - w) == 0x1000_0000 * (a * a) - 0x8000 * (a * w) + w * w;
    assert a * w == a * u + a * v;
    assert w * w == u * u + 2 * (u * v) + v * v;
  }

  lemma Distribute(k: int, x: int, y: int)
    ensures k * (x + y) == k * x + k * y
  {
  }

  lemma Rearranged(p: int, b: int, q: int, c: int)
    ensures (p * b) * (q * c) == (p * q) * (b * c)
  {
  }

  // ----- inner products in the machine's words -----------------------------------------------------

  lemma {:induction false} InnerBound(x: seq<Word16>, y: seq<Word16>, n: nat)
    requires n <= |x| && n <= |y|
    ensures -0x4000_0000 * n <= Inner(x, y, n) <= 0x4000_0000 * n
    decreases n
  {
    if n > 0 {
      InnerBound(x, y, n - 1);
      ProductRange(x[n - 1], y[n - 1], 0x8000);
    }
  }

  lemma {:induction false} EnergyNotNegative(x: seq<int>, n: nat)
    requires n <= |x|
    ensures 0 <= Inner(x, x, n)
    decreases n
  {
    if n > 0 {
      EnergyNotNegative(x, n - 1);
    }
  }

  /** computeAdaptativeCodebookGain: the two sums it also hands on, and the gain in Q14 between 0 and 1.2. */
  method ComputeAdaptativeCodebookGain(x: seq<Word16>, y: seq<Word16>) returns (gain: Word16, xy: Word64, yy: Word64)
    requires |x| == |y| == N
    ensures xy == Inner(x, y, N) && yy == Inner(y, y, N)
    ensures xy <= 0 ==> gain == 0
    ensures xy > 0 ==> yy > 0 && gain as int == if 0x4000 * xy as int / yy as int > 19661 then 19661 else 0x4000 * xy as int / yy as int
  {
    xy, yy := 0, 0;
    for i := 0 to N
      invariant xy == Inner(x, y, i) && yy == Inner(y, y, i)
    {
      InnerBound(x, y, i + 1);
      InnerBound(y, y, i + 1);
      xy := xy + x[i] as int * y[i] as int;
      yy := yy + y[i] as int * y[i] as int;
    }
    if xy <= 0 {
      return 0, xy, yy;
    }
    SlopeBound(x, y, N);
    GainFits(xy, yy);
    var g: Word32 := 0x4000 * xy as int / yy as int;
    if g > 19661 {
      g := 19661;
    }
    gain := g;
  }

  /** No sample of y is smaller than 1, none of x larger than 32768: so the quotient fits 32 bits. */
  lemma {:induction false} SlopeBound(x: seq<Word16>, y: seq<Word16>, n: nat)
    requires n <= |x| && n <= |y|
    ensures Inner(x, y, n) <= 0x8000 * Inner(y, y, n)
    decreases n
  {
    if n > 0 {
      SlopeBound(x, y, n - 1);
      SlopeOfSample(x[n - 1], y[n - 1]);
    }
  }

  lemma SlopeOfSample(a: Word16, b: Word16)
    ensures a as int * b as int <= 0x8000 * (b as int * b as int)
  {
    ProductRange(a, b, 0x8000);
    MagnitudeBelowSquare(b);
  }

  lemma MagnitudeBelowSquare(b: int)
    ensures Abs(b) <= b * b
  {
    if b > 0 {
      assert b * (b - 1) >= 0;
    } else if b < 0 {
      assert (-b) * (-b - 1) >= 0;
    }
  }

  lemma GainFits(xy: int, yy: int)
    requires 0 < xy <= 0x8000 * yy
    ensures yy > 0 && 0 <= 0x4000 * xy / yy <= 0x2000_0000
  {
    QuotientAtMost(0x4000 * xy, yy, 0x2000_0000);
  }

  lemma QuotientAtMost(a: int, b: int, m: int)
    requires a >= 0 && b > 0 && a <= m * b
    ensures 0 <= a / b <= m
  {
    var q := a / b;
    assert a == b * q + a % b;
    assert (m + 1) * b == m * b + b;
    if q > m {
      Monotone(m + 1, q, b);
    }
    if q < 0 {
      Monotone(q, -1, b);
    }
  }

  lemma Monotone(x: int, y: int, p: int)
    requires x <= y && p >= 0
    ensures x * p <= y * p
  {
  }

  /** No gain from 0 to 1.2 leaves less of the target than this one, but for the next larger one, which can leave
      less by no more than the vector's energy. */
  lemma AdaptativeGainIsBest(x: seq<Word16>, y: seq<Word16>, gain: int, g: int)
    requires |x| == |y| == N && 0 <= g <= 19661
    requires var xy, yy := Inner(x, y, N), Inner(y, y, N);
      if xy <= 0 then gain == 0 else yy > 0 && gain == (if 0x4000 * xy / yy > 19661 then 19661 else 0x4000 * xy / yy)
    ensures Error(x, y, y, gain, 0, N) <= Error(x, y, y, g, 0, N) || g == gain + 1
    ensures Error(x, y, y, gain, 0, N) <= Error(x, y, y, g, 0, N) + Inner(y, y, N)
  {
    var xx, xy, yy := Inner(x, x, N), Inner(x, y, N), Inner(y, y, N);
    EnergyNotNegative(y, N);
    ErrorIsForm(x, y, y, gain, 0, N);
    ErrorIsForm(x, y, y, g, 0, N);
    hide Error, Inner;
    WithoutSecond(xx, yy, xy, gain);
    WithoutSecond(xx, yy, xy, g);
    hide Form;
    if xy <= 0 {
      NegativeSlope(xy, yy, g);
    } else {
      QuotientBest(xy, yy, 0x4000 * xy / yy, gain, g);
    }
  }

  /** Twice the slope against the curvature. */
  function Curve(xy: int, yy: int, g: int): int {
    g * g * yy - 0x8000 * (g * xy)
  }

  lemma WithoutSecond(xx: int, yy: int, xy: int, g: int)
    ensures Form(xx, yy, yy, xy, xy, yy, g, 0) == 0x1000_0000 * xx + Curve(xy, yy, g)
  {
  }

  lemma NegativeSlope(xy: int, yy: int, g: int)
    requires xy <= 0 <= yy && g >= 0
    ensures Curve(xy, yy, 0) == 0 <= Curve(xy, yy, g)
  {
    assert g * g >= 0;
    assert g * g * yy >= 0;
    assert g * -xy >= 0;
  }

  /** The difference of two values of the curve from the remainder of the division. */
  lemma CurveDifference(xy: int, yy: int, q: int, r: int, g: int, h: int)
    requires 0x4000 * xy == yy * q + r
    ensures Curve(xy, yy, h) - Curve(xy, yy, g) == (h - g) * (yy * (h + g - 2 * q) - 2 * r)
  {
    var d := h - g;
    assert h * h * yy - g * g * yy == d * (yy * (h + g));
    assert 0x8000 * (h * xy) - 0x8000 * (g * xy) == d * (2 * (0x4000 * xy));
    assert d * (2 * (yy * q + r)) == d * (yy * (2 * q)) + d * (2 * r);
    assert d * (yy * (h + g - 2 * q) - 2 * r) == d * (yy * (h + g)) - d * (yy * (2 * q)) - d * (2 * r);
  }

  lemma QuotientBest(xy: int, yy: int, q: int, gain: int, g: int)
    requires xy > 0 && yy > 0 && q == 0x4000 * xy / yy && gain == (if q > 19661 then 19661 else q) && 0 <= g <= 19661
    ensures Curve(xy, yy, gain) <= Curve(xy, yy, g) || g == gain + 1
    ensures Curve(xy, yy, gain) <= Curve(xy, yy, g) + yy
  {
    var r := 0x4000 * xy % yy;
    assert 0x4000 * xy == yy * q + r;
    CurveDifference(xy, yy, q, r, gain, g);
    hide Curve;
    DifferenceSign(yy, r, g - gain, g + gain - 2 * q);
  }

  /** d steps away, with s the distance of the two gains' sum from twice the quotient. */
  lemma DifferenceSign(yy: int, r: int, d: int, s: int)
    requires yy > 0 && 0 <= r < yy && ((d <= 0 && s <= 0) || d == s >= 0)
    ensures d == 1 || d * (yy * s - 2 * r) >= 0
    ensures d * (yy * s - 2 * r) >= -yy
  {
    if d <= 0 {
      SignedProducts(d, yy, s, r);
    } else if d >= 2 {
      assert yy * s >= yy * 2;
      assert d * (yy * s - 2 * r) >= 0;
    }
  }

  lemma SignedProducts(d: int, yy: int, s: int, r: int)
    requires d <= 0 && s <= 0 && yy > 0 && r >= 0
    ensures d * (yy * s - 2 * r) >= 0
  {
    assert yy * -s >= 0;
    assert -d * (yy * -s + 2 * r) >= 0;
    assert -d * (yy * -s + 2 * r) == d * (yy * s - 2 * r);
  }

  // ----- scaling to 32 bits -----------------------------------------------------------------------

  /** The five inner products, scaled alike. */
  datatype Terms = Terms(xy: Word32, yy: Word32, xz: Word32, yz: Word32, zz: Word32)

  /** Those used twice in the error take 30 bits and a sign, the energies 31 bits. */
  predicate Bounded(t: Terms) {
    && -0x4000_0000 <= t.xy < 0x4000_0000 && -0x4000_0000 <= t.xz < 0x4000_0000 && -0x4000_0000 <= t.yz < 0x4000_0000
    && 0 <= t.yy && 0 <= t.zz
  }

  /** The sums shifted down by s. */
  predicate ShiftedTerms(t: Terms, xy: int, yy: int, xz: int, yz: int, zz: int, s: nat) {
    && t.xy == xy / Pow2(s) && t.yy == yy / Pow2(s) && t.xz == xz / Pow2(s) && t.yz == yz / Pow2(s) && t.zz == zz / Pow2(s)
  }

  /** The first n sums of products with the convolved code vector. */
  method CrossProducts(x: seq<Word16>, y: seq<Word16>, z: seq<Word16>) returns (xz: Word64, yz: Word64, zz: Word64)
    requires |x| == |y| == |z| == N
    ensures xz == Inner(x, z, N) && yz == Inner(y, z, N) && zz == Inner(z, z, N)
  {
    xz, yz, zz := 0, 0, 0;
    for i := 0 to N
      invariant xz == Inner(x, z, i) && yz == Inner(y, z, i) && zz == Inner(z, z, i)
    {
      InnerBound(x, z, i + 1);
      InnerBound(y, z, i + 1);
      InnerBound(z, z, i + 1);
      xz := xz + x[i] as int * z[i] as int;
      yz := yz + y[i] as int * z[i] as int;
      zz := zz + z[i] as int * z[i] as int;
    }
  }

  /** Sums of forty 16-bit products. */
  predicate IsSum(v: int) {
    -0xa_0000_0000 <= v <= 0xa_0000_0000
  }

  /** With this shift the sums take the bits they may. */
  predicate Room(xy: int, yy: int, xz: int, yz: int, zz: int, s: nat) {
    && Abs(xy) / 0x4000_0000 < Pow2(s) && Abs(xz) / 0x4000_0000 < Pow2(s) && Abs(yz) / 0x4000_0000 < Pow2(s)
    && yy / 0x8000_0000 < Pow2(s) && zz / 0x8000_0000 < Pow2(s)
  }

  lemma WidthOf(v: Word32, s: nat)
    requires v >= 0
    ensures v < Pow2(s) <==> 31 - LeadingZeros(v) <= s
  {
    var n := LeadingZeros(v);
    if v > 0 {
      Pow2Sum(31 - n, n);
      Pow2Sum(30 - n, n);
      PowersAtTop();
      WidthBounds(v, Pow2(n), Pow2(31 - n), Pow2(30 - n));
      if 31 - n <= s {
        Pow2Monotone(31 - n, s);
      } else {
        Pow2Monotone(s, 30 - n);
      }
    }
  }

  lemma PowersAtTop()
    ensures Pow2(30) == 0x4000_0000 && Pow2(31) == 0x8000_0000
  {
    Pow2Of30(30);
  }

  lemma WidthBounds(v: int, p: int, high: int, low: int)
    requires p > 0 && 0x4000_0000 <= v * p < 0x8000_0000 && high * p == 0x8000_0000 && low * p == 0x4000_0000
    ensures low <= v < high
  {
    assert (low - 1) * p == low * p - p;
    if v >= high {
      Monotone(high, v, p);
    }
    if v < low {
      Monotone(v, low - 1, p);
    }
  }

  /** One comparison of the search for the least number of leading zeros. */
  method FewerZeros(least: nat, top: Word32) returns (fewer: nat)
    requires top >= 0
    ensures fewer == if LeadingZeros(top) < least then LeadingZeros(top) else least
  {
    fewer := CountLeadingZeros(top);
    if fewer >= least {
      fewer := least;
    }
  }

  /** The least common shift that leaves the sums the bits they may take, and the shifted sums. */
  method ScaleTerms(xy: Word64, yy: Word64, xz: Word64, yz: Word64, zz: Word64) returns (t: Terms, ghost s: nat)
    requires IsSum(xy) && IsSum(yy) && IsSum(xz) && IsSum(yz) && IsSum(zz) && 0 <= yy && 0 <= zz
    ensures ShiftedTerms(t, xy, yy, xz, yz, zz, s) && Bounded(t)
    ensures s == 0 || !Room(xy, yy, xz, yz, zz, s - 1)
  {
    hide Pow2, LeadingZeros;
    var a: Word32, b: Word32, c: Word32 := Abs(xy) / 0x4000_0000, Abs(xz) / 0x4000_0000, Abs(yz) / 0x4000_0000;
    var d: Word32, e: Word32 := yy as int / 0x8000_0000, zz as int / 0x8000_0000;
    var least := FewerZeros(31, a);
    least := FewerZeros(least, b);
    least := FewerZeros(least, c);
    least := FewerZeros(least, d);
    least := FewerZeros(least, e);
    var shift := 31 - least;
    s := shift;
    Widths(a, b, c, d, e, shift);
    RoomNarrows(xy, yy, xz, yz, zz, shift);
    if least < 31 {
      t := Terms(xy as int / Pow2(shift), yy as int / Pow2(shift), xz as int / Pow2(shift), yz as int / Pow2(shift), zz as int / Pow2(shift));
    } else {
      UnshiftedPower();
      t := Terms(xy, yy, xz, yz, zz);
    }
  }

  lemma UnshiftedPower()
    ensures Pow2(0) == 1
  {
  }

  lemma Widths(a: Word32, b: Word32, c: Word32, d: Word32, e: Word32, s: nat)
    requires 0 <= a && 0 <= b && 0 <= c && 0 <= d && 0 <= e
    ensures a < Pow2(s) && b < Pow2(s) && c < Pow2(s) && d < Pow2(s) && e < Pow2(s)
       <==> 31 - LeadingZeros(a) <= s && 31 - LeadingZeros(b) <= s && 31 - LeadingZeros(c) <= s && 31 - LeadingZeros(d) <= s
            && 31 - LeadingZeros(e) <= s
    ensures s > 0 ==> (a < Pow2(s - 1) && b < Pow2(s - 1) && c < Pow2(s - 1) && d < Pow2(s - 1) && e < Pow2(s - 1)
       <==> 32 - LeadingZeros(a) <= s && 32 - LeadingZeros(b) <= s && 32 - LeadingZeros(c) <= s && 32 - LeadingZeros(d) <= s
            && 32 - LeadingZeros(e) <= s)
  {
    hide Pow2, LeadingZeros;
    WidthOf(a, s);
    WidthOf(b, s);
    WidthOf(c, s);
    WidthOf(d, s);
    WidthOf(e, s);
    if s > 0 {
      WidthOf(a, s - 1);
      WidthOf(b, s - 1);
      WidthOf(c, s - 1);
      WidthOf(d, s - 1);
      WidthOf(e, s - 1);
    }
  }

  lemma RoomNarrows(xy: int, yy: int, xz: int, yz: int, zz: int, s: nat)
    requires 0 <= yy && 0 <= zz && Room(xy, yy, xz, yz, zz, s)
    ensures -0x4000_0000 <= xy / Pow2(s) < 0x4000_0000 && -0x4000_0000 <= xz / Pow2(s) < 0x4000_0000
    ensures -0x4000_0000 <= yz / Pow2(s) < 0x4000_0000
    ensures 0 <= yy / Pow2(s) < 0x8000_0000 && 0 <= zz / Pow2(s) < 0x8000_0000
  {
    hide Pow2, Abs;
    Narrow(xy, s);
    Narrow(xz, s);
    Narrow(yz, s);
    NarrowEnergy(yy, s);
    NarrowEnergy(zz, s);
  }

  lemma Narrow(v: int, s: nat)
    requires Abs(v) / 0x4000_0000 < Pow2(s)
    ensures -0x4000_0000 <= v / Pow2(s) < 0x4000_0000
  {
    hide Pow2;
    QuotientInside(v, Pow2(s), 0x4000_0000);
  }

  lemma NarrowEnergy(v: int, s: nat)
    requires 0 <= v && v / 0x8000_0000 < Pow2(s)
    ensures 0 <= v / Pow2(s) < 0x8000_0000
  {
    hide Pow2;
    QuotientInside(v, Pow2(s), 0x8000_0000);
  }

  lemma QuotientInside(v: int, p: int, m: int)
    requires p > 0 && m > 0 && Abs(v) / m < p
    ensures -m <= v / p < m && (v >= 0 ==> v / p >= 0)
  {
    var k, q := Abs(v) / m, v / p;
    assert Abs(v) == m * k + Abs(v) % m;
    Monotone(k, p - 1, m);
    assert (p - 1) * m == p * m - m;
    Floored(v, p, q);
    if q >= m {
      Monotone(m, q, p);
    }
    assert (-m - 1) * p == -(p * m) - p;
    if q <= -m - 1 {
      Monotone(q, -m - 1, p);
    }
    if v >= 0 && q < 0 {
      Monotone(q, -1, p);
    }
  }

  lemma Floored(v: int, p: int, q: int)
    requires p > 0 && q == v / p
    ensures q * p <= v < q * p + p
  {
  }
}
