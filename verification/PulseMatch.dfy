/** What the pulse search compares: its numerator is the target against the filtered pulses, its denominator
    their energy, and a larger ratio leaves less of the target (section 3.8.1 of Recommendation G.729). */
module PulseMatch {
  import opened FixedPoint
  import opened BackwardFilter
  import opened PulseEnergy
  import opened PulseSearch
  import opened FixedCodebook

  // ----- the numerator --------------------------------------------------------------------------

  /** The filtered signed pulses. */
  function FilteredVector(h: seq<Word16>, sgn: seq<int>, ms: seq<nat>): (y: seq<int>)
    requires Signs(sgn) && Positions(ms)
    ensures |y| == L
  {
    seq(L, n requires 0 <= n < L => Filtered(h, sgn, ms, n))
  }

  /** The response delayed by m. */
  function Delayed(h: seq<Word16>, m: nat): (y: seq<int>)
    ensures |y| == L
  {
    seq(L, n requires 0 <= n < L => Tap(h, m, n))
  }

  /** The signed correlations under the pulses, all together. */
  function SignedCross(t: seq<Word16>, h: seq<Word16>, sgn: seq<int>, ms: seq<nat>): int
    requires |t| == |h| == L && Signs(sgn) && Positions(ms)
  {
    if ms == [] then 0
    else
      var m := ms[|ms| - 1];
      SignedCross(t, h, sgn, ms[..|ms| - 1]) + sgn[m] * CrossSum(t, h, m, L)
  }

  lemma {:induction false} DelayedIsCross(t: seq<Word16>, h: seq<Word16>, m: nat, n: nat)
    requires |t| == |h| == L && m < L && n <= L
    ensures Inner(t, Delayed(h, m), n) == if n <= m then 0 else CrossSum(t, h, m, n)
    decreases n
  {
    if n > 0 {
      DelayedIsCross(t, h, m, n - 1);
      assert Delayed(h, m)[n - 1] == Tap(h, m, n - 1);
    }
  }

  lemma {:induction false} OneMorePulse(t: seq<Word16>, h: seq<Word16>, sgn: seq<int>, ms: seq<nat>, n: nat)
    requires |t| == |h| == L && Signs(sgn) && Positions(ms) && ms != [] && n <= L
    ensures var rest, m := ms[..|ms| - 1], ms[|ms| - 1];
      Inner(t, FilteredVector(h, sgn, ms), n) == Inner(t, FilteredVector(h, sgn, rest), n) + sgn[m] * Inner(t, Delayed(h, m), n)
    decreases n
  {
    var rest, m := ms[..|ms| - 1], ms[|ms| - 1];
    if n > 0 {
      OneMorePulse(t, h, sgn, ms, n - 1);
      var a, b, c := FilteredVector(h, sgn, ms), FilteredVector(h, sgn, rest), Delayed(h, m);
      assert a[n - 1] == b[n - 1] + sgn[m] * c[n - 1];
      SignedProduct(t[n - 1], b[n - 1], sgn[m], c[n - 1], Inner(t, c, n - 1));
    }
  }

  lemma SignedProduct(t: int, b: int, s: int, c: int, sum: int)
    ensures t * (b + s * c) == t * b + s * (t * c) && s * (sum + t * c) == s * sum + s * (t * c)
  {
    assert t * (s * c) == s * (t * c);
  }

  /** The correlations under any signed pulses add up to the target against those pulses, filtered. */
  lemma {:induction false} SignedCrossIsInner(t: seq<Word16>, h: seq<Word16>, sgn: seq<int>, ms: seq<nat>)
    requires |t| == |h| == L && Signs(sgn) && Positions(ms)
    ensures SignedCross(t, h, sgn, ms) == Inner(t, FilteredVector(h, sgn, ms), L)
    decreases |ms|
  {
    hide CrossSum, Filtered, Tap;
    if ms == [] {
      SilentInner(t, h, sgn, L);
    } else {
      var rest, m := ms[..|ms| - 1], ms[|ms| - 1];
      SignedCrossIsInner(t, h, sgn, rest);
      OneMorePulse(t, h, sgn, ms, L);
      DelayedIsCross(t, h, m, L);
      hide Inner;
    }
  }

  lemma {:induction false} SilentInner(t: seq<Word16>, h: seq<Word16>, sgn: seq<int>, n: nat)
    requires |t| == L && Signs(sgn) && n <= L
    ensures Inner(t, FilteredVector(h, sgn, []), n) == 0
    decreases n
  {
    if n > 0 {
      SilentInner(t, h, sgn, n - 1);
      assert FilteredVector(h, sgn, [])[n - 1] == 0;
    }
  }

  /** The sum the search squares is the target against the filtered pulses in units of 2^shift, off by less than
      one unit for each pulse; without a shift it is exact. */
  lemma {:induction false} CorrelationIsInner(p: Problem, t: seq<Word16>, h: seq<Word16>, top: Word32, ms: seq<nat>)
    requires |t| == L && Quiet(h) && Poses(p, t, h, top) && Positions(ms)
    ensures var unit := Pow2(Shift13(top)); var exact := Inner(t, FilteredVector(h, p.sgn, ms), L);
      exact - (unit - 1) * |ms| <= unit * Correlation(p, ms) <= exact + (unit - 1) * |ms|
  {
    NearSignedCross(p, t, h, top, ms);
    SignedCrossIsInner(t, h, p.sgn, ms);
  }

  lemma {:induction false} NearSignedCross(p: Problem, t: seq<Word16>, h: seq<Word16>, top: Word32, ms: seq<nat>)
    requires |t| == L && Quiet(h) && Poses(p, t, h, top) && Positions(ms)
    ensures var unit := Pow2(Shift13(top)); var exact := SignedCross(t, h, p.sgn, ms);
      exact - (unit - 1) * |ms| <= unit * Correlation(p, ms) <= exact + (unit - 1) * |ms|
    decreases |ms|
  {
    hide CrossSum, Pow2, Shift13, Poses, Quiet, Abs;
    TopOf(p, t, h, top);
    if ms != [] {
      var rest, m := ms[..|ms| - 1], ms[|ms| - 1];
      PosedAt(p, t, h, top, m);
      var unit := Pow2(Shift13(top));
      NearSignedCross(p, t, h, top, rest);
      SignedQuotient(CrossSum(t, h, m, L), unit, p.sgn[m], p.d[m]);
      Units(unit, Correlation(p, rest), p.d[m], |rest|);
    }
  }

  lemma TopOf(p: Problem, t: seq<Word16>, h: seq<Word16>, top: Word32)
    requires |t| == L && Quiet(h) && Poses(p, t, h, top)
    ensures |h| == L && p.Valid() && top >= 0
  {
    hide CrossSum, Abs;
  }

  lemma PosedAt(p: Problem, t: seq<Word16>, h: seq<Word16>, top: Word32, m: nat)
    requires |t| == L && Quiet(h) && Poses(p, t, h, top) && m < L
    ensures |h| == L && p.Valid() && p.sgn[m] == (if CrossSum(t, h, m, L) >= 0 then 1 else -1)
    ensures top >= 0 && p.d[m] as int == Abs(CrossSum(t, h, m, L) / Pow2(Shift13(top)))
  {
    hide CrossSum, Pow2, Shift13, Abs;
  }

  lemma SignedQuotient(c: int, unit: int, s: int, d: int)
    requires unit > 0 && s == (if c >= 0 then 1 else -1) && d == Abs(c / unit)
    ensures s * c - (unit - 1) <= unit * d <= s * c + (unit - 1)
  {
    SignOfQuotient(c, unit);
    var q := c / unit;
    assert c == unit * q + c % unit;
    assert unit * -q == -(unit * q);
  }

  lemma Units(unit: int, x: int, d: int, n: nat)
    ensures unit * (x + d) == unit * x + unit * d && (unit - 1) * (n + 1) == (unit - 1) * n + (unit - 1)
  {
  }

  /** The denominator's norm is the filtered pulses against themselves. */
  lemma {:induction false} NormIsInner(h: seq<Word16>, sgn: seq<int>, ms: seq<nat>, n: nat)
    requires |h| == L && Signs(sgn) && Positions(ms) && n <= L
    ensures Norm(h, sgn, ms, n) == Inner(FilteredVector(h, sgn, ms), FilteredVector(h, sgn, ms), n)
    decreases n
  {
    hide Filtered;
    if n > 0 {
      NormIsInner(h, sgn, ms, n - 1);
    }
  }

  /** The target is what the adaptive codebook's contribution, its gain in Q14, leaves of the whole target. */
  lemma TargetIsRest(target: seq<Word16>, filtered: seq<Word16>, gain: int, i: nat)
    requires i < |target| == |filtered| && -0x8000 <= target[i] as int - filtered[i] as int * gain / 0x4000 <= 0x7fff
    ensures var rest := Target(target, filtered, gain)[i] as int;
      0x4000 * (target[i] as int - rest) <= gain * filtered[i] as int < 0x4000 * (target[i] as int - rest) + 0x4000
  {
    hide Wrap16;
    NoWrap16(target[i] as int - filtered[i] as int * gain / 0x4000);
    FlooredShift(filtered[i] as int * gain);
  }

  lemma FlooredShift(x: int)
    ensures 0x4000 * (x / 0x4000) <= x < 0x4000 * (x / 0x4000) + 0x4000
  {
  }

  // ----- the ratio ------------------------------------------------------------------------------

  function Product(a: real, b: real): real {
    a * b
  }

  /** What the sample g b leaves of the sample a, squared. */
  function Missed(a: real, b: real, g: real): real {
    (a - g * b) * (a - g * b)
  }

  /** What g y leaves of the first n samples of t. */
  function Left(t: seq<int>, y: seq<int>, g: real, n: nat): real
    requires n <= |t| && n <= |y|
  {
    if n == 0 then 0.0 else Left(t, y, g, n - 1) + Missed(t[n - 1] as real, y[n - 1] as real, g)
  }

  /** The target's energy, less twice the gain on the product, and the vector's energy by the square of the gain. */
  function Expanded(s: real, c: real, e: real, g: real): real {
    s - 2.0 * g * c + g * g * e
  }

  lemma {:induction false} LeftExpands(t: seq<int>, y: seq<int>, g: real, n: nat)
    requires n <= |t| && n <= |y|
    ensures Left(t, y, g, n) == Expanded(Inner(t, t, n) as real, Inner(t, y, n) as real, Inner(y, y, n) as real, g)
    decreases n
  {
    hide Expanded, Inner, Missed, Product;
    if n == 0 {
      NothingLeft(t, y, g);
    } else {
      LeftExpands(t, y, g, n - 1);
      InnerGrows(t, t, n);
      InnerGrows(t, y, n);
      InnerGrows(y, y, n);
      OneMoreSquare(Inner(t, t, n - 1) as real, Inner(t, y, n - 1) as real, Inner(y, y, n - 1) as real, t[n - 1] as real, y[n - 1] as real, g);
    }
  }

  lemma NothingLeft(t: seq<int>, y: seq<int>, g: real)
    ensures Expanded(Inner(t, t, 0) as real, Inner(t, y, 0) as real, Inner(y, y, 0) as real, g) == 0.0
  {
  }

  lemma InnerGrows(x: seq<int>, y: seq<int>, n: nat)
    requires 0 < n <= |x| && n <= |y|
    ensures Inner(x, y, n) as real == Inner(x, y, n - 1) as real + Product(x[n - 1] as real, y[n - 1] as real)
  {
    ProductCast(x[n - 1], y[n - 1]);
  }

  lemma ProductCast(a: int, b: int)
    ensures (a * b) as real == a as real * b as real
  {
  }

  lemma OneMoreSquare(s: real, c: real, e: real, a: real, b: real, g: real)
    ensures Expanded(s, c, e, g) + Missed(a, b, g) == Expanded(s + Product(a, a), c + Product(a, b), e + Product(b, b), g)
  {
    SquareOfDifference(a, b, g);
    assert 2.0 * g * (c + a * b) == 2.0 * g * c + 2.0 * g * (a * b);
    assert g * g * (e + b * b) == g * g * e + g * g * (b * b);
  }

  lemma SquareOfDifference(a: real, b: real, g: real)
    ensures (a - g * b) * (a - g * b) == a * a - 2.0 * g * (a * b) + g * g * (b * b)
  {
    assert (a - g * b) * (a - g * b) == a * a - a * (g * b) - (g * b) * a + (g * b) * (g * b);
    assert a * (g * b) == g * (a * b) && (g * b) * (g * b) == g * g * (b * b);
  }

  /** With the gain C/E the vector leaves the target's energy less C^2/E, and no gain leaves less. */
  lemma BestGainLeaves(t: seq<int>, y: seq<int>, g: real, n: nat)
    requires n <= |t| && n <= |y| && Inner(y, y, n) > 0
    ensures var c, e := Inner(t, y, n) as real, Inner(y, y, n) as real;
      && Left(t, y, c / e, n) == Inner(t, t, n) as real - c * c / e
      && Left(t, y, g, n) >= Left(t, y, c / e, n)
  {
    var c, e, a := Inner(t, y, n) as real, Inner(y, y, n) as real, Inner(t, t, n) as real;
    var b := c / e;
    LeftExpands(t, y, g, n);
    LeftExpands(t, y, b, n);
    hide Left, Inner, Expanded;
    Completed(a, c, e, b);
    Completed(a, c, e, g);
    assert e * ((b - b) * (b - b)) == 0.0;
    NotNegative(g - b);
    ScaledSquare(e, g - b);
  }

  lemma NotNegative(x: real)
    ensures x * x >= 0.0
  {
  }

  lemma ScaledSquare(e: real, x: real)
    requires e > 0.0 && x * x >= 0.0
    ensures e * (x * x) >= 0.0
  {
  }

  /** The square completed around c/e. */
  lemma Completed(a: real, c: real, e: real, g: real)
    requires e > 0.0
    ensures Expanded(a, c, e, g) == a - c * c / e + e * ((g - c / e) * (g - c / e))
  {
    var b := c / e;
    assert c == b * e;
    assert c * c / e == c * b by { assert (c * b) * e == c * c; }
    assert e * ((g - b) * (g - b)) == e * (g * g) - 2.0 * (e * (g * b)) + e * (b * b);
    assert g * c == e * (g * b) && c * b == e * (b * b);
  }

  /** Of two vectors the one with the larger C^2/E leaves less of the target at its best gain. */
  lemma LargerRatioLeavesLess(t: seq<int>, y: seq<int>, z: seq<int>, g: real, n: nat)
    requires n <= |t| && n <= |y| && n <= |z| && Inner(y, y, n) > 0 && Inner(z, z, n) > 0
    requires var c, e, c', e' := Inner(t, y, n) as real, Inner(y, y, n) as real, Inner(t, z, n) as real, Inner(z, z, n) as real;
      c * c / e >= c' * c' / e'
    ensures Left(t, y, Inner(t, y, n) as real / Inner(y, y, n) as real, n) <= Left(t, z, g, n)
  {
    hide Left, Inner;
    BestGainLeaves(t, y, g, n);
    BestGainLeaves(t, z, g, n);
  }
}
