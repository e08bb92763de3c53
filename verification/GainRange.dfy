/** Ranges of the gain predictor: prediction errors of the codebook's own factors, and the predicted
    gain of an unsharpened code vector, which always fits the encoder's 16-bit narrowing. */
module GainRange {
  import opened FixedPoint
  import opened Gains

  // ----- the logarithm of a correction factor -------------------------------------------------

  /** Where the cubic of the logarithm is bounded: twice the largest even-gain factor, the largest
      factor and the end of the range. */
  predicate Top(top: int) {
    top == 20719 || top == 29556 || top == 0x7fff
  }

  /** A slope that bounds the cubic's quadratic factor below top. */
  function Slope(top: int): int {
    if top == 20719 then 204894 else if top == 29556 then 184746 else 177424
  }

  function CubicTop(top: int): int {
    if top == 20719 then 157216 else if top == 29556 then 190821 else 200771
  }

  /** The cubic of the logarithm: acc in Q15, result in Q16. */
  function Cubic(acc: Word16): int {
    MultQ15(acc, 378194 + MultQ15(acc, -252129 + MultQ15(acc, 74705)))
  }

  lemma CubicBound(acc: Word16, top: int)
    requires 0 <= acc <= top && Top(top)
    ensures 0 <= Cubic(acc) <= CubicTop(top)
  {
    hide SplitFloor;
    var a3 := MultQ15(acc, 74705);
    var a2 := MultQ15(acc, -252129 + a3);
    var k := Slope(top);
    SplitFloorIsFloor(acc, 74705, 0x8000);
    SplitFloorIsFloor(acc, -252129 + a3, 0x8000);
    SplitFloorIsFloor(acc, 378194 + a2, 0x8000);
    assert 0 <= a3 <= 252129 - k;
    FloorAtMost(acc, -252129 + a3, -k);
    assert 0x8000 * a2 <= -(acc * k);
    FloorAtLeast(acc, -252129 + a3, -252129);
    assert a2 >= -252129;
    Parabola(acc, top, k, a2);
  }

  lemma FloorAtMost(acc: int, x: int, y: int)
    requires acc >= 0 && x <= y
    ensures 0x8000 * ((acc * x) / 0x8000) <= acc * y
  {
    assert acc * (y - x) >= 0;
  }

  lemma FloorAtLeast(acc: int, x: int, y: int)
    requires 0 <= acc <= 0x7fff && y <= x && y <= 0
    ensures (acc * x) / 0x8000 >= y
  {
    assert acc * (x - y) >= 0;
    assert (0x8000 - acc) * -y >= 0;
  }

  /** acc * (378194 - acc k / 2^15) grows with acc up to top. */
  lemma Parabola(acc: int, top: int, k: int, a2: int)
    requires 0 <= acc <= top && 0x8000 * a2 <= -(acc * k) && a2 >= -252129
    requires Top(top) && k == Slope(top)
    ensures 0 <= (acc * (378194 + a2)) / 0x8000 <= CubicTop(top)
  {
    NonNegative(acc, 378194 + a2);
    Scaled2(acc, a2, k);
    Increasing(acc, top, k);
    AtTop(acc * (378194 + a2), top, k);
  }

  lemma NonNegative(x: int, y: int)
    requires x >= 0 && y >= 0
    ensures x * y >= 0
  {
  }

  lemma AtTop(product: int, top: int, k: int)
    requires Top(top) && k == Slope(top) && 0x8000 * product <= top * (0x8000 * 378194 - top * k)
    ensures product / 0x8000 <= CubicTop(top)
  {
  }

  lemma Scaled2(acc: int, a2: int, k: int)
    requires acc >= 0 && 0x8000 * a2 <= -(acc * k)
    ensures 0x8000 * (acc * (378194 + a2)) <= acc * (0x8000 * 378194 - acc * k)
  {
    var c := -(acc * k) - 0x8000 * a2;
    NonNegative(acc, c);
    Distributed(acc, 0x8000 * 378194 - acc * k, 0x8000 * (378194 + a2), c);
    assert acc * (0x8000 * (378194 + a2)) == 0x8000 * (acc * (378194 + a2));
  }

  lemma Distributed(w: int, x: int, y: int, z: int)
    requires x == y + z
    ensures w * x == w * y + w * z
  {
  }

  lemma Increasing(acc: int, top: int, k: int)
    requires 0 <= acc <= top && k > 0 && 2 * top * k <= 0x8000 * 378194
    ensures acc * (0x8000 * 378194 - acc * k) <= top * (0x8000 * 378194 - top * k)
  {
    var m := 0x8000 * 378194;
    NonNegative(top - acc, k);
    NonNegative(top - acc, m - (acc + top) * k);
    Factored(acc, top, m, k);
  }

  lemma Factored(acc: int, top: int, m: int, k: int)
    ensures (top - acc) * (m - (acc + top) * k) == top * (m - top * k) - acc * (m - acc * k)
  {
  }

  lemma LogUnfolded(x: Word32)
    requires x > 0
    ensures var zeros := LeadingZeros(x); var acc := NormalisedTo15(x, zeros);
      && acc >= 0
      && Log2(x) as int == (30 - zeros) * 0x1_0000 - 135003 + Cubic(acc)
  {
    hide MultQ15, LeadingZeros, NormalisedTo15;
  }

  /** Twice the number is exactly one more, in Q16. */
  lemma LogOfDouble(x: Word32)
    requires 0 < x < 0x4000_0000
    ensures Log2(2 * x) == Log2(x) + 0x1_0000
  {
    hide Log2, Cubic;
    hide LeadingZeros, NormalisedTo15, Pow2;
    LogUnfolded(x);
    LogUnfolded(2 * x);
    ZerosOfDouble(x);
    SameLeadingBits(x, LeadingZeros(2 * x));
  }

  lemma SameLeadingBits(x: Word32, n: nat)
    requires 0 < x < 0x4000_0000 && n < 30
    requires 0x4000_0000 <= x * Pow2(n + 1) <= MAX32 && 0x4000_0000 <= (2 * x) * Pow2(n) <= MAX32
    ensures NormalisedTo15(2 * x, n) == NormalisedTo15(x, n + 1)
  {
    hide Pow2;
    if n < 16 {
      Pow2Next(15 - n);
      HalvedBoth(x, Pow2(15 - n));
      PowerOfZero();
    } else {
      Pow2Next(n - 16);
      DoubleFactor(x, Pow2(n - 16));
    }
  }

  lemma HalvedBoth(x: int, p: int)
    requires p > 0
    ensures (2 * x) / (2 * p) == x / p && (p == 1 ==> x / p == x)
  {
    var q, r := x / p, x % p;
    assert x == q * p + r;
    assert 2 * x == q * (2 * p) + 2 * r;
    QuotientIsUnique(2 * x, 2 * p, q, 2 * r);
  }

  lemma PowerOfZero()
    ensures Pow2(0) == 1
  {
  }

  lemma ZerosOfDouble(x: Word32)
    requires 0 < x < 0x4000_0000
    ensures LeadingZeros(x) == LeadingZeros(2 * x) + 1
  {
  }

  /** The logarithm of a power of two is off by 399 units of 2^-16. */
  lemma LogOfTop()
    ensures Log2(0x4000_0000) == 30 * 0x1_0000 + 399
  {
    Pow2Of16(16);
    LogUnfolded(0x4000_0000);
    TopCubic();
    PowerOfZero();
    hide Log2, Cubic, Pow2;
  }

  lemma TopCubic()
    ensures Cubic(0x4000) == 135402
  {
    assert MultQ15(0x4000, 74705) == 37352;
    assert MultQ15(0x4000, -214777) == -107389;
    assert MultQ15(0x4000, 270805) == 135402;
    hide MultQ15;
  }

  /** Logarithms of the correction factors. */
  lemma LogOfFactor(x: Word32)
    requires 758 <= x <= 20719
    ensures 454821 <= Log2(x) <= 939717
  {
    hide MultQ15, NormalisedTo15, LeadingZeros, Log2, Pow2, Cubic;
    LogUnfolded(x);
    var zeros := LeadingZeros(x);
    var acc := NormalisedTo15(x, zeros);
    ZerosOfFactor(x, zeros);
    if x >= 0x4000 {
      CubicBound(acc, 20719);
    } else {
      CubicBound(acc, 0x7fff);
    }
  }

  lemma ZerosOfFactor(x: Word32, zeros: nat)
    requires 758 <= x <= 20719 && zeros == LeadingZeros(x)
    ensures zeros <= 21 && (x >= 0x4000 ==> zeros == 16 && NormalisedTo15(x, zeros) == x) && (x < 0x4000 ==> zeros >= 17)
  {
    hide LeadingZeros, Pow2;
    LeadingZerosFrom(x);
    UnitShift();
  }

  lemma UnitShift()
    ensures Pow2(0) == 1
  {
  }

  lemma LeadingZerosFrom(x: Word32)
    requires 758 <= x <= 20719
    ensures LeadingZeros(x) <= 21
    ensures x >= 0x4000 ==> LeadingZeros(x) == 16
    ensures x < 0x4000 ==> LeadingZeros(x) >= 17
  {
    var z := LeadingZeros(x);
    Pow2Of30(30);
    Pow2Sum(8, 8);
    Pow2Sum(16, 1);
    Pow2Sum(16, 6);
    assert Pow2(8) == 256 && Pow2(6) == 64;
    if z >= 22 {
      Pow2Monotone(22, z);
      ProductAtLeast(x, 758, Pow2(z), 0x40_0000);
    }
    if z <= 16 {
      Pow2Monotone(z, 16);
      ProductAtMost(x, Pow2(z), 0x1_0000);
    }
    if z >= 17 {
      Pow2Monotone(17, z);
      ProductAtLeast(x, x, Pow2(z), 0x2_0000);
    }
    if z <= 15 {
      Pow2Monotone(z, 15);
      assert Pow2(15) == 0x8000;
      ProductAtMost(x, Pow2(z), 0x8000);
    }
  }

  lemma ProductAtLeast(x: int, y: int, p: int, q: int)
    requires x >= y >= 0 && p >= q >= 0
    ensures x * p >= y * q
  {
    assert (x - y) * p >= 0 && y * (p - q) >= 0;
  }

  lemma ProductAtMost(x: int, p: int, q: int)
    requires x >= 0 && p <= q
    ensures x * p <= x * q
  {
    assert x * (q - p) >= 0;
  }

  /** Every prediction error the codebook can put in the history is at most 14.1 dB. */
  lemma ErrorOfFactor(i: nat, j: nat)
    requires i < 8 && j < 16
    ensures -0x8000 <= ErrorOf(Factor(i, j)) <= 14420
  {
    hide Log2, Factor, MultQ12, Wrap16;
    var f := Factor(i, j);
    LogOfFactor(f);
    ErrorOfLog(Log2(f));
  }

  lemma ErrorOfLog(level: int)
    requires 454821 <= level <= 939717
    ensures -0x8000 <= Wrap16((MultQ12(24660, level - 786432) + 0x20) / 0x40) <= 14420
  {
    hide SplitFloor;
    SplitFloorIsFloor(24660, level - 786432, 0x1000);
  }

  // ----- the predicted gain ---------------------------------------------------------------------

  /** The mantissa of the exponential, in Q14. */
  function Mantissa(frac: int): int {
    0x4000 + (frac * (11356 + (frac * (3726 + (1301 * frac) / 0x4000)) / 0x4000)) / 0x4000
  }

  lemma MantissaRange(frac: int)
    requires 0 <= frac <= 16376
    ensures 0x4000 <= Mantissa(frac) <= 0x4000 + 16375
  {
    var inner := (1301 * frac) / 0x4000;
    var middle := (frac * (3726 + inner)) / 0x4000;
    FractionOf(frac, 3726 + inner, 5026);
    FractionOf(frac, 11356 + middle, 16382);
  }

  lemma ExpUnfolded(x: Word16)
    ensures var integer, m := x as int / 0x800, Mantissa(8 * (x as int % 0x800));
      Exp2(x) as int == if integer > 14 then MAX32 else if integer < -15 then 0
                        else if integer < -2 then Wrap16(m) as int / Pow2(-integer - 2) else Wrap32(Wrap16(m) as int * Pow2(integer + 2))
  {
    hide Pow2, Wrap16, Wrap32;
  }

  /** 2^x in Q16 never wraps below zero, and stays under 2^11 for x < 11. */
  lemma ExpRange(x: Word16)
    ensures Exp2(x) >= 0
    ensures x < 22528 ==> Exp2(x) < 0x800_0000
  {
    hide Exp2, Pow2, Mantissa, Wrap16, Wrap32;
    ExpUnfolded(x);
    var integer, m := x as int / 0x800, Mantissa(8 * (x as int % 0x800));
    MantissaRange(8 * (x as int % 0x800));
    if -15 <= integer <= 14 {
      ExpShift(m, integer);
      NoWrap(m);
      if integer >= -2 {
        NoWrap32(m * Pow2(integer + 2));
      }
    }
  }

  /** One more in Q11 doubles the exponential. */
  lemma ExpOfNext(x: Word16)
    requires -0x1000 <= x < 14 * 0x800
    ensures Exp2(x + 0x800) == 2 * Exp2(x)
  {
    hide Exp2, Pow2, Mantissa, Wrap16, Wrap32;
    ExpUnfolded(x);
    ExpUnfolded(x + 0x800);
    var integer, m := x as int / 0x800, Mantissa(8 * (x as int % 0x800));
    MantissaRange(8 * (x as int % 0x800));
    ExpShift(m, integer);
    ExpShift(m, integer + 1);
    NoWrap(m);
    NoWrap32(m * Pow2(integer + 2));
    NoWrap32(m * Pow2(integer + 3));
    Pow2Next(integer + 2);
    DoubleFactor(m, Pow2(integer + 2));
  }

  lemma ExpOfZero()
    ensures Exp2(0) == 0x1_0000
  {
    hide Exp2, Mantissa, Wrap16, Wrap32;
    assert Pow2(2) == 4;
    ExpUnfolded(0);
    assert Mantissa(0) == 0x4000 by { MantissaOfZero(); }
    NoWrap(0x4000);
    NoWrap32(0x1_0000);
  }

  lemma MantissaOfZero()
    ensures Mantissa(0) == 0x4000
  {
  }

  lemma NoWrap(x: int)
    requires -0x8000 <= x <= 0x7fff
    ensures Wrap16(x) as int == x
  {
  }

  lemma FractionOf(frac: int, x: int, top: int)
    requires 0 <= frac <= 16376 && 0 <= x <= top
    ensures 0 <= (frac * x) / 0x4000 <= (16376 * top) / 0x4000
  {
    assert frac * x >= 0;
    assert (16376 - frac) * x >= 0 && 16376 * (top - x) >= 0;
  }

  lemma ExpShift(mantissa: int, integer: int)
    requires 0x4000 <= mantissa <= 0x4000 + 16375 && -15 <= integer <= 14
    ensures integer < -2 ==> 0 <= mantissa / Pow2(-integer - 2) <= 0x7fff
    ensures integer >= -2 ==> 0 <= mantissa * Pow2(integer + 2) <= MAX32
    ensures -2 <= integer <= 10 ==> mantissa * Pow2(integer + 2) < 0x800_0000
  {
    if integer < -2 {
      QuotientShrinks(mantissa, Pow2(-integer - 2));
    } else {
      Pow2Sum(8, 8);
      assert Pow2(8) == 256 && Pow2(12) == 0x1000;
      Pow2Monotone(integer + 2, 16);
      ProductAtMost(mantissa, Pow2(integer + 2), 0x1_0000);
      if integer <= 10 {
        Pow2Monotone(integer + 2, 12);
        ProductAtMost(mantissa, Pow2(integer + 2), 0x1000);
      }
    }
  }

  /** Errors no larger than the codebook's. */
  predicate Moderate(e: seq<Word16>)
    requires IsErrors(e)
  {
    e[0] <= 14420 && e[1] <= 14420 && e[2] <= 14420 && e[3] <= 14420
  }

  lemma LogOfFourPulses()
    ensures Log2(0x1000_0000) == 1835407
  {
    assert LeadingZeros(0x1000_0000) == 2;
    assert Pow2(14) == 0x4000;
    assert NormalisedTo15(0x1000_0000, 2) == 0x4000;
  }

  /** Four bare pulses and moderate errors predict a gain below 2^27: it survives the encoder's
      narrowing to 16 bits. */
  lemma FourPulsesPredict(e: seq<Word16>, c: seq<Word16>)
    requires IsErrors(e) && Moderate(e) && HasEnergy(c) && VectorEnergy(c) == 0x1000_0000
    ensures 0 <= PredictedGain(e, c) < 0x800_0000
  {
    hide PredictedGain, Exp2, Averaged, MultQ15, MultQ13, Wrap16, Wrap32, Log2, VectorEnergy;
    LogOfFourPulses();
    LevelOfFourPulses();
    AveragedRange(e);
    PredictedUnfolded(e, c);
    var acc := Averaged(670802432, e, 4);
    PredictedExponent(acc);
    ExpRange(Wrap16((MultQ15(5442, acc / 4) + 0x400) / 0x800));
  }

  lemma PredictedUnfolded(e: seq<Word16>, c: seq<Word16>)
    requires IsErrors(e) && HasEnergy(c)
    ensures var level := Wrap32(8145364 + MultQ13(-24660, Log2(VectorEnergy(c))));
      PredictedGain(e, c) == Exp2(Wrap16((MultQ15(5442, Averaged(Wrap32(level * 0x100), e, 4) / 4) + 0x400) / 0x800))
  {
    hide Log2, Exp2, VectorEnergy, Averaged, MultQ15, MultQ13, Wrap32, Wrap16;
  }

  lemma LevelOfFourPulses()
    ensures Wrap32(Wrap32(8145364 + MultQ13(-24660, 1835407)) * 0x100) == 670802432
  {
  }

  lemma PredictedExponent(acc: int)
    requires -290217472 <= acc <= 1093712192
    ensures Wrap16((MultQ15(5442, acc / 4) + 0x400) / 0x800) < 22528
  {
    hide SplitFloor;
    SplitFloorIsFloor(5442, acc / 4, 0x8000);
  }

  lemma AveragedRange(e: seq<Word16>)
    requires IsErrors(e) && Moderate(e)
    ensures -290217472 <= Averaged(670802432, e, 4) <= 1093712192
  {
    hide Averaged;
    AveragedIs(670802432, e);
  }

  /** The moving average of moderate errors never wraps. */
  lemma AveragedIs(start: Word32, e: seq<Word16>)
    requires IsErrors(e) && Moderate(e) && 0 <= start <= 0x4000_0000
    ensures Averaged(start, e, 4) as int
         == start as int + e[0] as int * 11141 + e[1] as int * 9503 + e[2] as int * 5571 + e[3] as int * 3113
  {
    hide Averaged;
    var a: int, b: int, c: int, d: int := e[0], e[1], e[2], e[3];
    NothingAveraged(start, e);
    NextAveraged(start, e, 0, start, a * 11141);
    NextAveraged(start, e, 1, start + a * 11141, b * 9503);
    NextAveraged(start, e, 2, start + a * 11141 + b * 9503, c * 5571);
    NextAveraged(start, e, 3, start + a * 11141 + b * 9503 + c * 5571, d * 3113);
  }

  lemma NothingAveraged(start: Word32, e: seq<Word16>)
    requires IsErrors(e)
    ensures Averaged(start, e, 0) == start
  {
  }

  lemma NextAveraged(start: Word32, e: seq<Word16>, n: nat, sum: int, term: int)
    requires IsErrors(e) && n < 4 && Averaged(start, e, n) as int == sum && term == e[n] as int * PredictionCoefficient(n)
    requires -0x8000_0000 <= sum + term <= 0x7fff_ffff
    ensures Averaged(start, e, n + 1) as int == sum + term
  {
    hide PredictionCoefficient, Wrap32;
    NoWrap32(sum + term);
  }

  /** Twice the factor is 6165 units of Q10 more, 20 log10 2. */
  lemma ErrorOfDouble(f: Word16)
    requires 758 <= f <= 10359
    ensures ErrorOf(2 * f) as int == ErrorOf(f) as int + 6165
  {
    hide Log2, Wrap16, MultQ12;
    LogOfFactor(f);
    LogOfDouble(f);
    ErrorOfNext(Log2(f));
  }

  lemma ErrorOfNext(level: int)
    requires 454821 <= level <= 939717
    ensures Wrap16((MultQ12(24660, level + 0x1_0000 - 786432) + 0x20) / 0x40) as int
         == Wrap16((MultQ12(24660, level - 786432) + 0x20) / 0x40) as int + 6165
  {
    hide SplitFloor, Wrap16;
    SplitFloorIsFloor(24660, level + 0x1_0000 - 786432, 0x1000);
    SplitFloorIsFloor(24660, level - 786432, 0x1000);
    var x := 24660 * (level - 786432);
    DivOfShifted(394560, x, 0x1000);
    DivOfShifted(6165, x / 0x1000 + 0x20, 0x40);
    ErrorsFit(level, x / 0x1000);
    NoWrap((x / 0x1000 + 0x20) / 0x40);
    NoWrap((x / 0x1000 + 0x20) / 0x40 + 6165);
  }

  lemma ErrorsFit(level: int, q: int)
    requires 454821 <= level <= 939717 && q == 24660 * (level - 786432) / 0x1000
    ensures -0x8000 <= (q + 0x20) / 0x40 && (q + 0x20) / 0x40 + 6165 <= 0x7fff
  {
  }

  /** So for an unsharpened code vector the decoder's fixed gain is always 0, 1 or 2 above the encoder's. */
  lemma FourPulsesGap(e: seq<Word16>, c: seq<Word16>, i: nat, j: nat)
    requires IsErrors(e) && Moderate(e) && HasEnergy(c) && VectorEnergy(c) == 0x1000_0000 && i < 8 && j < 16
    ensures var p := PredictedGain(e, c);
      0 <= DecoderFixedGain(Factor(i, j), p) - EncoderFixedGain(Factor(i, j), p) <= 2
  {
    FourPulsesPredict(e, c);
    FixedGainGap(i, j, PredictedGain(e, c));
  }
}
