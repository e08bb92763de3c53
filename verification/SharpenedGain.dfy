/** The fixed gain of sharpened code vectors, for delays of 20 to 39. The two sides bound the sharpening
    gain differently (encoder.c at 1.2, decoder.c at 0.8) and round the echo differently, so their code
    vectors, the energies of these and the predicted gains can differ. */
module SharpenedGain {
  import opened FixedPoint
  import opened PulseEnergy
  import opened FixedCodebook
  import opened CodeVectorEnergy
  import opened Gains
  import opened GainRange

  // ----- when both sides hold the same code vector ------------------------------------------

  /** The decoder's sharpening gain next to an encoder's. */
  function Capped(beta: Word16): (b: Word16)
    ensures beta >= 3277 ==> 3277 <= b <= 13107
  {
    if beta > 13107 then 13107 else beta
  }

  predicate Unechoed(ps: Pulses, T: nat) {
    ps.i0 + T >= L && ps.i1 + T >= L && ps.i2 + T >= L && ps.i3 + T >= L
  }

  /** No echo falls into the subframe, or the encoder's gain is an even number up to 0.8. */
  predicate SameCodeVector(ps: Pulses, T: nat, beta: Word16) {
    Unechoed(ps, T) || (beta <= 13107 && beta % 2 == 0)
  }

  /** The two echoes of a pulse. Gains of 13108 and 13109 do not occur. */
  lemma EchoesDiffer(x: int, beta: Word16)
    requires x == 0 || x == 0x2000 || x == -0x2000
    requires 3277 <= beta <= 19661 && beta != 13108 && beta != 13109
    ensures Scaled(x, beta, 0) == Scaled(x, Capped(beta), 0x2000) <==> x == 0 || (beta <= 13107 && beta % 2 == 0)
    ensures -9831 <= Scaled(x, beta, 0) <= 9831 && -9831 <= Scaled(x, Capped(beta), 0x2000) <= 9831
  {
    if x == 0x2000 {
      assert Scaled(x, beta, 0) == beta as int / 2 && Scaled(x, Capped(beta), 0x2000) == (Capped(beta) as int + 1) / 2;
    } else if x == -0x2000 {
      assert Scaled(x, beta, 0) == -beta as int / 2 && Scaled(x, Capped(beta), 0x2000) == (1 - Capped(beta) as int) / 2;
    }
  }

  lemma PulseSize(ps: Pulses, n: nat)
    requires ps.Valid()
    ensures PulseAt(ps, n) == 0 || PulseAt(ps, n) == 0x2000 || PulseAt(ps, n) == -0x2000
    ensures PulseAt(ps, n) != 0 <==> n == ps.i0 || n == ps.i1 || n == ps.i2 || n == ps.i3
  {
  }

  /** Sample n of either vector: a pulse and at most one echo. */
  lemma SampleOf(ps: Pulses, T: nat, beta: int, half: int, n: nat)
    requires ps.Valid() && T >= 20 && n < L && 3277 <= beta <= 19661 && (half == 0 || half == 0x2000)
    ensures var echo := if n < T then 0 else Scaled(PulseAt(ps, n - T), beta, half);
      SharpenedAt(PulseVector(ps), T, beta, half, n) as int == PulseAt(ps, n) as int + echo && -9831 <= echo <= 9831
  {
    hide PulseAt, Scaled, Wrap16;
    PulseSize(ps, n);
    if n < T {
      NotSharpened(ps, T, beta, half, n);
    } else {
      PulseSize(ps, n - T);
      NotSharpened(ps, T, beta, half, n - T);
      EchoBound(PulseAt(ps, n - T), beta, half);
      FitsWord(PulseAt(ps, n) as int + Scaled(PulseAt(ps, n - T), beta, half));
    }
  }

  /** The encoder's and the decoder's code vectors are the same exactly then. */
  lemma SameVectorExactly(ps: Pulses, T: nat, beta: Word16)
    requires ps.Valid() && T >= 20 && 3277 <= beta <= 19661 && beta != 13108 && beta != 13109
    ensures Sharpened(PulseVector(ps), T, beta, 0) == Sharpened(PulseVector(ps), T, Capped(beta), 0x2000)
       <==> SameCodeVector(ps, T, beta)
  {
    var v := PulseVector(ps);
    var a, b := Sharpened(v, T, beta, 0), Sharpened(v, T, Capped(beta), 0x2000);
    forall n | 0 <= n < L
      ensures a[n] == b[n] <==> n < T || PulseAt(ps, n - T) == 0 || (beta <= 13107 && beta % 2 == 0)
    {
      SampleDiffers(ps, T, beta, n);
    }
    hide SharpenedAt, PulseAt, Sharpened;
    if !SameCodeVector(ps, T, beta) {
      var i := if ps.i0 + T < L then ps.i0 else if ps.i1 + T < L then ps.i1 else if ps.i2 + T < L then ps.i2 else ps.i3;
      PulseSize(ps, i);
      assert a[i + T] != b[i + T];
    } else {
      forall n | 0 <= n < L
        ensures a[n] == b[n]
      {
        if n >= T {
          PulseSize(ps, n - T);
        }
      }
    }
  }

  lemma SampleDiffers(ps: Pulses, T: nat, beta: Word16, n: nat)
    requires ps.Valid() && T >= 20 && n < L && 3277 <= beta <= 19661 && beta != 13108 && beta != 13109
    ensures SharpenedAt(PulseVector(ps), T, beta, 0, n) == SharpenedAt(PulseVector(ps), T, Capped(beta), 0x2000, n)
       <==> n < T || PulseAt(ps, n - T) == 0 || (beta <= 13107 && beta % 2 == 0)
  {
    hide PulseAt, Scaled, SharpenedAt;
    SampleOf(ps, T, beta, 0, n);
    SampleOf(ps, T, Capped(beta), 0x2000, n);
    if n >= T {
      PulseSize(ps, n - T);
      EchoesDiffer(PulseAt(ps, n - T), beta);
    }
  }

  // ----- the least energy of a sharpened vector ---------------------------------------------

  /** With a gain up to 0.8 an echo leaves at least a fifth of the pulse it meets. */
  lemma LeftOfPulse(p: int, x: int, beta: int, half: int)
    requires p == 0x2000 || p == -0x2000
    requires x == 0 || x == 0x2000 || x == -0x2000
    requires 3277 <= beta <= 13107 && (half == 0 || half == 0x2000)
    ensures Square(p + Scaled(x, beta, half)) >= if x == 0 then 0x400_0000 else 2683044
  {
    hide Scaled, Square;
    EchoBound(x, beta, half);
    var y := p + Scaled(x, beta, half);
    SquareAtLeast(y, if x == 0 then 0x2000 else 1638);
  }

  lemma SquareAtLeast(y: int, m: int)
    requires m >= 0 && (y >= m || y <= -m)
    ensures Square(y) >= m * m
  {
    hide Square;
    SquareIsProduct(y);
    if y >= m {
      assert (y - m) * (y + m) >= 0;
    } else {
      assert (-y - m) * (m - y) >= 0;
    }
    assert (y - m) * (y + m) == y * y - m * m;
  }

  /** Pulses that may be weakened before sample n, counted twice: those that can be met by an echo and
      those whose echo can meet one. */
  function Weakened(ps: Pulses, T: nat, n: int): int {
    if n <= T then 0 else Count(ps, n) - Count(ps, T) + Count(ps, n - T)
  }

  lemma SampleAtLeast(ps: Pulses, T: nat, beta: int, half: int, n: nat)
    requires ps.Valid() && 20 <= T && n < L && 3277 <= beta <= 13107 && (half == 0 || half == 0x2000)
    ensures Square(SharpenedAt(PulseVector(ps), T, beta, half, n))
         >= 0x400_0000 * (Count(ps, n + 1) - Count(ps, n)) - 32212910 * (Weakened(ps, T, n + 1) - Weakened(ps, T, n))
  {
    hide PulseAt, Scaled, SharpenedAt, Count, Square;
    SampleOf(ps, T, beta, half, n);
    CountStep(ps, n);
    var p, s := PulseAt(ps, n), SharpenedAt(PulseVector(ps), T, beta, half, n);
    if n < T {
      SquareOfPulse(p);
    } else {
      CountStep(ps, n - T);
      CountStart(ps, 0);
      PulseSize(ps, n - T);
      if p != 0 {
        LeftOfPulse(p, PulseAt(ps, n - T), beta, half);
      }
    }
  }

  lemma SquareOfPulse(p: int)
    requires p == 0 || p == 0x2000 || p == -0x2000
    ensures Square(p) == if p == 0 then 0 else 0x400_0000
  {
  }

  lemma {:induction false} EnergyAtLeast(ps: Pulses, T: nat, beta: int, half: int, n: nat)
    requires ps.Valid() && 20 <= T && n <= L && 3277 <= beta <= 13107 && (half == 0 || half == 0x2000)
    ensures Squares(Sharpened(PulseVector(ps), T, beta, half), n) >= 0x400_0000 * Count(ps, n) - 32212910 * Weakened(ps, T, n)
    decreases n
  {
    hide Count, Weakened, PulseAt, SharpenedAt, Square;
    if n == 0 {
      CountStart(ps, 0);
      NothingWeakened(ps, T);
    } else {
      EnergyAtLeast(ps, T, beta, half, n - 1);
      SampleAtLeast(ps, T, beta, half, n - 1);
    }
  }

  lemma NothingWeakened(ps: Pulses, T: nat)
    ensures Weakened(ps, T, 0) == 0
  {
  }

  /** Echoes meet at most two of the four pulses. */
  lemma LeastEnergy(ps: Pulses, T: nat, beta: int, half: int)
    requires ps.Valid() && 20 <= T && 3277 <= beta <= 13107 && (half == 0 || half == 0x2000)
    ensures 139583816 <= VectorEnergy(Sharpened(PulseVector(ps), T, beta, half))
  {
    hide Count, Weakened, Squares, VectorEnergy, Sharpened;
    SharpenedEnergy(ps, T, beta, half);
    EnergyAtLeast(ps, T, beta, half, L);
    AllCounted(ps, T);
  }

  lemma AllCounted(ps: Pulses, T: nat)
    requires ps.Valid() && 20 <= T
    ensures Count(ps, L) == 4 && Weakened(ps, T, L) <= 4
  {
  }

  // ----- the prediction -----------------------------------------------------------------------

  /** The cubic of the logarithm from below, by a tangent of its quadratic factor. */
  lemma CubicLeast(acc: Word16)
    requires 0x4000 <= acc
    ensures Cubic(acc) >= 134000 && (acc >= 17039 ==> Cubic(acc) >= 138000)
  {
    hide SplitFloor;
    var a3 := MultQ15(acc, 74705);
    var a2 := MultQ15(acc, -252129 + a3);
    SplitFloorIsFloor(acc, 74705, 0x8000);
    SplitFloorIsFloor(acc, -252129 + a3, 0x8000);
    SplitFloorIsFloor(acc, 378194 + a2, 0x8000);
    Tangent(acc, a3, a2);
    Rising(acc, a2);
  }

  lemma Tangent(acc: int, a3: int, a2: int)
    requires 0x4000 <= acc <= 0x7fff && a3 == (acc * 74705) / 0x8000 && a2 == (acc * (-252129 + a3)) / 0x8000
    ensures 0x8000 * a2 >= -155020 * acc - 1036000000
  {
    assert 0x8000 * a3 >= 74705 * acc - 0x7fff;
    assert 0x8000 * a2 >= acc * (-252129 + a3) - 0x7fff;
    assert acc * (0x8000 * a3) >= acc * (74705 * acc - 0x7fff);
    assert acc * (0x8000 * a3) == 0x8000 * (acc * a3);
    assert acc * (-252129 + a3) == acc * a3 - 252129 * acc;
    SquareOver(acc);
    var s := acc * acc;
    assert acc * (74705 * acc - 0x7fff) == 74705 * s - 0x7fff * acc;
  }

  lemma SquareOver(acc: int)
    ensures acc * acc >= 42598 * acc - 21299 * 21299
  {
    assert (acc - 21299) * (acc - 21299) >= 0;
    assert (acc - 21299) * (acc - 21299) == acc * acc - 42598 * acc + 21299 * 21299;
  }

  lemma Rising(acc: int, a2: int)
    requires 0x4000 <= acc <= 0x7fff && 0x8000 * a2 >= -155020 * acc - 1036000000
    ensures (acc * (378194 + a2)) / 0x8000 >= 134000
    ensures acc >= 17039 ==> (acc * (378194 + a2)) / 0x8000 >= 138000
  {
    var u := acc * (378194 + a2);
    assert 0x8000 * u >= acc * (0x8000 * 378194 - 1036000000 - 155020 * acc) by {
      assert 0x8000 * u == acc * (0x8000 * (378194 + a2));
      FactorGrows(acc, 0x8000 * 378194 - 1036000000 - 155020 * acc, 0x8000 * (378194 + a2));
    }
    ParabolaAbove(acc, 0x4000);
    if acc >= 17039 {
      ParabolaAbove(acc, 17039);
    }
  }

  lemma FactorGrows(a: int, x: int, y: int)
    requires a >= 0 && x <= y
    ensures a * x <= a * y
  {
  }

  lemma ParabolaAbove(acc: int, low: int)
    requires low <= acc <= 0x7fff && (low == 0x4000 || low == 17039)
    ensures acc * (11356660992 - 155020 * acc) >= low * (11356660992 - 155020 * low)
  {
    FallsSlowly(acc, low, 11356660992, 155020);
  }

  lemma FallsSlowly(a: int, b: int, c: int, k: int)
    requires a >= b && c >= k * (a + b)
    ensures a * (c - k * a) >= b * (c - k * b)
  {
    assert (a - b) * (c - k * (a + b)) >= 0;
    assert (a - b) * (c - k * (a + b)) == (a - b) * c - (a - b) * (k * (a + b));
    assert (a - b) * (k * (a + b)) == a * (k * a) - b * (k * b);
  }

  /** The logarithm of an energy no less than that of two pulses and two weakened ones. */
  lemma LogAtLeast(x: Word32)
    requires x >= 139583816
    ensures 1770500 <= Log2(x)
  {
    hide MultQ15, LeadingZeros, NormalisedTo15, Log2, Pow2, Cubic;
    LogUnfolded(x);
    var zeros := LeadingZeros(x);
    var acc := NormalisedTo15(x, zeros);
    LeadingBit(x, zeros);
    CubicLeast(acc);
  }

  lemma LeadingBit(x: Word32, zeros: nat)
    requires x >= 139583816 && zeros == LeadingZeros(x)
    ensures zeros <= 3 && NormalisedTo15(x, zeros) >= 0x4000 && (zeros == 3 ==> NormalisedTo15(x, zeros) >= 17039)
  {
    FewZeros(x, zeros);
    Powers();
    hide Pow2, LeadingZeros;
  }

  lemma Powers()
    ensures Pow2(0) == 1 && Pow2(1) == 2 && Pow2(2) == 4 && Pow2(3) == 8 && Pow2(4) == 16
    ensures Pow2(13) == 0x2000 && Pow2(14) == 0x4000 && Pow2(15) == 0x8000 && Pow2(16) == 0x1_0000
  {
    Pow2Of16(16);
    assert Pow2(16) == 2 * Pow2(15) && Pow2(15) == 2 * Pow2(14) && Pow2(14) == 2 * Pow2(13);
  }

  lemma FewZeros(x: Word32, zeros: nat)
    requires x >= 139583816 && zeros == LeadingZeros(x)
    ensures zeros <= 3
  {
    hide Pow2, LeadingZeros;
    Powers();
    if zeros >= 4 {
      Pow2Monotone(4, zeros);
      ProductAtLeast(x, 139583816, Pow2(zeros), 16);
    }
  }

  lemma LevelAtMost(log: Word32)
    requires 1770500 <= log <= 2031900
    ensures 2000000 <= Wrap32(8145364 + MultQ13(-24660, log)) <= 2816000
  {
    hide SplitFloor;
    SplitFloorIsFloor(-24660, log, 0x2000);
  }

  lemma LogAtMost(x: Word32)
    requires x > 0
    ensures Log2(x) <= 2031900
  {
    hide MultQ15, LeadingZeros, NormalisedTo15, Log2, Pow2, Cubic;
    LogUnfolded(x);
    CubicBound(NormalisedTo15(x, LeadingZeros(x)), 0x7fff);
  }

  lemma AveragedBelow(start: Word32, e: seq<Word16>)
    requires IsErrors(e) && Moderate(e) && e[0] <= 11420 && 512000000 <= start <= 720896000
    ensures -0x2000_0000 <= Averaged(start, e, 4) <= 1110500000
  {
    hide Averaged;
    AveragedIs(start, e);
  }

  lemma ExponentBelow(acc: int)
    requires -0x2000_0000 <= acc <= 1110500000
    ensures Wrap16((MultQ15(5442, acc / 4) + 0x400) / 0x800) < 22528
  {
    hide SplitFloor;
    SplitFloorIsFloor(5442, acc / 4, 0x8000);
  }

  /** A newest error of at most 11.2 dB keeps the prediction for such an energy below 2^27. */
  lemma SharpenedPredict(e: seq<Word16>, c: seq<Word16>)
    requires IsErrors(e) && Moderate(e) && e[0] <= 11420 && HasEnergy(c) && VectorEnergy(c) >= 139583816
    ensures 0 <= PredictedGain(e, c) < 0x800_0000
  {
    hide PredictedGain, Exp2, Averaged, MultQ15, MultQ13, Wrap16, Wrap32, Log2, VectorEnergy, Moderate;
    var log := Log2(VectorEnergy(c));
    LogAtLeast(VectorEnergy(c));
    LogAtMost(VectorEnergy(c));
    LevelAtMost(log);
    var level := Wrap32(8145364 + MultQ13(-24660, log));
    NoWrap32(level * 0x100);
    AveragedBelow(level * 0x100, e);
    PredictedUnfolded(e, c);
    ExponentBelow(Averaged(level * 0x100, e, 4));
    ExpRange(Wrap16((MultQ15(5442, Averaged(level * 0x100, e, 4) / 4) + 0x400) / 0x800));
  }

  // ----- the gain pairs that leave an even sharpening gain ------------------------------------

  /** A pair whose adaptive gain is even and at most 0.8 has a correction factor of at most 3.61, hence
      a prediction error of at most 11.2 dB. No pair has an adaptive gain of 13108 or 13109. */
  lemma EvenGainFactor(i: nat, j: nat)
    requires i < 8 && j < 16
    ensures AdaptiveGain(i, j) <= 13107 && AdaptiveGain(i, j) % 2 == 0 ==> Factor(i, j) <= 14778
    ensures AdaptiveGain(i, j) != 13108 && AdaptiveGain(i, j) != 13109
  {
  }

  lemma ModestError(i: nat, j: nat)
    requires i < 8 && j < 16 && Factor(i, j) <= 14778
    ensures ErrorOf(Factor(i, j)) <= 11420
  {
    hide Factor;
    ModestErrorOf(Factor(i, j));
  }

  lemma ModestErrorOf(f: Word16)
    requires 758 <= f <= 14778
    ensures ErrorOf(f) <= 11420
  {
    hide Log2, MultQ12, Wrap16;
    LogOfModestFactor(f);
    ModestErrorOfLog(Log2(f));
  }

  lemma ModestErrorOfLog(level: int)
    requires 454821 <= level <= 907800
    ensures Wrap16((MultQ12(24660, level - 786432) + 0x20) / 0x40) <= 11420
  {
    hide SplitFloor;
    SplitFloorIsFloor(24660, level - 786432, 0x1000);
  }

  lemma LogOfModestFactor(x: Word32)
    requires 758 <= x <= 14778
    ensures 454821 <= Log2(x) <= 907800
  {
    hide MultQ15, NormalisedTo15, LeadingZeros, Log2, Pow2, Cubic;
    LogOfFactor(x);
    LogUnfolded(x);
    var zeros := LeadingZeros(x);
    var acc := NormalisedTo15(x, zeros);
    ZerosOfFactor(x, zeros);
    if zeros == 17 {
      TwiceFactor(x, zeros);
    }
    CubicBound(acc, if zeros == 17 then 29556 else 0x7fff);
  }

  lemma TwiceFactor(x: Word32, zeros: nat)
    requires 758 <= x <= 14778 && zeros == LeadingZeros(x) == 17
    ensures NormalisedTo15(x, zeros) == 2 * x
  {
    assert Pow2(1) == 2;
  }
}
