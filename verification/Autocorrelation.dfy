/** The normalised autocorrelation of computeLP: a 64-bit path for loud frames, a 32-bit path for
    the others, and the lag window (section 3.2.1 of Recommendation G.729). */
module Autocorrelation {
  import opened FixedPoint
  import opened LagSums

  const WINDOW: nat := 240

  /** r(0) as the code normalises it: at least 1. */
  function Energy(w: seq<Word16>): (e: int)
    ensures e >= 1
  {
    EnergyGrows(w, 0, |w|);
    if Corr(w, 0, |w|) == 0 then 1 else Corr(w, 0, |w|)
  }

  /** A value scaled by 2^-shift, rounding down. */
  function Scaled(x: int, shift: int): int {
    if shift > 0 then x / Pow2(shift) else x * Pow2(-shift)
  }

  lemma HalfOfQuotient(x: int, p: int)
    requires p > 0
    ensures (x / p) / 2 == x / (2 * p)
  {
    var q, r := x / p, x % p;
    var h, b := q / 2, q % 2;
    assert x == q * p + r && q == 2 * h + b;
    assert q * p == h * (2 * p) + b * p by {
      assert (2 * h + b) * p == (2 * h) * p + b * p;
      assert (2 * h) * p == h * (2 * p);
    }
    assert 0 <= b * p + r < 2 * p by {
      assert b == 0 || b == 1;
    }
    QuotientIsUnique(x, 2 * p, h, b * p + r);
  }

  /** Dividing keeps a symmetric bound up to one unit. */
  lemma QuotientBound(x: int, e: int, p: int)
    requires p > 0 && -e <= x <= e
    ensures -(e / p) - 1 <= x / p <= e / p
  {
    DivMonotone(x, e, p);
    DivMonotone(-e, x, p);
    var q, r := e / p, e % p;
    assert -e == (-q) * p + -r;
    if r == 0 {
      QuotientIsUnique(-e, p, -q, 0);
    } else {
      assert (-q) * p + -r == (-q - 1) * p + (p - r);
      QuotientIsUnique(-e, p, -q - 1, p - r);
    }
  }

  lemma DivMonotone(x: int, y: int, p: int)
    requires p > 0 && x <= y
    ensures x / p <= y / p
  {
    var q, q' := x / p, y / p;
    assert (q - q') * p == q * p - q' * p;
    if q > q' {
      MulAtLeast(q - q', p);
    }
  }

  lemma ScaleBound(x: int, e: int, p: int)
    requires p > 0 && -e <= x <= e
    ensures -(e * p) <= x * p <= e * p
  {
    assert (e - x) * p >= 0 && (e + x) * p >= 0;
  }

  /** r(0) in 64 bits, then normalised to 31 bits by halving or by left shifts. */
  method NormalisedEnergy(w: seq<Word16>) returns (r0: Word32, shift: int)
    requires |w| == WINDOW
    ensures r0 == Scaled(Energy(w), shift)
    ensures 0x4000_0000 <= r0 <= MAX32
    ensures shift > 0 <==> Energy(w) > MAX32
  {
    var acc: Word64 := 0;
    for i := 0 to WINDOW
      invariant acc == Corr(w, 0, i)
    {
      EnergyBound(w, i + 1);
      EnergyGrows(w, i + 1, i + 1);
      var x: int := w[i];
      acc := acc + x * x;
    }
    if acc == 0 {
      acc := 1;
    }
    EnergyGrows(w, 0, WINDOW);
    r0, shift := Normalise(acc);
  }

  /** Halve while above 31 bits, or shift left to use all 31. */
  method Normalise(energy: Word64) returns (r0: Word32, shift: int)
    requires energy >= 1
    ensures r0 == Scaled(energy, shift)
    ensures 0x4000_0000 <= r0 <= MAX32
    ensures shift > 0 <==> energy > MAX32
  {
    if energy > MAX32 {
      var acc := energy / 2;
      shift := 1;
      while acc > MAX32
        invariant shift >= 1 && 0x4000_0000 <= acc && acc == energy / Pow2(shift)
        decreases acc
      {
        HalfOfQuotient(energy, Pow2(shift));
        acc := acc / 2;
        shift := shift + 1;
      }
      r0 := acc;
    } else {
      var zeros := CountLeadingZeros(energy);
      shift := -(zeros as int);
      r0 := energy * Pow2(zeros);
    }
  }

  /** Lags 1 to 10. The 32-bit accumulator of the fast path is typed as a 32-bit word, so every
      partial sum is proved to fit. */
  method NormalisedLags(w: seq<Word16>, r: array<Word32>, shift: int)
    requires |w| == WINDOW && r.Length == 11
    requires r[0] == Scaled(Energy(w), shift) && (shift > 0 <==> Energy(w) > MAX32)
    modifies r
    ensures r[0] == old(r[0])
    ensures forall i :: 1 <= i <= 10 ==> r[i] == Scaled(Corr(w, i, WINDOW), shift)
    ensures forall i :: 1 <= i <= 10 ==> -r[0] as int - 1 <= r[i] as int <= r[0]
  {
    for i := 1 to 11
      invariant r[0] == old(r[0])
      invariant forall k :: 1 <= k < i ==> r[k] == Scaled(Corr(w, k, WINDOW), shift)
      invariant forall k :: 1 <= k < i ==> -r[0] as int - 1 <= r[k] as int <= r[0]
    {
      ScaledLagBound(w, i, shift);
      if shift > 0 {
        var acc := LagSum64(w, i);
        r[i] := acc / Pow2(shift);
      } else {
        var acc := LagSum32(w, i);
        r[i] := acc * Pow2(-shift);
      }
    }
  }

  lemma ScaledLagBound(w: seq<Word16>, i: nat, shift: int)
    requires |w| == WINDOW && i <= WINDOW
    ensures -Scaled(Energy(w), shift) - 1 <= Scaled(Corr(w, i, WINDOW), shift) <= Scaled(Energy(w), shift)
  {
    hide Corr;
    PartialSumBound(w, i, WINDOW);
    if shift > 0 {
      QuotientBound(Corr(w, i, WINDOW), Energy(w), Pow2(shift));
    } else {
      ScaleBound(Corr(w, i, WINDOW), Energy(w), Pow2(-shift));
    }
  }

  method LagSum64(w: seq<Word16>, i: nat) returns (acc: Word64)
    requires |w| == WINDOW && 1 <= i <= 10
    ensures acc == Corr(w, i, WINDOW)
  {
    acc := 0;
    for j := i to WINDOW
      invariant acc == Corr(w, i, j)
    {
      PartialSumBound(w, i, j + 1);
      EnergyBound(w, WINDOW);
      var x: int, y: int := w[j], w[j - i];
      acc := acc + x * y;
    }
  }

  method LagSum32(w: seq<Word16>, i: nat) returns (acc: Word32)
    requires |w| == WINDOW && 1 <= i <= 10 && Energy(w) <= MAX32
    ensures acc == Corr(w, i, WINDOW)
  {
    acc := 0;
    for j := i to WINDOW
      invariant acc == Corr(w, i, j)
    {
      PartialSumBound(w, i, j + 1);
      var x: int, y: int := w[j], w[j - i];
      acc := acc + x * y;
    }
  }

  /** The lag window in Q15; entry 0 is not used. */
  function LagWindow(i: nat): (c: Word16)
    requires i <= 10
    ensures i >= 1 ==> 29321 <= c <= 32728
  {
    match i
    case 0 => 32767 case 1 => 32728 case 2 => 32619 case 3 => 32438 case 4 => 32187 case 5 => 31867
    case 6 => 31480 case 7 => 31029 case 8 => 30517 case 9 => 29946 case _ => 29321
  }

  /** The autocorrelation handed to the Levinson-Durbin recursion. */
  method Autocorrelation(w: seq<Word16>) returns (r: array<Word32>, shift: int)
    requires |w| == WINDOW
    ensures r.Length == 11
    ensures r[0] == Scaled(Energy(w), shift) && 0x4000_0000 <= r[0] <= MAX32
    ensures shift > 0 <==> Energy(w) > MAX32
    ensures forall i :: 1 <= i <= 10 ==> r[i] == (LagWindow(i) * Scaled(Corr(w, i, WINDOW), shift) + 0x4000) / 0x8000
    ensures forall i :: 1 <= i <= 10 ==> -(r[0] as int) <= r[i] as int <= r[0]
  {
    r := new Word32[11];
    var r0, s := NormalisedEnergy(w);
    r[0] := r0;
    shift := s;
    NormalisedLags(w, r, shift);
    hide Corr, Scaled;
    for i := 1 to 11
      invariant r[0] == r0
      invariant forall k :: i <= k <= 10 ==> r[k] == Scaled(Corr(w, k, WINDOW), shift) && -r0 as int - 1 <= r[k] as int <= r0
      invariant forall k :: 1 <= k < i ==> r[k] == (LagWindow(k) * Scaled(Corr(w, k, WINDOW), shift) + 0x4000) / 0x8000
      invariant forall k :: 1 <= k < i ==> -r0 as int <= r[k] as int <= r0
    {
      SplitRoundIsRound(LagWindow(i), r[i], 0x8000);
      WindowShrinks(LagWindow(i), r[i], r0);
      r[i] := MultP15(LagWindow(i), r[i]);
    }
  }

  lemma WindowShrinks(c: int, x: int, e: int)
    requires 0 <= c <= 32728 && -e - 1 <= x <= e && 0x4000_0000 <= e
    ensures -e <= (c * x + 0x4000) / 0x8000 <= e
  {
    ProductAtMost(c, x, e);
    ProductAtMost(c, -x, e + 1);
    assert c * -x == -(c * x);
  }

  lemma ProductAtMost(c: int, x: int, e: int)
    requires 0 <= c <= 32728 && x <= e && 0 <= e
    ensures c * x <= 32728 * e
  {
    assert c * (e - x) >= 0;
    assert (32728 - c) * e >= 0;
  }
}
