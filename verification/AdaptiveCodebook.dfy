/** The adaptive codebook: interpolation of past excitation at a fractional delay, the encoder's
    search, and the decoder's reconstruction (sections 3.7 and 4.1.3 of Recommendation G.729). */
module AdaptiveCodebook {
  import opened FixedPoint
  import opened BackwardFilter

  const SUBFRAME: nat := 40
  const PAST: nat := 154
  const MAX_DELAY: int := 143

  // ----- the interpolation filter -------------------------------------------------------

  /** The interpolation filter b30 in Q15. */
  function B30(i: nat): int
    requires i <= 30
  {
    match i
    case 0 => 29443 case 1 => 25207 case 2 => 14701 case 3 => 3143 case 4 => -4402 case 5 => -5850
    case 6 => -2783 case 7 => 1211 case 8 => 3130 case 9 => 2259 case 10 => 0 case 11 => -1652
    case 12 => -1666 case 13 => -464 case 14 => 756 case 15 => 1099 case 16 => 550 case 17 => -245
    case 18 => -634 case 19 => -451 case 20 => 0 case 21 => 308 case 22 => 296 case 23 => 78
    case 24 => -120 case 25 => -165 case 26 => -79 case 27 => 34 case 28 => 91 case 29 => 70
    case _ => 0
  }

  /** The filter has both its halves inside the excitation e around position c. */
  predicate Centred(e: seq<Word16>, c: int) {
    9 <= c && c + 10 < |e|
  }

  /** The first m pairs of products around position c, for fraction t of a third. */
  function Acc(e: seq<Word16>, c: nat, t: nat, m: nat): int
    requires Centred(e, c) && t <= 2 && m <= 10
  {
    if m == 0 then 0
    else
      Acc(e, c, t, m - 1) + e[c - (m - 1)] as int * B30(t + 3 * (m - 1))
        + e[c + m] as int * B30(3 - t + 3 * (m - 1))
  }

  /** The filter's total weight up to pair m. */
  function Weight(t: nat, m: nat): int
    requires t <= 2 && m <= 10
  {
    if m == 0 then 0 else Weight(t, m - 1) + Abs(B30(t + 3 * (m - 1))) + Abs(B30(3 - t + 3 * (m - 1)))
  }

  lemma WeightTotal(t: nat)
    requires t <= 2
    ensures Weight(t, 10) <= 59398
  {
    WeightOfFive(t);
    match t
    case 0 => assert Weight(0, 7) == 52919; assert Weight(0, 10) == 53535;
    case 1 => assert Weight(1, 7) == 58619; assert Weight(1, 10) == 59398;
    case _ => assert Weight(2, 7) == 58619; assert Weight(2, 10) == 59398;
  }

  lemma WeightOfFive(t: nat)
    requires t <= 2
    ensures Weight(t, 5) == if t == 0 then 50244 else 57373
  {
    match t
    case 0 => assert Weight(0, 3) == 43554;
    case 1 => assert Weight(1, 3) == 54501;
    case _ => assert Weight(2, 3) == 54501;
  }

  lemma {:induction false} WeightGrows(t: nat, m: nat)
    requires t <= 2 && m <= 10
    ensures 0 <= Weight(t, m) <= Weight(t, 10)
    decreases 10 - m
  {
    WeightNonNegative(t, m);
    if m < 10 {
      WeightGrows(t, m + 1);
    }
  }

  lemma WeightNonNegative(t: nat, m: nat)
    requires t <= 2 && m <= 10
    ensures 0 <= Weight(t, m)
  {
    hide B30;
  }

  /** After every product the accumulator is at most the weight so far times the largest sample. */
  lemma {:induction false} AccBound(e: seq<Word16>, c: nat, t: nat, m: nat)
    requires Centred(e, c) && t <= 2 && m <= 10
    ensures -0x8000 * Weight(t, m) <= Acc(e, c, t, m) <= 0x8000 * Weight(t, m)
    ensures m < 10 ==> -0x8000 * Weight(t, m + 1) <= Acc(e, c, t, m) + e[c - m] as int * B30(t + 3 * m) <= 0x8000 * Weight(t, m + 1)
    decreases m
  {
    hide B30, Acc, Weight, Abs;
    if m == 0 {
      EmptyAcc(e, c, t);
    } else {
      AccBound(e, c, t, m - 1);
      AccStep(e, c, t, m - 1);
      WeightStep(t, m - 1);
      ProductRange(e[c - (m - 1)], B30(t + 3 * (m - 1)), 0x8000);
      ProductRange(e[c + m], B30(3 - t + 3 * (m - 1)), 0x8000);
    }
    if m < 10 {
      WeightStep(t, m);
      ProductRange(e[c - m], B30(t + 3 * m), 0x8000);
    }
  }

  lemma WeightStep(t: nat, m: nat)
    requires t <= 2 && m < 10
    ensures Weight(t, m + 1) == Weight(t, m) + Abs(B30(t + 3 * m)) + Abs(B30(3 - t + 3 * m))
    ensures m == 0 ==> Weight(t, m) == 0
  {
  }

  /** The 32-bit accumulator of the interpolation never overflows, for any 16-bit excitation. */
  lemma AccFits(e: seq<Word16>, c: nat, t: nat, m: nat)
    requires Centred(e, c) && t <= 2 && m <= 10
    ensures -0x8000 * 59398 <= Acc(e, c, t, m) <= 0x8000 * 59398
    ensures m < 10 ==> -0x8000 * 59398 <= Acc(e, c, t, m) + e[c - m] as int * B30(t + 3 * m) <= 0x8000 * 59398
  {
    AccBound(e, c, t, m);
    WeightTotal(t);
    WeightGrows(t, m);
    if m < 10 {
      WeightGrows(t, m + 1);
    }
  }

  /** One interpolated sample. */
  function Sample(e: seq<Word16>, c: nat, t: nat): Word16
    requires Centred(e, c) && t <= 2
  {
    Saturate16((Acc(e, c, t, 10) + 0x4000) / 0x8000)
  }

  // ----- the adaptive codebook vector ---------------------------------------------------

  /** Delays whose reads stay inside a past of 154 samples and strictly before the sample written. */
  predicate ReachableDelay(past: seq<Word16>, k: int) {
    |past| >= PAST && 11 <= k <= 145
  }

  /** The past followed by the first n interpolated samples at delay k + t/3; a delay shorter than
      the subframe feeds on the samples just produced. */
  function Extended(past: seq<Word16>, k: int, t: nat, n: nat): (e: seq<Word16>)
    requires ReachableDelay(past, k) && t <= 2 && n <= SUBFRAME
    ensures |e| == |past| + n && past <= e
  {
    if n == 0 then past
    else
      var e := Extended(past, k, t, n - 1);
      e + [Sample(e, |past| + (n - 1) - k, t)]
  }

  /** Whole part of the delay for the filter: a fraction of +1/3 is 1 - 2/3. */
  function FilterDelay(T: int, frac: int): int {
    if frac == 1 then T + 1 else T
  }

  function FilterPhase(frac: int): nat
    requires -1 <= frac <= 1
  {
    if frac == 1 then 2 else -frac
  }

  predicate ValidDelay(T: int, frac: int) {
    19 <= T <= 144 && -1 <= frac <= 1
  }

  /** The adaptive codebook vector at delay T + frac/3: it depends on the past excitation alone. */
  function AdaptiveVector(past: seq<Word16>, T: int, frac: int): (v: seq<Word16>)
    requires |past| >= PAST && ValidDelay(T, frac)
    ensures |v| == SUBFRAME
  {
    Extended(past, FilterDelay(T, frac), FilterPhase(frac), SUBFRAME)[|past|..]
  }

  /** The encoder's interpolation, written over the samples at base. */
  method GenerateAdaptativeCodebookVector(exc: array<Word16>, base: nat, intPitchDelay: int, fraction: int)
    requires base >= PAST && base + SUBFRAME <= exc.Length && ValidDelay(intPitchDelay, fraction)
    modifies exc
    ensures exc[base..base + SUBFRAME] == AdaptiveVector(old(exc[..base]), intPitchDelay, fraction)
    ensures exc[..base] == old(exc[..base]) && exc[base + SUBFRAME..] == old(exc[base + SUBFRAME..])
  {
    hide Acc, Sample;
    var delay, fracPitchDelay := intPitchDelay, -fraction;
    if fracPitchDelay < 0 {
      delay := delay + 1;
      fracPitchDelay := 2;
    }
    ghost var past := exc[..base];
    var delayed := base - delay;
    for n := 0 to SUBFRAME
      invariant exc[..base + n] == Extended(past, delay, fracPitchDelay, n)
      invariant exc[base + SUBFRAME..] == old(exc[base + SUBFRAME..])
    {
      ghost var e := exc[..base + n];
      var sample := Interpolate(exc, delayed + n, fracPitchDelay, base + n);
      exc[base + n] := sample;
      assert exc[..base + n + 1] == e + [sample];
    }
    assert exc[..base + SUBFRAME][base..] == exc[base..base + SUBFRAME];
    assert exc[..base] == exc[..base + SUBFRAME][..base];
  }

  /** The accumulation both sides run: samples n-i with b30[t], b30[t+3], ... and samples n+1+i with
      b30[3-t], b30[6-t], ... Every read is below limit, the sample about to be written. */
  method Interpolate(exc: array<Word16>, c: nat, t: nat, limit: nat) returns (sample: Word16)
    requires limit <= exc.Length && Centred(exc[..limit], c) && t <= 2
    ensures sample == Sample(exc[..limit], c, t)
  {
    hide B30;
    var acc: Word32 := 0;
    var j := 0;
    EmptyAcc(exc[..limit], c, t);
    for i := 0 to 10
      invariant j == 3 * i
      invariant acc == Acc(exc[..limit], c, t, i)
    {
      AccFits(exc[..limit], c, t, i);
      AccFits(exc[..limit], c, t, i + 1);
      AccStep(exc[..limit], c, t, i);
      var before: int, after: int := exc[c - i], exc[c + 1 + i];
      acc := acc + before * B30(t + j);
      acc := acc + after * B30(3 - t + j);
      j := j + 3;
    }
    AccFits(exc[..limit], c, t, 10);
    sample := Saturate16((acc + 0x4000) / 0x8000);
  }

  lemma EmptyAcc(e: seq<Word16>, c: nat, t: nat)
    requires Centred(e, c) && t <= 2
    ensures Acc(e, c, t, 0) == 0
  {
  }

  lemma AccStep(e: seq<Word16>, c: nat, t: nat, i: nat)
    requires Centred(e, c) && t <= 2 && i < 10
    ensures Acc(e, c, t, i + 1) == Acc(e, c, t, i) + e[c - i] as int * B30(t + 3 * i) + e[c + 1 + i] as int * B30(3 - t + 3 * i)
  {
  }

  // ----- the vector is the past at the fractional delay ---------------------------------

  /** Samples from..from+m-1 of e, each weighted by the filter at its distance from the position at, in
      thirds of a sample. */
  function Windowed(e: seq<Word16>, at: int, from: int, m: nat): int
    requires 0 <= from && from + m <= |e| && (m > 0 ==> at - 30 <= 3 * from && 3 * (from + m - 1) <= at + 30)
  {
    if m == 0 then 0 else Windowed(e, at, from, m - 1) + e[from + m - 1] as int * B30(Abs(3 * (from + m - 1) - at))
  }

  lemma {:induction false} WindowedFromFront(e: seq<Word16>, at: int, from: int, m: nat)
    requires 0 <= from && from + m <= |e| && m > 0 && at - 30 <= 3 * from && 3 * (from + m - 1) <= at + 30
    ensures Windowed(e, at, from, m) == e[from] as int * B30(Abs(3 * from - at)) + Windowed(e, at, from + 1, m - 1)
    decreases m
  {
    hide B30, Abs;
    if m > 1 {
      WindowedFromFront(e, at, from, m - 1);
    }
  }

  /** The pairs of products are the twenty samples around the position, each at its own distance. */
  lemma {:induction false} AccIsWindowed(e: seq<Word16>, c: nat, t: nat, m: nat)
    requires Centred(e, c) && t <= 2 && m <= 10
    ensures Acc(e, c, t, m) == Windowed(e, 3 * c + t, c + 1 - m, 2 * m)
    decreases m
  {
    hide B30, Acc, Abs, Windowed;
    var at := 3 * c + t;
    if m > 0 {
      var before, after := c - (m - 1), c + m;
      AccIsWindowed(e, c, t, m - 1);
      AccStep(e, c, t, m - 1);
      WindowedFromFront(e, at, before, 2 * m);
      WindowedLast(e, at, before + 1, 2 * m - 1);
      Distances(at, before, after, t + 3 * (m - 1), 3 - t + 3 * (m - 1));
    } else {
      EmptyAcc(e, c, t);
      NothingWindowed(e, at, c + 1);
    }
  }

  lemma NothingWindowed(e: seq<Word16>, at: int, from: int)
    requires 0 <= from <= |e|
    ensures Windowed(e, at, from, 0) == 0
  {
  }

  lemma WindowedLast(e: seq<Word16>, at: int, from: int, m: nat)
    requires 0 <= from && from + m <= |e| && m > 0 && at - 30 <= 3 * from && 3 * (from + m - 1) <= at + 30
    ensures Windowed(e, at, from, m) == Windowed(e, at, from, m - 1) + e[from + m - 1] as int * B30(Abs(3 * (from + m - 1) - at))
  {
    hide B30, Abs;
  }

  lemma Distances(at: int, before: int, after: int, i: int, j: int)
    requires at - 3 * before == i >= 0 && 3 * after - at == j >= 0
    ensures Abs(3 * before - at) == i && Abs(3 * after - at) == j
  {
  }

  /** The filter's whole delay and phase stand for T + frac/3. */
  lemma DelayInThirds(T: int, frac: int)
    requires -1 <= frac <= 1
    ensures 3 * FilterDelay(T, frac) - FilterPhase(frac) == 3 * T + frac && 0 <= FilterPhase(frac) <= 2
  {
  }

  /** Sample n of the vector interpolates the past and the vector's own earlier samples at the position
      T + frac/3 samples back: twenty samples, ten on either side, weighted by the filter at their distance from it. */
  lemma VectorInterpolates(past: seq<Word16>, T: int, frac: int, n: nat)
    requires |past| >= PAST && ValidDelay(T, frac) && n < SUBFRAME
    ensures var v := AdaptiveVector(past, T, frac); var e := past + v[..n]; var at := 3 * (|past| + n) - (3 * T + frac);
      && 0 <= at / 3 - 9 && at / 3 + 10 < |e|
      && v[n] == Saturate16((Windowed(e, at, at / 3 - 9, 20) + 0x4000) / 0x8000)
  {
    hide FilterDelay, FilterPhase, Acc, Windowed, Sample, Extended, AdaptiveVector;
    DelayInThirds(T, frac);
    ReachesBack(T, frac);
    var k, t := FilterDelay(T, frac), FilterPhase(frac);
    SoFar(past, T, frac, n);
    NextSample(past, k, t, n);
    PositionOf(|past| + n - k, t, 3 * (|past| + n) - (3 * T + frac));
    SampleIsWindowed(Extended(past, k, t, n), |past| + n - k, t);
  }

  lemma PositionOf(c: int, t: int, at: int)
    requires at == 3 * c + t && 0 <= t <= 2
    ensures at / 3 == c
  {
  }

  lemma SoFar(past: seq<Word16>, T: int, frac: int, n: nat)
    requires |past| >= PAST && ValidDelay(T, frac) && n < SUBFRAME
    ensures var v, k, t := AdaptiveVector(past, T, frac), FilterDelay(T, frac), FilterPhase(frac);
      && 11 <= k <= 145 && t <= 2
      && past + v[..n] == Extended(past, k, t, n) && v[n] == Extended(past, k, t, n + 1)[|past| + n]
  {
    var k, t := FilterDelay(T, frac), FilterPhase(frac);
    hide Extended;
    ExtendedPrefix(past, k, t, n);
    ExtendedPrefix(past, k, t, n + 1);
    var full := Extended(past, k, t, SUBFRAME);
    assert past + full[|past|..][..n] == full[..|past| + n];
  }

  lemma ReachesBack(T: int, frac: int)
    requires ValidDelay(T, frac)
    ensures 19 <= FilterDelay(T, frac) <= 145
  {
  }

  lemma NextSample(past: seq<Word16>, k: int, t: nat, n: nat)
    requires ReachableDelay(past, k) && t <= 2 && n < SUBFRAME
    ensures Extended(past, k, t, n + 1)[|past| + n] == Sample(Extended(past, k, t, n), |past| + n - k, t)
  {
    hide Sample;
  }

  lemma SampleIsWindowed(e: seq<Word16>, c: nat, t: nat)
    requires Centred(e, c) && t <= 2
    ensures Sample(e, c, t) == Saturate16((Windowed(e, 3 * c + t, c - 9, 20) + 0x4000) / 0x8000)
  {
    hide Acc, Windowed;
    AccIsWindowed(e, c, t, 10);
  }

  /** Extending further keeps what is there. */
  lemma {:induction false} ExtendedPrefix(past: seq<Word16>, k: int, t: nat, n: nat)
    requires ReachableDelay(past, k) && t <= 2 && n <= SUBFRAME
    ensures Extended(past, k, t, n) == Extended(past, k, t, SUBFRAME)[..|past| + n]
    decreases SUBFRAME - n
  {
    hide Sample;
    if n < SUBFRAME {
      ExtendedPrefix(past, k, t, n + 1);
      assert Extended(past, k, t, n) == Extended(past, k, t, n + 1)[..|past| + n];
    }
  }

  /** One sample x, p samples back, in a silent past is heard as the filter's value at its distance from the
      position, within ten samples of it, until the vector feeds on itself. */
  lemma ImpulseResponse(past: seq<Word16>, x: Word16, p: nat, T: int, frac: int, n: nat)
    requires |past| >= PAST && ValidDelay(T, frac) && n < SUBFRAME && 0 < p <= |past|
    requires past[|past| - p] == x && forall k :: 0 <= k < |past| && k != |past| - p ==> past[k] == 0
    requires 3 * (n + 10) < 3 * T + frac
    ensures var d := 3 * (n + p) - (3 * T + frac);
      AdaptiveVector(past, T, frac)[n] == Saturate16(((if Abs(d) <= 30 then x as int * B30(Abs(d)) else 0) + 0x4000) / 0x8000)
  {
    hide AdaptiveVector, Windowed;
    VectorInterpolates(past, T, frac, n);
    var e := past + AdaptiveVector(past, T, frac)[..n];
    var at := 3 * (|past| + n) - (3 * T + frac);
    forall k | at / 3 - 9 <= k < at / 3 + 11 && k != |past| - p
      ensures e[k] == 0
    {
    }
    WindowedImpulse(e, at, at / 3 - 9, 20, |past| - p);
    OutsideWindow(at, |past| - p);
    hide B30;
  }

  lemma {:induction false} WindowedImpulse(e: seq<Word16>, at: int, from: int, m: nat, q: nat)
    requires 0 <= from && from + m <= |e| && (m > 0 ==> at - 30 <= 3 * from && 3 * (from + m - 1) <= at + 30) && q < |e|
    requires forall k :: from <= k < from + m && k != q ==> e[k] == 0
    ensures Windowed(e, at, from, m) == if from <= q < from + m then e[q] as int * B30(Abs(3 * q - at)) else 0
    decreases m
  {
    hide B30, Abs;
    if m > 0 {
      WindowedImpulse(e, at, from, m - 1, q);
    }
  }

  /** A sample outside the window has no weight. */
  lemma OutsideWindow(at: int, q: int)
    ensures Abs(3 * q - at) <= 30 && !(at / 3 - 9 <= q < at / 3 + 11) ==> B30(Abs(3 * q - at)) == 0
  {
  }

  // ----- pitch delay code words ---------------------------------------------------------

  /** P1: thirds up to a delay of 85, whole delays above. */
  function FirstCodeword(T: int, frac: int): int {
    if T <= 85 then 3 * T - 58 + frac else T + 112
  }

  /** P2: thirds from the low end of the second window. */
  function SecondCodeword(T: int, frac: int, delayMin: int): int {
    3 * (T - delayMin) + frac + 2
  }

  /** Multiplication by 10923 in Q15, the code's division by 3. */
  function ThirdQ15(a: int): int {
    (a * 10923) / 0x8000
  }

  lemma ThirdIsExact(a: int)
    requires 0 <= a <= 300
    ensures ThirdQ15(a) == a / 3
  {
    var q, r := a / 3, a % 3;
    assert a * 10923 == 0x8000 * q + (q + 10923 * r);
  }

  /** The decoder's (delay, fraction) for P1. */
  function DecodeFirst(index: int): (int, int) {
    if index < 197 then
      var T := ThirdQ15(index + 2) + 19;
      (T, index - 3 * T + 58)
    else (index - 112, 0)
  }

  /** The low end of the second window around the first subframe's delay, as the decoder finds it. */
  function SecondWindowMin(T1: int): int {
    if T1 - 5 < 20 then 20 else if T1 - 5 > 134 then 134 else T1 - 5
  }

  /** The decoder's (delay, fraction) for P2. */
  function DecodeSecond(index: int, T1: int): (int, int) {
    var offset := ThirdQ15(index + 2) - 1;
    (offset + SecondWindowMin(T1), index - 3 * offset - 2)
  }

  /** The window of the first closed-loop search around the open-loop delay. */
  method FirstWindow(openLoop: int) returns (delayMin: int, delayMax: int)
    requires 20 <= openLoop <= MAX_DELAY
    ensures 20 <= delayMin && delayMax == delayMin + 6 <= MAX_DELAY
    ensures delayMin <= openLoop <= delayMax
  {
    delayMin := openLoop - 3;
    if delayMin < 20 {
      delayMin := 20;
    }
    delayMax := delayMin + 6;
    if delayMax > MAX_DELAY {
      delayMax := MAX_DELAY;
      delayMin := MAX_DELAY - 6;
    }
  }

  /** The window of the second search around the first subframe's delay. */
  method SecondWindow(T: int) returns (delayMin: int, delayMax: int)
    requires 20 <= T <= MAX_DELAY
    ensures 20 <= delayMin && delayMax == delayMin + 9 <= MAX_DELAY
    ensures delayMin <= T <= delayMax
    ensures delayMin == SecondWindowMin(T)
  {
    delayMin := T - 5;
    if delayMin < 20 {
      delayMin := 20;
    }
    delayMax := delayMin + 9;
    if delayMax > MAX_DELAY {
      delayMax := MAX_DELAY;
      delayMin := MAX_DELAY - 9;
    }
  }

  /** What the first subframe can choose: no fraction from a delay of 85 up. */
  predicate FirstChoice(T: int, frac: int) {
    20 <= T <= MAX_DELAY && -1 <= frac <= 1 && (T >= 85 ==> frac == 0)
  }

  /** P1 takes 8 bits and gives the delay back; and every 8-bit P1 decodes to a delay and fraction
      that it encodes. */
  lemma FirstCodewordRoundTrip(T: int, frac: int, index: int)
    requires FirstChoice(T, frac) && 0 <= index < 256
    ensures 1 <= FirstCodeword(T, frac) < 256
    ensures DecodeFirst(FirstCodeword(T, frac)) == (T, frac)
    ensures FirstCodeword(DecodeFirst(index).0, DecodeFirst(index).1) == index
    ensures 19 <= DecodeFirst(index).0 <= MAX_DELAY && -1 <= DecodeFirst(index).1 <= 1
  {
    hide ThirdQ15;
    if T <= 85 {
      ThirdOfCount(T - 19, frac + 1);
    }
    if index < 197 {
      ThirdOfCount((index + 2) / 3, (index + 2) % 3);
    }
  }

  /** P2 takes 5 bits and, given the first subframe's delay, gives the delay back; and every 5-bit P2
      decodes to a delay and fraction that it encodes. */
  lemma SecondCodewordRoundTrip(T1: int, T: int, frac: int, index: int)
    requires 19 <= T1 <= 144 && SecondWindowMin(T1) <= T <= SecondWindowMin(T1) + 9 && -1 <= frac <= 1
    requires 0 <= index < 32
    ensures 1 <= SecondCodeword(T, frac, SecondWindowMin(T1)) < 32
    ensures DecodeSecond(SecondCodeword(T, frac, SecondWindowMin(T1)), T1) == (T, frac)
    ensures SecondCodeword(DecodeSecond(index, T1).0, DecodeSecond(index, T1).1, SecondWindowMin(T1)) == index
    ensures 19 <= DecodeSecond(index, T1).0 <= 144 && -1 <= DecodeSecond(index, T1).1 <= 1
  {
    hide ThirdQ15, SecondWindowMin;
    WindowMinRange(T1);
    ThirdOfCount(T - SecondWindowMin(T1) + 1, frac + 1);
    ThirdOfCount((index + 2) / 3, (index + 2) % 3);
  }

  lemma WindowMinRange(T1: int)
    ensures 20 <= SecondWindowMin(T1) <= 134
  {
  }

  lemma ThirdOfCount(k: int, r: int)
    requires 0 <= k <= 99 && 0 <= r <= 2
    ensures ThirdQ15(3 * k + r) == k
  {
    ThirdIsExact(3 * k + r);
  }

  /** Code words grow with the delay in thirds; where fractions are coded they count the thirds, P1 from 19 1/3 and
      P2 from two thirds below its window. */
  lemma CodewordsCountThirds(T: int, frac: int, T': int, frac': int, delayMin: int)
    requires FirstChoice(T, frac) && FirstChoice(T', frac')
    ensures 3 * T + frac < 3 * T' + frac' ==> FirstCodeword(T, frac) < FirstCodeword(T', frac')
    ensures T <= 85 ==> FirstCodeword(T, frac) == (3 * T + frac) - (3 * 19 + 1)
    ensures SecondCodeword(T, frac, delayMin) == (3 * T + frac) - (3 * delayMin - 2)
    ensures DecodeFirst(0) == (19, 1)
  {
    ThirdIsExact(2);
  }

  // ----- the encoder's search -----------------------------------------------------------

  /** Correlation of the samples from start on with the backward filtered target, in wrapping 32-bit
      arithmetic. */
  function Correlation(e: seq<Word16>, start: int, b: seq<Word32>, m: nat): Word32
    requires 0 <= start && start + m <= |e| && m <= |b|
  {
    if m == 0 then 0
    else Wrap32(Correlation(e, start, b, m - 1) + MultiplyQ12(e[start + m - 1], b[m - 1]))
  }

  /** The exact sum behind it. */
  function Products(e: seq<Word16>, b: seq<Word32>, m: nat): int
    requires m <= |e| && m <= |b|
  {
    if m == 0 then 0 else Products(e, b, m - 1) + e[m - 1] as int * b[m - 1] as int / 0x1000
  }

  lemma {:induction false} CorrelationIsWrapped(e: seq<Word16>, b: seq<Word32>, m: nat)
    requires m <= |e| && m <= |b|
    ensures Correlation(e, 0, b, m) == Wrap32(Products(e, b, m))
    ensures 0x1000 * Products(e, b, m) <= Inner(e, b, m) <= 0x1000 * Products(e, b, m) + 0xfff * m
    decreases m
  {
    hide MultiplyQ12, Wrap32;
    if m > 0 {
      CorrelationIsWrapped(e, b, m - 1);
      var x := e[m - 1] as int * b[m - 1] as int / 0x1000;
      MultiplyQ12IsFloor(e[m - 1], b[m - 1]);
      NestedWrap32(Products(e, b, m - 1), Wrap32(x));
      NestedWrap32(x, Products(e, b, m - 1));
    } else {
      NoWrap32(0);
    }
  }

  /** The correlation the search compares is, up to the 40 products' fractions and to wrapping at 32 bits, the target
      against the candidate filtered by the impulse response. */
  lemma CorrelationMatchesTarget(t: seq<Word16>, h: seq<Word16>, e: seq<Word16>) returns (sum: int)
    requires SumsFit(t, h) && |t| == |e| == SUBFRAME
    ensures Correlation(e, 0, Backward(t, h), SUBFRAME) == Wrap32(sum)
    ensures 0x1000 * sum <= Inner(t, Filter(h, e), SUBFRAME) <= 0x1000 * sum + 0xfff * SUBFRAME
  {
    sum := Products(e, Backward(t, h), SUBFRAME);
    CorrelationIsWrapped(e, Backward(t, h), SUBFRAME);
    BackwardIsAdjoint(t, h, e);
  }

  /** At a whole delay the candidate is the stretch of excitation that many samples back. */
  lemma DelayedMatchesTarget(t: seq<Word16>, h: seq<Word16>, e: seq<Word16>, base: nat, i: nat) returns (sum: int)
    requires SumsFit(t, h) && |t| == SUBFRAME && i <= base && base + SUBFRAME <= |e|
    ensures DelayedCorrelation(e, base, i, Backward(t, h)) == Wrap32(sum)
    ensures 0x1000 * sum <= Inner(t, Filter(h, e[base - i..base - i + SUBFRAME]), SUBFRAME) <= 0x1000 * sum + 0xfff * SUBFRAME
  {
    hide Correlation, Filter, Inner, Backward, SumsFit, Wrap32;
    CorrelationOfSlice(e, base - i, Backward(t, h), SUBFRAME);
    sum := CorrelationMatchesTarget(t, h, e[base - i..base - i + SUBFRAME]);
  }

  method Correlate(exc: array<Word16>, start: nat, b: seq<Word32>) returns (c: Word32)
    requires start + SUBFRAME <= exc.Length && |b| == SUBFRAME
    ensures c == Correlation(exc[..], start, b, SUBFRAME) == Correlation(exc[start..start + SUBFRAME], 0, b, SUBFRAME)
  {
    c := 0;
    for j := 0 to SUBFRAME
      invariant c == Correlation(exc[..], start, b, j)
    {
      c := Wrap32(c + MultiplyQ12(exc[start + j], b[j]));
    }
    assert exc[..][start..start + SUBFRAME] == exc[start..start + SUBFRAME];
    CorrelationOfSlice(exc[..], start, b, SUBFRAME);
  }

  /** Correlation of the excitation delayed by i, reading on into the samples at base when i < 40. */
  function DelayedCorrelation(e: seq<Word16>, base: nat, i: int, b: seq<Word32>): Word32
    requires base + SUBFRAME <= |e| && |b| == SUBFRAME && 0 <= i <= base
  {
    Correlation(e, base - i, b, SUBFRAME)
  }

  /** T is the first whole delay of the window with the largest correlation. */
  ghost predicate BestDelay(e: seq<Word16>, base: nat, b: seq<Word32>, delayMin: int, delayMax: int, T: int)
    requires base + SUBFRAME <= |e| && |b| == SUBFRAME && 20 <= delayMin <= delayMax <= MAX_DELAY <= base
  {
    && delayMin <= T <= delayMax
    && (forall i :: delayMin <= i <= delayMax ==> DelayedCorrelation(e, base, i, b) <= DelayedCorrelation(e, base, T, b))
    && (forall i :: delayMin <= i < T ==> DelayedCorrelation(e, base, i, b) < DelayedCorrelation(e, base, T, b))
  }

  /** The whole-delay search. The C variable is set when a correlation first exceeds the 32-bit minimum;
      the model starts it at the low end of the window, where the maximum is when none does. */
  method SearchDelay(exc: array<Word16>, base: nat, delayMin: int, delayMax: int, b: seq<Word32>) returns (T: int)
    requires base >= PAST && base + SUBFRAME <= exc.Length && |b| == SUBFRAME
    requires 20 <= delayMin <= delayMax <= MAX_DELAY
    ensures BestDelay(exc[..], base, b, delayMin, delayMax, T)
  {
    hide Correlation;
    T := delayMin;
    var correlationMax: Word32 := MIN32;
    for i := delayMin to delayMax + 1
      invariant delayMin <= T <= delayMax && T <= i
      invariant i == delayMin ==> T == delayMin && correlationMax == MIN32
      invariant i > delayMin ==> T < i && correlationMax == DelayedCorrelation(exc[..], base, T, b)
      invariant forall k :: delayMin <= k < i ==> DelayedCorrelation(exc[..], base, k, b) <= correlationMax
      invariant forall k :: delayMin <= k < T ==> DelayedCorrelation(exc[..], base, k, b) < correlationMax
    {
      var correlation := Correlate(exc, base - i, b);
      if correlation > correlationMax {
        correlationMax := correlation;
        T := i;
      }
    }
  }

  /** How well the vector at a delay and fraction correlates. */
  function Trial(past: seq<Word16>, T: int, frac: int, b: seq<Word32>): Word32
    requires |past| >= PAST && ValidDelay(T, frac) && |b| == SUBFRAME
  {
    Correlation(AdaptiveVector(past, T, frac), 0, b, SUBFRAME)
  }

  /** The fraction whose vector correlates best; 0 before -1 before +1 on ties. */
  function BestFraction(past: seq<Word16>, T: int, b: seq<Word32>): (frac: int)
    requires |past| >= PAST && 20 <= T <= MAX_DELAY && |b| == SUBFRAME
    ensures -1 <= frac <= 1 && forall f :: -1 <= f <= 1 ==> Trial(past, T, f, b) <= Trial(past, T, frac, b)
    ensures frac != 0 ==> Trial(past, T, 0, b) < Trial(past, T, frac, b)
    ensures frac == 1 ==> Trial(past, T, -1, b) < Trial(past, T, 1, b)
  {
    var zero, below, above := Trial(past, T, 0, b), Trial(past, T, -1, b), Trial(past, T, 1, b);
    if above > zero && above > below then 1 else if below > zero then -1 else 0
  }

  lemma FractionChosen(past: seq<Word16>, T: int, b: seq<Word32>)
    requires |past| >= PAST && 20 <= T <= MAX_DELAY && |b| == SUBFRAME
    ensures var zero, below, above := Trial(past, T, 0, b), Trial(past, T, -1, b), Trial(past, T, 1, b);
      BestFraction(past, T, b) == if above > (if below > zero then below else zero) then 1 else if below > zero then -1 else 0
  {
    hide Trial;
  }

  lemma CorrelationOfSlice(e: seq<Word16>, base: nat, b: seq<Word32>, m: nat)
    requires base + SUBFRAME <= |e| && m <= SUBFRAME && m <= |b|
    ensures Correlation(e, base, b, m) == Correlation(e[base..base + SUBFRAME], 0, b, m)
  {
  }

  method CopyBack(exc: array<Word16>, base: nat, backup: seq<Word16>)
    requires base + SUBFRAME <= exc.Length && |backup| == SUBFRAME
    modifies exc
    ensures exc[base..base + SUBFRAME] == backup
    ensures exc[..base] == old(exc[..base]) && exc[base + SUBFRAME..] == old(exc[base + SUBFRAME..])
  {
    forall j | base <= j < base + SUBFRAME {
      exc[j] := backup[j - base];
    }
    forall i | 0 <= i < SUBFRAME
      ensures exc[base..base + SUBFRAME][i] == backup[i]
    {
      assert exc[base + i] == backup[i];
    }
  }

  /** The fractional search over the three trial vectors, each written over the last. */
  method SearchFraction(exc: array<Word16>, base: nat, T: int, b: seq<Word32>) returns (frac: int)
    requires base >= PAST && base + SUBFRAME <= exc.Length && |b| == SUBFRAME
    requires 20 <= T <= MAX_DELAY
    requires exc[base..base + SUBFRAME] == AdaptiveVector(exc[..base], T, 0)
    modifies exc
    ensures frac == BestFraction(old(exc[..base]), T, b)
    ensures exc[base..base + SUBFRAME] == AdaptiveVector(old(exc[..base]), T, frac)
    ensures exc[..base] == old(exc[..base]) && exc[base + SUBFRAME..] == old(exc[base + SUBFRAME..])
  {
    hide Correlation, AdaptiveVector, BestFraction;
    ghost var past := exc[..base];
    FractionChosen(past, T, b);
    frac := 0;
    var correlationMax := Correlate(exc, base, b);
    assert correlationMax == Trial(past, T, 0, b);
    var backup := exc[base..base + SUBFRAME];
    GenerateAdaptativeCodebookVector(exc, base, T, -1);
    var correlation := Correlate(exc, base, b);
    assert correlation == Trial(past, T, -1, b);
    if correlation > correlationMax {
      frac := -1;
      correlationMax := correlation;
      backup := exc[base..base + SUBFRAME];
    }
    GenerateAdaptativeCodebookVector(exc, base, T, 1);
    correlation := Correlate(exc, base, b);
    assert correlation == Trial(past, T, 1, b);
    if correlation > correlationMax {
      frac := 1;
    } else {
      CopyBack(exc, base, backup);
    }
  }

  /** The whole search of one subframe for a target and an impulse response: delay, fraction, code word and the
      next window. The samples at base hold the LP residual on entry and the adaptive codebook vector on exit. */
  method AdaptativeCodebookSearch(exc: array<Word16>, base: nat, delayMin: int, delayMax: int,
                                  t: seq<Word16>, h: seq<Word16>, first: bool)
    returns (T: int, frac: int, codeword: int, nextMin: int, nextMax: int)
    requires base >= PAST && base + SUBFRAME <= exc.Length && |t| == SUBFRAME && SumsFit(t, h)
    requires 20 <= delayMin <= delayMax <= MAX_DELAY
    modifies exc
    ensures BestDelay(old(exc[..]), base, Backward(t, h), delayMin, delayMax, T)
    ensures frac == if first && T >= 85 then 0 else BestFraction(old(exc[..base]), T, Backward(t, h))
    ensures exc[base..base + SUBFRAME] == AdaptiveVector(old(exc[..base]), T, frac)
    ensures exc[..base] == old(exc[..base]) && exc[base + SUBFRAME..] == old(exc[base + SUBFRAME..])
    ensures first ==> FirstChoice(T, frac) && DecodeFirst(codeword) == (T, frac) && 0 <= codeword < 256
    ensures first ==> nextMin == SecondWindowMin(T) && nextMin + 9 == nextMax <= MAX_DELAY && 20 <= nextMin
    ensures !first ==> codeword == SecondCodeword(T, frac, delayMin) && nextMin == delayMin && nextMax == delayMax
  {
    hide Correlation, AdaptiveVector, BestFraction, BestDelay, SumsFit, Backward;
    var b := CorrelateVectors(t, h);
    nextMin, nextMax := delayMin, delayMax;
    T := SearchDelay(exc, base, delayMin, delayMax, b);
    assert delayMin <= T <= delayMax by { DelayInWindow(exc[..], base, b, delayMin, delayMax, T); }
    GenerateAdaptativeCodebookVector(exc, base, T, 0);
    frac := 0;
    if !(first && T >= 85) {
      frac := SearchFraction(exc, base, T, b);
    }
    if first {
      nextMin, nextMax := SecondWindow(T);
      if T <= 85 {
        codeword := 3 * T - 58 + frac;
      } else {
        codeword := T + 112;
      }
      FirstCodewordRoundTrip(T, frac, 0);
    } else {
      codeword := 3 * (T - nextMin) + frac + 2;
    }
  }

  lemma DelayInWindow(e: seq<Word16>, base: nat, b: seq<Word32>, delayMin: int, delayMax: int, T: int)
    requires base + SUBFRAME <= |e| && |b| == SUBFRAME && 20 <= delayMin <= delayMax <= MAX_DELAY <= base
    requires BestDelay(e, base, b, delayMin, delayMax, T)
    ensures delayMin <= T <= delayMax
  {
  }

  // ----- the decoder --------------------------------------------------------------------

  /** The delay of one subframe and what the decoder remembers of it. */
  datatype Delay = Delay(T: int, frac: int, memory: int)

  /** decodeAdaptativeCodeVector's delay: a damaged first subframe or an erased second one repeats
      the remembered delay and lengthens it by one, up to 143. */
  function NextDelay(first: bool, index: int, damaged: bool, T1: int, memory: int): Delay {
    if damaged then Delay(memory, 0, if memory + 1 > MAX_DELAY then MAX_DELAY else memory + 1)
    else
      var d := if first then DecodeFirst(index) else DecodeSecond(index, T1);
      Delay(d.0, d.1, d.0)
  }

  /** A delay in [19, 144] stays there through any index and any damage, and every fraction is a
      third or none. */
  lemma DelayStaysInRange(first: bool, index: int, damaged: bool, T1: int, memory: int)
    requires 0 <= index < (if first then 256 else 32)
    requires 19 <= memory <= 144 && (!first ==> 19 <= T1 <= 144)
    ensures var d := NextDelay(first, index, damaged, T1, memory);
      ValidDelay(d.T, d.frac) && 19 <= d.memory <= 144 && (damaged ==> d.T == memory && d.memory <= MAX_DELAY)
  {
    if first {
      FirstCodewordRoundTrip(20, 0, index);
    } else {
      SecondCodewordRoundTrip(T1, SecondWindowMin(T1), 0, index);
    }
  }

  /** The remembered delay after n damaged subframes in a row. */
  function Lost(memory: int, n: nat): int {
    if n == 0 then memory else NextDelay(true, 0, true, 0, Lost(memory, n - 1)).memory
  }

  /** Through a run of damaged subframes the delay grows by one from each to the next, up to 143, without a
      fraction, whatever their indices say. */
  lemma {:induction false} LostDelays(memory: int, n: nat, first: bool, index: int, T1: int)
    requires 19 <= memory <= MAX_DELAY
    ensures var d := NextDelay(first, index, true, T1, Lost(memory, n));
      d.T == Lost(memory, n) == (if memory + n > MAX_DELAY then MAX_DELAY else memory + n) && d.frac == 0
    decreases n
  {
    if n > 0 {
      LostDelays(memory, n - 1, first, index, T1);
    }
  }

  class PitchDecoder {
    var previousIntPitchDelay: int

    predicate Valid()
      reads this
    {
      19 <= previousIntPitchDelay <= 144
    }

    constructor ()
      ensures Valid() && previousIntPitchDelay == 60
    {
      previousIntPitchDelay := 60;
    }

    /** One subframe: the delay, then the adaptive codebook vector written at base. */
    method DecodeAdaptativeCodeVector(first: bool, index: nat, parityError: bool, frameErased: bool, firstDelay: int,
                                      exc: array<Word16>, base: nat)
      returns (T: int, ghost frac: int)
      requires Valid() && index < (if first then 256 else 32)
      requires !first ==> 19 <= firstDelay <= 144
      requires base >= PAST && base + SUBFRAME <= exc.Length
      modifies this, exc
      ensures Valid() && ValidDelay(T, frac)
      ensures var damaged := if first then parityError || frameErased else frameErased;
        Delay(T, frac, previousIntPitchDelay) == NextDelay(first, index, damaged, firstDelay, old(previousIntPitchDelay))
      ensures exc[base..base + SUBFRAME] == AdaptiveVector(old(exc[..base]), T, frac)
      ensures exc[..base] == old(exc[..base]) && exc[base + SUBFRAME..] == old(exc[base + SUBFRAME..])
    {
      var fracPitchDelay: int;
      DelayStaysInRange(first, index, if first then parityError || frameErased else frameErased, firstDelay, previousIntPitchDelay);
      if first {
        if parityError || frameErased {
          T, fracPitchDelay := previousIntPitchDelay, 0;
          previousIntPitchDelay := previousIntPitchDelay + 1;
          if previousIntPitchDelay > MAX_DELAY {
            previousIntPitchDelay := MAX_DELAY;
          }
        } else {
          if index < 197 {
            T := ThirdQ15(index + 2) + 19;
            fracPitchDelay := index - 3 * T + 58;
          } else {
            T, fracPitchDelay := index - 112, 0;
          }
          previousIntPitchDelay := T;
        }
      } else {
        if frameErased {
          T, fracPitchDelay := previousIntPitchDelay, 0;
          previousIntPitchDelay := previousIntPitchDelay + 1;
          if previousIntPitchDelay > MAX_DELAY {
            previousIntPitchDelay := MAX_DELAY;
          }
        } else {
          var tMin := firstDelay - 5;
          if tMin < 20 {
            tMin := 20;
          }
          if tMin > 134 {
            tMin := 134;
          }
          T := ThirdQ15(index + 2) - 1;
          fracPitchDelay := index - 3 * T - 2;
          T := T + tMin;
          previousIntPitchDelay := T;
        }
      }
      frac := fracPitchDelay;
      WriteVector(T, fracPitchDelay, exc, base);
    }

    /** The decoder's interpolation, written over the samples at base. */
    method WriteVector(T: int, fraction: int, exc: array<Word16>, base: nat)
      requires base >= PAST && base + SUBFRAME <= exc.Length && ValidDelay(T, fraction)
      modifies exc
      ensures exc[base..base + SUBFRAME] == AdaptiveVector(old(exc[..base]), T, fraction)
      ensures exc[..base] == old(exc[..base]) && exc[base + SUBFRAME..] == old(exc[base + SUBFRAME..])
    {
      hide Acc, Sample;
      var fracPitchDelay, minusK := fraction, base - T;
      if fracPitchDelay == 1 {
        minusK := base - (T + 1);
        fracPitchDelay := 2;
      } else {
        fracPitchDelay := -fracPitchDelay;
      }
      ghost var past := exc[..base];
      ghost var k := FilterDelay(T, fraction);
      for n := 0 to SUBFRAME
        invariant exc[..base + n] == Extended(past, k, fracPitchDelay, n)
        invariant exc[base + SUBFRAME..] == old(exc[base + SUBFRAME..])
      {
        ghost var e := exc[..base + n];
        var sample := Interpolate(exc, minusK + n, fracPitchDelay, base + n);
        exc[base + n] := sample;
        assert exc[..base + n + 1] == e + [sample];
      }
      assert exc[..base + SUBFRAME][base..] == exc[base..base + SUBFRAME];
      assert exc[..base] == exc[..base + SUBFRAME][..base];
    }
  }
}
