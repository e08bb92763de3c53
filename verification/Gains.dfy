/** The gain quantizer and the gain decoder (sections 3.9, 4.1.5 and 4.4.2 of Recommendation G.729).
    Adaptive gains are in Q14, correction factors in Q12, prediction errors in Q10. */
module Gains {
  import opened FixedPoint
  import opened BackwardFilter
  import opened GainTerms

  // ----- tables -------------------------------------------------------------------------

  function GaGain(i: nat): int
    requires i < 8
  {
    match i
    case 0 => 0 case 1 => 1551 case 2 => 1831 case 3 => 57 case 4 => 1921 case 5 => 3242 case 6 => 356 case _ => 2678
  }

  function GaFactor(i: nat): int
    requires i < 8
  {
    match i
    case 0 => 758 case 1 => 1213 case 2 => 2511 case 3 => 2702 case 4 => 4646 case 5 => 4975 case 6 => 7378 case _ => 13581
  }

  function GbGain(j: nat): int
    requires j < 16
  {
    match j
    case 0 => 826 case 1 => 1994 case 2 => 5142 case 3 => 6160 case 4 => 8091 case 5 => 9120 case 6 => 10573 case 7 => 11569
    case 8 => 13260 case 9 => 14194 case 10 => 15132 case 11 => 15161 case 12 => 15434 case 13 => 16112 case 14 => 17299
    case _ => 18973
  }

  function GbFactor(j: nat): int
    requires j < 16
  {
    match j
    case 0 => 1003 case 1 => 0 case 2 => 296 case 3 => 1197 case 4 => 2431 case 5 => 263 case 6 => 1483 case 7 => 598
    case 8 => 1628 case 9 => 815 case 10 => 2457 case 11 => 7138 case 12 => 119 case 13 => 1696 case 14 => 931 case _ => 2968
  }

  function IndexMappingGA(i: nat): (r: nat)
    requires i < 8
    ensures r < 8
  {
    match i
    case 0 => 5 case 1 => 1 case 2 => 4 case 3 => 7 case 4 => 3 case 5 => 0 case 6 => 6 case _ => 2
  }

  function ReverseIndexMappingGA(i: nat): (r: nat)
    requires i < 8
    ensures r < 8
  {
    match i
    case 0 => 5 case 1 => 1 case 2 => 7 case 3 => 4 case 4 => 2 case 5 => 0 case 6 => 6 case _ => 3
  }

  function IndexMappingGB(j: nat): (r: nat)
    requires j < 16
    ensures r < 16
  {
    match j
    case 0 => 4 case 1 => 6 case 2 => 0 case 3 => 2 case 4 => 12 case 5 => 14 case 6 => 8 case 7 => 10
    case 8 => 15 case 9 => 11 case 10 => 9 case 11 => 13 case 12 => 7 case 13 => 3 case 14 => 1 case _ => 5
  }

  function ReverseIndexMappingGB(j: nat): (r: nat)
    requires j < 16
    ensures r < 16
  {
    match j
    case 0 => 2 case 1 => 14 case 2 => 3 case 3 => 13 case 4 => 0 case 5 => 15 case 6 => 1 case 7 => 12
    case 8 => 6 case 9 => 10 case 10 => 7 case 11 => 9 case 12 => 4 case 13 => 11 case 14 => 5 case _ => 8
  }

  /** The encoder's and the decoder's index maps are inverse permutations. */
  lemma IndexMapsAreInverse(i: nat, j: nat)
    requires i < 8 && j < 16
    ensures ReverseIndexMappingGA(IndexMappingGA(i)) == i && IndexMappingGA(ReverseIndexMappingGA(i)) == i
    ensures ReverseIndexMappingGB(IndexMappingGB(j)) == j && IndexMappingGB(ReverseIndexMappingGB(j)) == j
  {
  }

  /** Adaptive gain and correction factor of a pair of codebook rows. */
  function AdaptiveGain(i: nat, j: nat): (g: Word16)
    requires i < 8 && j < 16
    ensures 0 <= g <= 22215
  {
    GaGain(i) + GbGain(j)
  }

  function Factor(i: nat, j: nat): (g: Word16)
    requires i < 8 && j < 16
    ensures 758 <= g <= 20719
  {
    GaFactor(i) + GbFactor(j)
  }

  // ----- logarithm and exponential --------------------------------------------------------

  /** g729Log2_Q0Q16. The typed intermediate values show that nothing overflows 32 bits. */
  function Log2(x: Word32): Word32
    requires x > 0
  {
    var zeros := LeadingZeros(x);
    var acc := NormalisedTo15(x, zeros);
    var a3 := MultQ15(acc, 74705);
    MultQ15Range(acc, 74705);
    var a2 := MultQ15(acc, -252129 + a3);
    MultQ15Range(acc, -252129 + a3);
    var a1 := MultQ15(acc, 378194 + a2);
    MultQ15Range(acc, 378194 + a2);
    (30 - zeros) * 0x1_0000 + (-135003 + a1)
  }

  /** x shifted so that its leading one is bit 14. */
  function NormalisedTo15(x: Word32, zeros: nat): (acc: Word16)
    requires x > 0 && zeros <= 30 && 0x4000_0000 <= x * Pow2(zeros) <= MAX32
    ensures 0 <= acc
  {
    Wrap16NonNegative(x, zeros);
    if zeros < 16 then x / Pow2(16 - zeros) else x * Pow2(zeros - 16)
  }

  lemma Wrap16NonNegative(x: int, zeros: nat)
    requires x > 0 && zeros <= 30 && 0x4000_0000 <= x * Pow2(zeros) <= MAX32
    ensures zeros < 16 ==> 0 <= x / Pow2(16 - zeros) <= 0x7fff
    ensures zeros >= 16 ==> 0 <= x * Pow2(zeros - 16) <= 0x7fff
  {
    Pow2Of16(16);
    if zeros < 16 {
      Pow2Sum(zeros, 16 - zeros);
      hide Pow2;
      ShiftedRight(x, Pow2(zeros), Pow2(16 - zeros));
    } else {
      Pow2Sum(zeros - 16, 16);
      hide Pow2;
      ShiftedLeft(x, Pow2(zeros - 16));
    }
  }

  lemma Pow2Of16(n: nat)
    requires n == 16
    ensures Pow2(n) == 0x1_0000
  {
    Pow2Sum(8, 8);
  }

  lemma ShiftedLeft(x: int, p: int)
    requires x > 0 && p > 0 && x * (p * 0x1_0000) <= MAX32
    ensures 0 <= x * p <= 0x7fff
  {
    assert x * (p * 0x1_0000) == (x * p) * 0x1_0000;
    assert 0 < x * p;
  }

  lemma ShiftedRight(x: int, p: int, q: int)
    requires x > 0 && p > 0 && q > 0 && p * q == 0x1_0000 && x * p <= MAX32
    ensures 0 <= x / q <= 0x7fff
  {
    var r := x / q;
    assert r * q <= x;
    assert (r * q) * p <= x * p by { assert (x - r * q) * p >= 0; }
    assert (r * q) * p == r * (p * q);
  }

  lemma MultQ15Range(a: Word16, b: int)
    requires a >= 0
    ensures b >= 0 ==> 0 <= MultQ15(a, b) <= b
    ensures b <= 0 ==> b <= MultQ15(a, b) <= 0
  {
    SplitFloorIsFloor(a, b, 0x8000);
    ProductRange(a, b, 0x8000);
    hide SplitFloor;
    if b >= 0 {
      assert 0 <= a * b;
    } else {
      assert a * b <= 0;
    }
  }

  /** g729Exp2_Q11Q16. */
  function Exp2(x: Word16): Word32 {
    var integer := x as int / 0x800;
    if integer > 14 then MAX32
    else if integer < -15 then 0
    else
      var frac := 8 * (x as int % 0x800);
      var mantissa := Wrap16(0x4000 + (frac * (11356 + (frac * (3726 + (1301 * frac) / 0x4000)) / 0x4000)) / 0x4000);
      if integer < -2 then mantissa / Pow2(-integer - 2) else Wrap32(mantissa * Pow2(integer + 2))
  }

  // ----- gain prediction ------------------------------------------------------------------

  predicate IsErrors(e: seq<Word16>) {
    |e| == 4
  }

  /** Sum of squares of the first n samples, in 32 bits. */
  function SquaresSum(c: seq<Word16>, n: nat): Word32
    requires n <= |c|
  {
    if n == 0 then 0
    else
      var x: int := c[n - 1];
      Wrap32(SquaresSum(c, n - 1) + x * x)
  }

  /** The energy of a whole vector, as the code adds it up. */
  function VectorEnergy(c: seq<Word16>): Word32 {
    SquaresSum(c, |c|)
  }

  function PredictionCoefficient(i: nat): int
    requires i < 4
  {
    match i
    case 0 => 11141 case 1 => 9503 case 2 => 5571 case _ => 3113
  }

  /** The first n terms of the moving average added to acc. */
  function Averaged(acc: Word32, e: seq<Word16>, n: nat): Word32
    requires IsErrors(e) && n <= 4
  {
    if n == 0 then acc
    else
      var x: int := e[n - 1];
      Wrap32(Averaged(acc, e, n - 1) + x * PredictionCoefficient(n - 1))
  }

  /** Code vectors with a usable energy: the logarithm expects a positive argument. */
  predicate HasEnergy(c: seq<Word16>) {
    |c| == 40 && VectorEnergy(c) > 0
  }

  /** The predicted gain in Q16, from the last four prediction errors and the code vector's energy. */
  function PredictedGain(e: seq<Word16>, c: seq<Word16>): Word32
    requires IsErrors(e) && HasEnergy(c)
  {
    var level := Wrap32(8145364 + MultQ13(-24660, Log2(VectorEnergy(c))));
    var acc := Averaged(Wrap32(level * 0x100), e, 4);
    Exp2(Wrap16((MultQ15(5442, acc / 4) + 0x400) / 0x800))
  }

  method SumSquares(c: seq<Word16>) returns (sum: Word32)
    requires |c| == 40
    ensures sum == VectorEnergy(c)
  {
    sum := 0;
    for i := 0 to 40
      invariant sum == SquaresSum(c, i)
    {
      if c[i] != 0 {
        var x: int := c[i];
        sum := Wrap32(sum + x * x);
      }
    }
  }

  method MACodeGainPrediction(errors: array<Word16>, c: seq<Word16>) returns (gain: Word32)
    requires errors.Length == 4 && HasEnergy(c)
    ensures gain == PredictedGain(errors[..], c)
  {
    hide Log2, Exp2, VectorEnergy, Wrap32, Wrap16, SplitFloor;
    var sum := SumSquares(c);
    var acc: Word32 := Wrap32(8145364 + MultQ13(-24660, Log2(sum)));
    acc := Wrap32(acc * 0x100);
    ghost var start := acc;
    for i := 0 to 4
      invariant acc == Averaged(start, errors[..], i)
    {
      var x: int := errors[i];
      acc := Wrap32(acc + x * PredictionCoefficient(i));
    }
    acc := acc / 4;
    gain := Exp2(Wrap16((MultQ15(5442, acc) + 0x400) / 0x800));
  }

  /** 20 log10 of a correction factor, in Q10. */
  function ErrorOf(factor: Word16): Word16
    requires factor > 0
  {
    Wrap16((MultQ12(24660, Log2(factor) as int - 786432) + 0x20) / 0x40)
  }

  function PushError(x: Word16, e: seq<Word16>): (e': seq<Word16>)
    requires IsErrors(e)
    ensures IsErrors(e')
  {
    [x, e[0], e[1], e[2]]
  }

  /** The older errors move back by one place and keep their order. */
  lemma PushErrorShifts(x: Word16, e: seq<Word16>)
    requires IsErrors(e)
    ensures PushError(x, e)[0] == x && PushError(x, e)[1..] == e[..3]
  {
    assert PushError(x, e) == [x] + e[..3];
  }

  function InitialErrors(): (e: seq<Word16>)
    ensures IsErrors(e)
  {
    [-14336, -14336, -14336, -14336]
  }

  /** Shift the array and insert the error of this subframe's factor. */
  method ComputeGainPredictionError(factor: Word16, errors: array<Word16>)
    requires factor > 0 && errors.Length == 4
    modifies errors
    ensures errors[..] == PushError(ErrorOf(factor), old(errors[..]))
  {
    var e := ErrorOf(factor);
    errors[3] := errors[2];
    errors[2] := errors[1];
    errors[1] := errors[0];
    errors[0] := e;
  }

  // ----- encoder --------------------------------------------------------------------------

  /** The encoder's fixed gain in Q1, from a Q16 prediction first narrowed to Q4. */
  function EncoderFixedGain(factor: int, predicted: Word32): Word16 {
    Wrap16(EncoderCandidate(factor, Wrap16(predicted / 0x1000)) / 2)
  }

  /** A candidate fixed gain in Q2. */
  function EncoderCandidate(factor: int, predictedQ4: Word16): int {
    (factor * predictedQ4) / 0x4000
  }

  function Wrap64(x: int): Word64 {
    (x + 0x8000_0000_0000_0000) % 0x1_0000_0000_0000_0000 - 0x8000_0000_0000_0000
  }

  /** The quantization error of a pair of gains, up to the target's own energy, in 64 bits. */
  function Distance(t: Terms, gp: int, gc: int): int {
    Wrap64(gp * gp * t.yy + gc * gc * t.zz - 2 * (gp * 0x4000) * t.xy - 2 * (gc * 0x4000) * t.xz + 2 * (gp * gc) * t.yz)
  }

  /** For terms of the sizes the scaling leaves, nothing wraps: the distance is the error's form, and it is
      below the 64-bit maximum. */
  lemma DistanceIsForm(t: Terms, gp: int, gc: int)
    requires Bounded(t) && 0 <= gp <= 22215 && -41438 <= gc <= 41438
    ensures Distance(t, gp, gc) == Form(0, t.yy, t.zz, t.xy, t.xz, t.yz, gp, gc) < MAX64
  {
    ProductRange(gp, gp, 22215);
    ProductRange(gc, gc, 41438);
    ProductRange(gp, gc, 22215);
    SquareIsNotNegative(gp);
    SquareIsNotNegative(gc);
    FormFits(gp * gp, gc * gc, gp, gc, gp * gc, t);
  }

  lemma SquareIsNotNegative(x: int)
    ensures 0 <= x * x
  {
  }

  lemma FormFits(p2: int, c2: int, gp: int, gc: int, pc: int, t: Terms)
    requires Bounded(t) && 0 <= p2 <= 493506225 && 0 <= c2 <= 1717107844
    requires 0 <= gp <= 22215 && -41438 <= gc <= 41438 && -920545170 <= pc <= 920545170
    ensures -MAX64 < p2 * t.yy + c2 * t.zz - 2 * (gp * 0x4000) * t.xy - 2 * (gc * 0x4000) * t.xz + 2 * pc * t.yz < MAX64
  {
    ProductRange(p2, t.yy, 493506225);
    ProductRange(c2, t.zz, 1717107844);
    ProductRange(2 * (gp * 0x4000), t.xy, 727941120);
    ProductRange(2 * (gc * 0x4000), t.xz, 1357840384);
    ProductRange(2 * pc, t.yz, 1841090340);
  }

  function CandidateDistance(t: Terms, predictedQ4: Word16, i: nat, j: nat): int
    requires i < 8 && j < 16
  {
    Distance(t, AdaptiveGain(i, j), EncoderCandidate(Factor(i, j), predictedQ4))
  }

  /** The windows of the search: two rows before the first of six whose fixed gain reaches the
      unquantized one, and four before the first of twelve whose adaptive gain does. */
  ghost predicate Preselected(bestAdaptive: Word32, bestFixed: Word32, predictedQ4: Word16, baseGa: nat, baseGb: nat) {
    && baseGa <= 4 && baseGb <= 8
    && (forall i :: 0 <= i < baseGa + (if baseGa > 0 then 2 else 0) ==> bestFixed > EncoderCandidate(GaFactor(i), predictedQ4))
    && (forall j :: 0 <= j < baseGb + (if baseGb > 0 then 4 else 0) ==> bestAdaptive > GbGain(j) / 0x20)
    && (baseGa < 4 ==> exists i :: 0 <= i <= baseGa + 2 && bestFixed <= EncoderCandidate(GaFactor(i), predictedQ4))
    && (baseGb < 8 ==> exists j :: 0 <= j <= baseGb + 4 && bestAdaptive <= GbGain(j) / 0x20)
  }

  /** No pair of the windows has a smaller distance; a distance at the 64-bit maximum is not seen. */
  predicate BestInWindows(t: Terms, predictedQ4: Word16, baseGa: nat, baseGb: nat, ga: nat, gb: nat)
    requires baseGa <= 4 && baseGb <= 8 && ga < 8 && gb < 16
  {
    forall i, j ::
      (baseGa <= i < baseGa + 4 && baseGb <= j < baseGb + 8 && CandidateDistance(t, predictedQ4, i, j) < MAX64)
      ==> CandidateDistance(t, predictedQ4, ga, gb) <= CandidateDistance(t, predictedQ4, i, j)
  }

  /** The pair is one of those searched. */
  predicate InWindows(baseGa: nat, baseGb: nat, ga: nat, gb: nat) {
    baseGa <= ga < baseGa + 4 && baseGb <= gb < baseGb + 8
  }

  /** A candidate of scaled terms has the exact distance, and is always seen. */
  lemma CandidateIsSeen(t: Terms, predictedQ4: Word16, i: nat, j: nat)
    requires Bounded(t) && i < 8 && j < 16
    ensures var gp, gc := AdaptiveGain(i, j), EncoderCandidate(Factor(i, j), predictedQ4);
      CandidateDistance(t, predictedQ4, i, j) == Form(0, t.yy, t.zz, t.xy, t.xz, t.yz, gp, gc) < MAX64
  {
    hide Distance, Form, AdaptiveGain, Factor;
    CandidateRange(Factor(i, j), predictedQ4);
    DistanceIsForm(t, AdaptiveGain(i, j), EncoderCandidate(Factor(i, j), predictedQ4));
  }

  lemma CandidateRange(factor: int, predictedQ4: Word16)
    requires 758 <= factor <= 20719
    ensures -41438 <= EncoderCandidate(factor, predictedQ4) <= 41438
  {
    ProductRange(predictedQ4, factor, 0x8000);
  }

  lemma WindowsFit(bestAdaptive: Word32, bestFixed: Word32, predictedQ4: Word16, baseGa: nat, baseGb: nat)
    requires Preselected(bestAdaptive, bestFixed, predictedQ4, baseGa, baseGb)
    ensures baseGa <= 4 && baseGb <= 8
  {
  }

  method Preselect(bestAdaptive: Word32, bestFixed: Word32, predictedQ4: Word16) returns (baseGa: nat, baseGb: nat)
    ensures Preselected(bestAdaptive, bestFixed, predictedQ4, baseGa, baseGb)
  {
    hide GaFactor, GbGain;
    var ga, gb := 0, 0;
    while ga < 6 && bestFixed > EncoderCandidate(GaFactor(ga), predictedQ4)
      invariant ga <= 6
      invariant forall i :: 0 <= i < ga ==> bestFixed > EncoderCandidate(GaFactor(i), predictedQ4)
    {
      ga := ga + 1;
    }
    baseGa := ga;
    if baseGa > 0 { baseGa := baseGa - 1; }
    if baseGa > 0 { baseGa := baseGa - 1; }
    while gb < 12 && bestAdaptive > GbGain(gb) / 0x20
      invariant gb <= 12
      invariant forall j :: 0 <= j < gb ==> bestAdaptive > GbGain(j) / 0x20
    {
      gb := gb + 1;
    }
    baseGb := gb;
    if baseGb > 0 { baseGb := baseGb - 1; }
    if baseGb > 0 { baseGb := baseGb - 1; }
    if baseGb > 0 { baseGb := baseGb - 1; }
    if baseGb > 0 { baseGb := baseGb - 1; }
    assert baseGa < 4 ==> ga < 6;
    assert baseGb < 8 ==> gb < 12;
  }

  /** The search over 4 x 8 pairs. The outputs start at the first pair of the tables, where the C code
      leaves its indices when no distance is below the 64-bit maximum. */
  method SearchGains(t: Terms, predictedQ4: Word16, baseGa: nat, baseGb: nat)
    returns (ga: nat, gb: nat, gp: Word16, gc: Word16)
    requires baseGa <= 4 && baseGb <= 8
    ensures ga < 8 && gb < 16
    ensures gp == AdaptiveGain(ga, gb) && gc == Wrap16(EncoderCandidate(Factor(ga, gb), predictedQ4) / 2)
    ensures BestInWindows(t, predictedQ4, baseGa, baseGb, ga, gb)
    ensures Bounded(t) ==> InWindows(baseGa, baseGb, ga, gb)
  {
    hide Distance, Bounded;
    if Bounded(t) {
      CandidateIsSeen(t, predictedQ4, baseGa, baseGb);
    }
    ghost var found := false;
    ga, gb := 0, 0;
    gp, gc := AdaptiveGain(0, 0), Wrap16(EncoderCandidate(Factor(0, 0), predictedQ4) / 2);
    var distanceMin := MAX64;
    for i := baseGa to baseGa + 4
      invariant ga < 8 && gb < 16
      invariant gp == AdaptiveGain(ga, gb) && gc == Wrap16(EncoderCandidate(Factor(ga, gb), predictedQ4) / 2)
      invariant if found then InWindows(baseGa, baseGb, ga, gb) && distanceMin == CandidateDistance(t, predictedQ4, ga, gb)
                else distanceMin == MAX64
      invariant forall m, n :: baseGa <= m < i && baseGb <= n < baseGb + 8 ==> distanceMin <= CandidateDistance(t, predictedQ4, m, n)
    {
      for j := baseGb to baseGb + 8
        invariant ga < 8 && gb < 16
        invariant gp == AdaptiveGain(ga, gb) && gc == Wrap16(EncoderCandidate(Factor(ga, gb), predictedQ4) / 2)
        invariant if found then InWindows(baseGa, baseGb, ga, gb) && distanceMin == CandidateDistance(t, predictedQ4, ga, gb)
                  else distanceMin == MAX64
        invariant forall m, n :: baseGa <= m < i && baseGb <= n < baseGb + 8 ==> distanceMin <= CandidateDistance(t, predictedQ4, m, n)
        invariant forall n :: baseGb <= n < j ==> distanceMin <= CandidateDistance(t, predictedQ4, i, n)
      {
        var acc := CandidateDistance(t, predictedQ4, i, j);
        if acc < distanceMin {
          distanceMin := acc;
          found := true;
          ga, gb := i, j;
          gp := AdaptiveGain(i, j);
          gc := Wrap16(EncoderCandidate(Factor(i, j), predictedQ4) / 2);
        }
      }
    }
  }

  lemma SumsAreBounded(x: seq<Word16>, y: seq<Word16>, z: seq<Word16>)
    requires |x| == |y| == |z| == N
    ensures IsSum(Inner(x, y, N)) && IsSum(Inner(y, y, N)) && IsSum(Inner(x, z, N)) && IsSum(Inner(y, z, N)) && IsSum(Inner(z, z, N))
    ensures 0 <= Inner(y, y, N) && 0 <= Inner(z, z, N)
  {
    InnerBound(x, y, N);
    InnerBound(y, y, N);
    InnerBound(x, z, N);
    InnerBound(y, z, N);
    InnerBound(z, z, N);
    EnergyNotNegative(y, N);
    EnergyNotNegative(z, N);
    hide Inner;
  }

  class GainEncoder {
    const errors: array<Word16>

    predicate Valid() {
      errors.Length == 4
    }

    constructor ()
      ensures Valid() && fresh(errors) && errors[..] == InitialErrors()
    {
      errors := new Word16[4](_ => -14336);
    }

    /** gainQuantization for a target x, the filtered adaptive vector y and the convolved code vector z: the terms,
        and everything from the unquantized best gains on. */
    method Quantize(c: seq<Word16>, x: seq<Word16>, y: seq<Word16>, z: seq<Word16>, xy: Word64, yy: Word64,
                    bestAdaptive: Word32, bestFixed: Word32)
      returns (gp: Word16, gc: Word16, GA: nat, GB: nat, ghost ga: nat, ghost gb: nat, ghost baseGa: nat, ghost baseGb: nat,
               ghost t: Terms, ghost s: nat)
      requires Valid() && HasEnergy(c) && |x| == |y| == |z| == N && xy == Inner(x, y, N) && yy == Inner(y, y, N)
      modifies errors
      ensures ShiftedTerms(t, xy, yy, Inner(x, z, N), Inner(y, z, N), Inner(z, z, N), s) && Bounded(t)
      ensures s == 0 || !Room(xy, yy, Inner(x, z, N), Inner(y, z, N), Inner(z, z, N), s - 1)
      ensures InWindows(baseGa, baseGb, ga, gb)
      ensures ga < 8 && gb < 16 && GA == IndexMappingGA(ga) && GB == IndexMappingGB(gb)
      ensures var predictedQ4 := Wrap16(PredictedGain(old(errors[..]), c) / 0x1000);
        Preselected(bestAdaptive, bestFixed, predictedQ4, baseGa, baseGb) && BestInWindows(t, predictedQ4, baseGa, baseGb, ga, gb)
      ensures gp == AdaptiveGain(ga, gb)
      ensures gc == EncoderFixedGain(Factor(ga, gb), PredictedGain(old(errors[..]), c))
      ensures errors[..] == PushError(ErrorOf(Factor(ga, gb)), old(errors[..]))
    {
      hide PredictedGain, AdaptiveGain, Factor, ErrorOf, IndexMappingGA, IndexMappingGB, Preselected, BestInWindows, ShiftedTerms, Bounded,
           Room, Inner;
      SumsAreBounded(x, y, z);
      var xz, yz, zz := CrossProducts(x, y, z);
      var scaled;
      scaled, s := ScaleTerms(xy, yy, xz, yz, zz);
      t := scaled;
      var predicted := MACodeGainPrediction(errors, c);
      var predictedQ4 := Wrap16(predicted / 0x1000);
      var firstGa, firstGb := Preselect(bestAdaptive, bestFixed, predictedQ4);
      baseGa, baseGb := firstGa, firstGb;
      WindowsFit(bestAdaptive, bestFixed, predictedQ4, firstGa, firstGb);
      var i, j;
      i, j, gp, gc := SearchGains(scaled, predictedQ4, firstGa, firstGb);
      ga, gb := i, j;
      ComputeGainPredictionError(Factor(i, j), errors);
      GA, GB := IndexMappingGA(i), IndexMappingGB(j);
    }
  }

  // ----- decoder --------------------------------------------------------------------------

  /** The decoder's fixed gain in Q1, from the full Q16 prediction. */
  function DecoderFixedGain(factor: int, predicted: Word32): Word16 {
    Wrap16(RoundQ15(MultiplyQ12(factor, predicted)))
  }

  /** Gains of an erased subframe: attenuated by 0.9 (at most 0.9 in Q14) and by 0.98, with less than a unit lost
      to rounding beside what the factors in Q15 are off. */
  function ErasedAdaptiveGain(g: Word16): (r: Word16)
    ensures 0 <= g < 0x4000 ==> 0 <= 9 * g as int - 10 * r as int <= 10
    ensures g >= 0x4000 ==> -4 <= 9 * 0x4000 - 10 * r as int <= 4
  {
    if g < 0x4000 then (g as int * 29491) / 0x8000 else 14746
  }

  function ErasedFixedGain(g: Word16): (r: Word16)
    ensures g >= 0 ==> -18 <= 49 * g as int - 50 * r as int < 50
  {
    (g as int * 32113) / 0x8000
  }

  /** Prediction error of an erased subframe: the mean of the last four less 4 dB, at least -14 dB. */
  function ErasedError(e: seq<Word16>): Word16
    requires IsErrors(e)
  {
    var mean := (e[0] as int + e[1] as int + e[2] as int + e[3] as int + 2) / 4;
    if mean < -10240 then -14336 else mean - 4096
  }

  lemma ErasedErrorIsMean(e: seq<Word16>)
    requires IsErrors(e)
    ensures var r, sum := ErasedError(e), e[0] as int + e[1] as int + e[2] as int + e[3] as int;
      r >= -14336 && if sum < 4 * -10240 - 2 then r == -14336 else -2 <= sum - 4 * (r as int + 4096) <= 1
  {
  }

  class GainDecoder {
    const errors: array<Word16>
    var adaptiveGain: Word16
    var fixedGain: Word16

    predicate Valid() {
      errors.Length == 4
    }

    constructor ()
      ensures Valid() && fresh(errors) && errors[..] == InitialErrors() && adaptiveGain == 0 && fixedGain == 0
    {
      errors := new Word16[4](_ => -14336);
      adaptiveGain, fixedGain := 0, 0;
    }

    method SumOfErrors() returns (sum: Word32)
      requires Valid()
      ensures sum == errors[0] as int + errors[1] as int + errors[2] as int + errors[3] as int
      ensures -0x2_0000 <= sum <= 0x2_0000
    {
      sum := 0;
      for i := 0 to 4
        invariant -0x8000 * i <= sum <= 0x8000 * i
        invariant sum == (if i > 0 then errors[0] as int else 0) + (if i > 1 then errors[1] as int else 0)
                       + (if i > 2 then errors[2] as int else 0) + (if i > 3 then errors[3] as int else 0)
      {
        sum := sum + errors[i];
      }
    }

    method Conceal()
      requires Valid()
      modifies this, errors
      ensures adaptiveGain == ErasedAdaptiveGain(old(adaptiveGain))
      ensures fixedGain == ErasedFixedGain(old(fixedGain))
      ensures errors[..] == PushError(ErasedError(old(errors[..])), old(errors[..]))
    {
      if adaptiveGain < 0x4000 {
        adaptiveGain := (adaptiveGain as int * 29491) / 0x8000;
      } else {
        adaptiveGain := 14746;
      }
      fixedGain := (fixedGain as int * 32113) / 0x8000;
      var current := SumOfErrors();
      current := (current + 2) / 4;
      if current < -10240 {
        current := -14336;
      } else {
        current := current - 4096;
      }
      errors[3] := errors[2];
      errors[2] := errors[1];
      errors[1] := errors[0];
      errors[0] := Wrap16(current);
    }

    /** decodeGains. The indices and the code vector's energy matter only in a good frame. */
    method Decode(GA: nat, GB: nat, c: seq<Word16>, frameErased: bool)
      requires Valid() && (!frameErased ==> GA < 8 && GB < 16 && HasEnergy(c))
      modifies this, errors
      ensures !frameErased ==>
                var i, j := ReverseIndexMappingGA(GA), ReverseIndexMappingGB(GB);
                && adaptiveGain == AdaptiveGain(i, j)
                && fixedGain == DecoderFixedGain(Factor(i, j), PredictedGain(old(errors[..]), c))
                && errors[..] == PushError(ErrorOf(Factor(i, j)), old(errors[..]))
      ensures frameErased ==>
                && adaptiveGain == ErasedAdaptiveGain(old(adaptiveGain))
                && fixedGain == ErasedFixedGain(old(fixedGain))
                && errors[..] == PushError(ErasedError(old(errors[..])), old(errors[..]))
    {
      hide PredictedGain, AdaptiveGain, Factor, ErrorOf, ReverseIndexMappingGA, ReverseIndexMappingGB, MultiplyQ12, RoundQ15,
           ErasedAdaptiveGain, ErasedFixedGain, ErasedError;
      if frameErased {
        Conceal();
        return;
      }
      var i, j := ReverseIndexMappingGA(GA), ReverseIndexMappingGB(GB);
      adaptiveGain := AdaptiveGain(i, j);
      var predicted := MACodeGainPrediction(errors, c);
      var factor := Factor(i, j);
      fixedGain := Wrap16(RoundQ15(MultiplyQ12(factor, predicted)));
      ComputeGainPredictionError(factor, errors);
    }
  }

  // ----- encoder and decoder agree --------------------------------------------------------

  /** No multiple of a correction factor up to the eighth comes close to a multiple of 32768. */
  lemma FactorMultiples(i: nat, j: nat, k: int)
    requires i < 8 && j < 16 && 1 <= k <= 8
    ensures 2 <= (Factor(i, j) * k) % 0x8000 <= 0x7ffe
  {
    hide Factor;
    var f: int := Factor(i, j);
    match k
    case 1 => Product(f, k, f);
    case 2 => FactorTimes2(i, j); Product(f, k, 2 * f);
    case 3 => FactorTimes3(i, j); Product(f, k, 3 * f);
    case 4 => FactorTimes4(i, j); Product(f, k, 4 * f);
    case 5 => FactorTimes5(i, j); Product(f, k, 5 * f);
    case 6 => FactorTimes6(i, j); Product(f, k, 6 * f);
    case 7 => FactorTimes7(i, j); Product(f, k, 7 * f);
    case _ => FactorTimes8(i, j); Product(f, k, 8 * f);
  }

  lemma Product(f: int, k: int, m: int)
    requires 1 <= k <= 8 && 758 <= f <= 20719 && (k == 1 || OffMultiples(m))
    requires m == if k == 1 then f else if k == 2 then 2 * f else if k == 3 then 3 * f else if k == 4 then 4 * f
                  else if k == 5 then 5 * f else if k == 6 then 6 * f else if k == 7 then 7 * f else 8 * f
    ensures 2 <= (f * k) % 0x8000 <= 0x7ffe
  {
    assert f * k == m;
  }

  /** More than one away from every multiple of 32768. */
  predicate OffMultiples(m: int) {
    2 <= m % 0x8000 <= 0x7ffe
  }

  lemma FactorTimes2(i: nat, j: nat)
    requires i < 8 && j < 16
    ensures OffMultiples(2 * (Factor(i, j) as int))
  {
  }

  lemma FactorTimes3(i: nat, j: nat)
    requires i < 8 && j < 16
    ensures OffMultiples(3 * (Factor(i, j) as int))
  {
  }

  lemma FactorTimes4(i: nat, j: nat)
    requires i < 8 && j < 16
    ensures OffMultiples(4 * (Factor(i, j) as int))
  {
  }

  lemma FactorTimes5(i: nat, j: nat)
    requires i < 8 && j < 16
    ensures OffMultiples(5 * (Factor(i, j) as int))
  {
  }

  lemma FactorTimes6(i: nat, j: nat)
    requires i < 8 && j < 16
    ensures OffMultiples(6 * (Factor(i, j) as int))
  {
  }

  lemma FactorTimes7(i: nat, j: nat)
    requires i < 8 && j < 16
    ensures OffMultiples(7 * (Factor(i, j) as int))
  {
  }

  lemma FactorTimes8(i: nat, j: nat)
    requires i < 8 && j < 16
    ensures OffMultiples(8 * (Factor(i, j) as int))
  {
  }

  lemma GapProduct(f: int, P: int, p': int, k: int, r: int)
    requires P / 0x1000 == p' + 0x1_0000 * k && r == P % 0x1000
    ensures f * P == (f * p' + 0x1_0000 * (f * k)) * 0x1000 + f * r
  {
    assert P == (p' + 0x1_0000 * k) * 0x1000 + r;
    assert f * ((p' + 0x1_0000 * k) * 0x1000 + r) == (f * (p' + 0x1_0000 * k)) * 0x1000 + f * r;
    assert f * (p' + 0x1_0000 * k) == f * p' + 0x1_0000 * (f * k);
  }

  lemma RemainderProduct(f: int, r: int)
    requires 758 <= f <= 20719 && 0 <= r <= 0xfff
    ensures 0 <= (f * r) / 0x1000 < 20719
  {
    assert 0 <= f * r <= 0xfff * f;
  }

  lemma HalvedTwice(x: int, s: int, enc: int, dec: int)
    requires 0 <= s < 20719 && enc == (x / 0x4000) / 2 && dec == (x + s + 0x4000) / 0x8000
    ensures 0 <= dec - enc <= 2
  {
  }

  /** The decoder's unnarrowed gain is the encoder's plus 0, 1 or 2, plus twice the factor for every
      time the encoder's Q4 prediction wrapped around 16 bits. */
  lemma UnnarrowedGap(f: int, P: int, p': int, k: int, enc: int, dec: int)
    requires 758 <= f <= 20719 && P / 0x1000 == p' + 0x1_0000 * k
    requires enc == ((f * p') / 0x4000) / 2
    requires dec == ((f * P) / 0x1000 + 0x4000) / 0x8000
    ensures 0 <= dec - enc - 2 * (f * k) <= 2
  {
    var r := P % 0x1000;
    var x, s, n := f * p', (f * r) / 0x1000, f * k;
    GapProduct(f, P, p', k, r);
    DivOfShifted(x + 0x1_0000 * n, f * r, 0x1000);
    RemainderProduct(f, r);
    assert dec == (x + 0x1_0000 * n + s + 0x4000) / 0x8000;
    DivOfShifted(2 * n, x + s + 0x4000, 0x8000);
    HalvedTwice(x, s, enc, (x + s + 0x4000) / 0x8000);
  }

  /** For the same code vector and history the decoder's fixed gain is 0, 1 or 2 units of Q1 above the
      encoder's exactly when the predicted gain fits the 16 bits the encoder narrows it to. */
  lemma FixedGainGap(i: nat, j: nat, predicted: Word32)
    requires i < 8 && j < 16 && predicted >= 0
    ensures 0 <= DecoderFixedGain(Factor(i, j), predicted) - EncoderFixedGain(Factor(i, j), predicted) <= 2
       <==> predicted < 0x800_0000
  {
    hide Factor, EncoderFixedGain, DecoderFixedGain;
    var f: int := Factor(i, j);
    var k := (predicted / 0x1000 + 0x8000) / 0x1_0000;
    var dec := UnnarrowedGains(f, predicted, k);
    if k == 0 {
      assert f * k == 0;
    } else {
      FactorMultiples(i, j, k);
      WrappedGap(f * k, EncoderFixedGain(f, predicted), dec);
    }
  }

  lemma WrapQuotient(x: int)
    ensures x == Wrap16(x) as int + 0x1_0000 * ((x + 0x8000) / 0x1_0000)
    ensures -0x8000 <= x <= 0x7fff ==> Wrap16(x) as int == x
  {
  }

  lemma UnnarrowedGains(f: int, predicted: Word32, k: int) returns (dec: int)
    requires 758 <= f <= 20719 && predicted >= 0 && k == (predicted / 0x1000 + 0x8000) / 0x1_0000
    ensures DecoderFixedGain(f, predicted) == Wrap16(dec)
    ensures 0 <= dec - EncoderFixedGain(f, predicted) - 2 * (f * k) <= 2
    ensures -20719 <= EncoderFixedGain(f, predicted) <= 20719
  {
    hide MultiplyQ12, RoundQ15, Wrap16;
    NarrowedMultiply(f, predicted);
    var p': int := Wrap16(predicted / 0x1000);
    WrapQuotient(predicted / 0x1000);
    var enc := ((f * p') / 0x4000) / 2;
    dec := ((f * predicted) / 0x1000 + 0x4000) / 0x8000;
    UnnarrowedGap(f, predicted, p', k, enc, dec);
    EncoderGainFits(f, p');
    WrapQuotient(enc);
  }

  lemma EncoderGainFits(f: int, p: Word16)
    requires 758 <= f <= 20719
    ensures -20719 <= ((f * p) / 0x4000) / 2 <= 20719
  {
    ProductRange(p, f, 0x8000);
  }

  lemma WrappedGap(m: int, enc: int, dec: int)
    requires 2 <= m % 0x8000 <= 0x7ffe
    requires 0 <= dec - enc - 2 * m <= 2
    ensures !(0 <= Wrap16(dec) - enc <= 2)
  {
    var n := (dec + 0x8000) / 0x1_0000;
    assert Wrap16(dec) == dec - 0x1_0000 * n;
  }

  // ----- erasure runs -----------------------------------------------------------------------

  /** The gains and errors after n erased subframes in a row. */
  datatype GainState = GainState(adaptive: Word16, fixed: Word16, errors: seq<Word16>)

  function ErasedRun(s: GainState, n: nat): (t: GainState)
    requires IsErrors(s.errors)
    ensures IsErrors(t.errors)
  {
    if n == 0 then s
    else
      var u := ErasedRun(s, n - 1);
      GainState(ErasedAdaptiveGain(u.adaptive), ErasedFixedGain(u.fixed), PushError(ErasedError(u.errors), u.errors))
  }

  /** Non-negative gains fall by at least one unit per erased subframe until they are zero. */
  lemma {:induction false} ErasedGainsFade(s: GainState, n: nat)
    requires IsErrors(s.errors) && s.adaptive >= 0 && s.fixed >= 0
    ensures 0 <= ErasedRun(s, n).adaptive <= Max(0, s.adaptive - n)
    ensures 0 <= ErasedRun(s, n).fixed <= Max(0, s.fixed - n)
    decreases n
  {
    if n > 0 {
      ErasedGainsFade(s, n - 1);
    }
  }

  function Max(a: int, b: int): int {
    if a > b then a else b
  }

  predicate AtMost(e: seq<Word16>, m: int)
    requires IsErrors(e)
  {
    e[0] <= m && e[1] <= m && e[2] <= m && e[3] <= m
  }

  lemma NextErased(s: GainState, n: nat)
    requires IsErrors(s.errors)
    ensures var e := ErasedRun(s, n).errors; ErasedRun(s, n + 1).errors == PushError(ErasedError(e), e)
  {
  }

  /** Four erased subframes lower the largest error by 4 dB, down to -14 dB. */
  lemma FourErasures(s: GainState, n: nat, m: int)
    requires IsErrors(s.errors) && AtMost(ErasedRun(s, n).errors, m)
    ensures AtMost(ErasedRun(s, n + 4).errors, Max(-14336, m - 4096))
    ensures m <= -14336 ==> ErasedRun(s, n + 4).errors == [-14336, -14336, -14336, -14336]
  {
    hide ErasedRun, ErasedError;
    var z, a, b, c := ErasedRun(s, n).errors, ErasedRun(s, n + 1).errors, ErasedRun(s, n + 2).errors, ErasedRun(s, n + 3).errors;
    NextErased(s, n);
    NextErased(s, n + 1);
    NextErased(s, n + 2);
    NextErased(s, n + 3);
    OneErasure(z, m);
    OneErasure(a, Max(m, -14336));
    OneErasure(b, Max(m, -14336));
    OneErasure(c, Max(m, -14336));
  }

  lemma OneErasure(e: seq<Word16>, m: int)
    requires IsErrors(e) && AtMost(e, m)
    ensures ErasedError(e) <= Max(-14336, m - 4096)
    ensures m <= -14336 ==> ErasedError(e) == -14336
  {
  }

  lemma {:induction false} ErrorsSink(s: GainState, n: nat)
    requires IsErrors(s.errors)
    ensures AtMost(ErasedRun(s, 4 * n).errors, Max(-14336, 32767 - 4096 * n))
    decreases n
  {
    if n > 0 {
      ErrorsSink(s, n - 1);
      FourErasures(s, 4 * (n - 1), Max(-14336, 32767 - 4096 * (n - 1)));
    }
  }

  lemma {:induction false} ErrorsStay(s: GainState, m: nat, n: nat)
    requires IsErrors(s.errors) && m <= n && ErasedRun(s, m).errors == InitialErrors()
    ensures ErasedRun(s, n).errors == InitialErrors()
    decreases n
  {
    if m < n {
      ErrorsStay(s, m, n - 1);
    }
  }

  /** In any unbroken erasure run, from any state: the four prediction errors are at -14 dB after 52
      subframes and stay there, and non-negative gains are zero from the subframe that equals the
      larger of them on. */
  lemma ErasureRunSettles(s: GainState, n: nat)
    requires IsErrors(s.errors)
    ensures n >= 52 ==> ErasedRun(s, n).errors == [-14336, -14336, -14336, -14336]
    ensures 0 <= s.adaptive <= n && 0 <= s.fixed <= n ==> ErasedRun(s, n).adaptive == 0 == ErasedRun(s, n).fixed
  {
    hide ErasedRun;
    ErrorsSink(s, 12);
    FourErasures(s, 48, -14336);
    if n >= 52 {
      ErrorsStay(s, 52, n);
    }
    if 0 <= s.adaptive <= n && 0 <= s.fixed <= n {
      ErasedGainsFade(s, n);
    }
  }
}
