/** The pair the gain search returns leaves the least of the target among the pairs searched, up to what scaling
    the inner products to 32 bits costs (section 3.9 of Recommendation G.729). */
module GainError {
  import opened FixedPoint
  import opened BackwardFilter
  import opened GainTerms
  import opened Gains

  /** All coefficients of the form together: what one unit in every term can change. */
  function Slack(gp: int, gc: int): int {
    gp * gp + gc * gc + 0x8000 * Abs(gp) + 0x8000 * Abs(gc) + 2 * Abs(gp * gc)
  }

  /** A coefficient on a sum against the coefficient on the shifted sum. */
  lemma ShiftedProduct(k: int, v: int, unit: int)
    requires unit > 0
    ensures -(Abs(k) * (unit - 1)) <= k * v - unit * (k * (v / unit)) <= Abs(k) * (unit - 1)
  {
    var q, r := v / unit, v % unit;
    assert v == unit * q + r;
    assert k * v == unit * (k * q) + k * r by {
      assert k * (unit * q) == unit * (k * q);
    }
    ProductRange(r, k, unit - 1);
    assert -(unit - 1) * Abs(k) == -(Abs(k) * (unit - 1)) && (unit - 1) * Abs(k) == Abs(k) * (unit - 1);
  }

  /** The form of the shifted sums, back in the units of the sums, is within its slack. */
  lemma ShiftedForm(xx: int, yy: int, zz: int, xy: int, xz: int, yz: int, gp: int, gc: int, unit: int)
    requires unit > 0
    ensures var exact := Form(xx, yy, zz, xy, xz, yz, gp, gc) - 0x1000_0000 * xx;
      var shifted := unit * Form(0, yy / unit, zz / unit, xy / unit, xz / unit, yz / unit, gp, gc);
      -(Slack(gp, gc) * (unit - 1)) <= exact - shifted <= Slack(gp, gc) * (unit - 1)
  {
    hide Form, Slack, Abs;
    var a, b, c, d, e := gp * gp, gc * gc, 2 * (gp * 0x4000), 2 * (gc * 0x4000), 2 * (gp * gc);
    FormIs(xx, yy, zz, xy, xz, yz, gp, gc, a, b, c, d, e);
    FormIs(0, yy / unit, zz / unit, xy / unit, xz / unit, yz / unit, gp, gc, a, b, c, d, e);
    SlackIs(gp, gc);
    WeightedShift(xx, yy, zz, xy, xz, yz, a, b, c, d, e, unit);
  }

  lemma FormIs(xx: int, yy: int, zz: int, xy: int, xz: int, yz: int, gp: int, gc: int, a: int, b: int, c: int, d: int, e: int)
    requires a == gp * gp && b == gc * gc && c == 2 * (gp * 0x4000) && d == 2 * (gc * 0x4000) && e == 2 * (gp * gc)
    ensures Form(xx, yy, zz, xy, xz, yz, gp, gc) == 0x1000_0000 * xx + (a * yy + b * zz - c * xy - d * xz + e * yz)
  {
  }

  lemma WeightedShift(xx: int, yy: int, zz: int, xy: int, xz: int, yz: int, a: int, b: int, c: int, d: int, e: int, unit: int)
    requires unit > 0
    ensures var exact := a * yy + b * zz - c * xy - d * xz + e * yz;
      var shifted := unit * (a * (yy / unit) + b * (zz / unit) - c * (xy / unit) - d * (xz / unit) + e * (yz / unit));
      var slack := (Abs(a) + Abs(b) + Abs(c) + Abs(d) + Abs(e)) * (unit - 1);
      -slack <= exact - shifted <= slack
  {
    hide Abs;
    ShiftedProduct(a, yy, unit);
    ShiftedProduct(b, zz, unit);
    ShiftedProduct(c, xy, unit);
    ShiftedProduct(d, xz, unit);
    ShiftedProduct(e, yz, unit);
    FiveTimes(unit, a * (yy / unit), b * (zz / unit), c * (xy / unit), d * (xz / unit), e * (yz / unit));
    FiveSlacks(Abs(a), Abs(b), Abs(c), Abs(d), Abs(e), unit - 1);
  }

  lemma SlackIs(gp: int, gc: int)
    ensures Slack(gp, gc) == Abs(gp * gp) + Abs(gc * gc) + Abs(2 * (gp * 0x4000)) + Abs(2 * (gc * 0x4000)) + Abs(2 * (gp * gc))
  {
    SquareIsNotNegative(gp);
    SquareIsNotNegative(gc);
  }

  lemma FiveTimes(unit: int, a: int, b: int, c: int, d: int, e: int)
    ensures unit * (a + b - c - d + e) == unit * a + unit * b - unit * c - unit * d + unit * e
  {
  }

  lemma FiveSlacks(a: int, b: int, c: int, d: int, e: int, m: int)
    ensures (a + b + c + d + e) * m == a * m + b * m + c * m + d * m + e * m
  {
  }

  /** The error of the pair (i, j) on the signals. */
  function PairError(x: seq<Word16>, y: seq<Word16>, z: seq<Word16>, predictedQ4: Word16, i: nat, j: nat): int
    requires |x| == |y| == |z| == N && i < 8 && j < 16
  {
    Error(x, y, z, AdaptiveGain(i, j), EncoderCandidate(Factor(i, j), predictedQ4), N)
  }

  function PairSlack(predictedQ4: Word16, i: nat, j: nat): int
    requires i < 8 && j < 16
  {
    Slack(AdaptiveGain(i, j), EncoderCandidate(Factor(i, j), predictedQ4))
  }

  /** The distance the search compares is the error on the signals less the target's own energy, in units of 2^s. */
  lemma DistanceIsError(x: seq<Word16>, y: seq<Word16>, z: seq<Word16>, t: Terms, s: nat, predictedQ4: Word16, i: nat, j: nat)
    requires |x| == |y| == |z| == N && Bounded(t) && i < 8 && j < 16
    requires ShiftedTerms(t, Inner(x, y, N), Inner(y, y, N), Inner(x, z, N), Inner(y, z, N), Inner(z, z, N), s)
    ensures var exact := PairError(x, y, z, predictedQ4, i, j) - 0x1000_0000 * Inner(x, x, N);
      var m := PairSlack(predictedQ4, i, j) * (Pow2(s) - 1);
      -m <= exact - Pow2(s) * CandidateDistance(t, predictedQ4, i, j) <= m
  {
    hide Error, Inner, AdaptiveGain, Factor, EncoderCandidate, CandidateDistance, Form, Slack, Pow2, Bounded;
    var gp, gc := AdaptiveGain(i, j), EncoderCandidate(Factor(i, j), predictedQ4);
    CandidateIsSeen(t, predictedQ4, i, j);
    ErrorIsForm(x, y, z, gp, gc, N);
    ShiftedForm(Inner(x, x, N), Inner(y, y, N), Inner(z, z, N), Inner(x, y, N), Inner(x, z, N), Inner(y, z, N), gp, gc, Pow2(s));
  }

  /** No pair of the windows leaves less of the target than the one the search returns; when the inner products had to be
      shifted down by s bits, no more than 2^s - 1 times both pairs' slack less. */
  lemma QuantizedIsBest(x: seq<Word16>, y: seq<Word16>, z: seq<Word16>, t: Terms, s: nat, predictedQ4: Word16,
                        baseGa: nat, baseGb: nat, ga: nat, gb: nat, i: nat, j: nat)
    requires |x| == |y| == |z| == N && Bounded(t) && baseGa <= 4 && baseGb <= 8
    requires ShiftedTerms(t, Inner(x, y, N), Inner(y, y, N), Inner(x, z, N), Inner(y, z, N), Inner(z, z, N), s)
    requires ga < 8 && gb < 16 && BestInWindows(t, predictedQ4, baseGa, baseGb, ga, gb) && InWindows(baseGa, baseGb, i, j)
    ensures PairError(x, y, z, predictedQ4, ga, gb)
         <= PairError(x, y, z, predictedQ4, i, j) + (PairSlack(predictedQ4, ga, gb) + PairSlack(predictedQ4, i, j)) * (Pow2(s) - 1)
    ensures s == 0 ==> PairError(x, y, z, predictedQ4, ga, gb) <= PairError(x, y, z, predictedQ4, i, j)
  {
    hide CandidateDistance, PairError, PairSlack, Inner, ShiftedTerms, Bounded;
    CandidateIsSeen(t, predictedQ4, i, j);
    DistanceIsError(x, y, z, t, s, predictedQ4, ga, gb);
    DistanceIsError(x, y, z, t, s, predictedQ4, i, j);
    assert s == 0 ==> Pow2(s) == 1;
    hide Pow2;
    OrderKept(CandidateDistance(t, predictedQ4, ga, gb), CandidateDistance(t, predictedQ4, i, j), Pow2(s));
    TwoSlacks(PairSlack(predictedQ4, ga, gb), PairSlack(predictedQ4, i, j), Pow2(s) - 1);
  }

  lemma OrderKept(a: int, b: int, unit: int)
    requires a <= b && unit > 0
    ensures unit * a <= unit * b
  {
  }

  lemma TwoSlacks(a: int, b: int, m: int)
    ensures (a + b) * m == a * m + b * m && (m == 0 ==> (a + b) * m == 0)
  {
  }
}
