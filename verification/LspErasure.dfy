/** The code word recomputed for an erased frame (section 4.4.1 of Recommendation G.729): feeding it
    back to the predictor reproduces the repeated frequency, up to the rounding of the tables. */
module LspErasure {
  import opened FixedPoint
  import opened LspQuantizer

  /** What the new code word has to contribute, in Q28. */
  function Residual(l0: nat, q: Word16, h: seq<seq<Word16>>, i: nat): (d: Word32)
    requires l0 < 2 && i < 10 && IsHistory(h)
  {
    AccumulationFits(l0, 0, h, i, 4);
    0x8000 * q - RowsBefore(l0, h, i, 4)
  }

  /** The code word the decoder stores for an erased frame. */
  function RecoveredCodeWord(l0: nat, q: Word16, h: seq<seq<Word16>>, i: nat): Word16
    requires l0 < 2 && i < 10 && IsHistory(h)
  {
    Wrap16(RoundQ15(MultiplyQ12(InverseMaSum(l0, i), Residual(l0, q, h, i))))
  }

  /** The same computed without overflow or narrowing. */
  function ExactCodeWord(l0: nat, q: Word16, h: seq<seq<Word16>>, i: nat): int
    requires l0 < 2 && i < 10 && IsHistory(h)
  {
    ((InverseMaSum(l0, i) * Residual(l0, q, h, i)) / 0x1000 + 0x4000) / 0x8000
  }

  /** 32-bit overflow on the way only shows up as narrowing of the final value. */
  lemma RecoveredIsNarrowed(l0: nat, q: Word16, h: seq<seq<Word16>>, i: nat)
    requires l0 < 2 && i < 10 && IsHistory(h)
    ensures RecoveredCodeWord(l0, q, h, i) == Wrap16(ExactCodeWord(l0, q, h, i))
  {
    NarrowedMultiply(InverseMaSum(l0, i), Residual(l0, q, h, i));
  }

  // ----- the tables are near inverses ---------------------------------------------------

  /** How far the product of the two tables falls short of one, in Q27. */
  function Shortfall(l0: nat, i: nat): int
    requires l0 < 2 && i < 10
  {
    0x800_0000 - MaSum(l0, i) * InverseMaSum(l0, i)
  }

  lemma NearInverse(l0: nat, i: nat)
    requires l0 < 2 && i < 10
    ensures 7798 <= MaSum(l0, i) <= 19772
    ensures 0 < InverseMaSum(l0, i)
    ensures 0 <= Shortfall(l0, i) <= 3 * InverseMaSum(l0, i)
  {
  }

  /** The code word times its weight misses the residual by at most 3 |c| + 10200, in Q28. */
  lemma WeightedCodeWord(s: int, v: int, t: int, d: int, c: int)
    requires 0 < s <= 19772 && 0 < v && t == 0x800_0000 - s * v && 0 <= t <= 3 * v
    requires c == ((v * d) / 0x1000 + 0x4000) / 0x8000
    ensures -(3 * Abs(c) + 10200) <= s * c - d <= 3 * Abs(c) + 10200
  {
    hide Abs;
    var product := v * d;
    var sigma, rho := product % 0x1000, (product / 0x1000 + 0x4000) % 0x8000;
    RoundedTwice(product, c);
    ScaledMiss(s, v, t, d, c, product, sigma, rho);
    TripleProduct(t, v, d);
    var rounding := 0x1000 * (0x4000 - rho) - sigma;
    RoundingBound(rounding, s);
    MissBound(s * c - d, t * d, s * rounding, product, c);
  }

  lemma RoundingBound(rounding: int, s: int)
    requires -0x400_1000 <= rounding <= 0x400_1000 && 0 < s <= 19772
    ensures Abs(s * rounding) <= 0x400_1000 * 19772
  {
    ProductRange(rounding, s, 0x400_1000);
    assert s * rounding == rounding * s;
  }

  /** What the two roundings leave of a Q27 product. */
  lemma RoundedTwice(product: int, c: int)
    requires c == (product / 0x1000 + 0x4000) / 0x8000
    ensures var sigma, rho := product % 0x1000, (product / 0x1000 + 0x4000) % 0x8000;
      0x800_0000 * c == product - sigma + 0x1000 * (0x4000 - rho)
    ensures Abs(product) <= 0x800_0000 * Abs(c) + 0x400_2000
  {
  }

  lemma MissBound(miss: int, td: int, sr: int, product: int, c: int)
    requires 0x800_0000 * miss == -td + sr && Abs(td) <= 3 * Abs(product)
    requires Abs(sr) <= 0x400_1000 * 19772 && Abs(product) <= 0x800_0000 * Abs(c) + 0x400_2000
    ensures -(3 * Abs(c) + 10200) <= miss <= 3 * Abs(c) + 10200
  {
  }

  lemma ScaledMiss(s: int, v: int, t: int, d: int, c: int, product: int, sigma: int, rho: int)
    requires t == 0x800_0000 - s * v && product == v * d
    requires 0x800_0000 * c == product - sigma + 0x1000 * (0x4000 - rho)
    ensures 0x800_0000 * (s * c - d) == -(t * d) + s * (0x1000 * (0x4000 - rho) - sigma)
  {
    assert s * (0x800_0000 * c) == s * product + s * (0x1000 * (0x4000 - rho) - sigma);
    assert s * product == (s * v) * d;
    assert t * d == 0x800_0000 * d - (s * v) * d;
  }

  lemma TripleProduct(t: int, v: int, d: int)
    requires 0 <= t <= 3 * v
    ensures Abs(t * d) <= 3 * Abs(v * d)
  {
    SmallProduct(t, 3 * v, d);
    assert 3 * v * d == 3 * (v * d);
  }

  lemma SmallProduct(t: int, u: int, d: int)
    requires 0 <= t <= u
    ensures Abs(t * d) <= Abs(u * d)
  {
    if d >= 0 {
      assert 0 <= t * d && (u - t) * d >= 0;
    } else {
      assert 0 <= t * -d && (u - t) * -d >= 0;
    }
  }

  // ----- the bound ----------------------------------------------------------------------

  /** The predictor's rounded output before it is narrowed. */
  function RawPrediction(l0: nat, x: int, h: seq<seq<Word16>>, i: nat): int
    requires l0 < 2 && i < 10 && IsHistory(h)
  {
    (Accumulated(l0, x, h, i) + 0x4000) / 0x8000
  }

  lemma PredictionMiss(l0: nat, q: Word16, x: int, h: seq<seq<Word16>>, i: nat)
    requires l0 < 2 && i < 10 && IsHistory(h)
    ensures RawPrediction(l0, x, h, i) - q == (MaSum(l0, i) * x - Residual(l0, q, h, i) + 0x4000) / 0x8000
  {
    hide MaSum, MaPredictor, RowsBefore;
    RowsUnfolded(l0, h, i);
    var m := MaSum(l0, i) * x;
    assert Accumulated(l0, x, h, i) == m - Residual(l0, q, h, i) + 0x8000 * q;
  }

  lemma MissOfCodeWord(l0: nat, q: Word16, h: seq<seq<Word16>>, i: nat)
    requires l0 < 2 && i < 10 && IsHistory(h)
    ensures 7798 <= MaSum(l0, i) <= 19772
    ensures var c := ExactCodeWord(l0, q, h, i);
      -(3 * Abs(c) + 10200) <= MaSum(l0, i) * c - Residual(l0, q, h, i) <= 3 * Abs(c) + 10200
  {
    hide MaSum, InverseMaSum, Residual;
    NearInverse(l0, i);
    WeightedCodeWord(MaSum(l0, i), InverseMaSum(l0, i), Shortfall(l0, i), Residual(l0, q, h, i), ExactCodeWord(l0, q, h, i));
  }

  lemma WithinThree(miss: int, c: int)
    requires -0x8000 <= c <= 0x7fff && -(3 * Abs(c) + 10200) <= miss <= 3 * Abs(c) + 10200
    ensures -3 <= (miss + 0x4000) / 0x8000 <= 3
  {
  }

  /** A code word that does not fit is off by k times 2^16; then the prediction is off by 2 s k, and for no
      entry of the tables is that near a multiple of 2^16. */
  lemma NarrowingShows(l0: nat, i: nat, k: int)
    requires l0 < 2 && i < 10 && k != 0 && -4 <= k <= 4 && (l0 == 1 ==> -2 <= k <= 2)
    ensures 100 <= (2 * k * MaSum(l0, i)) % 0x1_0000 <= 0x1_0000 - 100
  {
    var s := MaSum(l0, i);
    if l0 == 0 {
      assert s in {7798, 8447, 8205, 8293, 8126, 8477, 8703, 9043, 8604};
    } else {
      assert s in {14585, 18333, 19772, 17344, 16426, 16459, 15155, 15220, 16043, 15708};
    }
    hide MaSum;
    assert k == 1 || k == 2 || k == 3 || k == 4 || k == -1 || k == -2 || k == -3 || k == -4;
  }

  /** No exact code word is further out than that. */
  lemma ExactRange(l0: nat, s: int, c: int, d: Word32)
    requires (if l0 == 0 then 7798 else 14585) <= s && -(3 * Abs(c) + 10200) <= s * c - d <= 3 * Abs(c) + 10200
    ensures -275500 <= c <= 275500 && (l0 != 0 ==> -147300 <= c <= 147300)
  {
    var a := Abs(c);
    assert Abs(s * c) == s * a;
    var t := if l0 == 0 then 7798 else 14585;
    assert (s - t) * a >= 0;
    SizeFromProduct(l0, a, t * a, s * a);
  }

  lemma SizeFromProduct(l0: nat, a: int, least: int, product: int)
    requires 0 <= a && least == (if l0 == 0 then 7798 * a else 14585 * a) && least <= product <= 0x8000_0000 + 3 * a + 10200
    ensures a <= 275500 && (l0 != 0 ==> a <= 147300)
  {
  }

  lemma NarrowedMiss(l0: nat, i: nat, c: int, c': int, d: Word32) returns (k: int, e: int)
    requires l0 < 2 && i < 10 && c' == Wrap16(c) && c != c'
    requires var s := MaSum(l0, i); -(3 * Abs(c) + 10200) <= s * c - d <= 3 * Abs(c) + 10200
    ensures k != 0 && -4 <= k <= 4 && (l0 == 1 ==> -2 <= k <= 2) && -26 <= e <= 26
    ensures (MaSum(l0, i) * c' - d + 0x4000) / 0x8000 == e - 2 * k * MaSum(l0, i)
  {
    var s := MaSum(l0, i);
    NearInverse(l0, i);
    SumRange(l0, i);
    hide MaSum;
    ExactRange(l0, s, c, d);
    k := WrapDiffers16(c);
    var miss := s * c - d;
    e := (miss + 0x4000) / 0x8000;
    assert s * c' - d + 0x4000 == (-2 * k * s) * 0x8000 + (miss + 0x4000) by {
      assert s * c == s * c' + s * (0x1_0000 * k);
      assert s * (0x1_0000 * k) == 0x1_0000 * (s * k);
      assert 2 * k * s == 2 * (s * k);
    }
    DivOfShifted(-2 * k * s, miss + 0x4000, 0x8000);
  }

  lemma WrapDiffers16(x: int) returns (k: int)
    ensures x == Wrap16(x) + 0x1_0000 * k
  {
    k := (x + 0x8000) / 0x1_0000;
  }

  lemma SumRange(l0: nat, i: nat)
    requires l0 < 2 && i < 10
    ensures (if l0 == 0 then 7798 else 14585) <= MaSum(l0, i)
  {
  }

  /** Whatever the history and the repeated frequency: predicting with the recovered code word gives
      that frequency back within 3 units of Q13 exactly when the code word fits 16 bits. (A frequency
      within 3 units of the 16-bit limits could be narrowed to the other end.) */
  lemma ErasureInversion(l0: nat, q: Word16, h: seq<seq<Word16>>, i: nat)
    requires l0 < 2 && i < 10 && IsHistory(h) && -0x8000 + 3 <= q <= 0x7fff - 3
    ensures -3 <= Predicted(l0, RecoveredCodeWord(l0, q, h, i), h, i) as int - q as int <= 3
       <==> -0x8000 <= ExactCodeWord(l0, q, h, i) <= 0x7fff
  {
    hide ExactCodeWord, RecoveredCodeWord, MaSum, InverseMaSum, Residual, RawPrediction, Shortfall, Accumulated;
    var c, c' := ExactCodeWord(l0, q, h, i), RecoveredCodeWord(l0, q, h, i);
    var s, d := MaSum(l0, i), Residual(l0, q, h, i);
    RecoveredIsNarrowed(l0, q, h, i);
    MissOfCodeWord(l0, q, h, i);
    PredictionMiss(l0, q, c', h, i);
    var raw := RawPrediction(l0, c', h, i);
    PredictedIsNarrowed(l0, c', h, i);
    if -0x8000 <= c <= 0x7fff {
      NarrowingKeeps(c);
      WithinThree(s * c - d, c);
      NarrowingKeeps(raw);
    } else {
      var k, e := NarrowedMiss(l0, i, c, c', d);
      NarrowingShows(l0, i, k);
      var m := WrapDiffers16(raw);
      NotNear(raw - q, e, 2 * k * s, Wrap16(raw) as int - q as int, m);
    }
  }

  lemma PredictedIsNarrowed(l0: nat, x: int, h: seq<seq<Word16>>, i: nat)
    requires l0 < 2 && i < 10 && IsHistory(h)
    ensures Predicted(l0, x, h, i) == Wrap16(RawPrediction(l0, x, h, i))
  {
    hide Wrap16, Accumulated;
  }

  lemma NotNear(raw: int, e: int, far: int, narrowed: int, m: int)
    requires -26 <= e <= 26 && raw == e - far && raw == narrowed + 0x1_0000 * m && 100 <= far % 0x1_0000 <= 0x1_0000 - 100
    ensures narrowed < -3 || narrowed > 3
  {
    var r := e - narrowed;
    assert far % 0x1_0000 == r % 0x1_0000 by {
      assert r == far + 0x1_0000 * m;
    }
  }
}
