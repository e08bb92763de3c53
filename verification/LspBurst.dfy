/** A burst of erased frames seen by one coefficient: the code words recovered one after another all fit
    16 bits when the five before the burst had the shape of code words. */
module LspBurst {
  import opened FixedPoint
  import opened LspQuantizer
  import opened LspErasure
  import opened LspShape
  import opened LspSettled

  /** What a recovered code word that fits can leave of the repeated frequency, in Q28. */
  const NOISE: int := 108504

  /** Five weighted values. */
  function Five(w1: int, w2: int, w3: int, w4: int, w5: int, c1: int, c2: int, c3: int, c4: int, c5: int): int {
    w1 * c1 + w2 * c2 + w3 * c3 + w4 * c4 + w5 * c5
  }

  /** The share of the last four values of the column in the next prediction. */
  function Past(l0: nat, i: nat, c: seq<int>): int
    requires l0 < 2 && i < 10 && |c| >= 4
  {
    var n := |c|;
    Five(MaPredictor(l0, 0, i), MaPredictor(l0, 1, i), MaPredictor(l0, 2, i), MaPredictor(l0, 3, i), 0, c[n - 1], c[n - 2], c[n - 3], c[n - 4], 0)
  }

  /** The sum predicted by value k and the four before it. */
  function Weighted(l0: nat, i: nat, c: seq<int>, k: nat): int
    requires l0 < 2 && i < 10 && 4 <= k < |c|
  {
    Five(MaSum(l0, i), MaPredictor(l0, 0, i), MaPredictor(l0, 1, i), MaPredictor(l0, 2, i), MaPredictor(l0, 3, i),
         c[k], c[k - 1], c[k - 2], c[k - 3], c[k - 4])
  }

  predicate IsWord(x: int) {
    -0x8000 <= x <= 0x7fff
  }

  /** Five code words, oldest first, that led to the frequency q kept, then the recovered ones. */
  predicate Column(l0: nat, i: nat, q: int, c: seq<int>)
    requires l0 < 2 && i < 10
  {
    && |c| >= 5 && (forall k :: 0 <= k < |c| ==> IsWord(c[k]))
    && (forall k :: 0 <= k < 5 ==> Low(i) <= c[k] <= High(i))
    && Settled(l0, q, Weighted(l0, i, c, 4), i)
    && forall k :: 5 <= k < |c| ==> Near(q, Weighted(l0, i, c, k))
  }

  predicate Near(q: int, sum: int) {
    -NOISE <= 0x8000 * q - sum <= NOISE
  }

  // ----- the three kinds of step ------------------------------------------------------------

  /** x solves s x = d up to what the recovery loses; d small enough makes x a word. */
  lemma FitsFromResidual(s: int, d: int, x: int)
    requires 7798 <= s && -(3 * Abs(x) + 10200) <= s * x - d <= 3 * Abs(x) + 10200
    requires -((s - 3) * 0x8000) + 10201 <= d <= (s - 3) * 0x8000 - 10201
    ensures IsWord(x)
  {
    if x >= 0x8000 {
      ProductGrows(s - 3, 0x8000, x);
    } else if x < -0x8000 {
      ProductGrows(s - 3, 0x8000, -x);
    }
  }

  lemma ProductGrows(w: int, x: int, y: int)
    requires w >= 0 && x <= y
    ensures w * x <= w * y
  {
  }

  /** A prediction less the next one's past weighs five values by differences of the table. */
  lemma Differences(s: int, p: int, q: int, r: int, t: int, c1: int, c2: int, c3: int, c4: int, c5: int)
    ensures Five(s, p, q, r, t, c1, c2, c3, c4, c5) - Five(p, q, r, t, 0, c1, c2, c3, c4, 0)
         == Five(s - p, p - q, q - r, r - t, t, c1, c2, c3, c4, c5)
  {
  }

  /** The tables fall off from row to row. */
  lemma RowsFall(l0: nat, i: nat)
    requires l0 < 2 && i < 10
    ensures 7798 <= MaSum(l0, i) && 0 <= MaPredictor(l0, 3, i) <= MaPredictor(l0, 2, i) <= MaPredictor(l0, 1, i) <= MaPredictor(l0, 0, i)
  {
  }

  lemma FiveBetween(w1: int, w2: int, w3: int, w4: int, w5: int, c1: int, c2: int, c3: int, c4: int, c5: int, low: int, high: int)
    requires 0 <= w2 && 0 <= w3 && 0 <= w4 && 0 <= w5
    requires low <= c1 <= high && low <= c2 <= high && low <= c3 <= high && low <= c4 <= high && low <= c5 <= high
    ensures (if w1 >= 0 then w1 * low else w1 * high) + w2 * low + w3 * low + w4 * low + w5 * low <= Five(w1, w2, w3, w4, w5, c1, c2, c3, c4, c5)
    ensures Five(w1, w2, w3, w4, w5, c1, c2, c3, c4, c5) <= (if w1 >= 0 then w1 * high else w1 * low) + w2 * high + w3 * high + w4 * high + w5 * high
  {
    WeightedBound(w2, c2, low, high);
    WeightedBound(w3, c3, low, high);
    WeightedBound(w4, c4, low, high);
    WeightedBound(w5, c5, low, high);
    if w1 >= 0 {
      WeightedBound(w1, c1, low, high);
    } else {
      WeightedBound(-w1, c1, low, high);
      Negate(w1, c1);
      Negate(w1, low);
      Negate(w1, high);
    }
  }

  /** The first erased frame: d lies within the range of the five rows, and what stabilising moved. */
  lemma FirstStep(s: int, p: int, q: int, r: int, t: int, c1: int, c2: int, c3: int, c4: int, c5: int, low: int, high: int)
    requires 0 <= t <= r <= q <= p
    requires low <= c1 <= high && low <= c2 <= high && low <= c3 <= high && low <= c4 <= high && low <= c5 <= high
    ensures var d := Five(s - p, p - q, q - r, r - t, t, c1, c2, c3, c4, c5);
      (if s >= p then (s - p) * low else (s - p) * high) + p * low <= d <= (if s >= p then (s - p) * high else (s - p) * low) + p * high
  {
    hide Five;
    FiveBetween(s - p, p - q, q - r, r - t, t, c1, c2, c3, c4, c5, low, high);
    Telescope(p, q, r, t, low);
    Telescope(p, q, r, t, high);
  }

  lemma Negate(w: int, x: int)
    ensures -w * x == -(w * x)
  {
  }

  lemma Telescope(p: int, q: int, r: int, t: int, x: int)
    ensures p * x == (p - q) * x + (q - r) * x + (r - t) * x + t * x
  {
  }

  lemma FirstLimit(l0: nat, i: nat)
    requires l0 < 2 && i < 10
    ensures var s, p := MaSum(l0, i), MaPredictor(l0, 0, i);
      && 0x8000 * Rise(l0, i) + (if s >= p then (s - p) * High(i) else (s - p) * Low(i)) + p * High(i) <= (s - 3) * 0x8000 - 10201
      && -0x8000 * FALL + (if s >= p then (s - p) * Low(i) else (s - p) * High(i)) + p * Low(i) >= -((s - 3) * 0x8000) + 10201
  {
  }

  lemma FiveAtMost(w1: int, w2: int, w3: int, w4: int, w5: int, c1: int, c2: int, c3: int, c4: int, c5: int, high: int)
    requires 0 <= w2 && 0 <= w3 && 0 <= w4 && 0 <= w5 && IsWord(c1) && IsWord(c2) && IsWord(c3)
    requires -high <= c4 <= high && -high <= c5 <= high
    ensures Abs(Five(w1, w2, w3, w4, w5, c1, c2, c3, c4, c5)) <= 0x8000 * (Abs(w1) + w2 + w3) + w4 * high + w5 * high
  {
    WordProduct(w1, c1);
    WordProduct(w2, c2);
    WordProduct(w3, c3);
    SymmetricProduct(w4, c4, high);
    SymmetricProduct(w5, c5, high);
  }

  lemma SymmetricProduct(w: int, c: int, high: int)
    requires 0 <= w && -high <= c <= high
    ensures -(w * high) <= w * c <= w * high
  {
    assert w * (high - c) >= 0 && w * (high + c) >= 0;
  }

  /** The second to the fourth: the three newest values may be any words. */
  lemma MiddleStep(s: int, p: int, q: int, r: int, t: int, c1: int, c2: int, c3: int, c4: int, c5: int, high: int)
    requires 0 <= t <= r <= q <= p && IsWord(c1) && IsWord(c2) && IsWord(c3)
    requires -high <= c4 <= high && -high <= c5 <= high
    ensures Abs(Five(s - p, p - q, q - r, r - t, t, c1, c2, c3, c4, c5)) <= 0x8000 * (Abs(s - p) + (p - r)) + r * high
  {
    hide Five, Abs;
    FiveAtMost(s - p, p - q, q - r, r - t, t, c1, c2, c3, c4, c5, high);
    assert r * high == (r - t) * high + t * high;
  }

  lemma MiddleLimit(l0: nat, i: nat)
    requires l0 < 2 && i < 10
    ensures var s, p, r := MaSum(l0, i), MaPredictor(l0, 0, i), MaPredictor(l0, 2, i);
      NOISE + 0x8000 * (Abs(s - p) + (p - r)) + r * High(i) <= (s - 3) * 0x8000 - 10201
    ensures -High(i) <= Low(i)
  {
  }

  /** Weight k of the combination 20, -22, 6, -1, -2 of five neighbouring relations. */
  function Combined(k: nat, s: int, p: int, q: int, r: int, t: int): int {
    match k
    case 1 => 20 * p - 22 * s
    case 2 => 20 * q - 22 * p + 6 * s
    case 3 => 20 * r - 22 * q + 6 * p - s
    case 4 => 20 * t - 22 * r + 6 * q - p - 2 * s
    case 5 => -22 * t + 6 * r - q - 2 * p
    case 6 => 6 * t - r - 2 * q
    case 7 => -t - 2 * r
    case _ => -2 * t
  }

  /** Eight values with those weights. */
  function Eight(s: int, p: int, q: int, r: int, t: int, c1: int, c2: int, c3: int, c4: int, c5: int, c6: int, c7: int, c8: int): int {
    Combined(1, s, p, q, r, t) * c1 + Combined(2, s, p, q, r, t) * c2 + Combined(3, s, p, q, r, t) * c3 + Combined(4, s, p, q, r, t) * c4
      + Combined(5, s, p, q, r, t) * c5 + Combined(6, s, p, q, r, t) * c6 + Combined(7, s, p, q, r, t) * c7 + Combined(8, s, p, q, r, t) * c8
  }

  /** Later on, five neighbouring relations combine to one whose weights add up to less. */
  lemma LaterSum(s: int, p: int, q: int, r: int, t: int, c1: int, c2: int, c3: int, c4: int, c5: int, c6: int, c7: int, c8: int)
    ensures 20 * Five(p, q, r, t, 0, c1, c2, c3, c4, 0)
              - 22 * Five(s, p, q, r, t, c1, c2, c3, c4, c5) + 6 * Five(s, p, q, r, t, c2, c3, c4, c5, c6)
              - Five(s, p, q, r, t, c3, c4, c5, c6, c7) - 2 * Five(s, p, q, r, t, c4, c5, c6, c7, c8)
         == Eight(s, p, q, r, t, c1, c2, c3, c4, c5, c6, c7, c8)
  {
  }

  /** The weights of that relation, all together. */
  function LaterWeight(s: int, p: int, q: int, r: int, t: int): int {
    Abs(Combined(1, s, p, q, r, t)) + Abs(Combined(2, s, p, q, r, t)) + Abs(Combined(3, s, p, q, r, t)) + Abs(Combined(4, s, p, q, r, t))
      + Abs(Combined(5, s, p, q, r, t)) + Abs(Combined(6, s, p, q, r, t)) + Abs(Combined(7, s, p, q, r, t)) + Abs(Combined(8, s, p, q, r, t))
  }

  lemma LaterBound(s: int, p: int, q: int, r: int, t: int, c1: int, c2: int, c3: int, c4: int, c5: int, c6: int, c7: int, c8: int)
    requires IsWord(c1) && IsWord(c2) && IsWord(c3) && IsWord(c4) && IsWord(c5) && IsWord(c6) && IsWord(c7) && IsWord(c8)
    ensures Abs(Eight(s, p, q, r, t, c1, c2, c3, c4, c5, c6, c7, c8)) <= 0x8000 * LaterWeight(s, p, q, r, t)
  {
    hide Combined;
    WordProduct(Combined(1, s, p, q, r, t), c1);
    WordProduct(Combined(2, s, p, q, r, t), c2);
    WordProduct(Combined(3, s, p, q, r, t), c3);
    WordProduct(Combined(4, s, p, q, r, t), c4);
    WordProduct(Combined(5, s, p, q, r, t), c5);
    WordProduct(Combined(6, s, p, q, r, t), c6);
    WordProduct(Combined(7, s, p, q, r, t), c7);
    WordProduct(Combined(8, s, p, q, r, t), c8);
  }

  lemma WordProduct(w: int, c: int)
    requires IsWord(c)
    ensures -0x8000 * Abs(w) <= w * c <= 0x8000 * Abs(w)
  {
    ProductRange(c, w, 0x8000);
  }

  /** For the second predictor two relations are enough: the combination 4, -3. */
  lemma ShortSum(s: int, p: int, q: int, r: int, t: int, c1: int, c2: int, c3: int, c4: int, c5: int)
    ensures 4 * Five(p, q, r, t, 0, c1, c2, c3, c4, 0) - 3 * Five(s, p, q, r, t, c1, c2, c3, c4, c5)
         == Five(4 * p - 3 * s, 4 * q - 3 * p, 4 * r - 3 * q, 4 * t - 3 * r, -3 * t, c1, c2, c3, c4, c5)
  {
  }

  function ShortWeight(w1: int, w2: int, w3: int, w4: int, w5: int): int {
    Abs(w1) + Abs(w2) + Abs(w3) + Abs(w4) + Abs(w5)
  }

  lemma ShortBound(w1: int, w2: int, w3: int, w4: int, w5: int, c1: int, c2: int, c3: int, c4: int, c5: int)
    requires IsWord(c1) && IsWord(c2) && IsWord(c3) && IsWord(c4) && IsWord(c5)
    ensures -0x8000 * ShortWeight(w1, w2, w3, w4, w5) <= Five(w1, w2, w3, w4, w5, c1, c2, c3, c4, c5) <= 0x8000 * ShortWeight(w1, w2, w3, w4, w5)
  {
    WordProduct(w1, c1);
    WordProduct(w2, c2);
    WordProduct(w3, c3);
    WordProduct(w4, c4);
    WordProduct(w5, c5);
  }

  predicate LaterFits(i: nat)
    requires i < 10
  {
    LaterRoom(MaSum(0, i), MaPredictor(0, 0, i), MaPredictor(0, 1, i), MaPredictor(0, 2, i), MaPredictor(0, 3, i), High(i) + Rise(0, i))
  }

  predicate LaterRoom(s: int, p: int, q: int, r: int, t: int, kept: int) {
    0x8000 * LaterWeight(s, p, q, r, t) + 0x8000 * kept + 31 * NOISE <= 20 * ((s - 3) * 0x8000 - 10201)
  }

  lemma LaterLimit(i: nat)
    requires i < 10
    ensures LaterFits(i)
  {
    hide LaterFits;
    LaterLimitA();
    LaterLimitB();
    LaterLimitC();
    LaterLimitD();
    LaterLimitE();
  }

  lemma LaterLimitA()
    ensures LaterFits(0) && LaterFits(1)
  {
    assert MaSum(0, 0) == 7798 && MaPredictor(0, 0, 0) == 8421 && MaPredictor(0, 1, 0) == 7018
        && MaPredictor(0, 2, 0) == 5472 && MaPredictor(0, 3, 0) == 4056;
    assert MaSum(0, 1) == 8447 && MaPredictor(0, 0, 1) == 9109 && MaPredictor(0, 1, 1) == 7189
        && MaPredictor(0, 2, 1) == 4990 && MaPredictor(0, 3, 1) == 3031;
    hide MaSum, MaPredictor;
  }

  lemma LaterLimitB()
    ensures LaterFits(2) && LaterFits(3)
  {
    assert MaSum(0, 2) == 8205 && MaPredictor(0, 0, 2) == 9175 && MaPredictor(0, 1, 2) == 7638
        && MaPredictor(0, 2, 2) == 5134 && MaPredictor(0, 3, 2) == 2614;
    assert MaSum(0, 3) == 8293 && MaPredictor(0, 0, 3) == 8965 && MaPredictor(0, 1, 3) == 7307
        && MaPredictor(0, 2, 3) == 5177 && MaPredictor(0, 3, 3) == 3024;
    hide MaSum, MaPredictor;
  }

  lemma LaterLimitC()
    ensures LaterFits(4) && LaterFits(5)
  {
    assert MaSum(0, 4) == 8126 && MaPredictor(0, 0, 4) == 9034 && MaPredictor(0, 1, 4) == 7444
        && MaPredictor(0, 2, 4) == 5246 && MaPredictor(0, 3, 4) == 2916;
    assert MaSum(0, 5) == 8477 && MaPredictor(0, 0, 5) == 9057 && MaPredictor(0, 1, 5) == 7379
        && MaPredictor(0, 2, 5) == 5141 && MaPredictor(0, 3, 5) == 2713;
    hide MaSum, MaPredictor;
  }

  lemma LaterLimitD()
    ensures LaterFits(6) && LaterFits(7)
  {
    assert MaSum(0, 6) == 8447 && MaPredictor(0, 0, 6) == 8765 && MaPredictor(0, 1, 6) == 7038
        && MaPredictor(0, 2, 6) == 5206 && MaPredictor(0, 3, 6) == 3309;
    assert MaSum(0, 7) == 8703 && MaPredictor(0, 0, 7) == 8775 && MaPredictor(0, 1, 7) == 6956
        && MaPredictor(0, 2, 7) == 5095 && MaPredictor(0, 3, 7) == 3237;
    hide MaSum, MaPredictor;
  }

  lemma LaterLimitE()
    ensures LaterFits(8) && LaterFits(9)
  {
    assert MaSum(0, 8) == 9043 && MaPredictor(0, 0, 8) == 9106 && MaPredictor(0, 1, 8) == 6930
        && MaPredictor(0, 2, 8) == 4830 && MaPredictor(0, 3, 8) == 2857;
    assert MaSum(0, 9) == 8604 && MaPredictor(0, 0, 9) == 8673 && MaPredictor(0, 1, 9) == 6868
        && MaPredictor(0, 2, 9) == 5147 && MaPredictor(0, 3, 9) == 3473;
    hide MaSum, MaPredictor;
  }

  predicate ShortFits(i: nat)
    requires i < 10
  {
    ShortRoom(MaSum(1, i), MaPredictor(1, 0, i), MaPredictor(1, 1, i), MaPredictor(1, 2, i), MaPredictor(1, 3, i),
              0x8000 * (High(i) + Rise(1, i)))
  }

  predicate ShortRoom(s: int, p: int, q: int, r: int, t: int, limit: int) {
    0x8000 * ShortWeight(4 * p - 3 * s, 4 * q - 3 * p, 4 * r - 3 * q, 4 * t - 3 * r, -3 * t) + limit + 3 * NOISE <= 4 * ((s - 3) * 0x8000 - 10201)
  }

  lemma ShortLimit(i: nat)
    requires i < 10
    ensures ShortFits(i)
  {
  }

  // ----- the next recovered code word -------------------------------------------------------

  /** The frequency kept is in range. */
  lemma KeptRange(l0: nat, i: nat, q: int, c: seq<int>)
    requires l0 < 2 && i < 10 && Column(l0, i, q, c)
    ensures Abs(0x8000 * q) <= 0x8000 * (High(i) + Rise(l0, i))
  {
    PredictorWeights(l0, i);
    RowsFall(l0, i);
    var low, high := Low(i), High(i);
    BoxRange(l0, i);
    hide MaSum, MaPredictor, Low, High, Rise;
    WeightedSumBound(MaSum(l0, i), MaPredictor(l0, 0, i), MaPredictor(l0, 1, i), MaPredictor(l0, 2, i), MaPredictor(l0, 3, i),
                     c[4], c[3], c[2], c[1], c[0], -930, high);
  }

  lemma BoxRange(l0: nat, i: nat)
    requires l0 < 2 && i < 10
    ensures -930 <= Low(i) <= High(i) && High(i) + Rise(l0, i) >= 6787
  {
  }

  /** How the recovered word x solves for the frequency kept. */
  predicate Solves(l0: nat, i: nat, q: int, c: seq<int>, x: int)
    requires l0 < 2 && i < 10 && |c| >= 4
  {
    -(3 * Abs(x) + 10200) <= MaSum(l0, i) * x - (0x8000 * q - Past(l0, i, c)) <= 3 * Abs(x) + 10200
  }

  lemma FirstFits(l0: nat, i: nat, q: int, c: seq<int>, x: int)
    requires l0 < 2 && i < 10 && Column(l0, i, q, c) && |c| == 5 && Solves(l0, i, q, c, x)
    ensures IsWord(x)
  {
    hide MaSum, MaPredictor, Low, High, Rise, Five;
    RowsFall(l0, i);
    FirstLimit(l0, i);
    var s, p, r, t, u := MaSum(l0, i), MaPredictor(l0, 0, i), MaPredictor(l0, 1, i), MaPredictor(l0, 2, i), MaPredictor(l0, 3, i);
    FirstStep(s, p, r, t, u, c[4], c[3], c[2], c[1], c[0], Low(i), High(i));
    Differences(s, p, r, t, u, c[4], c[3], c[2], c[1], c[0]);
    FitsFromResidual(s, 0x8000 * q - Past(l0, i, c), x);
  }

  lemma MiddleFits(l0: nat, i: nat, q: int, c: seq<int>, x: int)
    requires l0 < 2 && i < 10 && Column(l0, i, q, c) && 6 <= |c| <= 8 && Solves(l0, i, q, c, x)
    ensures IsWord(x)
  {
    hide MaSum, MaPredictor, Low, High, Five;
    RowsFall(l0, i);
    MiddleLimit(l0, i);
    var n := |c|;
    assert Near(q, Weighted(l0, i, c, n - 1));
    assert Low(i) <= c[n - 4] <= High(i) && Low(i) <= c[n - 5] <= High(i);
    var s, p, r, t, u := MaSum(l0, i), MaPredictor(l0, 0, i), MaPredictor(l0, 1, i), MaPredictor(l0, 2, i), MaPredictor(l0, 3, i);
    MiddleStep(s, p, r, t, u, c[n - 1], c[n - 2], c[n - 3], c[n - 4], c[n - 5], High(i));
    Differences(s, p, r, t, u, c[n - 1], c[n - 2], c[n - 3], c[n - 4], c[n - 5]);
    FitsFromResidual(s, 0x8000 * q - Past(l0, i, c), x);
  }

  /** From the combination to the residual of the next code word: k of it are left over. */
  lemma ResidualOfFour(room: int, kept: int, past: int, w1: int, w2: int, w3: int, w4: int, sum: int, bound: int, limit: int)
    requires -limit <= kept <= limit && -bound <= sum <= bound
    requires Close(kept, w1) && Close(kept, w2) && Close(kept, w3) && Close(kept, w4)
    requires 20 * past - 22 * w1 + 6 * w2 - w3 - 2 * w4 == sum && bound + limit + 31 * NOISE <= 20 * room
    ensures -room <= kept - past <= room
  {
  }

  lemma ResidualOfOne(room: int, kept: int, past: int, w1: int, sum: int, bound: int, limit: int)
    requires -limit <= kept <= limit && -bound <= sum <= bound && Close(kept, w1)
    requires 4 * past - 3 * w1 == sum && bound + limit + 3 * NOISE <= 4 * room
    ensures -room <= kept - past <= room
  {
  }

  predicate Close(kept: int, sum: int) {
    -NOISE <= kept - sum <= NOISE
  }

  lemma LaterFirst(i: nat, q: int, c: seq<int>, x: int)
    requires i < 10 && Column(0, i, q, c) && |c| >= 9 && Solves(0, i, q, c, x)
    ensures IsWord(x)
  {
    hide MaSum, MaPredictor, Low, High, Rise, LaterWeight, Five, Eight, Combined;
    var n := |c|;
    RowsFall(0, i);
    LaterLimit(i);
    KeptRange(0, i, q, c);
    assert Near(q, Weighted(0, i, c, n - 1)) && Near(q, Weighted(0, i, c, n - 2));
    assert Near(q, Weighted(0, i, c, n - 3)) && Near(q, Weighted(0, i, c, n - 4));
    var s, p, r, t, u := MaSum(0, i), MaPredictor(0, 0, i), MaPredictor(0, 1, i), MaPredictor(0, 2, i), MaPredictor(0, 3, i);
    LaterSum(s, p, r, t, u, c[n - 1], c[n - 2], c[n - 3], c[n - 4], c[n - 5], c[n - 6], c[n - 7], c[n - 8]);
    LaterBound(s, p, r, t, u, c[n - 1], c[n - 2], c[n - 3], c[n - 4], c[n - 5], c[n - 6], c[n - 7], c[n - 8]);
    ResidualOfFour((s - 3) * 0x8000 - 10201, 0x8000 * q, Past(0, i, c), Weighted(0, i, c, n - 1), Weighted(0, i, c, n - 2), Weighted(0, i, c, n - 3),
                   Weighted(0, i, c, n - 4), Eight(s, p, r, t, u, c[n - 1], c[n - 2], c[n - 3], c[n - 4], c[n - 5], c[n - 6], c[n - 7], c[n - 8]),
                   0x8000 * LaterWeight(s, p, r, t, u), 0x8000 * (High(i) + Rise(0, i)));
    FitsFromResidual(s, 0x8000 * q - Past(0, i, c), x);
  }

  lemma LaterSecond(i: nat, q: int, c: seq<int>, x: int)
    requires i < 10 && Column(1, i, q, c) && |c| >= 9 && Solves(1, i, q, c, x)
    ensures IsWord(x)
  {
    var n := |c|;
    RowsFall(1, i);
    ShortLimit(i);
    KeptRange(1, i, q, c);
    assert Near(q, Weighted(1, i, c, n - 1));
    var s, p, r, t, u := MaSum(1, i), MaPredictor(1, 0, i), MaPredictor(1, 1, i), MaPredictor(1, 2, i), MaPredictor(1, 3, i);
    hide MaSum, MaPredictor, Low, High, Rise, Five, ShortWeight;
    ShortResidual(s, p, r, t, u, c[n - 1], c[n - 2], c[n - 3], c[n - 4], c[n - 5], 0x8000 * q, 0x8000 * (High(i) + Rise(1, i)));
    FitsFromResidual(s, 0x8000 * q - Past(1, i, c), x);
  }

  lemma ShortResidual(s: int, p: int, q: int, r: int, t: int, c1: int, c2: int, c3: int, c4: int, c5: int, kept: int, limit: int)
    requires IsWord(c1) && IsWord(c2) && IsWord(c3) && IsWord(c4) && IsWord(c5)
    requires Close(kept, Five(s, p, q, r, t, c1, c2, c3, c4, c5)) && Abs(kept) <= limit && ShortRoom(s, p, q, r, t, limit)
    ensures -((s - 3) * 0x8000 - 10201) <= kept - Five(p, q, r, t, 0, c1, c2, c3, c4, 0) <= (s - 3) * 0x8000 - 10201
  {
    hide Five, ShortWeight;
    ShortSum(s, p, q, r, t, c1, c2, c3, c4, c5);
    var w1, w2, w3, w4, w5 := 4 * p - 3 * s, 4 * q - 3 * p, 4 * r - 3 * q, 4 * t - 3 * r, -3 * t;
    ShortBound(w1, w2, w3, w4, w5, c1, c2, c3, c4, c5);
    ResidualOfOne((s - 3) * 0x8000 - 10201, kept, Five(p, q, r, t, 0, c1, c2, c3, c4, 0), Five(s, p, q, r, t, c1, c2, c3, c4, c5),
                  Five(w1, w2, w3, w4, w5, c1, c2, c3, c4, c5), 0x8000 * ShortWeight(w1, w2, w3, w4, w5), limit);
  }

  /** Whatever the length of the burst, the next recovered code word fits, and the column goes on. */
  lemma NextFits(l0: nat, i: nat, q: int, c: seq<int>, x: int)
    requires l0 < 2 && i < 10 && Column(l0, i, q, c) && Solves(l0, i, q, c, x)
    ensures IsWord(x) && Column(l0, i, q, c + [x])
  {
    hide MaSum, MaPredictor, Low, High, Settled;
    if |c| == 5 {
      FirstFits(l0, i, q, c, x);
    } else if |c| <= 8 {
      MiddleFits(l0, i, q, c, x);
    } else if l0 == 0 {
      LaterFirst(i, q, c, x);
    } else {
      LaterSecond(i, q, c, x);
    }
    Extended(l0, i, q, c, x);
  }

  lemma Extended(l0: nat, i: nat, q: int, c: seq<int>, x: int)
    requires l0 < 2 && i < 10 && Column(l0, i, q, c) && Solves(l0, i, q, c, x) && IsWord(x)
    ensures Column(l0, i, q, c + [x])
  {
    hide MaSum, MaPredictor, Low, High, Settled;
    var c' := c + [x];
    assert Weighted(l0, i, c', |c|) == MaSum(l0, i) * x + Past(l0, i, c);
    forall k | 5 <= k < |c'|
      ensures Near(q, Weighted(l0, i, c', k))
    {
      if k < |c| {
        assert Near(q, Weighted(l0, i, c, k));
        assert Weighted(l0, i, c', k) == Weighted(l0, i, c, k);
      }
    }
    assert Weighted(l0, i, c', 4) == Weighted(l0, i, c, 4);
  }
}
