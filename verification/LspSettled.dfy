/** How far sorting and spreading move a predicted frequency when the code words behind it have their
    shape: the distance between the frequency kept for concealment and the sum it was predicted from. */
module LspSettled {
  import opened FixedPoint
  import opened LspQuantizer
  import opened LspChannel
  import opened LspShape

  // ----- order statistics -----------------------------------------------------------------------

  lemma {:induction false} InsertBetween(t: seq<int>, x: int, i: nat)
    requires Sorted(t) && i <= |t|
    ensures |Insert(t, x)| == |t| + 1
    ensures i < |t| ==> Insert(t, x)[i] <= t[i] && (Insert(t, x)[i] == t[i] || Insert(t, x)[i] >= x)
    ensures i == |t| ==> Insert(t, x)[i] >= x && (Insert(t, x)[i] == x || (i > 0 && Insert(t, x)[i] == t[i - 1]))
    decreases |t|
  {
    if t == [] || t[|t| - 1] <= x {
    } else {
      var n := |t| - 1;
      if i <= n {
        InsertBetween(t[..n], x, i);
      } else {
        InsertBetween(t[..n], x, n);
      }
    }
  }

  lemma SortLast(s: seq<int>)
    requires s != []
    ensures Sort(s) == Insert(Sort(s[..|s| - 1]), s[|s| - 1])
    ensures |Sort(s)| == |s| && |Sort(s[..|s| - 1])| == |s| - 1 && Sorted(Sort(s[..|s| - 1]))
  {
    hide Insert, Sorted;
    var t := s[..|s| - 1];
    assert |multiset(Sort(s))| == |multiset(s)| && |multiset(Sort(t))| == |multiset(t)|;
  }

  lemma SortedMember(s: seq<int>, i: nat, B: int)
    requires i < |Sort(s)| && forall k :: 0 <= k < |s| ==> s[k] <= B
    ensures Sort(s)[i] <= B
  {
    hide Sort, Sorted;
    assert Sort(s)[i] in multiset(Sort(s));
    assert Sort(s)[i] in s;
  }

  /** The value sorted to place i is at most any bound on the first i + 1 values. */
  lemma {:induction false} SortedAtMost(s: seq<int>, i: nat, B: int)
    requires i < |s| && forall k :: 0 <= k <= i ==> s[k] <= B
    ensures |Sort(s)| == |s| && Sort(s)[i] <= B
    decreases |s|
  {
    hide Sort, Insert, Sorted;
    SortLast(s);
    var n := |s| - 1;
    if i == n {
      SortedMember(s, i, B);
    } else {
      SortedAtMost(s[..n], i, B);
      InsertBetween(Sort(s[..n]), s[n], i);
    }
  }

  /** And at least any bound below the values from place i on. */
  lemma {:induction false} SortedAtLeast(s: seq<int>, i: nat, B: int)
    requires i < |s| && forall k :: i <= k < |s| ==> s[k] >= B
    ensures |Sort(s)| == |s| && Sort(s)[i] >= B
    decreases |s|
  {
    hide Sort, Insert, Sorted;
    SortLast(s);
    var n := |s| - 1;
    if i < n {
      SortedAtLeast(s[..n], i, B);
    }
    InsertBetween(Sort(s[..n]), s[n], i);
  }

  /** The smallest of the values from place i on. */
  function Least(s: seq<int>, i: nat): (k: nat)
    requires i < |s|
    ensures i <= k < |s| && forall m :: i <= m < |s| ==> s[k] <= s[m]
    decreases |s| - i
  {
    if i == |s| - 1 then i else
      var k := Least(s, i + 1);
      if s[i] < s[k] then i else k
  }

  // ----- what stabilising does to one frequency ---------------------------------------------

  /** A stable frequency is no higher than some raw one before it, spread, or than the low limit, spread. */
  lemma StableAtMost(raw: seq<Word16>, i: nat) returns (j: nat)
    requires |raw| == 10 && i < 10 && RoomToSpread(LowLimit(Sorted10(raw)))
    ensures j <= i
    ensures Stabilised(raw)[i] <= raw[j] + MIN_DISTANCE * (i - j) || (i >= 1 && Stabilised(raw)[i] <= QLSF_MIN + MIN_DISTANCE * (i - 1))
  {
    hide Spaced, Furthest, Sort;
    var s := Sorted10(raw);
    var u := LowLimit(s);
    SpacedIsMaximum(u);
    var m := FurthestIsMaximum(u, i);
    j := Top(raw, m);
    SortedAtMost(raw, m, raw[j]);
    assert Stabilised(raw)[i] <= Spaced(u, i) == Furthest(u, i);
  }

  /** It is no lower than some raw one after it, or the last one clamped. */
  lemma StableAtLeast(raw: seq<Word16>, i: nat) returns (k: nat)
    requires |raw| == 10 && i < 10 && RoomToSpread(LowLimit(Sorted10(raw)))
    ensures i <= k < 10
    ensures Stabilised(raw)[i] >= raw[k] || (i == 9 && Stabilised(raw)[i] == QLSF_MAX)
  {
    hide Spaced, Sort;
    var s := Sorted10(raw);
    var u := LowLimit(s);
    SpacedIsMaximum(u);
    k := Least(raw, i);
    SortedAtLeast(raw, i, raw[k]);
    assert Spaced(u, i) == Furthest(u, i) >= u[i];
  }

  // ----- the sums behind neighbouring frequencies -------------------------------------------

  /** The weight of all rows together. */
  function Share(l0: nat, i: nat): int
    requires l0 < 2 && i < 10
  {
    MaSum(l0, i) + MaPredictor(l0, 0, i) + MaPredictor(l0, 1, i) + MaPredictor(l0, 2, i) + MaPredictor(l0, 3, i)
  }

  function TiltTerm(w: int, u: int, i: nat): int
    requires i < 10
  {
    if w > u then (w - u) * High(i) else (w - u) * Low(i)
  }

  /** The most by which the sum for j can exceed the sum for the later i. */
  function Tilt(l0: nat, j: nat, i: nat): int
    requires l0 < 2 && j < i < 10
  {
    Share(l0, j) * Over(j, i) + TiltTerm(MaSum(l0, j), MaSum(l0, i), i)
      + TiltTerm(MaPredictor(l0, 0, j), MaPredictor(l0, 0, i), i) + TiltTerm(MaPredictor(l0, 1, j), MaPredictor(l0, 1, i), i)
      + TiltTerm(MaPredictor(l0, 2, j), MaPredictor(l0, 2, i), i) + TiltTerm(MaPredictor(l0, 3, j), MaPredictor(l0, 3, i), i)
  }

  lemma TermTilts(w: int, u: int, d: int, x: int, y: int, i: nat)
    requires 0 <= w && i < 10 && x - y <= d && Low(i) <= y <= High(i)
    ensures w * x - u * y <= w * d + TiltTerm(w, u, i)
  {
    hide Low, High;
    assert w * (d - (x - y)) >= 0;
    if w > u {
      assert (w - u) * (High(i) - y) >= 0;
    } else {
      assert (u - w) * (y - Low(i)) >= 0;
    }
    assert w * x - u * y == w * (x - y) + (w - u) * y;
  }

  lemma {:induction false} SumsTilt(l0: nat, x: seq<Word16>, h: seq<seq<Word16>>, j: nat, i: nat)
    requires l0 < 2 && j < i < 10 && Shapely(x) && ShapelyRows(h)
    ensures Accumulated(l0, x[j], h, j) - Accumulated(l0, x[i], h, i) <= Tilt(l0, j, i)
  {
    PredictorWeights(l0, j);
    var d := Over(j, i);
    RowPair(x, j, i);
    RowPair(h[0], j, i);
    RowPair(h[1], j, i);
    RowPair(h[2], j, i);
    RowPair(h[3], j, i);
    hide MaSum, MaPredictor, Over, Low, High, TiltTerm, Shapely, ShapelyRows;
    TermTilts(MaSum(l0, j), MaSum(l0, i), d, x[j], x[i], i);
    TermTilts(MaPredictor(l0, 0, j), MaPredictor(l0, 0, i), d, h[0][j], h[0][i], i);
    TermTilts(MaPredictor(l0, 1, j), MaPredictor(l0, 1, i), d, h[1][j], h[1][i], i);
    TermTilts(MaPredictor(l0, 2, j), MaPredictor(l0, 2, i), d, h[2][j], h[2][i], i);
    TermTilts(MaPredictor(l0, 3, j), MaPredictor(l0, 3, i), d, h[3][j], h[3][i], i);
    ShareDistributes(MaSum(l0, j), MaPredictor(l0, 0, j), MaPredictor(l0, 1, j), MaPredictor(l0, 2, j), MaPredictor(l0, 3, j), d);
  }

  predicate ShapelyRows(h: seq<seq<Word16>>) {
    IsHistory(h) && Shapely(h[0]) && Shapely(h[1]) && Shapely(h[2]) && Shapely(h[3])
  }

  lemma RowPair(r: seq<int>, j: nat, i: nat)
    requires Shapely(r) && j < i < 10
    ensures r[j] - r[i] <= Over(j, i) && Low(i) <= r[i] <= High(i)
  {
    hide Over, Low, High;
  }

  lemma ShareDistributes(s: int, p: int, q: int, r: int, t: int, d: int)
    ensures (s + p + q + r + t) * d == s * d + p * d + q * d + r * d + t * d
  {
  }

  // ----- the limits -------------------------------------------------------------------------------

  /** The most by which stabilising raises frequency i, with the rounding of the prediction. */
  function Rise(l0: nat, i: nat): int
    requires l0 < 2 && i < 10
  {
    if l0 == 0 then Pick(i, 1, 3750, 3850, 3400, 3200, 2450, 2800, 2500, 1850, 1770)
    else Pick(i, 1, 4400, 5000, 4050, 3900, 2850, 3000, 2450, 1800, 2050)
  }

  const FALL: int := 4500

  predicate Covered(l0: nat, j: nat, i: nat)
    requires l0 < 2 && j < i < 10
  {
    && Tilt(l0, j, i) + 0x8000 * (MIN_DISTANCE * (i - j)) + 0x4000 <= 0x8000 * Rise(l0, i)
    && Tilt(l0, j, i) + 0x4000 <= 0x8000 * FALL
  }

  lemma Covers1A(j: nat)
    requires j < 1
    ensures Covered(0, j, 1)
  {
  }

  lemma Covers1B(j: nat)
    requires j < 1
    ensures Covered(1, j, 1)
  {
  }

  lemma Covers2A(j: nat)
    requires j < 2
    ensures Covered(0, j, 2)
  {
  }

  lemma Covers2B(j: nat)
    requires j < 2
    ensures Covered(1, j, 2)
  {
  }

  lemma Covers3A(j: nat)
    requires j < 3
    ensures Covered(0, j, 3)
  {
  }

  lemma Covers3B(j: nat)
    requires j < 3
    ensures Covered(1, j, 3)
  {
  }

  lemma Covers4A(j: nat)
    requires j < 4
    ensures Covered(0, j, 4)
  {
  }

  lemma Covers4B(j: nat)
    requires j < 4
    ensures Covered(1, j, 4)
  {
  }

  lemma Covers5A(j: nat)
    requires j < 5
    ensures Covered(0, j, 5)
  {
  }

  lemma Covers5B(j: nat)
    requires j < 5
    ensures Covered(1, j, 5)
  {
  }

  lemma Covers6A(j: nat)
    requires j < 6
    ensures Covered(0, j, 6)
  {
  }

  lemma Covers6B(j: nat)
    requires j < 6
    ensures Covered(1, j, 6)
  {
  }

  lemma Covers7A(j: nat)
    requires j < 7
    ensures Covered(0, j, 7)
  {
  }

  lemma Covers7B(j: nat)
    requires j < 7
    ensures Covered(1, j, 7)
  {
  }

  lemma Covers8A(j: nat)
    requires j < 8
    ensures Covered(0, j, 8)
  {
  }

  lemma Covers8B(j: nat)
    requires j < 8
    ensures Covered(1, j, 8)
  {
  }

  lemma Covers9A(j: nat)
    requires j < 9
    ensures Covered(0, j, 9)
  {
  }

  lemma Covers9B(j: nat)
    requires j < 9
    ensures Covered(1, j, 9)
  {
  }

  /** The tables bear the limits out. */
  lemma RiseCovers(l0: nat, j: nat, i: nat)
    requires l0 < 2 && j < i < 10
    ensures Covered(l0, j, i)
  {
    hide Covered;
    match i
    case 1 => Covers1A(j); Covers1B(j);
    case 2 => Covers2A(j); Covers2B(j);
    case 3 => Covers3A(j); Covers3B(j);
    case 4 => Covers4A(j); Covers4B(j);
    case 5 => Covers5A(j); Covers5B(j);
    case 6 => Covers6A(j); Covers6B(j);
    case 7 => Covers7A(j); Covers7B(j);
    case 8 => Covers8A(j); Covers8B(j);
    case _ => Covers9A(j); Covers9B(j);
  }

  // ----- the main result ------------------------------------------------------------------------

  /** The sum behind frequency i, and what the prediction makes of it. */
  lemma SumRange(l0: nat, x: seq<Word16>, h: seq<seq<Word16>>, i: nat)
    requires l0 < 2 && i < 10 && Shapely(x) && ShapelyRows(h)
    ensures var sum, raw := Accumulated(l0, x[i], h, i), Predicted(l0, x[i], h, i);
      0x8000 * raw - 0x4000 <= sum < 0x8000 * raw + 0x4000 && -1890 <= raw <= 26490
  {
    InBox(x, i);
    InBox(h[0], i);
    InBox(h[1], i);
    InBox(h[2], i);
    InBox(h[3], i);
    hide MaSum, MaPredictor, Shapely;
    AccumulatorBound(l0, i, x[i], h[0][i], h[1][i], h[2][i], h[3][i], -1890, 26490);
    Unrounded(Accumulated(l0, x[i], h, i));
  }

  lemma InBox(r: seq<int>, i: nat)
    requires Shapely(r) && i < 10
    ensures -1890 <= r[i] <= 26490
  {
    assert Low(i) <= r[i] <= High(i);
  }

  lemma Unrounded(sum: int)
    requires 32767 * -1890 <= sum <= 32767 * 26490
    ensures var raw := Wrap16((sum + 0x4000) / 0x8000); 0x8000 * raw - 0x4000 <= sum < 0x8000 * raw + 0x4000 && -1890 <= raw <= 26490
  {
  }

  /** The sum alone: no lower than the range of its rows. */
  lemma SumInBox(l0: nat, x: seq<Word16>, h: seq<seq<Word16>>, i: nat)
    requires l0 < 2 && i < 10 && Shapely(x) && ShapelyRows(h)
    ensures Share(l0, i) * Low(i) <= Accumulated(l0, x[i], h, i) <= Share(l0, i) * High(i)
  {
    PredictorWeights(l0, i);
    var low, high := Low(i), High(i);
    assert low <= x[i] <= high && low <= h[0][i] <= high && low <= h[1][i] <= high && low <= h[2][i] <= high && low <= h[3][i] <= high;
    hide MaSum, MaPredictor, Low, High, Shapely, ShapelyRows;
    SharedBetween(MaSum(l0, i), MaPredictor(l0, 0, i), MaPredictor(l0, 1, i), MaPredictor(l0, 2, i), MaPredictor(l0, 3, i),
                  x[i], h[0][i], h[1][i], h[2][i], h[3][i], low, high);
  }

  lemma SharedBetween(s: int, p: int, q: int, r: int, t: int, x: int, a: int, b: int, c: int, d: int, low: int, high: int)
    requires 0 <= s && 0 <= p && 0 <= q && 0 <= r && 0 <= t
    requires low <= x <= high && low <= a <= high && low <= b <= high && low <= c <= high && low <= d <= high
    ensures (s + p + q + r + t) * low <= s * x + p * a + q * b + r * c + t * d <= (s + p + q + r + t) * high
  {
    WeightedBound(s, x, low, high);
    WeightedBound(p, a, low, high);
    WeightedBound(q, b, low, high);
    WeightedBound(r, c, low, high);
    WeightedBound(t, d, low, high);
    ShareDistributes(s, p, q, r, t, low);
    ShareDistributes(s, p, q, r, t, high);
  }

  /** The low limit and the clamp stay inside the limits too. */
  lemma EdgesCovered(l0: nat, i: nat)
    requires l0 < 2 && i < 10
    ensures i >= 1 ==> 0x8000 * (QLSF_MIN + MIN_DISTANCE * (i - 1)) - Share(l0, i) * Low(i) <= 0x8000 * Rise(l0, i)
    ensures 0x8000 * QLSF_MAX - Share(l0, 9) * High(9) >= -0x8000 * FALL
  {
  }

  /** The frequency kept for concealment lies within these limits of the sum it came from. */
  predicate Settled(l0: nat, q: int, sum: int, i: nat)
    requires l0 < 2 && i < 10
  {
    -0x8000 * FALL <= 0x8000 * q - sum <= 0x8000 * Rise(l0, i)
  }

  lemma FrequencyIsSettled(l0: nat, x: seq<Word16>, h: seq<seq<Word16>>, i: nat)
    requires l0 < 2 && i < 10 && Shapely(x) && ShapelyRows(h)
    ensures Settled(l0, Stabilised(PredictedAll(l0, x, h))[i], Accumulated(l0, x[i], h, i), i)
  {
    var raw := PredictedAll(l0, x, h);
    forall k | 0 <= k < 10
      ensures -1890 <= raw[k] <= 26490
    {
      SumRange(l0, x, h, k);
    }
    hide Shapely, ShapelyRows, Predicted, Accumulated, Tilt, Rise, Low, High, Share;
    SortedInRange(raw);
    SumRange(l0, x, h, i);
    SumInBox(l0, x, h, i);
    EdgesCovered(l0, i);
    var j := StableAtMost(raw, i);
    SumRange(l0, x, h, j);
    if j < i {
      SumsTilt(l0, x, h, j, i);
      RiseCovers(l0, j, i);
    }
    var k := StableAtLeast(raw, i);
    SumRange(l0, x, h, k);
    if k > i {
      SumsTilt(l0, x, h, i, k);
      RiseCovers(l0, i, k);
    }
    hide Stabilised;
    RisePositive(l0, i);
  }

  lemma RisePositive(l0: nat, i: nat)
    requires l0 < 2 && i < 10
    ensures Rise(l0, i) >= 1
  {
  }
}
