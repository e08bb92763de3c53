/** The predictive quantizer of line spectral frequencies, encoder and decoder sides
    (sections 3.2.4 and 4.4.1 of Recommendation G.729). Frequencies are in Q13, predictor
    coefficients in Q15. */
module LspQuantizer {
  import opened FixedPoint
  import opened LspCodebooks

  const GAP1: int := 10
  const GAP2: int := 5
  const QLSF_MIN: int := 40
  const QLSF_MAX: int := 25681
  const MIN_DISTANCE: int := 321

  // ----- predictor tables ---------------------------------------------------------------

  function Pick(i: nat, a: int, b: int, c: int, d: int, e: int, f: int, g: int, h: int, k: int, l: int): int
    requires i < 10
  {
    match i
    case 0 => a case 1 => b case 2 => c case 3 => d case 4 => e
    case 5 => f case 6 => g case 7 => h case 8 => k case _ => l
  }

  /** MAPredictor[l0][j][i]. */
  function MaPredictor(l0: nat, j: nat, i: nat): int
    requires l0 < 2 && j < 4 && i < 10
  {
    if l0 == 0 then
      match j
      case 0 => Pick(i, 8421, 9109, 9175, 8965, 9034, 9057, 8765, 8775, 9106, 8673)
      case 1 => Pick(i, 7018, 7189, 7638, 7307, 7444, 7379, 7038, 6956, 6930, 6868)
      case 2 => Pick(i, 5472, 4990, 5134, 5177, 5246, 5141, 5206, 5095, 4830, 5147)
      case _ => Pick(i, 4056, 3031, 2614, 3024, 2916, 2713, 3309, 3237, 2857, 3473)
    else
      match j
      case 0 => Pick(i, 7733, 7880, 8188, 8175, 8247, 8490, 8637, 8601, 8359, 7569)
      case 1 => Pick(i, 4210, 3031, 2552, 3473, 3876, 3853, 4184, 4154, 3909, 3968)
      case 2 => Pick(i, 3214, 1930, 1313, 2143, 2493, 2385, 2755, 2706, 2542, 2919)
      case _ => Pick(i, 3024, 1592, 940, 1631, 1723, 1579, 2034, 2084, 1913, 2601)
  }

  /** MAPredictorSum[l0][i]: one minus the sum of the predictor coefficients. */
  function MaSum(l0: nat, i: nat): int
    requires l0 < 2 && i < 10
  {
    if l0 == 0 then Pick(i, 7798, 8447, 8205, 8293, 8126, 8477, 8447, 8703, 9043, 8604)
    else Pick(i, 14585, 18333, 19772, 17344, 16426, 16459, 15155, 15220, 16043, 15708)
  }

  /** invMAPredictorSum[l0][i], in Q12. */
  function InverseMaSum(l0: nat, i: nat): int
    requires l0 < 2 && i < 10
  {
    if l0 == 0 then Pick(i, 17210, 15888, 16357, 16183, 16516, 15833, 15888, 15421, 14840, 15597)
    else Pick(i, 9202, 7320, 6788, 7738, 8170, 8154, 8856, 8818, 8366, 8544)
  }

  lemma PredictorWeights(l0: nat, i: nat)
    requires l0 < 2 && i < 10
    ensures forall j :: 0 <= j < 4 ==> 0 <= MaPredictor(l0, j, i)
    ensures 0 < MaSum(l0, i)
    ensures 32765 <= MaSum(l0, i) + MaPredictor(l0, 0, i) + MaPredictor(l0, 1, i)
                     + MaPredictor(l0, 2, i) + MaPredictor(l0, 3, i) <= 32767
  {
  }

  // ----- code words ---------------------------------------------------------------------

  /** The indices L0, L1, L2, L3 of a frame, in the widths they are sent with. */
  datatype Indices = Indices(l0: nat, l1: nat, l2: nat, l3: nat)
  {
    predicate Valid() {
      l0 < 2 && l1 < 128 && l2 < 32 && l3 < 32
    }
  }

  predicate Within(s: seq<int>, low: int, high: int) {
    forall i :: 0 <= i < |s| ==> low <= s[i] <= high
  }

  /** The sum of the first-stage row and the two half rows of the second stage. */
  function Quantized(L: Indices): (s: seq<int>)
    requires L.Valid()
    ensures |s| == 10 && Within(s, -1800, 26400)
  {
    seq(10, i requires 0 <= i < 10 => QuantizedAt(L, i))
  }

  function QuantizedAt(L: Indices, i: nat): (x: int)
    requires L.Valid() && i < 10
    ensures -1800 <= x <= 26400
  {
    var first: int := FirstStage(L.l1)[i];
    var second: int := SecondStage(if i < 5 then L.l2 else L.l3)[i];
    first + second
  }

  /** One step of the rearrangement: push a pair apart around its middle. */
  function RearrangeStep(s: seq<int>, i: nat, gap: int): (t: seq<int>)
    requires 1 <= i < |s|
    ensures |t| == |s|
  {
    var delta := TruncDiv(s[i - 1] - s[i] + gap, 2);
    if delta > 0 then s[i - 1 := s[i - 1] - delta][i := s[i] + delta] else s
  }

  /** The rearrangement of the pairs below n. */
  function Rearrange(s: seq<int>, gap: int, n: nat): (t: seq<int>)
    requires 1 <= n <= |s|
    ensures |t| == |s|
  {
    if n == 1 then s else RearrangeStep(Rearrange(s, gap, n - 1), n - 1, gap)
  }

  /** Every step leaves its pair at least gap - 1 apart, keeps the pair's sum and everything else,
      and stays within half a gap of the range. */
  lemma RearrangeStepEffect(s: seq<int>, i: nat, gap: int, low: int, high: int)
    requires 1 <= i < |s| && 0 <= gap <= 10 && Within(s, low, high)
    ensures var t := RearrangeStep(s, i, gap);
      && t[i] - t[i - 1] >= gap - 1
      && t[i] + t[i - 1] == s[i] + s[i - 1]
      && t[i - 1] <= s[i - 1] && s[i] <= t[i]
      && t[..i - 1] == s[..i - 1] && t[i + 1..] == s[i + 1..]
      && Within(t, low - 5, high + 5)
      && (s[i] - s[i - 1] >= gap - 1 ==> t == s)
  {
    var d := s[i - 1] - s[i] + gap;
    assert TruncDiv(d, 2) == if d >= 0 then d / 2 else -(-d / 2);
  }

  lemma {:induction false} RearrangeWithin(s: seq<int>, gap: int, n: nat, low: int, high: int)
    requires 1 <= n <= |s| && 0 <= gap <= 10 && Within(s, low, high)
    ensures Within(Rearrange(s, gap, n), low - 5 * (n - 1), high + 5 * (n - 1))
    decreases n
  {
    if n > 1 {
      RearrangeWithin(s, gap, n - 1, low, high);
      RearrangeStepEffect(Rearrange(s, gap, n - 1), n - 1, gap, low - 5 * (n - 2), high + 5 * (n - 2));
    }
  }

  function Total(s: seq<int>): int {
    if s == [] then 0 else Total(s[..|s| - 1]) + s[|s| - 1]
  }

  lemma {:induction false} TotalOfJoin(a: seq<int>, b: seq<int>)
    ensures Total(a + b) == Total(a) + Total(b)
    decreases |b|
  {
    if b == [] {
      assert a + b == a;
    } else {
      assert (a + b)[..|a + b| - 1] == a + b[..|b| - 1];
      TotalOfJoin(a, b[..|b| - 1]);
    }
  }

  /** The rearrangement moves frequency between neighbours and loses none. */
  lemma {:induction false} RearrangeKeepsTotal(s: seq<int>, gap: int, n: nat)
    requires 1 <= n <= |s| && 0 <= gap <= 10
    ensures Total(Rearrange(s, gap, n)) == Total(s)
    decreases n
  {
    if n > 1 {
      RearrangeKeepsTotal(s, gap, n - 1);
      var u := Rearrange(s, gap, n - 1);
      var t := RearrangeStep(u, n - 1, gap);
      var i := n - 1;
      PairTotal(u, i);
      PairTotal(t, i);
      assert t[..i - 1] == u[..i - 1] && t[i + 1..] == u[i + 1..];
    }
  }

  lemma PairTotal(s: seq<int>, i: nat)
    requires 1 <= i < |s|
    ensures Total(s) == Total(s[..i - 1]) + s[i - 1] + s[i] + Total(s[i + 1..])
  {
    hide Total;
    var pair := [s[i - 1], s[i]];
    assert s == s[..i - 1] + (pair + s[i + 1..]);
    TotalOfJoin(s[..i - 1], pair + s[i + 1..]);
    TotalOfJoin(pair, s[i + 1..]);
    TotalOfPair(s[i - 1], s[i]);
  }

  lemma TotalOfPair(x: int, y: int)
    ensures Total([x, y]) == x + y
  {
    assert [x][..0] == [];
    assert Total([x]) == x;
    assert [x, y][..1] == [x];
  }

  /** The step and the pass in 16-bit arithmetic: the difference, its sum with the gap and both new
      values are narrowed. */
  function RearrangeStep16(s: seq<Word16>, i: nat, gap: Word16): (t: seq<Word16>)
    requires 1 <= i < |s|
    ensures |t| == |s|
  {
    var low: int, high: int := s[i - 1], s[i];
    var delta := TruncDiv(Wrap16(Wrap16(low - high) as int + gap as int), 2);
    if delta > 0 then s[i - 1 := Wrap16(low - delta)][i := Wrap16(high + delta)] else s
  }

  function Rearrange16(s: seq<Word16>, gap: Word16, n: nat): (t: seq<Word16>)
    requires 1 <= n <= |s|
    ensures |t| == |s|
  {
    if n == 1 then s else RearrangeStep16(Rearrange16(s, gap, n - 1), n - 1, gap)
  }

  lemma StepWithoutWrap(s: seq<Word16>, i: nat, gap: Word16)
    requires 1 <= i < |s| && 0 <= gap <= 10 && Within(s, -2100, 27100)
    ensures RearrangeStep16(s, i, gap) == RearrangeStep(s, i, gap)
  {
    hide Wrap16;
    var low: int, high: int := s[i - 1], s[i];
    assert -2100 <= low <= 27100 && -2100 <= high <= 27100;
    NarrowingKeeps(low - high);
    NarrowingKeeps(low - high + gap);
    var delta := TruncDiv(low - high + gap, 2);
    assert delta > 0 ==> 2 * delta <= low - high + gap;
    if delta > 0 {
      NarrowingKeeps(low - delta);
      NarrowingKeeps(high + delta);
    }
  }

  lemma NarrowingKeeps(x: int)
    requires -0x8000 <= x <= 0x7fff
    ensures Wrap16(x) as int == x
  {
  }

  /** In the range of code words nothing is lost to narrowing. */
  lemma {:induction false} RearrangeWithoutWrap(s: seq<Word16>, gap: Word16, n: nat)
    requires 1 <= n <= |s| <= 11 && 0 <= gap <= 10 && Within(s, -2000, 27000)
    ensures Rearrange16(s, gap, n) == Rearrange(s, gap, n)
    decreases n
  {
    if n > 1 {
      RearrangeWithoutWrap(s, gap, n - 1);
      RearrangeWithin(s, gap, n - 1, -2000, 27000);
      StepWithoutWrap(Rearrange16(s, gap, n - 1), n - 1, gap);
    }
  }

  method RearrangeCoefficients(a: array<Word16>, gap: Word16)
    requires a.Length == 10
    modifies a
    ensures a[..] == Rearrange16(old(a[..]), gap, 10)
    ensures 0 <= gap <= 10 && Within(old(a[..]), -2000, 27000) ==>
              a[..] == Rearrange(old(a[..]), gap, 10) && Total(a[..]) == Total(old(a[..]))
  {
    hide Wrap16, TruncDiv, Total, Rearrange;
    ghost var s := a[..];
    for i := 1 to 10
      invariant a[..] == Rearrange16(s, gap, i)
    {
      var low: int, high: int := a[i - 1], a[i];
      var delta := TruncDiv(Wrap16(Wrap16(low - high) as int + gap as int), 2);
      ghost var u := a[..];
      if delta > 0 {
        a[i - 1] := Wrap16(low - delta);
        a[i] := Wrap16(high + delta);
      }
      assert a[..] == RearrangeStep16(u, i, gap);
    }
    if 0 <= gap <= 10 && Within(s, -2000, 27000) {
      RearrangeWithoutWrap(s, gap, 10);
      RearrangeKeepsTotal(s, gap, 10);
    }
  }

  /** The code word of a frame: the quantizer's sum after both rearrangements. */
  function CodeWord(L: Indices): (s: seq<Word16>)
    requires L.Valid()
    ensures |s| == 10 && Within(s, -1890, 26490)
  {
    var once := Rearrange(Quantized(L), GAP1, 10);
    RearrangeWithin(Quantized(L), GAP1, 10, -1800, 26400);
    RearrangeWithin(once, GAP2, 10, -1845, 26445);
    Rearrange(once, GAP2, 10)
  }

  // ----- prediction ---------------------------------------------------------------------

  /** MA prediction of coefficient i with a Q28 accumulator; history row 0 is the newest. */
  function Accumulated(l0: nat, x: int, h: seq<seq<Word16>>, i: nat): int
    requires l0 < 2 && i < 10 && IsHistory(h)
  {
    MaSum(l0, i) * x + MaPredictor(l0, 0, i) * h[0][i] + MaPredictor(l0, 1, i) * h[1][i]
      + MaPredictor(l0, 2, i) * h[2][i] + MaPredictor(l0, 3, i) * h[3][i]
  }

  predicate IsHistory(h: seq<seq<Word16>>) {
    |h| == 4 && forall j :: 0 <= j < 4 ==> |h[j]| == 10
  }

  /** The predicted frequency in Q13, rounded. */
  function Predicted(l0: nat, x: int, h: seq<seq<Word16>>, i: nat): Word16
    requires l0 < 2 && i < 10 && IsHistory(h)
  {
    Wrap16((Accumulated(l0, x, h, i) + 0x4000) / 0x8000)
  }

  function PredictedAll(l0: nat, s: seq<int>, h: seq<seq<Word16>>): (q: seq<Word16>)
    requires l0 < 2 && |s| == 10 && IsHistory(h)
    ensures |q| == 10
  {
    seq(10, i requires 0 <= i < 10 => Predicted(l0, s[i], h, i))
  }

  lemma WeightedBound(w: int, x: int, low: int, high: int)
    requires 0 <= w && low <= x <= high
    ensures w * low <= w * x <= w * high
  {
    assert w * (x - low) >= 0 && w * (high - x) >= 0;
  }

  /** A partial accumulation over the rows named in use, with weights that sum to at most one,
      stays in 32 bits for every 16-bit history. */
  lemma AccumulatorBound(l0: nat, i: nat, x: int, a: int, b: int, c: int, d: int, low: int, high: int)
    requires l0 < 2 && i < 10
    requires low <= 0 <= high
    requires low <= x <= high && low <= a <= high && low <= b <= high && low <= c <= high && low <= d <= high
    ensures 32767 * low <= MaSum(l0, i) * x + MaPredictor(l0, 0, i) * a + MaPredictor(l0, 1, i) * b
                            + MaPredictor(l0, 2, i) * c + MaPredictor(l0, 3, i) * d <= 32767 * high
  {
    PredictorWeights(l0, i);
    WeightedSumBound(MaSum(l0, i), MaPredictor(l0, 0, i), MaPredictor(l0, 1, i), MaPredictor(l0, 2, i), MaPredictor(l0, 3, i),
                     x, a, b, c, d, low, high);
  }

  lemma WeightedSumBound(s: int, p: int, q: int, r: int, t: int, x: int, a: int, b: int, c: int, d: int, low: int, high: int)
    requires 0 <= s && 0 <= p && 0 <= q && 0 <= r && 0 <= t && s + p + q + r + t <= 32767
    requires low <= 0 <= high
    requires low <= x <= high && low <= a <= high && low <= b <= high && low <= c <= high && low <= d <= high
    ensures 32767 * low <= s * x + p * a + q * b + r * c + t * d <= 32767 * high
  {
    var rest := 32767 - (s + p + q + r + t);
    SharesOfWhole(s, p, q, r, t, rest, low);
    SharesOfWhole(s, p, q, r, t, rest, high);
    WeightedBound(s, x, low, high);
    WeightedBound(p, a, low, high);
    WeightedBound(q, b, low, high);
    WeightedBound(r, c, low, high);
    WeightedBound(t, d, low, high);
    WeightedBound(rest, 0, low, high);
  }

  lemma SharesOfWhole(s: int, p: int, q: int, r: int, t: int, rest: int, x: int)
    requires s + p + q + r + t + rest == 32767
    ensures 32767 * x == s * x + p * x + q * x + r * x + t * x + rest * x
  {
    assert (s + p + q + r + t + rest) * x == s * x + p * x + q * x + r * x + t * x + rest * x;
  }

  // ----- stabilisation ------------------------------------------------------------------

  predicate Sorted(s: seq<int>) {
    forall i, j :: 0 <= i < j < |s| ==> s[i] <= s[j]
  }

  lemma WithoutLast(s: seq<int>)
    requires |s| > 0
    ensures multiset(s[..|s| - 1]) == multiset(s) - multiset{s[|s| - 1]}
    ensures Sorted(s) ==> Sorted(s[..|s| - 1])
  {
    assert s == s[..|s| - 1] + [s[|s| - 1]];
  }

  /** Two ordered permutations of the same values are the same sequence. */
  lemma {:induction false} SortedIsUnique(s: seq<int>, t: seq<int>)
    requires Sorted(s) && Sorted(t) && multiset(s) == multiset(t)
    ensures s == t
    decreases |s|
  {
    hide Sorted;
    assert |s| == |multiset(s)| == |multiset(t)| == |t|;
    if |s| > 0 {
      var n := |s| - 1;
      LastIsLargest(s, t);
      LastIsLargest(t, s);
      WithoutLast(s);
      WithoutLast(t);
      SortedIsUnique(s[..n], t[..n]);
      assert s == s[..n] + [s[n]] && t == t[..n] + [t[n]];
    }
  }

  lemma LastIsLargest(s: seq<int>, t: seq<int>)
    requires Sorted(t) && multiset(s) == multiset(t) && |s| > 0 && |t| == |s|
    ensures s[|s| - 1] <= t[|t| - 1]
  {
    assert s[|s| - 1] in multiset(s);
    assert s[|s| - 1] in t;
  }

  function Sort(s: seq<int>): (t: seq<int>)
    ensures Sorted(t) && multiset(t) == multiset(s)
  {
    if s == [] then []
    else
      var n := |s| - 1;
      assert s == s[..n] + [s[n]];
      InsertKeepsOrder(Sort(s[..n]), s[n]);
      InsertPermutes(Sort(s[..n]), s[n]);
      Insert(Sort(s[..n]), s[n])
  }

  function Insert(s: seq<int>, x: int): seq<int> {
    if s == [] || s[|s| - 1] <= x then s + [x]
    else Insert(s[..|s| - 1], x) + [s[|s| - 1]]
  }

  lemma {:induction false} InsertPermutes(s: seq<int>, x: int)
    ensures multiset(Insert(s, x)) == multiset(s) + multiset{x}
    decreases |s|
  {
    if s == [] || s[|s| - 1] <= x {
    } else {
      var n := |s| - 1;
      InsertPermutes(s[..n], x);
      assert s == s[..n] + [s[n]];
    }
  }

  lemma {:induction false} InsertKeepsOrder(s: seq<int>, x: int)
    requires Sorted(s)
    ensures Sorted(Insert(s, x))
    decreases |s|
  {
    if s == [] || s[|s| - 1] <= x {
    } else {
      var n := |s| - 1;
      InsertKeepsOrder(s[..n], x);
      InsertPermutes(s[..n], x);
      StaysBelow(Insert(s[..n], x), s[..n], x, s[n]);
    }
  }

  lemma StaysBelow(t: seq<int>, s: seq<int>, x: int, bound: int)
    requires multiset(t) == multiset(s) + multiset{x}
    requires x <= bound && forall k :: 0 <= k < |s| ==> s[k] <= bound
    ensures forall k :: 0 <= k < |t| ==> t[k] <= bound
  {
    forall k | 0 <= k < |t|
      ensures t[k] <= bound
    {
      assert t[k] in multiset(t);
    }
  }

  lemma {:induction false} InsertAt(s: seq<int>, x: int, m: nat)
    requires m <= |s| && (m == 0 || s[m - 1] <= x)
    requires forall k :: m <= k < |s| ==> x < s[k]
    ensures Insert(s, x) == s[..m] + [x] + s[m..]
    decreases |s|
  {
    if m == |s| {
      assert s[..m] == s && s[m..] == [];
    } else {
      var n := |s| - 1;
      InsertAt(s[..n], x, m);
      assert s[..n][..m] == s[..m] && s[..n][m..] + [s[n]] == s[m..];
    }
  }

  /** r is p with the value at i moved down to j + 1. */
  lemma PlacedInOrder(p: seq<Word16>, r: seq<Word16>, i: nat, j: int)
    requires i < |p| == |r| && -1 <= j < i && r[j + 1] == p[i] && (j >= 0 ==> p[j] <= p[i])
    requires forall k :: 0 <= k <= j ==> r[k] == p[k]
    requires forall k :: j + 1 < k <= i ==> r[k] == p[k - 1]
    requires forall k :: i < k < |p| ==> r[k] == p[k]
    requires forall k :: j < k < i ==> p[i] < p[k]
    ensures r[..i + 1] == Insert(p[..i], p[i]) && r[i + 1..] == p[i + 1..]
  {
    hide Insert;
    var t, m := p[..i], j + 1;
    InsertAt(t, p[i], m);
    assert r[..m] == t[..m];
    forall k | 0 <= k < i - m
      ensures r[m + 1..i + 1][k] == t[m..][k]
    {
      assert r[m + 1..i + 1][k] == r[m + 1 + k] == p[m + k];
    }
    assert r[m + 1..i + 1] == t[m..];
    assert r[..i + 1] == r[..m] + [r[m]] + r[m + 1..i + 1];
  }

  /** insertionSort, one value: the value being placed leaves a hole that moves down past larger
      values. */
  method PlaceInOrder(a: array<Word16>, i: nat)
    requires i < a.Length && Sorted(a[..i])
    modifies a
    ensures a[..i + 1] == Insert(old(a[..i]), old(a[i])) && a[i + 1..] == old(a[i + 1..])
  {
    hide Insert, Sorted;
    ghost var p := a[..];
    var currentValue := a[i];
    var j := i - 1;
    while j >= 0 && a[j] > currentValue
      invariant -1 <= j < i
      invariant forall k :: 0 <= k <= j ==> a[k] == p[k]
      invariant forall k :: j + 1 < k <= i ==> a[k] == p[k - 1]
      invariant forall k :: i < k < a.Length ==> a[k] == p[k]
      invariant forall k :: j < k < i ==> currentValue < p[k]
    {
      a[j + 1] := a[j];
      j := j - 1;
    }
    a[j + 1] := currentValue;
    PlacedInOrder(p, a[..], i, j);
  }

  method InsertionSort(a: array<Word16>)
    modifies a
    ensures a[..] == Sort(old(a[..]))
  {
    hide Sort, Insert;
    ghost var s := a[..];
    if a.Length == 0 {
      EmptySort();
      return;
    }
    SingletonSort(a[0]);
    assert s[..1] == [s[0]];
    for i := 1 to a.Length
      invariant a[..i] == Sort(s[..i])
      invariant a[i..] == s[i..]
    {
      PlaceInOrder(a, i);
      SortStep(s, i);
    }
    assert a[..] == a[..a.Length] && s == s[..a.Length];
  }

  lemma EmptySort()
    ensures Sort([]) == []
  {
  }

  lemma SingletonSort(x: int)
    ensures Sort([x]) == [x]
  {
    assert [x][..0] == [];
  }

  lemma SortStep(s: seq<int>, i: nat)
    requires i < |s|
    ensures Sort(s[..i + 1]) == Insert(Sort(s[..i]), s[i])
  {
    assert s[..i + 1][..i] == s[..i];
  }

  /** Raise the second value to the low limit. */
  function LowLimit(s: seq<int>): (t: seq<int>)
    requires |s| == 10
    ensures |t| == 10
  {
    if s[1] < QLSF_MIN then s[1 := QLSF_MIN] else s
  }

  /** Value k after the distance pass, in 16-bit arithmetic. */
  function Spaced(s: seq<int>, k: nat): int
    requires k < |s|
  {
    if k == 0 then s[0]
    else if s[k] - Spaced(s, k - 1) < MIN_DISTANCE then Wrap16(Spaced(s, k - 1) + MIN_DISTANCE)
    else s[k]
  }

  /** The distance pass in exact arithmetic. */
  function Furthest(s: seq<int>, k: nat): (m: int)
    requires k < |s|
    ensures m >= s[k]
  {
    if k == 0 then s[0]
    else
      var below := Furthest(s, k - 1) + MIN_DISTANCE;
      if below > s[k] then below else s[k]
  }

  /** Read from the top it is the largest of s[j] + 321 (k - j). */
  lemma {:induction false} FurthestIsMaximum(s: seq<int>, k: nat) returns (m: nat)
    requires k < |s|
    ensures forall j :: 0 <= j <= k ==> s[j] + MIN_DISTANCE * (k - j) <= Furthest(s, k)
    ensures m <= k && Furthest(s, k) == s[m] + MIN_DISTANCE * (k - m)
  {
    m := k;
    if k > 0 {
      var n := FurthestIsMaximum(s, k - 1);
      if Furthest(s, k) != s[k] {
        m := n;
      }
    }
  }

  /** Ten words that the distance pass cannot drive over the 16-bit maximum. */
  predicate RoomToSpread(s: seq<int>) {
    |s| == 10 && forall k :: 0 <= k < 10 ==> -0x8000 <= s[k] <= 0x7fff - MIN_DISTANCE * (9 - k)
  }

  lemma {:induction false} SpacedUntilWrap(s: seq<int>, k: nat)
    requires k < |s| && (forall j :: 0 <= j < |s| ==> -0x8000 <= s[j] <= 0x7fff) && Furthest(s, k) <= 0x7fff
    ensures Spaced(s, k) == Furthest(s, k)
    decreases k
  {
    if k > 0 {
      SpacedUntilWrap(s, k - 1);
      NarrowingKeeps(Furthest(s, k - 1) + MIN_DISTANCE);
      hide Wrap16;
    }
  }

  /** All ten values of the distance pass are those of exact arithmetic. */
  predicate SpacedExactly(s: seq<int>)
    requires |s| == 10
  {
    forall k :: 0 <= k < 10 ==> Spaced(s, k) == Furthest(s, k)
  }

  /** The distance pass in closed form: value k is the largest of s[j] + 321 (k - j) for j <= k. This holds
      for all ten values if and only if none of the words starts too high for it. */
  lemma SpacedIsMaximum(s: seq<int>)
    requires |s| == 10 && forall j :: 0 <= j < 10 ==> -0x8000 <= s[j] <= 0x7fff
    ensures SpacedExactly(s) <==> RoomToSpread(s)
  {
    hide Furthest;
    if RoomToSpread(s) {
      forall k | 0 <= k < 10
        ensures Spaced(s, k) == Furthest(s, k)
      {
        var m := FurthestIsMaximum(s, k);
        SpacedUntilWrap(s, k);
      }
    }
    if SpacedExactly(s) {
      SpacedFits(s, 9);
      var m := FurthestIsMaximum(s, 9);
      assert Spaced(s, 9) == Furthest(s, 9);
    }
  }

  lemma {:induction false} SpacedFits(s: seq<int>, k: nat)
    requires k < |s| && forall j :: 0 <= j < |s| ==> -0x8000 <= s[j] <= 0x7fff
    ensures -0x8000 <= Spaced(s, k) <= 0x7fff
  {
    if k > 0 {
      SpacedFits(s, k - 1);
    }
  }

  /** The distance pass gives the least sequence above its input with all gaps at least 321. */
  lemma {:induction false} SpacedIsLeast(s: seq<int>, t: seq<int>, k: nat)
    requires RoomToSpread(s) && |t| == 10 && k < 10
    requires forall i :: 0 <= i < 10 ==> s[i] <= t[i]
    requires forall i :: 1 <= i < 10 ==> t[i] - t[i - 1] >= MIN_DISTANCE
    ensures s[k] <= Spaced(s, k) <= t[k]
    ensures k >= 1 ==> Spaced(s, k) - Spaced(s, k - 1) >= MIN_DISTANCE
    decreases k
  {
    hide Spaced;
    SpacedIsMaximum(s);
    assert Spaced(s, k) == Furthest(s, k);
    if k > 0 {
      SpacedIsLeast(s, t, k - 1);
      assert Spaced(s, k - 1) == Furthest(s, k - 1);
    }
  }

  /** The stable frequencies: sorted, raised to the low limit, spread, and the last one clamped. */
  function Stabilised(s: seq<Word16>): (t: seq<int>)
    requires |s| == 10
    ensures |t| == 10
    ensures forall k :: 0 <= k < 9 ==> t[k] == Spaced(LowLimit(Sorted10(s)), k)
    ensures t[9] == var last := Spaced(LowLimit(Sorted10(s)), 9); if last > QLSF_MAX then QLSF_MAX else last
  {
    var u := LowLimit(Sorted10(s));
    var v := seq(10, k requires 0 <= k < 10 => Spaced(u, k));
    if v[9] > QLSF_MAX then v[9 := QLSF_MAX] else v
  }

  function Sorted10(s: seq<Word16>): (t: seq<int>)
    requires |s| == 10
    ensures |t| == 10 && multiset(t) == multiset(s) && Sorted(t)
  {
    assert |multiset(Sort(s))| == |multiset(s)|;
    Sort(s)
  }

  method Stabilise(q: array<Word16>)
    requires q.Length == 10
    modifies q
    ensures q[..] == Stabilised(old(q[..]))
  {
    hide Sort, Spaced;
    InsertionSort(q);
    if q[1] < QLSF_MIN {
      q[1] := QLSF_MIN;
    }
    ghost var u := LowLimit(Sorted10(old(q[..])));
    assert q[..] == u;
    SpreadInPlace(q);
    if q[9] > QLSF_MAX {
      q[9] := QLSF_MAX;
    }
  }

  method SpreadInPlace(q: array<Word16>)
    requires q.Length == 10
    modifies q
    ensures forall k :: 0 <= k < 10 ==> q[k] == Spaced(old(q[..]), k)
  {
    hide Spaced;
    ghost var u := q[..];
    FirstSpaced(u);
    for i := 0 to 9
      invariant forall k :: 0 <= k <= i ==> q[k] == Spaced(u, k)
      invariant forall k :: i < k < 10 ==> q[k] == u[k]
    {
      NextSpaced(u, i);
      var low: int, high: int := q[i], q[i + 1];
      if high - low < MIN_DISTANCE {
        q[i + 1] := Wrap16(low + MIN_DISTANCE);
      }
    }
  }

  lemma FirstSpaced(s: seq<int>)
    requires |s| == 10
    ensures Spaced(s, 0) == s[0]
  {
  }

  lemma NextSpaced(s: seq<int>, i: nat)
    requires i + 1 < |s|
    ensures Spaced(s, i + 1) == if s[i + 1] - Spaced(s, i) < MIN_DISTANCE then Wrap16(Spaced(s, i) + MIN_DISTANCE) else s[i + 1]
  {
  }

  // ----- the frame step both sides share --------------------------------------------------

  function InitialRow(): (s: seq<Word16>)
    ensures |s| == 10
  {
    [2339, 4679, 7018, 9358, 11698, 14037, 16377, 18717, 21056, 23396]
  }

  function InitialLsp(): (s: seq<Word16>)
    ensures |s| == 10
  {
    [30000, 26000, 21000, 15000, 8000, 0, -8000, -15000, -21000, -26000]
  }

  /** The history after a frame: the new code word in front, the oldest dropped. */
  function Push(s: seq<Word16>, h: seq<seq<Word16>>): (h': seq<seq<Word16>>)
    requires |s| == 10 && IsHistory(h)
    ensures IsHistory(h')
  {
    [s, h[0], h[1], h[2]]
  }

  /** The quantized frequencies of a frame. */
  function Frequencies(L: Indices, h: seq<seq<Word16>>): (q: seq<int>)
    requires L.Valid() && IsHistory(h)
    ensures |q| == 10
  {
    Stabilised(PredictedAll(L.l0, CodeWord(L), h))
  }

  /** Rows j and older. */
  function RowsFrom(l0: nat, h: seq<seq<Word16>>, i: nat, j: nat): int
    requires l0 < 2 && i < 10 && j <= 4 && IsHistory(h)
    decreases 4 - j
  {
    if j == 4 then 0 else MaPredictor(l0, j, i) * h[j][i] + RowsFrom(l0, h, i, j + 1)
  }

  /** Rows newer than j. */
  function RowsBefore(l0: nat, h: seq<seq<Word16>>, i: nat, j: nat): int
    requires l0 < 2 && i < 10 && j <= 4 && IsHistory(h)
  {
    if j == 0 then 0 else RowsBefore(l0, h, i, j - 1) + MaPredictor(l0, j - 1, i) * h[j - 1][i]
  }

  lemma RowsUnfolded(l0: nat, h: seq<seq<Word16>>, i: nat)
    requires l0 < 2 && i < 10 && IsHistory(h)
    ensures RowsFrom(l0, h, i, 4) == 0 == RowsBefore(l0, h, i, 0)
    ensures RowsFrom(l0, h, i, 3) == MaPredictor(l0, 3, i) * h[3][i]
    ensures RowsFrom(l0, h, i, 2) == MaPredictor(l0, 2, i) * h[2][i] + RowsFrom(l0, h, i, 3)
    ensures RowsFrom(l0, h, i, 1) == MaPredictor(l0, 1, i) * h[1][i] + RowsFrom(l0, h, i, 2)
    ensures RowsFrom(l0, h, i, 0) == MaPredictor(l0, 0, i) * h[0][i] + RowsFrom(l0, h, i, 1)
    ensures RowsBefore(l0, h, i, 1) == MaPredictor(l0, 0, i) * h[0][i]
    ensures RowsBefore(l0, h, i, 2) == RowsBefore(l0, h, i, 1) + MaPredictor(l0, 1, i) * h[1][i]
    ensures RowsBefore(l0, h, i, 3) == RowsBefore(l0, h, i, 2) + MaPredictor(l0, 2, i) * h[2][i]
    ensures RowsBefore(l0, h, i, 4) == RowsBefore(l0, h, i, 3) + MaPredictor(l0, 3, i) * h[3][i]
  {
    hide MaPredictor;
  }

  /** The weighted row j, or nothing when it is left out. */
  function Used(row: int, use: bool): int {
    if use then row else 0
  }

  lemma UsedRowsBound(l0: nat, i: nat, x: Word16, h: seq<seq<Word16>>, u0: bool, u1: bool, u2: bool, u3: bool)
    requires l0 < 2 && i < 10 && IsHistory(h)
    ensures MIN32 + 0x8000 <= MaSum(l0, i) * x + MaPredictor(l0, 0, i) * Used(h[0][i], u0) + MaPredictor(l0, 1, i) * Used(h[1][i], u1)
                     + MaPredictor(l0, 2, i) * Used(h[2][i], u2) + MaPredictor(l0, 3, i) * Used(h[3][i], u3) <= MAX32 - 0x8000
    ensures -0x4000_0000 <= MaPredictor(l0, 0, i) * Used(h[0][i], u0) + MaPredictor(l0, 1, i) * Used(h[1][i], u1)
                     + MaPredictor(l0, 2, i) * Used(h[2][i], u2) + MaPredictor(l0, 3, i) * Used(h[3][i], u3) <= 0x4000_0000
  {
    hide MaSum, MaPredictor;
    AccumulatorBound(l0, i, x, Used(h[0][i], u0), Used(h[1][i], u1), Used(h[2][i], u2), Used(h[3][i], u3), -0x8000, 0x8000);
    AccumulatorBound(l0, i, 0, Used(h[0][i], u0), Used(h[1][i], u1), Used(h[2][i], u2), Used(h[3][i], u3), -0x8000, 0x8000);
  }

  /** Both accumulation orders reach the same sum and neither overflows 32 bits on the way,
      for every 16-bit code word and history. */
  lemma AccumulationFits(l0: nat, x: Word16, h: seq<seq<Word16>>, i: nat, j: nat)
    requires l0 < 2 && i < 10 && j <= 4 && IsHistory(h)
    ensures MIN32 + 0x8000 <= MaSum(l0, i) * x + RowsFrom(l0, h, i, j) <= MAX32 - 0x8000
    ensures MIN32 + 0x8000 <= MaSum(l0, i) * x + RowsBefore(l0, h, i, j) <= MAX32 - 0x8000
    ensures -0x4000_0000 <= RowsBefore(l0, h, i, j) <= 0x4000_0000
    ensures RowsFrom(l0, h, i, 0) == RowsBefore(l0, h, i, 4)
    ensures MaSum(l0, i) * x + RowsBefore(l0, h, i, 4) == Accumulated(l0, x, h, i)
  {
    hide RowsFrom, RowsBefore, MaPredictor, MaSum;
    RowsUnfolded(l0, h, i);
    UsedRowsBound(l0, i, x, h, j <= 0, j <= 1, j <= 2, j <= 3);
    UsedRowsBound(l0, i, x, h, j > 0, j > 1, j > 2, j > 3);
  }
}
