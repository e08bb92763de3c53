/** The shape of code words: the range of each frequency, and how far an earlier one can lie above a later
    one. Five rows of this shape fix the predicted frequencies closely enough to bound what sorting and
    spreading can change. */
module LspShape {
  import opened FixedPoint
  import opened LspCodebooks
  import opened LspQuantizer
  import opened LspRearrangement

  // ----- ranges and distances ---------------------------------------------------------------

  function Low(i: nat): int
    requires i < 10
  {
    Pick(i, -927, 164, 1105, 2052, 4162, 6105, 8835, 10904, 14404, 16208)
  }

  function High(i: nat): int
    requires i < 10
  {
    Pick(i, 6786, 9031, 11254, 13492, 16236, 17719, 19761, 21586, 23437, 25846)
  }

  /** The most by which value j of a code word can exceed the later value i. */
  function Over(j: nat, i: nat): int
    requires j < i < 10
  {
    match j
    case 0 => Pick(i, 0, 2985, 2588, 1940, 1332, -12, -635, -1767, -2198, -3046)
    case 1 => Pick(i, 0, 0, 3277, 2629, 2021, 677, 54, -1078, -1509, -2357)
    case 2 => Pick(i, 0, 0, 0, 2629, 2021, 677, 54, -1078, -1509, -2357)
    case 3 => Pick(i, 0, 0, 0, 0, 2412, 1068, 445, -687, -1118, -1966)
    case 4 => Pick(i, 0, 0, 0, 0, 0, 1957, 1334, 202, -229, -1077)
    case 5 => Pick(i, 0, 0, 0, 0, 0, 0, 2208, 1076, 645, -203)
    case 6 => Pick(i, 0, 0, 0, 0, 0, 0, 0, 2061, 651, 55)
    case 7 => Pick(i, 0, 0, 0, 0, 0, 0, 0, 0, 1032, 1022)
    case _ => 1022
  }

  /** A row with these ranges and distances. */
  predicate Shapely(r: seq<int>) {
    && |r| == 10
    && (forall i :: 0 <= i < 10 ==> Low(i) <= r[i] <= High(i))
    && (forall j, i :: 0 <= j < i < 10 ==> r[j] - r[i] <= Over(j, i))
  }

  // ----- the codebook sum ---------------------------------------------------------------------

  /** The least distances of the first stage, summed up. */
  function Ladder(i: nat): int
    requires i < 10
  {
    Pick(i, 0, 549, 989, 1617, 2433, 3491, 4684, 5311, 6128, 6639)
  }

  function SecondLow(i: nat): int
    requires i < 10
  {
    Pick(i, -1596, -1237, -1280, -1260, -1468, -1182, -1752, -1247, -1633, -1296)
  }

  function SecondHigh(i: nat): int
    requires i < 10
  {
    Pick(i, 2197, 2337, 1568, 1660, 1733, 1549, 1341, 1640, 1517, 2223)
  }

  /** By how much entry j of the second stage can exceed the later entry i. */
  function Excess(j: nat, i: nat): int
    requires j < i < 10
  {
    if j == 7 && i == 8 then 1749 else if j == 7 && i == 9 then 2250 else if j == 8 then 1021
    else if j == 6 && i == 8 then 1995 else if j == 6 && i == 9 then 1910
    else SecondHigh(j) - SecondLow(i)
  }

  lemma LadderClimbs(row: seq<int>, j: nat, i: nat)
    requires FirstShape(row) && j < i < 10
    ensures row[i] - row[j] >= Ladder(i) - Ladder(j)
  {
    var k := i - 1;
    if j < k {
      LadderClimbs(row, j, k);
    }
  }

  lemma SecondRange(row: seq<int>, i: nat)
    requires SecondShape(row) && i < 10
    ensures SecondLow(i) <= row[i] <= SecondHigh(i)
  {
  }

  /** Values j and i of the codebook sum. */
  lemma QuantizedPair(L: Indices, j: nat, i: nat)
    requires L.Valid() && j < i < 10
    ensures Quantized(L)[j] - Quantized(L)[i] <= Excess(j, i) - (Ladder(i) - Ladder(j))
  {
    hide FirstStage, SecondStage, FirstShape, Ladder, SecondLow, SecondHigh;
    var row := FirstStage(L.l1);
    LadderClimbs(row, j, i);
    var upper, lower := SecondStage(if j < 5 then L.l2 else L.l3), SecondStage(if i < 5 then L.l2 else L.l3);
    SecondRange(upper, j);
    SecondRange(lower, i);
    assert Quantized(L)[j] == row[j] + upper[j] && Quantized(L)[i] == row[i] + lower[i];
  }

  lemma QuantizedRange(L: Indices, i: nat)
    requires L.Valid() && i < 10
    ensures Pick(i, -917, 174, 1115, 2062, 4172, 6115, 8845, 10914, 14414, 16218) <= Quantized(L)[i] <= High(i) - 90
  {
    hide FirstStage, SecondStage, FirstShape, SecondShape, High;
    var row, second := FirstStage(L.l1), SecondStage(if i < 5 then L.l2 else L.l3);
    assert FirstShape(row) && SecondShape(second);
    EntrySums(row, second, i);
  }

  lemma EntrySums(row: seq<int>, second: seq<int>, i: nat)
    requires FirstShape(row) && SecondShape(second) && i < 10
    ensures Pick(i, -917, 174, 1115, 2062, 4172, 6115, 8845, 10914, 14414, 16218) <= row[i] + second[i] <= High(i) - 90
  {
  }

  /** The table of code words leaves room for both rearrangements and grows toward its diagonal. */
  lemma OverCovers(j: nat, i: nat)
    requires j < i < 10
    ensures Over(j, i) >= Excess(j, i) - (Ladder(i) - Ladder(j)) + 100
    ensures i + 1 < 10 ==> Over(j, i) >= Excess(j, i + 1) - (Ladder(i + 1) - Ladder(j)) + 100
    ensures i + 2 < 10 ==> Over(j, i) >= Excess(j, i + 2) - (Ladder(i + 2) - Ladder(j)) + 100
    ensures j > 0 ==> Over(j, i) >= Over(j - 1, i)
  {
  }

  lemma OverGrows(m: nat, j: nat, i: nat)
    requires m <= j < i < 10
    ensures Over(m, i) <= Over(j, i)
  {
    if m < j {
      OverGrows(m, j - 1, i);
      OverCovers(j, i);
    }
  }

  // ----- rearrangement ------------------------------------------------------------------------

  /** The largest of the first values. */
  function Top(s: seq<int>, j: nat): (m: nat)
    requires j < |s|
    ensures m <= j && forall k :: 0 <= k <= j ==> s[k] <= s[m]
  {
    if j == 0 then 0 else
      var m := Top(s, j - 1);
      if s[j] > s[m] then j else m
  }

  lemma StepWithin(u: seq<int>, i: nat, gap: int)
    requires 1 <= i < |u| && 0 <= gap <= 10
    ensures var t := RearrangeStep(u, i, gap);
      && (t[i] == u[i] || 2 * t[i] <= u[i] + u[i - 1] + 10) && t[i] >= u[i]
      && (t[i - 1] == u[i - 1] || 2 * t[i - 1] >= u[i] + u[i - 1] - 10) && t[i - 1] <= u[i - 1]
      && forall j :: 0 <= j < |u| && j != i && j != i - 1 ==> t[j] == u[j]
  {
    var d := u[i - 1] - u[i] + gap;
    HalfOf(d);
  }

  /** No value rises more than 5 per pair above the largest before it, and none falls more than 5 below
      itself and its upper neighbour. */
  lemma {:induction false} RearrangedAtMost(s: seq<int>, gap: int, n: nat, j: nat, B: int)
    requires 1 <= n <= |s| && 0 <= gap <= 10 && j < |s| && forall k :: 0 <= k <= j ==> s[k] <= B
    ensures Rearrange(s, gap, n)[j] <= B + 5 * j && (n <= j ==> Rearrange(s, gap, n)[j] == s[j])
    decreases n
  {
    if n > 1 {
      RearrangedAtMost(s, gap, n - 1, j, B);
      StepWithin(Rearrange(s, gap, n - 1), n - 1, gap);
      if j == n - 1 {
        RearrangedAtMost(s, gap, n - 1, j - 1, B);
      }
      hide RearrangeStep;
    }
  }

  lemma {:induction false} RearrangedAtLeast(s: seq<int>, gap: int, n: nat, j: nat, B: int)
    requires 1 <= n <= |s| && 0 <= gap <= 10 && j < |s| && s[j] >= B && (j + 1 < |s| ==> s[j + 1] >= B)
    ensures Rearrange(s, gap, n)[j] >= B - 5 && (n <= j + 1 ==> Rearrange(s, gap, n)[j] >= B)
    ensures j + 1 < |s| && n <= j + 1 ==> Rearrange(s, gap, n)[j + 1] >= B
    decreases n
  {
    if n > 1 {
      RearrangedAtLeast(s, gap, n - 1, j, B);
      StepWithin(Rearrange(s, gap, n - 1), n - 1, gap);
      hide RearrangeStep;
    }
  }

  /** Value j of a code word from above and from below. */
  lemma CodeWordAtMost(L: Indices, j: nat, B: int)
    requires L.Valid() && j < 10 && forall k :: 0 <= k <= j ==> Quantized(L)[k] <= B
    ensures CodeWord(L)[j] <= B + 90
  {
    hide Quantized, Rearrange;
    var s := Quantized(L);
    var once := Rearrange(s, GAP1, 10);
    forall k | 0 <= k <= j
      ensures once[k] <= B + 45
    {
      RearrangedAtMost(s, GAP1, 10, k, B);
    }
    RearrangedAtMost(once, GAP2, 10, j, B + 45);
  }

  lemma CodeWordAtLeast(L: Indices, j: nat, B: int)
    requires L.Valid() && j < 10 && forall k :: j <= k <= j + 2 && k < 10 ==> Quantized(L)[k] >= B
    ensures CodeWord(L)[j] >= B - 10
  {
    hide Quantized, Rearrange;
    var s := Quantized(L);
    var once := Rearrange(s, GAP1, 10);
    RearrangedAtLeast(s, GAP1, 10, j, B);
    if j + 1 < 10 {
      RearrangedAtLeast(s, GAP1, 10, j + 1, B);
    }
    RearrangedAtLeast(once, GAP2, 10, j, B - 5);
  }

  /** The smallest of three values from i on. */
  function Bottom(s: seq<int>, i: nat): (k: nat)
    requires i < |s|
    ensures i <= k <= i + 2 && k < |s| && forall m :: i <= m <= i + 2 && m < |s| ==> s[k] <= s[m]
  {
    var k := if i + 1 < |s| && s[i + 1] < s[i] then i + 1 else i;
    if i + 2 < |s| && s[i + 2] < s[k] then i + 2 else k
  }

  lemma CodeWordPair(L: Indices, j: nat, i: nat)
    requires L.Valid() && j < i < 10
    ensures CodeWord(L)[j] - CodeWord(L)[i] <= Over(j, i)
  {
    hide Quantized, CodeWord, Over, Excess, Ladder;
    var s := Quantized(L);
    var m, k := Top(s, j), Bottom(s, i);
    CodeWordAtMost(L, j, s[m]);
    CodeWordAtLeast(L, i, s[k]);
    QuantizedPair(L, m, k);
    OverCovers(m, i);
    OverGrows(m, j, i);
  }

  lemma CodeWordBox(L: Indices, i: nat)
    requires L.Valid() && i < 10
    ensures Low(i) <= CodeWord(L)[i] <= High(i)
  {
    hide Quantized, CodeWord;
    var s := Quantized(L);
    forall k | 0 <= k <= i
      ensures s[k] <= High(i) - 90
    {
      QuantizedRange(L, k);
    }
    forall k | i <= k <= i + 2 && k < 10
      ensures s[k] >= Low(i) + 10
    {
      QuantizedRange(L, k);
    }
    CodeWordAtMost(L, i, High(i) - 90);
    CodeWordAtLeast(L, i, Low(i) + 10);
  }

  /** Every code word has the shape, and so has the initial row. */
  lemma CodeWordIsShapely(L: Indices)
    requires L.Valid()
    ensures Shapely(CodeWord(L))
  {
    hide CodeWord, Low, High, Over;
    forall i | 0 <= i < 10
      ensures Low(i) <= CodeWord(L)[i] <= High(i)
    {
      CodeWordBox(L, i);
    }
    forall j, i | 0 <= j < i < 10
      ensures CodeWord(L)[j] - CodeWord(L)[i] <= Over(j, i)
    {
      CodeWordPair(L, j, i);
    }
  }

  lemma InitialIsShapely()
    ensures Shapely(InitialRow())
  {
  }
}
