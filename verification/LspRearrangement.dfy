/** What the two rearrangement passes do to the spacing of a code word. A pass visits the pairs of
    neighbours from the bottom and pushes close ones apart, so a pair loses to the next one part of what
    it gained; whether the minimum distance holds at the end depends on the gaps before the pass. */
module LspRearrangement {
  import opened FixedPoint
  import opened LspCodebooks
  import opened LspQuantizer

  /** Gap k lies between values k and k + 1. */
  function Gaps(s: seq<int>): (g: seq<int>)
    requires |s| >= 1
    ensures |g| == |s| - 1
  {
    seq(|s| - 1, k requires 0 <= k < |s| - 1 => s[k + 1] - s[k])
  }

  /** How far each value of pair k is moved, from the gaps before the pass; no pair below the first or
      above the last moves. */
  function Shift(g: seq<int>, gap: int, k: int): nat
    requires k < |g|
    decreases k
  {
    if k < 0 then 0
    else
      var delta := TruncDiv(gap - g[k] + Shift(g, gap, k - 1), 2);
      if delta > 0 then delta else 0
  }

  function ShiftAt(g: seq<int>, gap: int, k: int): nat {
    if k < |g| then Shift(g, gap, k) else 0
  }

  /** Gap k after the pass: widened by its own push, narrowed by both neighbours'. */
  function GapAfter(g: seq<int>, gap: int, k: nat): int
    requires k < |g|
  {
    g[k] - ShiftAt(g, gap, k - 1) + 2 * ShiftAt(g, gap, k) - ShiftAt(g, gap, k + 1)
  }

  function GapsAfter(g: seq<int>, gap: int): (h: seq<int>)
    ensures |h| == |g|
  {
    seq(|g|, k requires 0 <= k < |g| => GapAfter(g, gap, k))
  }

  // ----- the pass in closed form ----------------------------------------------------------

  /** Value j once the pairs below n have been visited. */
  function Moved(s: seq<int>, gap: int, n: nat, j: nat): int
    requires 1 <= n <= |s| && j < |s|
  {
    var g := Gaps(s);
    s[j] + (if j < n then ShiftAt(g, gap, j - 1) else 0) - (if j + 1 < n then ShiftAt(g, gap, j) else 0)
  }

  lemma {:induction false} MovedInClosedForm(s: seq<int>, gap: int, n: nat)
    requires 1 <= n <= |s|
    ensures forall j :: 0 <= j < |s| ==> Rearrange(s, gap, n)[j] == Moved(s, gap, n, j)
    decreases n
  {
    if n == 1 {
      NothingMoved(s, gap);
    } else {
      MovedInClosedForm(s, gap, n - 1);
      NextPair(s, gap, n - 1, Rearrange(s, gap, n - 1));
    }
  }

  lemma NothingMoved(s: seq<int>, gap: int)
    requires |s| >= 1
    ensures forall j :: 0 <= j < |s| ==> s[j] == Moved(s, gap, 1, j)
  {
  }

  lemma NextPair(s: seq<int>, gap: int, i: nat, u: seq<int>)
    requires 1 <= i < |s| == |u| && forall j :: 0 <= j < |s| ==> u[j] == Moved(s, gap, i, j)
    ensures var t := RearrangeStep(u, i, gap); forall j :: 0 <= j < |s| ==> t[j] == Moved(s, gap, i + 1, j)
  {
    var g := Gaps(s);
    hide TruncDiv;
    assert u[i] == s[i] && u[i - 1] == s[i - 1] + ShiftAt(g, gap, i - 2);
    assert g[i - 1] == s[i] - s[i - 1];
    assert u[i - 1] - u[i] + gap == gap - g[i - 1] + Shift(g, gap, i - 2);
    StepMoves(u, i, gap, Shift(g, gap, i - 1));
    var t := RearrangeStep(u, i, gap);
    hide RearrangeStep, Shift;
    forall j | 0 <= j < |s|
      ensures t[j] == Moved(s, gap, i + 1, j)
    {
      assert u[j] == Moved(s, gap, i, j);
    }
  }

  lemma StepMoves(u: seq<int>, i: nat, gap: int, d: nat)
    requires 1 <= i < |u| && var delta := TruncDiv(u[i - 1] - u[i] + gap, 2); d == if delta > 0 then delta else 0
    ensures var t := RearrangeStep(u, i, gap);
      t[i - 1] == u[i - 1] - d && t[i] == u[i] + d && forall j :: 0 <= j < |u| && j != i && j != i - 1 ==> t[j] == u[j]
  {
    hide TruncDiv;
  }

  /** The gaps after a pass are those of the closed form. */
  lemma GapsOfRearranged(s: seq<int>, gap: int)
    requires |s| >= 1
    ensures Gaps(Rearrange(s, gap, |s|)) == GapsAfter(Gaps(s), gap)
  {
    hide Rearrange, Shift;
    var t, g := Rearrange(s, gap, |s|), Gaps(s);
    MovedInClosedForm(s, gap, |s|);
    forall k | 0 <= k < |g|
      ensures Gaps(t)[k] == GapAfter(g, gap, k)
    {
      assert t[k] == Moved(s, gap, |s|, k) && t[k + 1] == Moved(s, gap, |s|, k + 1);
      assert g[k] == s[k + 1] - s[k];
    }
  }

  // ----- when the minimum distance holds --------------------------------------------------

  /** What pair k has beyond gap - 1 when it has just been visited: at most one unit if it was pushed. */
  function Spare(g: seq<int>, gap: int, k: nat): nat
    requires k < |g|
  {
    if Shift(g, gap, k) > 0 then 1 - (gap - g[k] + ShiftAt(g, gap, k - 1)) % 2
    else if g[k] - ShiftAt(g, gap, k - 1) > gap - 1 then g[k] - ShiftAt(g, gap, k - 1) - (gap - 1)
    else 0
  }

  /** Every pair can spare what the push of the next pair takes from it. */
  predicate Roomy(g: seq<int>, gap: int) {
    forall k :: 0 <= k < |g| - 1 ==> Shift(g, gap, k + 1) <= Spare(g, gap, k)
  }

  predicate AllAtLeast(g: seq<int>, low: int) {
    forall k :: 0 <= k < |g| ==> g[k] >= low
  }

  lemma VisitedGap(g: seq<int>, gap: int, k: nat)
    requires k < |g|
    ensures g[k] - ShiftAt(g, gap, k - 1) + 2 * Shift(g, gap, k) == gap - 1 + Spare(g, gap, k)
  {
    var d := gap - g[k] + Shift(g, gap, k - 1);
    HalfOf(d);
  }

  lemma HalfOf(d: int)
    ensures TruncDiv(d, 2) > 0 <==> d >= 2
    ensures d >= 2 ==> 2 * TruncDiv(d, 2) == d - d % 2
  {
  }

  /** Gap k ends at gap - 1, plus what it can spare, less what the next pair takes. */
  lemma GapAfterIsSpare(g: seq<int>, gap: int, k: nat)
    requires k < |g|
    ensures GapAfter(g, gap, k) == gap - 1 + Spare(g, gap, k) - ShiftAt(g, gap, k + 1)
  {
    hide Shift, Spare;
    VisitedGap(g, gap, k);
  }

  /** One pass over any values leaves every gap at least gap - 1 if and only if every pair can spare
      what the next one takes. */
  lemma SpacedExactlyWhenRoomy(s: seq<int>, gap: int)
    requires |s| >= 1
    ensures AllAtLeast(Gaps(Rearrange(s, gap, |s|)), gap - 1) <==> Roomy(Gaps(s), gap)
  {
    hide Shift, Spare, Rearrange, GapAfter, Gaps;
    var g := Gaps(s);
    GapsOfRearranged(s, gap);
    forall k | 0 <= k < |g|
      ensures GapsAfter(g, gap)[k] >= gap - 1 <==> ShiftAt(g, gap, k + 1) <= Spare(g, gap, k)
    {
      GapAfterIsSpare(g, gap, k);
    }
    assert Roomy(g, gap) <==> forall k :: 0 <= k < |g| ==> ShiftAt(g, gap, k + 1) <= Spare(g, gap, k);
  }

  /** The gaps of a code word, from those of the codebook sum. */
  function CodeWordGaps(L: Indices): (g: seq<int>)
    requires L.Valid()
    ensures |g| == 9
  {
    GapsAfter(GapsAfter(Gaps(Quantized(L)), GAP1), GAP2)
  }

  /** A code word keeps the second pass's minimum distance, up to the rounding of the halves, if and only
      if the gaps the first pass leaves are roomy. */
  lemma CodeWordSpaced(L: Indices)
    requires L.Valid()
    ensures Gaps(CodeWord(L)) == CodeWordGaps(L)
    ensures AllAtLeast(Gaps(CodeWord(L)), GAP2 - 1) <==> Roomy(GapsAfter(Gaps(Quantized(L)), GAP1), GAP2)
  {
    hide Quantized, Rearrange, GapsAfter, Gaps, Roomy, AllAtLeast;
    var once := Rearrange(Quantized(L), GAP1, 10);
    GapsOfRearranged(Quantized(L), GAP1);
    GapsOfRearranged(once, GAP2);
    SpacedExactlyWhenRoomy(once, GAP2);
  }

  // ----- a code word out of order -----------------------------------------------------------

  lemma SteepCodebookSum(L: Indices)
    requires L == Indices(0, 103, 4, 29)
    ensures Quantized(L) == [3427, 4441, 6895, 9181, 9097, 8525, 12654, 17418, 19364, 20312]
  {
    assert FirstStage(103) == FirstStageD(7);
    var s := Quantized(L);
    assert s[0] == 3427 && s[1] == 4441 && s[2] == 6895 && s[3] == 9181 && s[4] == 9097;
    assert s[5] == 8525 && s[6] == 12654 && s[7] == 17418 && s[8] == 19364 && s[9] == 20312;
  }

  lemma ShiftIs(g: seq<int>, gap: int, k: nat, below: nat, d: nat)
    requires k < |g| && Shift(g, gap, k - 1) == below
    requires var delta := TruncDiv(gap - g[k] + below, 2); d == if delta > 0 then delta else 0
    ensures Shift(g, gap, k) == d
  {
    hide TruncDiv;
  }

  /** The first pass pushes pairs 3 and 4 apart by 47 and 314. */
  lemma SteepFirstPass(g: seq<int>)
    requires g == [1014, 2454, 2286, -84, -572, 4129, 4764, 1946, 948]
    ensures GapsAfter(g, GAP1) == [1014, 2454, 2239, -304, 9, 3815, 4764, 1946, 948]
  {
    assert Shift(g, GAP1, -1) == 0;
    hide Shift;
    ShiftIs(g, GAP1, 0, 0, 0);
    ShiftIs(g, GAP1, 1, 0, 0);
    ShiftIs(g, GAP1, 2, 0, 0);
    ShiftIs(g, GAP1, 3, 0, 47);
    ShiftIs(g, GAP1, 4, 47, 314);
    ShiftIs(g, GAP1, 5, 314, 0);
    ShiftIs(g, GAP1, 6, 0, 0);
    ShiftIs(g, GAP1, 7, 0, 0);
    ShiftIs(g, GAP1, 8, 0, 0);
  }

  /** The second pushes them apart by 154 and 75: pair 3 has nothing to spare and loses 75. */
  lemma SteepSecondPass(g: seq<int>)
    requires g == [1014, 2454, 2239, -304, 9, 3815, 4764, 1946, 948]
    ensures Shift(g, GAP2, 4) == 75 && Spare(g, GAP2, 3) == 0 && GapAfter(g, GAP2, 3) == -71
  {
    assert Shift(g, GAP2, -1) == 0;
    hide Shift;
    ShiftIs(g, GAP2, 0, 0, 0);
    ShiftIs(g, GAP2, 1, 0, 0);
    ShiftIs(g, GAP2, 2, 0, 0);
    ShiftIs(g, GAP2, 3, 0, 154);
    ShiftIs(g, GAP2, 4, 154, 75);
  }

  /** The promised distance can fail, even the order: the code word of these indices has its fifth
      frequency 71 units below its fourth. */
  lemma DisorderedCodeWord(L: Indices)
    requires L == Indices(0, 103, 4, 29)
    ensures CodeWord(L)[4] - CodeWord(L)[3] == -71
    ensures !Roomy(GapsAfter(Gaps(Quantized(L)), GAP1), GAP2)
  {
    SteepCodebookSum(L);
    var g := Gaps(Quantized(L));
    assert g == [1014, 2454, 2286, -84, -572, 4129, 4764, 1946, 948];
    SteepFirstPass(g);
    SteepSecondPass(GapsAfter(g, GAP1));
    CodeWordSpaced(L);
    hide Quantized, CodeWord, GapsAfter, Shift, Spare;
    var once := GapsAfter(g, GAP1);
    assert Shift(once, GAP2, 3 + 1) > Spare(once, GAP2, 3);
    assert Gaps(CodeWord(L))[3] == GapAfter(once, GAP2, 3);
  }
}
