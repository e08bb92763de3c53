/** The depth-first pulse search of fixedCodebookSearch: every cross-multiplied comparison is a
    comparison of C^2/E, and every stage keeps the best of the candidates it tries. */
module PulseSearch {
  import opened FixedPoint
  import opened PulseEnergy
  import opened CorrelationMatrix

  /** What is searched: the impulse response, the signs, the matrix scaling and the magnitudes of the
      normalised correlation. The scaling keeps every sum of matrix entries in 32 bits. */
  datatype Problem = Problem(h: seq<Word16>, sgn: seq<int>, scale: nat, d: seq<Word16>)
  {
    predicate Valid() {
      && |h| == L && h[0] == 0x1000 && Signs(sgn) && ScaledFor(h, scale) && |d| == L
      && forall i :: 0 <= i < L ==> 0 <= d[i] <= 0x2000
    }
  }

  /** Pulses on four different tracks, or fewer. */
  predicate OnTracks(ms: seq<nat>) {
    && 1 <= |ms| <= 4 && Positions(ms)
    && forall j, k :: 0 <= j < k < |ms| ==> ms[j] % 5 != ms[k] % 5
  }

  function Correlation(p: Problem, ms: seq<nat>): int
    requires p.Valid() && Positions(ms)
  {
    if ms == [] then 0 else Correlation(p, ms[..|ms| - 1]) + p.d[ms[|ms| - 1]]
  }

  /** C^2 of a candidate. */
  function Gain(p: Problem, ms: seq<nat>): int
    requires p.Valid() && Positions(ms)
  {
    Correlation(p, ms) * Correlation(p, ms)
  }

  /** E of a candidate. */
  function Cost(p: Problem, ms: seq<nat>): (e: int)
    requires p.Valid() && OnTracks(ms)
    ensures e > 0
  {
    EnergyPositive(p.h, p.sgn, p.scale, ms);
    Energy(p.h, p.sgn, p.scale, ms)
  }

  /** C^2/E, the quantity the search maximises. */
  function Ratio(p: Problem, ms: seq<nat>): real
    requires p.Valid() && OnTracks(ms)
  {
    (Gain(p, ms) as real) / (Cost(p, ms) as real)
  }

  /** The code's comparison by cross multiplication is the comparison of the two ratios. */
  lemma CrossMultiplied(g: int, e: int, g': int, e': int)
    requires e > 0 && e' > 0
    ensures e * g' > e' * g <==> (g' as real) / (e' as real) > (g as real) / (e as real)
  {
    var x, y, u, v := g as real, e as real, g' as real, e' as real;
    assert (e * g') as real == y * u && (e' * g) as real == v * x;
    RatioOrder(x, y, u, v);
  }

  lemma RatioOrder(x: real, y: real, u: real, v: real)
    requires y > 0.0 && v > 0.0
    ensures y * u > v * x <==> u / v > x / y
  {
    var a, b := x / y, u / v;
    assert x == a * y && u == b * v;
    assert y * u == (y * v) * b && v * x == (y * v) * a;
    assert y * v > 0.0;
    assert (y * v) * b - (y * v) * a == (y * v) * (b - a);
    if b > a {
      assert (y * v) * (b - a) > 0.0;
    } else {
      assert (y * v) * (a - b) >= 0.0;
    }
  }

  // ----- what the code adds up --------------------------------------------------------------

  lemma PairEnergy(p: Problem, a: nat, b: nat)
    requires p.Valid() && a < L && b < L
    ensures Energy(p.h, p.sgn, p.scale, [a, b])
         == Entry(p.h, p.sgn, p.scale, a, a) + (Entry(p.h, p.sgn, p.scale, a, b) + Entry(p.h, p.sgn, p.scale, b, b))
    ensures Correlation(p, [a, b]) == p.d[a] + p.d[b]
  {
    assert [a, b][..1] == [a] && [a][..0] == [];
    assert Entry(p.h, p.sgn, p.scale, a, b) == Entry(p.h, p.sgn, p.scale, b, a);
    hide Entry;
    assert Links(p.h, p.sgn, p.scale, [a], b) == Entry(p.h, p.sgn, p.scale, b, a);
    assert Energy(p.h, p.sgn, p.scale, [a]) == Entry(p.h, p.sgn, p.scale, a, a);
    assert Correlation(p, [a]) == p.d[a];
  }

  lemma ThirdPulse(p: Problem, a: nat, b: nat, c: nat)
    requires p.Valid() && a < L && b < L && c < L
    ensures Energy(p.h, p.sgn, p.scale, [a, b, c]) == Energy(p.h, p.sgn, p.scale, [a, b])
              + (Entry(p.h, p.sgn, p.scale, c, c) + (Entry(p.h, p.sgn, p.scale, c, a) + Entry(p.h, p.sgn, p.scale, c, b)))
    ensures Correlation(p, [a, b, c]) == Correlation(p, [a, b]) + p.d[c]
  {
    hide Entry;
    assert [a, b, c][..2] == [a, b] && [a, b][..1] == [a] && [a][..0] == [];
    assert Links(p.h, p.sgn, p.scale, [a], c) == Entry(p.h, p.sgn, p.scale, c, a);
    assert Links(p.h, p.sgn, p.scale, [a, b], c) == Links(p.h, p.sgn, p.scale, [a], c) + Entry(p.h, p.sgn, p.scale, c, b);
  }

  lemma FourthPulse(p: Problem, a: nat, b: nat, c: nat, e: nat)
    requires p.Valid() && a < L && b < L && c < L && e < L
    ensures Energy(p.h, p.sgn, p.scale, [a, b, c, e]) == Energy(p.h, p.sgn, p.scale, [a, b, c])
              + (Entry(p.h, p.sgn, p.scale, e, c) + (Entry(p.h, p.sgn, p.scale, e, e)
                 + (Entry(p.h, p.sgn, p.scale, e, a) + Entry(p.h, p.sgn, p.scale, e, b))))
    ensures Correlation(p, [a, b, c, e]) == Correlation(p, [a, b, c]) + p.d[e]
  {
    hide Entry;
    assert [a, b, c, e][..3] == [a, b, c] && [a, b, c][..2] == [a, b] && [a, b][..1] == [a] && [a][..0] == [];
    assert Links(p.h, p.sgn, p.scale, [a], e) == Entry(p.h, p.sgn, p.scale, e, a);
    assert Links(p.h, p.sgn, p.scale, [a, b], e) == Links(p.h, p.sgn, p.scale, [a], e) + Entry(p.h, p.sgn, p.scale, e, b);
    assert Links(p.h, p.sgn, p.scale, [a, b, c], e) == Links(p.h, p.sgn, p.scale, [a, b], e) + Entry(p.h, p.sgn, p.scale, e, c);
  }

  /** The 16-bit sum of four correlations can only wrap at 32768, and its square survives. */
  lemma SquareSurvives(c: int)
    requires 0 <= c <= 0x8000
    ensures Wrap16(c) as int * Wrap16(c) as int == c * c
  {
    if c == 0x8000 {
      assert Wrap16(c) == -0x8000;
    }
  }

  // ----- the stages ---------------------------------------------------------------------------

  /** m is the first largest correlation on its track, position excluded apart. */
  ghost predicate IsTop(d: seq<Word16>, track: nat, excluded: nat, m: nat)
    requires |d| == L
  {
    && m < L && m % 5 == track && m != excluded
    && (forall j :: 0 <= j < L && j % 5 == track && j != excluded ==> d[j] <= d[m])
    && (forall j :: 0 <= j < m && j % 5 == track && j != excluded ==> d[j] < d[m])
  }

  /** Position t of a track. */
  function Slot(track: nat, t: nat): nat {
    track + 5 * t
  }

  lemma SlotsCoverTrack(track: nat, y: nat)
    requires track < 5 && y < L && y % 5 == track
    ensures y / 5 < 8 && y == Slot(track, y / 5)
  {
  }

  /** Among the first n positions of a track, m at slot k is the first of the largest. */
  ghost predicate TopOfSlots(d: seq<Word16>, track: nat, excluded: nat, n: nat, k: nat)
    requires |d| == L && track < 5 && n <= 8
  {
    && k < n && Slot(track, k) != excluded
    && (forall u :: 0 <= u < n && Slot(track, u) != excluded ==> d[Slot(track, u)] <= d[Slot(track, k)])
    && (forall u :: 0 <= u < k && Slot(track, u) != excluded ==> d[Slot(track, u)] < d[Slot(track, k)])
  }

  lemma TopOfTrack(d: seq<Word16>, track: nat, excluded: nat, k: nat)
    requires |d| == L && track < 5 && TopOfSlots(d, track, excluded, 8, k)
    ensures IsTop(d, track, excluded, Slot(track, k))
  {
    var m := Slot(track, k);
    assert m % 5 == track;
    forall j | 0 <= j < L && j % 5 == track && j != excluded
      ensures d[j] <= d[m] && (j < m ==> d[j] < d[m])
    {
      SlotsCoverTrack(track, j);
    }
  }

  method FindTop(p: Problem, track: nat, excluded: nat) returns (m: nat, c: Word16)
    requires p.Valid() && 1 <= track < 5
    ensures IsTop(p.d, track, excluded, m) && c == p.d[m]
  {
    m, c := 0, -1;
    var j := track;
    ghost var t, k := 0, 0;
    while j < L
      invariant j == Slot(track, t) && t <= 8
      invariant c == -1 ==> forall u :: 0 <= u < t ==> Slot(track, u) == excluded
      invariant c != -1 ==> TopOfSlots(p.d, track, excluded, t, k) && m == Slot(track, k) && c == p.d[m]
      invariant c >= -1
    {
      if p.d[j] > c && j != excluded {
        m, c := j, p.d[j];
        k := t;
      }
      j := j + 5;
      t := t + 1;
    }
    assert Slot(track, 0) != Slot(track, 1);
    TopOfTrack(p.d, track, excluded, k);
  }

  /** best is the best of the candidates tried, with its square and energy; before any, the square is
      -1 and the energy 1. */
  ghost predicate BestSoFar(p: Problem, tried: set<seq<nat>>, best: seq<nat>, square: int, energy: int)
    requires p.Valid()
  {
    if tried == {} then square == -1 && energy == 1
    else
      && best in tried && (forall t :: t in tried ==> OnTracks(t))
      && square == Gain(p, best) && energy == Cost(p, best)
      && forall t :: t in tried ==> Ratio(p, t) <= Ratio(p, best)
  }

  /** The comparison by cross multiplication. */
  predicate Better(s: int, e: int, square: int, energy: int) {
    energy * s > e * square
  }

  /** One cross-multiplied comparison keeps the best of one more candidate. */
  lemma Compare(p: Problem, tried: set<seq<nat>>, best: seq<nat>, square: int, energy: int, c: seq<nat>)
    requires p.Valid() && BestSoFar(p, tried, best, square, energy) && OnTracks(c)
    ensures Better(Gain(p, c), Cost(p, c), square, energy) ==> BestSoFar(p, tried + {c}, c, Gain(p, c), Cost(p, c))
    ensures !Better(Gain(p, c), Cost(p, c), square, energy) ==> tried != {} && BestSoFar(p, tried + {c}, best, square, energy)
  {
    hide Cost, Gain;
    GainNonNegative(p, c);
    if tried != {} {
      CrossMultiplied(Gain(p, best), Cost(p, best), Gain(p, c), Cost(p, c));
    }
  }

  lemma GainNonNegative(p: Problem, c: seq<nat>)
    requires p.Valid() && Positions(c)
    ensures Gain(p, c) >= 0
  {
  }

  lemma PairOnTracks(a: nat, b: nat)
    requires a < L && b < L && a % 5 != b % 5
    ensures OnTracks([a, b])
  {
  }

  /** A pair with the best ratio among those whose first pulse has one of the two largest correlations
      of trackA and whose second is anywhere on trackB. */
  ghost predicate BestPair(p: Problem, trackA: nat, trackB: nat, a: nat, b: nat)
    requires p.Valid() && trackA < 5 && trackB < 5 && trackA != trackB
  {
    && a < L && a % 5 == trackA && b < L && b % 5 == trackB
    && exists first, second ::
         && IsTop(p.d, trackA, 0, first) && IsTop(p.d, trackA, first, second) && (a == first || a == second)
         && BestFrom(p, trackB, first, a, b) && BestFrom(p, trackB, second, a, b)
  }

  /** No pair of top with a position of trackB beats (a, b). */
  ghost predicate BestFrom(p: Problem, trackB: nat, top: nat, a: nat, b: nat)
    requires p.Valid() && a < L && b < L && a % 5 != b % 5 && top % 5 != trackB
  {
    top < L && forall y :: 0 <= y < L && y % 5 == trackB ==> Ratio(p, [top, y]) <= Ratio(p, [a, b])
  }

  method SearchPair(p: Problem, phi: array2<Word32>, trackA: nat, trackB: nat)
    returns (a: nat, b: nat, c: Word16, energy: Word32)
    requires p.Valid() && IsMatrix(phi, p.h, p.sgn, p.scale)
    requires 1 <= trackA < 5 && trackB < 5 && trackA != trackB
    ensures BestPair(p, trackA, trackB, a, b)
    ensures c == Correlation(p, [a, b]) && energy == Cost(p, [a, b])
  {
    hide Energy, Ratio, Gain;
    ghost var tried: set<seq<nat>> := {};
    ghost var tops: seq<nat> := [];
    a, b, c, energy := 0, 0, 0, 1;
    var square: Word32 := -1;
    var excluded := 0;
    for i := 0 to 2
      invariant |tops| == i && (i == 0 ==> excluded == 0) && (i > 0 ==> excluded == tops[i - 1])
      invariant i > 0 ==> IsTop(p.d, trackA, 0, tops[0])
      invariant i > 1 ==> IsTop(p.d, trackA, tops[0], tops[1])
      invariant (tried == {}) == (i == 0) && BestSoFar(p, tried, [a, b], square, energy)
      invariant i > 0 ==> a in tops && b < L && b % 5 == trackB && c == Correlation(p, [a, b])
      invariant forall k, y {:trigger tops[k], y % 5} :: 0 <= k < i && 0 <= y < L && y % 5 == trackB ==> [tops[k], y] in tried
    {
      var top, cTop := FindTop(p, trackA, excluded);
      excluded := top;
      a, b, c, energy, square, tried := TryTrack(p, phi, trackA, trackB, top, cTop, a, b, c, energy, square, tried);
      tops := tops + [top];
    }
  }

  /** The correlation, energy and squared correlation of a pair, from the matrix. */
  method PairCandidate(p: Problem, phi: array2<Word32>, a: nat, b: nat, cA: Word16) returns (c: Word16, e: Word32, s: Word32)
    requires p.Valid() && IsMatrix(phi, p.h, p.sgn, p.scale)
    requires a < L && b < L && a % 5 != b % 5 && cA == p.d[a]
    ensures OnTracks([a, b]) && c == Correlation(p, [a, b]) && e == Cost(p, [a, b]) && s == Gain(p, [a, b])
  {
    hide Entry, Energy, Correlation, IsMatrix, Signs, ScaledFor, OnTracks;
    PairOnTracks(a, b);
    PairEnergy(p, a, b);
    MatrixAt(p, phi, a, a);
    MatrixAt(p, phi, a, b);
    MatrixAt(p, phi, b, b);
    PairFits(p, a, b);
    c := cA + p.d[b];
    e := AddPair(phi[a, a], phi[a, b], phi[b, b]);
    CostIsEnergy(p, [a, b]);
    SmallSquare(c);
    s := c as int * c as int;
  }

  method AddPair(first: Word32, link: Word32, second: Word32) returns (e: Word32)
    requires 0 <= 2 * first <= ENTRY_MAX && Abs(link) <= ENTRY_MAX && 0 <= 2 * second <= ENTRY_MAX
    ensures e as int == first as int + (link as int + second as int)
  {
    var sum: Word32 := link + second;
    e := first + sum;
  }

  lemma PairFits(p: Problem, a: nat, b: nat)
    requires p.Valid() && a < L && b < L
    ensures 0 <= 2 * Entry(p.h, p.sgn, p.scale, a, a) <= ENTRY_MAX && 0 <= 2 * Entry(p.h, p.sgn, p.scale, b, b) <= ENTRY_MAX
    ensures Abs(Entry(p.h, p.sgn, p.scale, a, b)) <= ENTRY_MAX
  {
    hide Entry;
    EntryFits(p.h, p.sgn, p.scale, a, a);
    EntryFits(p.h, p.sgn, p.scale, a, b);
    EntryFits(p.h, p.sgn, p.scale, b, b);
  }

  lemma SmallSquare(c: Word16)
    ensures 0 <= c as int * c as int <= 0x4000_0000
  {
    ProductRange(c, c, 0x8000);
    assert c as int * c as int >= 0;
  }

  lemma SlotOnTrack(track: nat, t: nat)
    requires track < 5
    ensures Slot(track, t) % 5 == track && (t < 8 <==> Slot(track, t) < L) && Slot(track, t) + 5 == Slot(track, t + 1)
  {
  }

  lemma SlotAtStart(track: nat)
    ensures Slot(track, 0) == track
  {
  }

  /** Compare the pair (top, y) with the best so far. */
  method TryPair(p: Problem, phi: array2<Word32>, top: nat, y: nat, cTop: Word16,
                 a0: nat, b0: nat, c0: Word16, energy0: Word32, square0: Word32, ghost tried0: set<seq<nat>>)
    returns (a: nat, b: nat, c: Word16, energy: Word32, square: Word32)
    requires p.Valid() && IsMatrix(phi, p.h, p.sgn, p.scale)
    requires top < L && y < L && top % 5 != y % 5 && cTop == p.d[top]
    requires BestSoFar(p, tried0, [a0, b0], square0, energy0)
    ensures BestSoFar(p, tried0 + {[top, y]}, [a, b], square, energy)
    ensures (a == top && b == y && c == Correlation(p, [a, b])) || (tried0 != {} && a == a0 && b == b0 && c == c0)
  {
    hide Ratio, BestSoFar, Gain, Cost, Correlation, IsMatrix, Better;
    var correlation, e, s := PairCandidate(p, phi, top, y, cTop);
    Compare(p, tried0, [a0, b0], square0, energy0, [top, y]);
    if Better(s, e, square0, energy0) {
      a, b, c, energy, square := top, y, correlation, e, s;
    } else {
      a, b, c, energy, square := a0, b0, c0, energy0, square0;
    }
  }

  /** With the first pulse at top, try every position of trackB for the second. */
  method TryTrack(p: Problem, phi: array2<Word32>, trackA: nat, trackB: nat, top: nat, cTop: Word16,
                  a0: nat, b0: nat, c0: Word16, energy0: Word32, square0: Word32, ghost tried0: set<seq<nat>>)
    returns (a: nat, b: nat, c: Word16, energy: Word32, square: Word32, ghost tried: set<seq<nat>>)
    requires p.Valid() && IsMatrix(phi, p.h, p.sgn, p.scale)
    requires trackA < 5 && trackB < 5 && trackA != trackB && top < L && top % 5 == trackA && cTop == p.d[top]
    requires BestSoFar(p, tried0, [a0, b0], square0, energy0)
    ensures tried != {} && BestSoFar(p, tried, [a, b], square, energy)
    ensures tried0 <= tried && forall y :: 0 <= y < L && y % 5 == trackB ==> [top, y] in tried
    ensures (a == top && b < L && b % 5 == trackB && c == Correlation(p, [a, b])) || (tried0 != {} && a == a0 && b == b0 && c == c0)
  {
    hide BestSoFar, Correlation, IsMatrix, Slot, Problem.Valid;
    SlotAtStart(trackB);
    a, b, c, energy, square, tried := a0, b0, c0, energy0, square0, tried0;
    var j := trackB;
    ghost var t := 0;
    while j < L
      invariant j == Slot(trackB, t) && t <= 8
      invariant BestSoFar(p, tried, [a, b], square, energy)
      invariant tried0 <= tried && (t > 0 ==> tried != {})
      invariant forall u :: 0 <= u < t ==> [top, Slot(trackB, u)] in tried
      invariant (a == top && b < L && b % 5 == trackB && c == Correlation(p, [a, b]))
             || ((tried == {} || tried0 != {}) && a == a0 && b == b0 && c == c0)
    {
      SlotOnTrack(trackB, t);
      a, b, c, energy, square := TryPair(p, phi, top, j, cTop, a, b, c, energy, square, tried);
      tried := tried + {[top, j]};
      j := j + 5;
      t := t + 1;
    }
    SlotOnTrack(trackB, t);
    forall y | 0 <= y < L && y % 5 == trackB
      ensures [top, y] in tried
    {
      SlotsCoverTrack(trackB, y);
    }
  }

  lemma QuadOnTracks(a: nat, b: nat, c: nat, e: nat)
    requires a < L && b < L && c < L && e < L
    requires a % 5 != b % 5 && a % 5 != c % 5 && a % 5 != e % 5 && b % 5 != c % 5 && b % 5 != e % 5 && c % 5 != e % 5
    ensures OnTracks([a, b, c, e])
  {
  }

  lemma CorrelationOfThree(p: Problem, a: nat, b: nat, c: nat)
    requires p.Valid() && a < L && b < L && c < L
    ensures Correlation(p, [a, b]) == p.d[a] + p.d[b]
    ensures Correlation(p, [a, b, c]) == Correlation(p, [a, b]) + p.d[c]
    ensures 0 <= Correlation(p, [a, b]) <= 0x4000 && 0 <= Correlation(p, [a, b, c]) <= 0x6000
  {
    PairEnergy(p, a, b);
    ThirdPulse(p, a, b, c);
  }

  lemma MatrixAt(p: Problem, phi: array2<Word32>, i: nat, j: nat)
    requires p.Valid() && IsMatrix(phi, p.h, p.sgn, p.scale) && i < L && j < L && Needed(i, j)
    ensures phi.Length0 == L && phi.Length1 == L && phi[i, j] == Entry(p.h, p.sgn, p.scale, i, j)
  {
  }

  /** The nested 32-bit sums of three and of four pulses. */
  method AddThird(e2: Word32, itself: Word32, link1: Word32, link2: Word32) returns (e3: Word32)
    requires Abs(e2) <= 2 * ENTRY_MAX && 0 <= 2 * itself <= ENTRY_MAX && Abs(link1) <= ENTRY_MAX && Abs(link2) <= ENTRY_MAX
    ensures e3 as int == e2 as int + (itself as int + (link1 as int + link2 as int))
  {
    var links: Word32 := link1 + link2;
    var third: Word32 := itself + links;
    e3 := e2 + third;
  }

  method AddFourth(e3: Word32, link3: Word32, itself: Word32, link1: Word32, link2: Word32) returns (e4: Word32)
    requires 2 * Abs(e3) <= 9 * ENTRY_MAX && Abs(link3) <= ENTRY_MAX
    requires 0 <= 2 * itself <= ENTRY_MAX && Abs(link1) <= ENTRY_MAX && Abs(link2) <= ENTRY_MAX
    ensures e4 as int == e3 as int + (link3 as int + (itself as int + (link1 as int + link2 as int)))
  {
    var links: Word32 := link1 + link2;
    var withItself: Word32 := itself + links;
    var fourth: Word32 := link3 + withItself;
    e4 := e3 + fourth;
  }

  /** Add the third pulse to a chosen pair. */
  method ThirdCandidate(p: Problem, phi: array2<Word32>, a: nat, b: nat, x: nat, c2: Word16, e2: Word32) returns (c3: Word16, e3: Word32)
    requires p.Valid() && IsMatrix(phi, p.h, p.sgn, p.scale)
    requires a < L && b < L && x < L && a % 5 != b % 5 && a % 5 != x % 5 && b % 5 != x % 5
    requires c2 == Correlation(p, [a, b]) && e2 == Energy(p.h, p.sgn, p.scale, [a, b])
    ensures c3 == Correlation(p, [a, b, x]) && e3 == Energy(p.h, p.sgn, p.scale, [a, b, x])
  {
    hide Entry, Energy, Correlation, IsMatrix, ScaledFor, Signs, Abs, Needed;
    CorrelationOfThree(p, a, b, x);
    ThirdSum(p, phi, a, b, x);
    c3 := c2 as int + p.d[x] as int;
    e3 := AddThird(e2, phi[x, x], phi[x, a], phi[x, b]);
  }

  lemma OnDiagonal(i: nat)
    ensures Needed(i, i)
  {
  }

  lemma OnOtherTrack(i: nat, j: nat)
    requires i % 5 != j % 5
    ensures Needed(i, j)
  {
  }

  lemma ThirdSum(p: Problem, phi: array2<Word32>, a: nat, b: nat, x: nat)
    requires p.Valid() && IsMatrix(phi, p.h, p.sgn, p.scale)
    requires a < L && b < L && x < L && a % 5 != x % 5 && b % 5 != x % 5
    ensures phi.Length0 == L && phi.Length1 == L
    ensures Energy(p.h, p.sgn, p.scale, [a, b, x])
         == Energy(p.h, p.sgn, p.scale, [a, b]) + (phi[x, x] as int + (phi[x, a] as int + phi[x, b] as int))
    ensures Correlation(p, [a, b, x]) == Correlation(p, [a, b]) + p.d[x]
    ensures Abs(Energy(p.h, p.sgn, p.scale, [a, b])) <= 2 * ENTRY_MAX
    ensures 0 <= 2 * phi[x, x] <= ENTRY_MAX && Abs(phi[x, a]) <= ENTRY_MAX && Abs(phi[x, b]) <= ENTRY_MAX
  {
    hide Entry, Energy, Correlation, IsMatrix, ScaledFor, Signs, Abs, Needed;
    ThirdPulse(p, a, b, x);
    OnDiagonal(x);
    MatrixAt(p, phi, x, x);
    OnOtherTrack(x, a);
    MatrixAt(p, phi, x, a);
    OnOtherTrack(x, b);
    MatrixAt(p, phi, x, b);
    EntriesFit(p, a, b, x);
  }

  lemma FourthSum(p: Problem, phi: array2<Word32>, a: nat, b: nat, x: nat, y: nat)
    requires p.Valid() && IsMatrix(phi, p.h, p.sgn, p.scale)
    requires a < L && b < L && x < L && y < L && a % 5 != y % 5 && b % 5 != y % 5 && x % 5 != y % 5
    ensures phi.Length0 == L && phi.Length1 == L
    ensures Energy(p.h, p.sgn, p.scale, [a, b, x, y])
         == Energy(p.h, p.sgn, p.scale, [a, b, x]) + (phi[y, x] as int + (phi[y, y] as int + (phi[y, a] as int + phi[y, b] as int)))
    ensures 0 <= 2 * phi[y, y] <= ENTRY_MAX && Abs(phi[y, a]) <= ENTRY_MAX && Abs(phi[y, b]) <= ENTRY_MAX && Abs(phi[y, x]) <= ENTRY_MAX
  {
    hide Entry, Energy, Correlation, IsMatrix, Signs, ScaledFor, Abs, Needed;
    FourthPulse(p, a, b, x, y);
    OnDiagonal(y);
    MatrixAt(p, phi, y, y);
    OnOtherTrack(y, a);
    MatrixAt(p, phi, y, a);
    OnOtherTrack(y, b);
    MatrixAt(p, phi, y, b);
    OnOtherTrack(y, x);
    MatrixAt(p, phi, y, x);
    EntriesFit(p, a, b, y);
    EntriesFit(p, x, x, y);
  }

  /** The matrix entries of pulse x with itself and two others, and the energies they are added to. */
  lemma EntriesFit(p: Problem, a: nat, b: nat, x: nat)
    requires p.Valid() && a < L && b < L && x < L
    ensures 0 <= 2 * Entry(p.h, p.sgn, p.scale, x, x) <= ENTRY_MAX
    ensures Abs(Entry(p.h, p.sgn, p.scale, x, a)) <= ENTRY_MAX && Abs(Entry(p.h, p.sgn, p.scale, x, b)) <= ENTRY_MAX
    ensures Abs(Energy(p.h, p.sgn, p.scale, [a, b])) <= 2 * ENTRY_MAX
  {
    hide Entry, Energy;
    EntryFits(p.h, p.sgn, p.scale, x, x);
    EntryFits(p.h, p.sgn, p.scale, x, a);
    EntryFits(p.h, p.sgn, p.scale, x, b);
    EnergyFits(p.h, p.sgn, p.scale, [a, b]);
  }

  /** The square the code takes of the 16-bit sum of four correlations. */
  lemma FourthSquare(p: Problem, a: nat, b: nat, x: nat, y: nat, c3: int)
    requires p.Valid() && a < L && b < L && x < L && y < L && c3 == Correlation(p, [a, b, x])
    ensures Gain(p, [a, b, x, y]) == Wrap16(c3 + p.d[y]) as int * Wrap16(c3 + p.d[y]) as int
  {
    hide Correlation, Entry, Energy, Wrap16;
    FourthPulse(p, a, b, x, y);
    CorrelationOfThree(p, a, b, x);
    SquareSurvives(c3 + p.d[y]);
  }

  method FourthEnergy(p: Problem, phi: array2<Word32>, a: nat, b: nat, x: nat, y: nat, e3: Word32) returns (e: Word32)
    requires p.Valid() && IsMatrix(phi, p.h, p.sgn, p.scale)
    requires a < L && b < L && x < L && y < L && a % 5 != y % 5 && b % 5 != y % 5 && x % 5 != y % 5
    requires e3 == Energy(p.h, p.sgn, p.scale, [a, b, x])
    ensures e == Energy(p.h, p.sgn, p.scale, [a, b, x, y])
  {
    hide Entry, Energy, Correlation, IsMatrix, Signs, ScaledFor, Abs, Needed;
    FourthSum(p, phi, a, b, x, y);
    EnergyFits(p.h, p.sgn, p.scale, [a, b, x]);
    e := AddFourth(e3, phi[y, x], phi[y, y], phi[y, a], phi[y, b]);
  }

  /** Add the fourth pulse; the sum of correlations is a 16-bit word. */
  method FourthCandidate(p: Problem, phi: array2<Word32>, a: nat, b: nat, x: nat, y: nat, c3: Word16, e3: Word32) returns (e: Word32, s: Word32)
    requires p.Valid() && IsMatrix(phi, p.h, p.sgn, p.scale)
    requires a < L && b < L && x < L && y < L
    requires a % 5 != b % 5 && a % 5 != x % 5 && b % 5 != x % 5 && a % 5 != y % 5 && b % 5 != y % 5 && x % 5 != y % 5
    requires c3 == Correlation(p, [a, b, x]) && e3 == Energy(p.h, p.sgn, p.scale, [a, b, x])
    ensures OnTracks([a, b, x, y]) && e == Cost(p, [a, b, x, y]) && s == Gain(p, [a, b, x, y])
  {
    hide Energy, Correlation, IsMatrix, Gain, OnTracks, Signs, Wrap16;
    QuadOnTracks(a, b, x, y);
    FourthSquare(p, a, b, x, y, c3);
    var c4: Word16 := Wrap16(c3 as int + p.d[y] as int);
    SmallSquare(c4);
    s := c4 as int * c4 as int;
    e := FourthEnergy(p, phi, a, b, x, y, e3);
    CostIsEnergy(p, [a, b, x, y]);
  }

  /** No choice of the last two pulses beats the one made. */
  ghost predicate BestRest(p: Problem, trackC: nat, trackD: nat, q: seq<nat>)
    requires p.Valid() && |q| == 4 && OnTracks(q)
  {
    && q[2] % 5 == trackC && q[3] % 5 == trackD
    && forall x, y {:trigger [q[0], q[1], x, y]} :: 0 <= x < L && x % 5 == trackC && 0 <= y < L && y % 5 == trackD && OnTracks([q[0], q[1], x, y])
         ==> Ratio(p, [q[0], q[1], x, y]) <= Ratio(p, q)
  }

  /** With the third pulse at x, every position of trackD has been tried for the fourth. */
  ghost predicate RowTried(tried: set<seq<nat>>, a: nat, b: nat, x: nat, trackD: nat) {
    forall v :: 0 <= v < 8 ==> [a, b, x, Slot(trackD, v)] in tried
  }

  lemma RowsKept(tried': set<seq<nat>>, tried: set<seq<nat>>, a: nat, b: nat, trackC: nat, trackD: nat, t: nat)
    requires tried' <= tried && forall u :: 0 <= u < t ==> RowTried(tried', a, b, Slot(trackC, u), trackD)
    ensures forall u :: 0 <= u < t ==> RowTried(tried, a, b, Slot(trackC, u), trackD)
  {
    forall u | 0 <= u < t
      ensures RowTried(tried, a, b, Slot(trackC, u), trackD)
    {
      assert RowTried(tried', a, b, Slot(trackC, u), trackD);
    }
  }

  /** With the first two pulses fixed, try all 64 choices of the other two. */
  method SearchRest(p: Problem, phi: array2<Word32>, a: nat, b: nat, c2: Word16, e2: Word32, trackC: nat, trackD: nat)
    returns (m0: nat, m1: nat, square: Word32, energy: Word32)
    requires p.Valid() && IsMatrix(phi, p.h, p.sgn, p.scale)
    requires a < L && b < L && a % 5 != b % 5 && c2 == Correlation(p, [a, b]) && e2 == Cost(p, [a, b])
    requires trackC < 5 && trackD < 5 && trackC != trackD
    requires a % 5 != trackC && a % 5 != trackD && b % 5 != trackC && b % 5 != trackD
    ensures m0 < L && m1 < L && OnTracks([a, b, m0, m1]) && BestRest(p, trackC, trackD, [a, b, m0, m1])
    ensures square == Gain(p, [a, b, m0, m1]) && energy == Cost(p, [a, b, m0, m1])
  {
    hide Ratio, BestSoFar, Gain, Cost, Correlation, IsMatrix, Energy, RowTried, Slot, BestRest, OnTracks, Problem.Valid;
    SlotAtStart(trackC);
    PairOnTracks(a, b);
    CostIsEnergy(p, [a, b]);
    m0, m1, square, energy := 0, 0, -1, 1;
    ghost var tried: set<seq<nat>> := {};
    NothingTried(p, [a, b, m0, m1]);
    var i := trackC;
    ghost var t := 0;
    while i < L
      invariant i == Slot(trackC, t) && t <= 8
      invariant BestSoFar(p, tried, [a, b, m0, m1], square, energy) && (tried == {}) == (t == 0)
      invariant t > 0 ==> m0 < L && m1 < L && m0 % 5 == trackC && m1 % 5 == trackD
      invariant forall u :: 0 <= u < t ==> RowTried(tried, a, b, Slot(trackC, u), trackD)
    {
      ghost var before := tried;
      SlotOnTrack(trackC, t);
      var c3, e3 := ThirdCandidate(p, phi, a, b, i, c2, e2);
      m0, m1, square, energy, tried := TryLast(p, phi, a, b, i, c3, e3, trackC, trackD, m0, m1, square, energy, tried);
      RowsKept(before, tried, a, b, trackC, trackD, t);
      i := i + 5;
      t := t + 1;
    }
    SlotOnTrack(trackC, t);
    AllTried(p, tried, a, b, trackC, trackD, m0, m1, square, energy);
  }

  lemma CostIsEnergy(p: Problem, ms: seq<nat>)
    requires p.Valid() && OnTracks(ms)
    ensures Cost(p, ms) == Energy(p.h, p.sgn, p.scale, ms)
  {
  }

  lemma NothingTried(p: Problem, q: seq<nat>)
    requires p.Valid()
    ensures BestSoFar(p, {}, q, -1, 1)
  {
  }

  lemma AllTried(p: Problem, tried: set<seq<nat>>, a: nat, b: nat, trackC: nat, trackD: nat, m0: nat, m1: nat, square: int, energy: int)
    requires p.Valid() && BestSoFar(p, tried, [a, b, m0, m1], square, energy) && tried != {}
    requires trackC < 5 && trackD < 5 && m0 % 5 == trackC && m1 % 5 == trackD
    requires forall u :: 0 <= u < 8 ==> RowTried(tried, a, b, Slot(trackC, u), trackD)
    ensures OnTracks([a, b, m0, m1]) && BestRest(p, trackC, trackD, [a, b, m0, m1])
    ensures square == Gain(p, [a, b, m0, m1]) && energy == Cost(p, [a, b, m0, m1])
  {
    hide Ratio, Gain, Cost;
    forall x, y | 0 <= x < L && x % 5 == trackC && 0 <= y < L && y % 5 == trackD
      ensures [a, b, x, y] in tried
    {
      SlotsCoverTrack(trackC, x);
      SlotsCoverTrack(trackD, y);
      assert RowTried(tried, a, b, Slot(trackC, x / 5), trackD);
    }
  }

  /** Compare the four pulses (a, b, x, y) with the best so far. */
  method TryFour(p: Problem, phi: array2<Word32>, a: nat, b: nat, x: nat, y: nat, c3: Word16, e3: Word32,
                 m0': nat, m1': nat, square': Word32, energy': Word32, ghost tried': set<seq<nat>>)
    returns (m0: nat, m1: nat, square: Word32, energy: Word32)
    requires p.Valid() && IsMatrix(phi, p.h, p.sgn, p.scale) && a < L && b < L && x < L && y < L
    requires a % 5 != b % 5 && a % 5 != x % 5 && b % 5 != x % 5 && a % 5 != y % 5 && b % 5 != y % 5 && x % 5 != y % 5
    requires c3 == Correlation(p, [a, b, x]) && e3 == Energy(p.h, p.sgn, p.scale, [a, b, x])
    requires BestSoFar(p, tried', [a, b, m0', m1'], square', energy')
    ensures BestSoFar(p, tried' + {[a, b, x, y]}, [a, b, m0, m1], square, energy)
    ensures (m0 == x && m1 == y) || (tried' != {} && m0 == m0' && m1 == m1')
  {
    hide Ratio, BestSoFar, Gain, Cost, Correlation, IsMatrix, Energy, Better;
    var e, s := FourthCandidate(p, phi, a, b, x, y, c3, e3);
    Compare(p, tried', [a, b, m0', m1'], square', energy', [a, b, x, y]);
    if Better(s, e, square', energy') {
      square, energy, m1, m0 := s, e, y, x;
    } else {
      square, energy, m1, m0 := square', energy', m1', m0';
    }
  }

  /** With three pulses fixed, try every position of trackD for the last. */
  method TryLast(p: Problem, phi: array2<Word32>, a: nat, b: nat, x: nat, c3: Word16, e3: Word32, trackC: nat, trackD: nat,
                 m0': nat, m1': nat, square': Word32, energy': Word32, ghost tried': set<seq<nat>>)
    returns (m0: nat, m1: nat, square: Word32, energy: Word32, ghost tried: set<seq<nat>>)
    requires p.Valid() && IsMatrix(phi, p.h, p.sgn, p.scale)
    requires a < L && b < L && x < L && x % 5 == trackC && trackD < 5 && trackC != trackD && a % 5 != b % 5
    requires a % 5 != trackC && a % 5 != trackD && b % 5 != trackC && b % 5 != trackD
    requires c3 == Correlation(p, [a, b, x]) && e3 == Energy(p.h, p.sgn, p.scale, [a, b, x])
    requires BestSoFar(p, tried', [a, b, m0', m1'], square', energy')
    requires tried' != {} ==> m0' < L && m1' < L && m0' % 5 == trackC && m1' % 5 == trackD
    ensures tried != {} && BestSoFar(p, tried, [a, b, m0, m1], square, energy)
    ensures m0 < L && m1 < L && m0 % 5 == trackC && m1 % 5 == trackD
    ensures tried' <= tried && RowTried(tried, a, b, x, trackD)
  {
    hide BestSoFar, Correlation, IsMatrix, Energy, Slot, Problem.Valid;
    SlotAtStart(trackD);
    m0, m1, square, energy, tried := m0', m1', square', energy', tried';
    var j := trackD;
    ghost var t := 0;
    while j < L
      invariant j == Slot(trackD, t) && t <= 8
      invariant BestSoFar(p, tried, [a, b, m0, m1], square, energy)
      invariant tried' <= tried && (t > 0 ==> tried != {})
      invariant tried != {} ==> m0 < L && m1 < L && m0 % 5 == trackC && m1 % 5 == trackD
      invariant forall v :: 0 <= v < t ==> [a, b, x, Slot(trackD, v)] in tried
    {
      SlotOnTrack(trackD, t);
      m0, m1, square, energy := TryFour(p, phi, a, b, x, j, c3, e3, m0, m1, square, energy, tried);
      tried := tried + {[a, b, x, j]};
      j := j + 5;
      t := t + 1;
    }
    SlotOnTrack(trackD, t);
  }

  // ----- the whole search ---------------------------------------------------------------------

  /** The tracks of one run: two maxima of the first, then the second, third and fourth. */
  function Tracks(m3Base: nat, mIndex: nat): (t: seq<nat>)
    ensures |t| == 4
  {
    if mIndex == 0 then [2, m3Base, 0, 1] else [m3Base, 0, 1, 2]
  }

  /** The outcome of one run: a best pair, then the best rest for it. */
  ghost predicate RunOutcome(p: Problem, m3Base: nat, mIndex: nat, q: seq<nat>)
    requires p.Valid() && (m3Base == 3 || m3Base == 4)
  {
    var t := Tracks(m3Base, mIndex);
    && |q| == 4 && OnTracks(q)
    && BestPair(p, t[0], t[1], q[0], q[1])
    && BestRest(p, t[2], t[3], q)
  }

  method Run(p: Problem, phi: array2<Word32>, m3Base: nat, mIndex: nat) returns (m2: nat, m3: nat, m0: nat, m1: nat, square: Word32, energy: Word32)
    requires p.Valid() && IsMatrix(phi, p.h, p.sgn, p.scale) && (m3Base == 3 || m3Base == 4)
    ensures RunOutcome(p, m3Base, mIndex, [m2, m3, m0, m1])
    ensures square == Gain(p, [m2, m3, m0, m1]) && energy == Cost(p, [m2, m3, m0, m1])
  {
    hide Gain, Cost, Correlation, IsMatrix, Ratio;
    var mSwitch := Tracks(m3Base, mIndex);
    var c2, e2;
    m2, m3, c2, e2 := SearchPair(p, phi, mSwitch[0], mSwitch[1]);
    m0, m1, square, energy := SearchRest(p, phi, m2, m3, c2, e2, mSwitch[2], mSwitch[3]);
  }

  /** The pulses of a run put on their tracks. */
  function Arranged(mIndex: nat, q: seq<nat>): (nat, nat, nat, nat)
    requires |q| == 4
  {
    if mIndex == 0 then (q[2], q[3], q[0], q[1]) else (q[1], q[2], q[3], q[0])
  }

  /** quads are the outcomes of the first runs, in the order the code makes them. */
  ghost predicate RunOutcomes(p: Problem, quads: seq<seq<nat>>)
    requires p.Valid()
  {
    |quads| <= 4 && forall r :: 0 <= r < |quads| ==> |quads[r]| == 4 && OnTracks(quads[r]) && RunOutcome(p, 3 + r / 2, r % 2, quads[r])
  }

  /** The chosen outcome is the best so far; square and energy are its. */
  ghost predicate Leading(p: Problem, quads: seq<seq<nat>>, chosen: nat, square: int, energy: int)
    requires p.Valid() && RunOutcomes(p, quads)
  {
    if quads == [] then square == -1 && energy == 1
    else
      && chosen < |quads| && square == Gain(p, quads[chosen]) && energy == Cost(p, quads[chosen])
      && forall r :: 0 <= r < |quads| ==> Ratio(p, quads[r]) <= Ratio(p, quads[chosen])
  }

  lemma OneMoreOutcome(p: Problem, quads: seq<seq<nat>>, q: seq<nat>)
    requires p.Valid() && RunOutcomes(p, quads) && |quads| < 4 && |q| == 4
    requires RunOutcome(p, 3 + |quads| / 2, |quads| % 2, q)
    ensures OnTracks(q) && RunOutcomes(p, quads + [q])
  {
    assert OnTracks(q);
    hide RunOutcome, OnTracks;
  }

  /** Comparing one more outcome with the leader keeps the leader the best. */
  lemma Consider(p: Problem, quads: seq<seq<nat>>, chosen: nat, square: int, energy: int, q: seq<nat>)
    requires p.Valid() && RunOutcomes(p, quads) && OnTracks(q) && RunOutcomes(p, quads + [q])
    requires Leading(p, quads, chosen, square, energy)
    ensures Better(Gain(p, q), Cost(p, q), square, energy) ==> Leading(p, quads + [q], |quads|, Gain(p, q), Cost(p, q))
    ensures !Better(Gain(p, q), Cost(p, q), square, energy) ==> quads != [] && Leading(p, quads + [q], chosen, square, energy)
  {
    GainNonNegative(p, q);
    hide Gain, Cost, RunOutcome, OnTracks, Problem.Valid;
    if quads != [] {
      CrossMultiplied(Gain(p, quads[chosen]), Cost(p, quads[chosen]), Gain(p, q), Cost(p, q));
    }
  }

  /** The four runs, in order, and the choice of the best of them. */
  method SearchPulses(p: Problem, phi: array2<Word32>)
    returns (i0: nat, i1: nat, i2: nat, i3: nat, jx: nat, ghost quads: seq<seq<nat>>, ghost chosen: nat)
    requires p.Valid() && IsMatrix(phi, p.h, p.sgn, p.scale)
    ensures |quads| == 4 && chosen < 4 && RunOutcomes(p, quads)
    ensures forall r :: 0 <= r < 4 ==> Ratio(p, quads[r]) <= Ratio(p, quads[chosen])
    ensures (i0, i1, i2, i3) == Arranged(chosen % 2, quads[chosen]) && jx == chosen / 2
    ensures i0 < L && i1 < L && i2 < L && i3 < L
    ensures i0 % 5 == 0 && i1 % 5 == 1 && i2 % 5 == 2 && i3 % 5 == 3 + jx && jx < 2
  {
    hide Gain, Cost, IsMatrix, Ratio, Leading, RunOutcome, OnTracks, Problem.Valid, Better;
    i0, i1, i2, i3, jx, quads, chosen := 0, 0, 0, 0, 0, [], 0;
    var correlationSquareMax: Word32, energyMax: Word32 := -1, 1;
    NoneLeading(p, chosen);
    for m3Base := 3 to 5
      invariant |quads| == 2 * (m3Base - 3) && RunOutcomes(p, quads)
      invariant Leading(p, quads, chosen, correlationSquareMax, energyMax)
      invariant quads != [] ==> chosen < |quads| && (i0, i1, i2, i3) == Arranged(chosen % 2, quads[chosen]) && jx == chosen / 2
    {
      for mIndex := 0 to 2
        invariant |quads| == 2 * (m3Base - 3) + mIndex && RunOutcomes(p, quads)
        invariant Leading(p, quads, chosen, correlationSquareMax, energyMax)
        invariant quads != [] ==> chosen < |quads| && (i0, i1, i2, i3) == Arranged(chosen % 2, quads[chosen]) && jx == chosen / 2
      {
        var m2, m3, m0, m1, square, energy := Run(p, phi, m3Base, mIndex);
        ghost var q := [m2, m3, m0, m1];
        OneMoreOutcome(p, quads, q);
        Consider(p, quads, chosen, correlationSquareMax, energyMax, q);
        if Better(square, energy, correlationSquareMax, energyMax) {
          correlationSquareMax, energyMax := square, energy;
          if mIndex == 0 {
            i0, i1, i2, i3 := m0, m1, m2, m3;
          } else {
            i0, i1, i2, i3 := m3, m0, m1, m2;
          }
          jx := m3Base - 3;
          chosen := |quads|;
        }
        quads := quads + [q];
      }
    }
    LeaderIsBest(p, quads, chosen, correlationSquareMax, energyMax);
    ArrangedOnTracks(p, quads, chosen);
  }

  lemma NoneLeading(p: Problem, chosen: nat)
    requires p.Valid()
    ensures RunOutcomes(p, []) && Leading(p, [], chosen, -1, 1)
  {
  }

  lemma LeaderIsBest(p: Problem, quads: seq<seq<nat>>, chosen: nat, square: int, energy: int)
    requires p.Valid() && RunOutcomes(p, quads) && Leading(p, quads, chosen, square, energy) && quads != []
    ensures chosen < |quads| && forall r :: 0 <= r < |quads| ==> Ratio(p, quads[r]) <= Ratio(p, quads[chosen])
  {
  }

  lemma ArrangedOnTracks(p: Problem, quads: seq<seq<nat>>, chosen: nat)
    requires p.Valid() && RunOutcomes(p, quads) && chosen < |quads|
    ensures var i := Arranged(chosen % 2, quads[chosen]);
      && i.0 < L && i.1 < L && i.2 < L && i.3 < L
      && i.0 % 5 == 0 && i.1 % 5 == 1 && i.2 % 5 == 2 && i.3 % 5 == 3 + chosen / 2
  {
    hide Ratio;
    var q := quads[chosen];
    assert RunOutcome(p, 3 + chosen / 2, chosen % 2, q);
    assert q[0] < L && q[1] < L && q[2] < L && q[3] < L;
  }
}
