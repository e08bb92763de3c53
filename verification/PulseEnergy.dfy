/** Energies of signed, filtered pulses and the integer correlation matrix that stands for them in
    the fixed codebook search (section 3.8.1 of Recommendation G.729). */
module PulseEnergy {
  import opened FixedPoint
  import opened LagSums

  const L: nat := 40

  // ----- exact energies -------------------------------------------------------------------

  /** Sample t of the impulse response delayed by m. */
  function Tap(h: seq<Word16>, m: int, t: int): int {
    if 0 <= t - m < |h| then h[t - m] else 0
  }

  /** Phi(i, j) up to sample n: the product of the responses delayed by i and by j. */
  function Phi(h: seq<Word16>, i: int, j: int, n: nat): int {
    if n == 0 then 0 else Phi(h, i, j, n - 1) + Tap(h, i, n - 1) * Tap(h, j, n - 1)
  }

  predicate Signs(sgn: seq<int>) {
    |sgn| == L && forall i :: 0 <= i < L ==> sgn[i] == 1 || sgn[i] == -1
  }

  predicate Positions(ms: seq<nat>) {
    forall k :: 0 <= k < |ms| ==> ms[k] < L
  }

  predicate Distinct(ms: seq<nat>) {
    forall j, k :: 0 <= j < k < |ms| ==> ms[j] != ms[k]
  }

  /** Sample t of the filtered signed pulses. */
  function Filtered(h: seq<Word16>, sgn: seq<int>, ms: seq<nat>, t: int): int
    requires Signs(sgn) && Positions(ms)
  {
    if ms == [] then 0
    else
      var m := ms[|ms| - 1];
      Filtered(h, sgn, ms[..|ms| - 1], t) + sgn[m] * Tap(h, m, t)
  }

  /** Squared norm of the filtered signed pulses, up to sample n. */
  function Norm(h: seq<Word16>, sgn: seq<int>, ms: seq<nat>, n: nat): int
    requires Signs(sgn) && Positions(ms)
  {
    if n == 0 then 0
    else Norm(h, sgn, ms, n - 1) + Filtered(h, sgn, ms, n - 1) * Filtered(h, sgn, ms, n - 1)
  }

  /** Signed correlation of pulse m with the pulses ms. */
  function Cross(h: seq<Word16>, sgn: seq<int>, ms: seq<nat>, m: nat, n: nat): int
    requires Signs(sgn) && Positions(ms) && m < L
  {
    if ms == [] then 0
    else
      var q := ms[|ms| - 1];
      Cross(h, sgn, ms[..|ms| - 1], m, n) + sgn[q] * sgn[m] * Phi(h, q, m, n)
  }

  lemma {:induction false} CrossGrows(h: seq<Word16>, sgn: seq<int>, ms: seq<nat>, m: nat, n: nat)
    requires Signs(sgn) && Positions(ms) && m < L
    ensures Cross(h, sgn, ms, m, 0) == 0
    ensures Cross(h, sgn, ms, m, n + 1) == Cross(h, sgn, ms, m, n) + Filtered(h, sgn, ms, n) * (sgn[m] * Tap(h, m, n))
    decreases |ms|
  {
    if ms != [] {
      var q := ms[|ms| - 1];
      CrossGrows(h, sgn, ms[..|ms| - 1], m, n);
      CrossTerm(Filtered(h, sgn, ms[..|ms| - 1], n), sgn[q], sgn[m], Tap(h, q, n), Tap(h, m, n), Phi(h, q, m, n));
    }
  }

  lemma CrossTerm(f: int, s: int, s': int, x: int, y: int, phi: int)
    ensures s * s' * (phi + x * y) == s * s' * phi + (s * x) * (s' * y)
    ensures (f + s * x) * (s' * y) == f * (s' * y) + (s * x) * (s' * y)
  {
    assert s * s' * (x * y) == (s * x) * (s' * y);
  }

  /** Adding a pulse adds its own energy and twice its correlation with the others. */
  lemma {:induction false} NormOfOneMore(h: seq<Word16>, sgn: seq<int>, ms: seq<nat>, n: nat)
    requires Signs(sgn) && Positions(ms) && ms != []
    ensures var rest, m := ms[..|ms| - 1], ms[|ms| - 1];
      Norm(h, sgn, ms, n) == Norm(h, sgn, rest, n) + 2 * Cross(h, sgn, rest, m, n) + Phi(h, m, m, n)
    decreases n
  {
    var rest, m := ms[..|ms| - 1], ms[|ms| - 1];
    if n == 0 {
      CrossGrows(h, sgn, rest, m, 0);
    } else {
      NormOfOneMore(h, sgn, ms, n - 1);
      CrossGrows(h, sgn, rest, m, n - 1);
      SquareOfSum(Filtered(h, sgn, rest, n - 1), sgn[m], Tap(h, m, n - 1));
    }
  }

  lemma SquareOfSum(f: int, s: int, x: int)
    requires s == 1 || s == -1
    ensures (f + s * x) * (f + s * x) == f * f + 2 * (f * (s * x)) + x * x
  {
    var y := s * x;
    assert y * y == x * x by { if s == -1 { assert y == -x; } }
    assert (f + y) * (f + y) == f * f + 2 * (f * y) + y * y;
  }

  // ----- the matrix the code computes -----------------------------------------------------

  /** The diagonal recurrence computes the correlation matrix. */
  lemma {:induction false} DiagonalIsPhi(h: seq<Word16>, i: nat, j: nat, n: nat)
    requires |h| == L && j <= i < L && i <= n <= L
    ensures Phi(h, i, j, n) == Corr(h, i - j, n - j)
    decreases n
  {
    if n == i {
      PhiBeforeStart(h, i, j, n);
    } else {
      DiagonalIsPhi(h, i, j, n - 1);
    }
  }

  lemma {:induction false} PhiBeforeStart(h: seq<Word16>, i: nat, j: nat, n: nat)
    requires n <= i
    ensures Phi(h, i, j, n) == 0
    decreases n
  {
    if n > 0 {
      PhiBeforeStart(h, i, j, n - 1);
    }
  }

  lemma {:induction false} PhiSymmetric(h: seq<Word16>, i: int, j: int, n: nat)
    ensures Phi(h, i, j, n) == Phi(h, j, i, n)
    decreases n
  {
    if n > 0 {
      PhiSymmetric(h, i, j, n - 1);
    }
  }

  /** Entry (i, j) of the stored matrix: halved on the diagonal, scaled down by 2^scale, and given
      the product of the two pulses' signs. */
  function Entry(h: seq<Word16>, sgn: seq<int>, scale: nat, i: nat, j: nat): int
    requires |h| == L && Signs(sgn) && i < L && j < L
  {
    if i == j then (Corr(h, 0, L - i) / 2) / Pow2(scale)
    else if i > j then (Corr(h, i - j, L - j) / Pow2(scale)) * (if sgn[i] > 0 then sgn[j] else -sgn[j])
    else (Corr(h, j - i, L - i) / Pow2(scale)) * (if sgn[j] > 0 then sgn[i] else -sgn[i])
  }

  /** Entries linking pulse m to the pulses ms. */
  function Links(h: seq<Word16>, sgn: seq<int>, scale: nat, ms: seq<nat>, m: nat): int
    requires |h| == L && Signs(sgn) && Positions(ms) && m < L
  {
    if ms == [] then 0 else Links(h, sgn, scale, ms[..|ms| - 1], m) + Entry(h, sgn, scale, m, ms[|ms| - 1])
  }

  /** The energy the search accumulates for the pulses ms. */
  function Energy(h: seq<Word16>, sgn: seq<int>, scale: nat, ms: seq<nat>): int
    requires |h| == L && Signs(sgn) && Positions(ms)
  {
    if ms == [] then 0
    else
      var rest, m := ms[..|ms| - 1], ms[|ms| - 1];
      Energy(h, sgn, scale, rest) + Entry(h, sgn, scale, m, m) + Links(h, sgn, scale, rest, m)
  }

  lemma DiagonalEntry(h: seq<Word16>, sgn: seq<int>, scale: nat, m: nat)
    requires |h| == L && Signs(sgn) && m < L
    ensures var w := 2 * Pow2(scale);
      Phi(h, m, m, L) - w < w * Entry(h, sgn, scale, m, m) <= Phi(h, m, m, L)
  {
    hide Corr, Phi;
    DiagonalIsPhi(h, m, m, L);
    HalvedQuotient(Corr(h, 0, L - m), Pow2(scale));
  }

  lemma HalvedQuotient(phi: int, p: int)
    requires p > 0
    ensures phi - 2 * p < 2 * p * ((phi / 2) / p) <= phi
  {
    FloorProduct(phi / 2, p);
    assert 2 * p * ((phi / 2) / p) == 2 * (p * ((phi / 2) / p));
  }

  /** p times the quotient by p is within p below. */
  lemma FloorProduct(x: int, p: int)
    requires p > 0
    ensures x - p < p * (x / p) <= x
    ensures p == 1 ==> p * (x / p) == x
  {
  }

  lemma OffDiagonalEntry(h: seq<Word16>, sgn: seq<int>, scale: nat, m: nat, q: nat)
    requires |h| == L && Signs(sgn) && m < L && q < L && m != q
    ensures var w, exact := 2 * Pow2(scale), 2 * (sgn[q] * sgn[m] * Phi(h, q, m, L));
      && exact - w < w * Entry(h, sgn, scale, m, q) < exact + w
      && (scale == 0 ==> w * Entry(h, sgn, scale, m, q) == exact)
  {
    var hi, lo := if m > q then m else q, if m > q then q else m;
    DiagonalIsPhi(h, hi, lo, L);
    PhiSymmetric(h, m, q, L);
    EntrySign(h, sgn, scale, m, q, hi, lo);
    SignedQuotient(Corr(h, hi - lo, L - lo), Pow2(scale), sgn[q] * sgn[m]);
  }

  lemma EntrySign(h: seq<Word16>, sgn: seq<int>, scale: nat, m: nat, q: nat, hi: nat, lo: nat)
    requires |h| == L && Signs(sgn) && m < L && q < L && lo < hi && ((m == hi && q == lo) || (m == lo && q == hi))
    ensures sgn[q] * sgn[m] == 1 || sgn[q] * sgn[m] == -1
    ensures Entry(h, sgn, scale, m, q) == (Corr(h, hi - lo, L - lo) / Pow2(scale)) * (sgn[q] * sgn[m])
  {
    hide Corr;
    assert sgn[q] * sgn[m] == if sgn[hi] > 0 then sgn[lo] else -sgn[lo];
  }

  lemma SignedQuotient(phi: int, p: int, s: int)
    requires p > 0 && (s == 1 || s == -1)
    ensures 2 * (s * phi) - 2 * p < 2 * p * ((phi / p) * s) < 2 * (s * phi) + 2 * p
    ensures p == 1 ==> 2 * p * ((phi / p) * s) == 2 * (s * phi)
  {
    FloorProduct(phi, p);
    var x := phi / p;
    if s == 1 {
      assert 2 * p * (x * s) == 2 * (p * x);
    } else {
      assert 2 * p * (x * s) == -(2 * (p * x));
    }
  }

  lemma {:induction false} LinksNearCross(h: seq<Word16>, sgn: seq<int>, scale: nat, ms: seq<nat>, m: nat)
    requires |h| == L && Signs(sgn) && Positions(ms) && m < L && m !in ms
    ensures var w := 2 * Pow2(scale);
      && 2 * Cross(h, sgn, ms, m, L) - w * |ms| <= w * Links(h, sgn, scale, ms, m) <= 2 * Cross(h, sgn, ms, m, L) + w * |ms|
      && (scale == 0 ==> w * Links(h, sgn, scale, ms, m) == 2 * Cross(h, sgn, ms, m, L))
    decreases |ms|
  {
    hide Entry, Phi;
    if ms != [] {
      var rest, q := ms[..|ms| - 1], ms[|ms| - 1];
      LinksNearCross(h, sgn, scale, rest, m);
      OffDiagonalEntry(h, sgn, scale, m, q);
      WeightedSum(2 * Pow2(scale), Links(h, sgn, scale, rest, m), Entry(h, sgn, scale, m, q), |rest|, 1);
    }
  }

  lemma WeightedSum(w: int, x: int, y: int, j: int, k: int)
    ensures w * (x + y) == w * x + w * y && w * (j + k) == w * j + w * k
  {
  }

  /** The number of matrix entries in the energy of k pulses. */
  function Entries(k: nat): nat {
    if k == 0 then 0 else Entries(k - 1) + k
  }

  /** 2^(scale+1) times the accumulated energy is within one such unit per matrix entry of the squared
      norm of the signed filtered pulses; without scaling, twice the energy is at most one below it
      per pulse and never above. */
  lemma {:induction false} EnergyNearNorm(h: seq<Word16>, sgn: seq<int>, scale: nat, ms: seq<nat>)
    requires |h| == L && Signs(sgn) && Positions(ms) && Distinct(ms)
    ensures var w := 2 * Pow2(scale);
      && Norm(h, sgn, ms, L) - w * Entries(|ms|) <= w * Energy(h, sgn, scale, ms) <= Norm(h, sgn, ms, L) + w * Entries(|ms|)
      && (scale == 0 ==> Norm(h, sgn, ms, L) - |ms| <= 2 * Energy(h, sgn, scale, ms) <= Norm(h, sgn, ms, L))
    decreases |ms|
  {
    if ms == [] {
      EmptyNorm(h, sgn, L);
    } else {
      var rest, m := ms[..|ms| - 1], ms[|ms| - 1];
      EnergyNearNorm(h, sgn, scale, rest);
      NormOfOneMore(h, sgn, ms, L);
      DiagonalEntry(h, sgn, scale, m);
      LinksNearCross(h, sgn, scale, rest, m);
      hide Norm, Cross, Phi, Entry, Links;
      var w, e, d, l := 2 * Pow2(scale), Energy(h, sgn, scale, rest), Entry(h, sgn, scale, m, m), Links(h, sgn, scale, rest, m);
      WeightedSum(w, e + d, l, Entries(|rest|) + |rest|, 1);
      WeightedSum(w, e, d, Entries(|rest|), |rest|);
    }
  }

  lemma {:induction false} EmptyNorm(h: seq<Word16>, sgn: seq<int>, n: nat)
    requires Signs(sgn)
    ensures Norm(h, sgn, [], n) == 0
    decreases n
  {
    if n > 0 {
      EmptyNorm(h, sgn, n - 1);
    }
  }

  // ----- every compared energy is positive and fits 32 bits --------------------------------

  lemma {:induction false} LaterPulsesSilent(h: seq<Word16>, sgn: seq<int>, ms: seq<nat>, t: nat)
    requires Signs(sgn) && Positions(ms) && forall k :: 0 <= k < |ms| ==> t < ms[k]
    ensures Filtered(h, sgn, ms, t) == 0
    decreases |ms|
  {
    if ms != [] {
      LaterPulsesSilent(h, sgn, ms[..|ms| - 1], t);
    }
  }

  /** At the first pulse only that pulse is heard, with the first sample of the response. */
  lemma {:induction false} FirstPulseHeard(h: seq<Word16>, sgn: seq<int>, ms: seq<nat>, f: nat)
    requires |h| == L && Signs(sgn) && Positions(ms) && Distinct(ms) && f < |ms|
    requires forall k :: 0 <= k < |ms| && k != f ==> ms[f] < ms[k]
    ensures Filtered(h, sgn, ms, ms[f]) == sgn[ms[f]] * h[0]
    decreases |ms|
  {
    var rest, t := ms[..|ms| - 1], ms[f];
    if f == |ms| - 1 {
      LaterPulsesSilent(h, sgn, rest, t);
    } else {
      FirstPulseHeard(h, sgn, rest, f);
      assert Tap(h, ms[|ms| - 1], t) == 0;
    }
  }

  lemma {:induction false} FirstPulse(ms: seq<nat>) returns (f: nat)
    requires ms != [] && Distinct(ms)
    ensures f < |ms| && forall k :: 0 <= k < |ms| && k != f ==> ms[f] < ms[k]
    decreases |ms|
  {
    var last := |ms| - 1;
    if last == 0 {
      f := 0;
    } else {
      f := FirstPulse(ms[..last]);
      if ms[last] < ms[f] {
        f := last;
      }
    }
  }

  lemma {:induction false} NormAtLeast(h: seq<Word16>, sgn: seq<int>, ms: seq<nat>, t: nat, n: nat)
    requires Signs(sgn) && Positions(ms)
    ensures 0 <= Norm(h, sgn, ms, n)
    ensures t < n ==> Filtered(h, sgn, ms, t) * Filtered(h, sgn, ms, t) <= Norm(h, sgn, ms, n)
    decreases n
  {
    if n > 0 {
      NormAtLeast(h, sgn, ms, t, n - 1);
      assert Filtered(h, sgn, ms, n - 1) * Filtered(h, sgn, ms, n - 1) >= 0;
    }
  }

  /** With the first sample of the response at one in Q12, the norm is at least 2^24. */
  lemma NormIsLarge(h: seq<Word16>, sgn: seq<int>, ms: seq<nat>)
    requires |h| == L && h[0] == 0x1000 && Signs(sgn) && Positions(ms) && Distinct(ms) && ms != []
    ensures 0x100_0000 <= Norm(h, sgn, ms, L)
  {
    var f := FirstPulse(ms);
    FirstPulseHeard(h, sgn, ms, f);
    NormAtLeast(h, sgn, ms, ms[f], L);
  }

  /** The energies of up to four pulses are positive, at every scaling the code uses. */
  lemma EnergyPositive(h: seq<Word16>, sgn: seq<int>, scale: nat, ms: seq<nat>)
    requires |h| == L && h[0] == 0x1000 && Signs(sgn) && Positions(ms) && Distinct(ms)
    requires 1 <= |ms| <= 4 && scale <= 3
    ensures Energy(h, sgn, scale, ms) > 0
  {
    hide Norm, Energy;
    EnergyNearNorm(h, sgn, scale, ms);
    NormIsLarge(h, sgn, ms);
    Pow2Monotone(scale, 3);
    assert Pow2(3) == 8;
    assert Entries(|ms|) <= 10;
    var w, e := 2 * Pow2(scale), Energy(h, sgn, scale, ms);
    assert w * 1 <= w * e by {
      assert w * Entries(|ms|) <= 160 by { assert (16 - w) * Entries(|ms|) >= 0; }
    }
    CancelFactor(w, 1, e);
  }

  /** The scaling the code chooses from the total energy of the response. */
  function ScaleOf(total: int): (scale: nat)
    requires 0 <= total <= MAX32 - 0x333_3333
    ensures scale <= 3
    ensures 8 * total + 96 <= MAX32 * Pow2(scale)
  {
    if total / 2 > 0x666_6666 then
      var x := 2 * (total / 2) + 0x333_3333;
      var zeros := LeadingZeros(x);
      ScaleBound(total, zeros);
      3 - zeros
    else 0
  }

  lemma ScaleBound(total: int, zeros: nat)
    requires 0x666_6666 < total / 2 && total <= MAX32 - 0x333_3333
    requires zeros <= 30 && (2 * (total / 2) + 0x333_3333) * Pow2(zeros) <= MAX32
    ensures zeros <= 2
    ensures 8 * total + 96 <= MAX32 * Pow2(3 - zeros)
  {
    assert Pow2(3) == 8 && Pow2(2) == 4 && Pow2(1) == 2;
    if zeros >= 3 {
      Pow2Monotone(3, zeros);
      AtLeastEightfold(2 * (total / 2) + 0x333_3333, Pow2(zeros));
    }
  }

  lemma AtLeastEightfold(x: int, q: int)
    requires x >= 0 && q >= 8
    ensures x * q >= 8 * x
  {
    assert x * (q - 8) >= 0;
  }

  lemma CancelFactor(w: int, x: int, y: int)
    requires w > 0 && w * x <= w * y
    ensures x <= y
  {
    assert (x - y) * w == w * x - w * y;
    if x > y {
      MulAtLeast(x - y, w);
    }
  }

  /** The room the 32-bit accumulators and the scaling test need. */
  predicate Quiet(h: seq<Word16>) {
    |h| == L && 0 <= Corr(h, 0, L) <= MAX32 - 0x333_3333
  }

  predicate ScaledFor(h: seq<Word16>, scale: nat) {
    Quiet(h) && scale == ScaleOf(Corr(h, 0, L))
  }

  /** An eighth of the largest 32-bit word. */
  const ENTRY_MAX: int := 0xfff_ffff

  lemma QuotientFits(x: int, total: int, p: int)
    requires 1 <= p <= 8 && -total <= x <= total && 8 * total + 96 <= MAX32 * p
    ensures -ENTRY_MAX <= x / p <= ENTRY_MAX
    ensures 0 <= x ==> 0 <= (x / 2) / p && 2 * ((x / 2) / p) <= ENTRY_MAX
  {
    assert p == 1 || p == 2 || p == 3 || p == 4 || p == 5 || p == 6 || p == 7 || p == 8;
  }

  lemma ScalePower(scale: nat)
    requires scale <= 3
    ensures 1 <= Pow2(scale) <= 8
  {
    assert Pow2(0) == 1 && Pow2(1) == 2 && Pow2(2) == 4 && Pow2(3) == 8;
  }

  /** With that scaling an entry of the matrix takes at most 28 bits, and half of that on the diagonal. */
  lemma EntryFits(h: seq<Word16>, sgn: seq<int>, scale: nat, i: nat, j: nat)
    requires Signs(sgn) && ScaledFor(h, scale) && i < L && j < L
    ensures -ENTRY_MAX <= Entry(h, sgn, scale, i, j) <= ENTRY_MAX
    ensures i == j ==> 0 <= Entry(h, sgn, scale, i, j) && 2 * Entry(h, sgn, scale, i, j) <= ENTRY_MAX
  {
    assert sgn[i] * sgn[i] == 1 && (sgn[i] * sgn[j] == 1 || sgn[i] * sgn[j] == -1);
    var total := Corr(h, 0, L);
    if i == j {
      EnergyGrows(h, L - i, L);
      LagFits(h, scale, 0, L - i);
      assert Entry(h, sgn, scale, i, i) == (Corr(h, 0, L - i) / 2) / Pow2(scale) by { hide Corr, Pow2; DiagonalIs(h, sgn, scale, i); }
    } else {
      var d, n := if i >= j then i - j else j - i, L - (if i <= j then i else j);
      LagFits(h, scale, d, n);
      hide Corr, Pow2;
      EntryIs(h, sgn, scale, i, j);
    }
  }

  lemma DiagonalIs(h: seq<Word16>, sgn: seq<int>, scale: nat, i: nat)
    requires |h| == L && Signs(sgn) && i < L
    ensures Entry(h, sgn, scale, i, i) == (Corr(h, 0, L - i) / 2) / Pow2(scale)
  {
    hide Corr, Pow2;
    assert sgn[i] * sgn[i] == 1;
  }

  lemma EntryIs(h: seq<Word16>, sgn: seq<int>, scale: nat, i: nat, j: nat)
    requires |h| == L && Signs(sgn) && i < L && j < L && i != j
    ensures var d, n := if i >= j then i - j else j - i, L - (if i <= j then i else j);
      var x := Corr(h, d, n) / Pow2(scale); Entry(h, sgn, scale, i, j) == x || Entry(h, sgn, scale, i, j) == -x
  {
    hide Corr, Pow2;
    assert sgn[i] * sgn[j] == 1 || sgn[i] * sgn[j] == -1;
  }

  /** A lag sum after the shift. */
  lemma LagFits(h: seq<Word16>, scale: nat, d: nat, n: nat)
    requires ScaledFor(h, scale) && d <= n <= L
    ensures -ENTRY_MAX <= Corr(h, d, n) / Pow2(scale) <= ENTRY_MAX
    ensures 0 <= Corr(h, d, n) ==> 0 <= (Corr(h, d, n) / 2) / Pow2(scale) && 2 * ((Corr(h, d, n) / 2) / Pow2(scale)) <= ENTRY_MAX
  {
    hide Corr, Pow2;
    PartialSumBound(h, d, n);
    ScalePower(scale);
    QuotientFits(Corr(h, d, n), Corr(h, 0, L), Pow2(scale));
  }

  /** So every energy of up to four pulses fits 32 bits. */
  lemma {:induction false} EnergyFits(h: seq<Word16>, sgn: seq<int>, scale: nat, ms: seq<nat>)
    requires Signs(sgn) && ScaledFor(h, scale) && Positions(ms) && |ms| <= 4
    ensures -MAX32 <= Energy(h, sgn, scale, ms) <= MAX32
    ensures 2 * Abs(Energy(h, sgn, scale, ms)) <= |ms| * |ms| * ENTRY_MAX
    decreases |ms|
  {
    if ms != [] {
      var rest, m := ms[..|ms| - 1], ms[|ms| - 1];
      EnergyFits(h, sgn, scale, rest);
      EntryFits(h, sgn, scale, m, m);
      LinksFit(h, sgn, scale, rest, m);
      hide Links, Entry;
      assert |rest| == 0 || |rest| == 1 || |rest| == 2 || |rest| == 3;
    }
  }

  lemma {:induction false} LinksFit(h: seq<Word16>, sgn: seq<int>, scale: nat, ms: seq<nat>, m: nat)
    requires Signs(sgn) && ScaledFor(h, scale) && Positions(ms) && |ms| <= 4 && m < L
    ensures Abs(Links(h, sgn, scale, ms, m)) <= |ms| * ENTRY_MAX
    decreases |ms|
  {
    if ms != [] {
      LinksFit(h, sgn, scale, ms[..|ms| - 1], m);
      EntryFits(h, sgn, scale, m, ms[|ms| - 1]);
      hide Entry;
    }
  }
}
