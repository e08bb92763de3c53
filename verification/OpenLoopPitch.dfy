/** findOpenLoopPitchDelay: for every weighted signal, however loud, the delay it returns lies between
    20 and 143, which is what the closed-loop windows rely on (section A.3.4 of Recommendation
    G.729 Annex A). */
module OpenLoopPitch {
  import opened FixedPoint
  import opened LagSums

  const PAST: nat := 143
  const TOTAL: nat := 223

  // ----- scaling ----------------------------------------------------------------------------------

  function Squared(x: int): (s: int)
    ensures s >= 0
  {
    SquareNonNegative(x);
    x * x
  }

  /** Sum of the first n squares. */
  function Energy(w: seq<int>, n: nat): (e: int)
    requires n <= |w|
    ensures e >= 0
  {
    if n == 0 then 0 else Energy(w, n - 1) + Squared(w[n - 1])
  }

  /** Sum of the squares of k samples, two apart. */
  function Stride(w: seq<int>, start: nat, k: nat): (e: int)
    requires k == 0 || start + 2 * k - 2 < |w|
    ensures e >= 0
  {
    if k == 0 then 0 else Stride(w, start, k - 1) + Squared(w[start + 2 * k - 2])
  }

  /** Half the bits by which the energy exceeds 31, rounded up. */
  function ScaleShift(energy: int): (shift: nat)
    requires 0 <= energy <= TOTAL * 0x4000_0000
  {
    if energy > MAX32 then
      var zeros := LeadingZeros(energy / 0x8000_0000);
      (31 - zeros + 1) / 2
    else 0
  }

  function Scaled(w: seq<Word16>, shift: nat): (v: seq<int>)
    ensures |v| == |w| && forall i :: 0 <= i < |v| ==> v[i] == w[i] as int / Pow2(shift) && -0x8000 <= v[i] <= 0x7fff
  {
    PowAtLeastOne(shift);
    seq(|w|, i requires 0 <= i < |w| => Halved(w[i], Pow2(shift)))
  }

  lemma PowAtLeastOne(n: nat)
    ensures Pow2(n) >= 1
  {
  }

  /** A sample shifted down; it never grows. */
  function Halved(x: Word16, p: int): (y: Word16)
    requires p >= 1
    ensures y as int == x as int / p
  {
    QuotientShrinks(x, p);
    x as int / p
  }

  /** The scaled energy stays below 3 * 2^30 and a little: less than 2^32. */
  lemma ScaledEnergy(w: seq<Word16>)
    requires |w| == TOTAL
    ensures 0 <= Energy(w, TOTAL) <= TOTAL * 0x4000_0000
    ensures Energy(Scaled(w, ScaleShift(Energy(w, TOTAL))), TOTAL) < 0x1_0000_0000
  {
    hide ScaleShift, Scaled, Pow2, Energy;
    EnergyAtMost(w, TOTAL);
    var energy := Energy(w, TOTAL);
    var shift := ScaleShift(energy);
    var p := Pow2(shift);
    ShiftSuffices(energy);
    EnergyShrinks(w, shift, TOTAL);
    Divide(Energy(Scaled(w, shift), TOTAL), energy, p * p);
  }

  lemma Times(q: int, x: int, y: int)
    requires q >= 0 && x >= y
    ensures q * x >= q * y
  {
  }

  lemma Divide(v: int, e: int, q: int)
    requires q >= 1 && e <= 0x8000_0000 * q && 2 * (q * v) <= 3 * e + 6 * (q * TOTAL)
    ensures v < 0x1_0000_0000
  {
    if v >= 0x1_0000_0000 {
      Times(q, v, 0x1_0000_0000);
    }
  }

  lemma {:induction false} EnergyAtMost(w: seq<Word16>, n: nat)
    requires n <= |w|
    ensures Energy(w, n) <= n * 0x4000_0000
  {
    if n > 0 {
      EnergyAtMost(w, n - 1);
      SquareBound(w[n - 1]);
    }
  }

  /** The shift brings the energy under 2^31 times the square of the divisor. */
  lemma ShiftSuffices(energy: int)
    requires 0 <= energy <= TOTAL * 0x4000_0000
    ensures var p := Pow2(ScaleShift(energy)); p * p >= 1 && energy <= 0x8000_0000 * (p * p)
  {
    hide LeadingZeros, Pow2, ScaleShift;
    var shift := ScaleShift(energy);
    Pow2Sum(shift, shift);
    if energy > MAX32 {
      var excess := energy / 0x8000_0000;
      var zeros := LeadingZeros(excess);
      TopPower();
      Pow2Sum(zeros, 31 - zeros);
      FewerBits(excess, Pow2(zeros), Pow2(31 - zeros));
      HalfTheBits(energy);
      Pow2Monotone(31 - zeros, 2 * shift);
      Covered(energy, Pow2(2 * shift));
    } else {
      PowAtLeastOne(2 * shift);
      Covered(energy, Pow2(2 * shift));
    }
  }

  lemma TopPower()
    ensures Pow2(31) == 0x8000_0000
  {
    Pow2Of30(30);
  }

  lemma HalfTheBits(energy: int)
    requires MAX32 < energy <= TOTAL * 0x4000_0000
    ensures 31 - LeadingZeros(energy / 0x8000_0000) <= 2 * ScaleShift(energy)
  {
    hide LeadingZeros;
  }

  lemma Covered(energy: int, q: int)
    requires q >= 1 && energy / 0x8000_0000 + 1 <= q
    ensures energy <= 0x8000_0000 * q
  {
  }

  lemma FewerBits(x: int, p: int, q: int)
    requires p >= 1 && q >= 1 && p * q == 0x8000_0000 && x * p <= MAX32
    ensures x + 1 <= q
  {
    if x >= q {
      Times(p, x, q);
    }
  }

  lemma {:induction false} EnergyShrinks(w: seq<Word16>, shift: nat, n: nat)
    requires n <= |w|
    ensures var q := Pow2(shift) * Pow2(shift);
      2 * (q * Energy(Scaled(w, shift), n)) <= 3 * Energy(w, n) + 6 * (q * n)
  {
    if n > 0 {
      EnergyShrinks(w, shift, n - 1);
      PowAtLeastOne(shift);
      var p := Pow2(shift);
      var x: int := w[n - 1];
      SquareShrinks(x, p);
      hide Pow2, Squared;
      Accumulate(p * p, Energy(Scaled(w, shift), n - 1), Squared(x / p), n - 1);
    }
  }

  lemma Accumulate(q: int, v: int, y: int, n: int)
    ensures q * (v + y) == q * v + q * y && q * (n + 1) == q * n + q
  {
  }

  lemma SquareShrinks(x: int, p: int)
    requires p >= 1
    ensures 2 * ((p * p) * Squared(x / p)) <= 3 * Squared(x) + 6 * (p * p)
  {
    var y, r := x / p, x % p;
    assert x == y * p + r;
    assert (p * p) * (y * y) == (y * p) * (y * p);
    var z := y * p;
    assert z == x - r && 0 <= r < p;
    assert r * r <= p * p by { assert (p - r) * (p + r) >= 0; }
    assert 2 * (z * z) <= 3 * (x * x) + 6 * (r * r) by {
      SquareNonNegative(x + 2 * r);
      assert (x + 2 * r) * (x + 2 * r) == x * x + 4 * (x * r) + 4 * (r * r);
      assert z * z == x * x - 2 * (x * r) + r * r;
    }
  }

  // ----- correlations -----------------------------------------------------------------------------

  /** The first k products of the decimated correlation at a lag. */
  function Products(v: seq<int>, lag: nat, k: nat): int
    requires |v| == TOTAL && lag <= PAST && k <= 40
  {
    if k == 0 then 0 else Products(v, lag, k - 1) + v[PAST + 2 * k - 2] * v[PAST + 2 * k - 2 - lag]
  }

  /** The correlation as a 32-bit word. */
  function Correlation(v: seq<int>, lag: nat): Word32
    requires |v| == TOTAL && lag <= PAST
  {
    Wrap32(Products(v, lag, 40))
  }

  method GetCorrelation(v: seq<int>, lag: nat) returns (correlation: Word32)
    requires |v| == TOTAL && lag <= PAST
    ensures correlation == Correlation(v, lag)
  {
    correlation := 0;
    var i, j := PAST, PAST - lag;
    ghost var k := 0;
    while i < TOTAL
      invariant i == PAST + 2 * k && j == i - lag && k <= 40
      invariant correlation == Wrap32(Products(v, lag, k))
    {
      ghost var before := Products(v, lag, k);
      NestedWrap32(before, v[i] * v[j]);
      correlation := Wrap32(correlation + v[i] * v[j]);
      i, j, k := i + 2, j + 2, k + 1;
    }
  }

  lemma {:induction false} ProductsBound(v: seq<int>, lag: nat, k: nat)
    requires |v| == TOTAL && lag <= PAST && k <= 40
    ensures Abs(2 * Products(v, lag, k)) <= Stride(v, PAST, k) + Stride(v, PAST - lag, k)
  {
    if k > 0 {
      ProductsBound(v, lag, k - 1);
      ProductBound(v[PAST + 2 * k - 2], v[PAST + 2 * k - 2 - lag]);
    }
  }

  lemma {:induction false} StrideSplit(v: seq<int>, start: nat, m: nat, k: nat)
    requires m + k == 0 || start + 2 * (m + k) - 2 < |v|
    ensures Stride(v, start, m + k) == Stride(v, start, m) + Stride(v, start + 2 * m, k)
    decreases k
  {
    if k > 0 {
      StrideSplit(v, start, m, k - 1);
    }
  }

  /** Even and odd samples together are all samples. */
  lemma {:induction false} StridesAreEnergy(v: seq<int>, n: nat)
    requires 2 * n <= |v|
    ensures Stride(v, 0, n) + Stride(v, 1, n) == Energy(v, 2 * n)
  {
    if n > 0 {
      StridesAreEnergy(v, n - 1);
      assert Energy(v, 2 * n) == Energy(v, 2 * n - 2) + Squared(v[2 * n - 2]) + Squared(v[2 * n - 1]);
    }
  }

  /** At these lags the two stretches share no sample, so the correlation is above the lowest word. */
  lemma DisjointLag(v: seq<int>, lag: nat)
    requires |v| == TOTAL && Energy(v, TOTAL) < 0x1_0000_0000 && (lag == 21 || lag == 41 || lag == 80)
    ensures Stride(v, PAST, 40) + Stride(v, PAST - lag, 40) < 0x1_0000_0000
  {
    hide Stride, Energy, Squared;
    StridesAreEnergy(v, 111);
    LastSample(v);
    StrideSplit(v, 1, 71, 40);
    if lag == 80 {
      StrideSplit(v, 1, 31, 40);
    } else {
      var m := (PAST - lag) / 2;
      StrideSplit(v, 0, m, 40);
      StrideSplit(v, 0, m + 40, 71 - m);
    }
  }

  lemma LastSample(v: seq<int>)
    requires |v| == TOTAL
    ensures Energy(v, 222) <= Energy(v, TOTAL)
  {
    assert Energy(v, TOTAL) == Energy(v, 222) + Squared(v[222]);
    hide Energy;
  }

  lemma AboveLowest(v: seq<int>, lag: nat)
    requires |v| == TOTAL && Energy(v, TOTAL) < 0x1_0000_0000 && (lag == 21 || lag == 41 || lag == 80)
    ensures Correlation(v, lag) > MIN32
  {
    hide Products, Stride, Energy;
    DisjointLag(v, lag);
    ProductsBound(v, lag, 40);
    NotLowest(Products(v, lag, 40));
  }

  lemma NotLowest(c: int)
    requires Abs(2 * c) < 0x1_0000_0000
    ensures Wrap32(c) > MIN32
  {
  }

  // ----- the search -------------------------------------------------------------------------------

  predicate Stepped(lag: int, open: nat, close: nat, step: nat)
    requires step > 0
  {
    open <= lag <= close && (lag - open) % step == 0
  }

  /** The lag with the largest correlation in a range; index stays 0 if no correlation is above the
      lowest word. */
  method GetCorrelationMax(v: seq<int>, open: nat, close: nat, step: nat) returns (index: nat, correlationMax: Word32)
    requires |v| == TOTAL && 0 < open <= close <= PAST && (step == 1 || step == 2)
    ensures forall i :: Stepped(i, open, close, step) ==> Correlation(v, i) <= correlationMax
    ensures if index == 0 then correlationMax == MIN32 else Stepped(index, open, close, step) && correlationMax == Correlation(v, index)
  {
    hide Products;
    index, correlationMax := 0, MIN32;
    var i := open;
    while i <= close
      invariant open <= i <= close + step && (i - open) % step == 0
      invariant forall k :: Stepped(k, open, close, step) && k < i ==> Correlation(v, k) <= correlationMax
      invariant if index == 0 then correlationMax == MIN32 else Stepped(index, open, close, step) && correlationMax == Correlation(v, index)
      decreases close + step - i
    {
      var correlation := GetCorrelation(v, i);
      if correlation > correlationMax {
        index, correlationMax := i, correlation;
      }
      assert forall k :: i < k < i + step ==> !Stepped(k, open, close, step);
      i := i + step;
    }
  }

  /** The odd neighbours of the best even lag of the last range. The upper one is only tried when the
      lower one did not win: the code adds one to the lag it has just moved. */
  function Refined(v: seq<int>, even: nat): (lag: nat)
    requires |v| == TOTAL && 80 <= even <= 142
    ensures 80 <= lag <= PAST
  {
    if even > 80 && Correlation(v, even - 1) > Correlation(v, even) then even - 1
    else if Correlation(v, even + 1) > Correlation(v, even) then even + 1
    else even
  }

  /** So the refined lag is the best of the three unless both neighbours beat the even lag and the
      upper one beats the lower. */
  lemma RefinedIsBest(v: seq<int>, even: nat)
    requires |v| == TOTAL && 80 < even <= 142
    ensures var best := Correlation(v, Refined(v, even));
      var low, mid, high := Correlation(v, even - 1), Correlation(v, even), Correlation(v, even + 1);
      low <= best && mid <= best && high <= best <==> !(mid < low < high)
  {
    hide Correlation;
  }

  /** A weighted signal with one present sample and three past ones, at lags 99, 100 and 101. */
  function Crest(): (w: seq<Word16>)
    ensures |w| == TOTAL
  {
    seq(TOTAL, i requires 0 <= i < TOTAL => if i == PAST then 1 else if i == 42 then 3 else if i == 43 then 1 else if i == 44 then 2 else 0)
  }

  lemma {:induction false} CrestProducts(lag: nat, k: nat)
    requires 1 <= lag <= PAST && 1 <= k <= 40
    ensures Products(Crest(), lag, k) == Crest()[PAST - lag]
    decreases k
  {
    var w := Crest();
    if k == 1 {
      assert Products(w, lag, 0) == 0;
      assert w[PAST] == 1;
    } else {
      CrestProducts(lag, k - 1);
      assert w[PAST + 2 * k - 2] == 0;
    }
  }

  lemma CrestCorrelation(lag: nat)
    requires 1 <= lag <= PAST
    ensures Correlation(Crest(), lag) == Crest()[PAST - lag]
  {
    hide Products;
    CrestProducts(lag, 40);
  }

  lemma {:induction false} QuietEnergy(w: seq<Word16>, n: nat)
    requires n <= |w| && forall i :: 0 <= i < |w| ==> 0 <= w[i] <= 3
    ensures Energy(w, n) <= 9 * n
    decreases n
  {
    if n > 0 {
      QuietEnergy(w, n - 1);
    }
  }

  lemma CrestRefined(w: seq<Word16>)
    requires w == Crest()
    ensures Refined(w, 100) == 99 && Correlation(w, 100) < Correlation(w, 99) < Correlation(w, 101)
    ensures Correlation(w, 100) == 1
  {
    hide Correlation;
    CrestCorrelation(99);
    CrestCorrelation(100);
    CrestCorrelation(101);
  }

  lemma CrestUnscaled(w: seq<Word16>)
    requires w == Crest()
    ensures Energy(w, TOTAL) <= MAX32 && ScaleShift(Energy(w, TOTAL)) == 0 && Scaled(w, 0) == w
  {
    hide Energy;
    QuietEnergy(w, TOTAL);
    assert Pow2(0) == 1;
  }

  /** The condition can fail. This signal is used unscaled, 100 is its best even lag of the last range, and
      the refinement stops at 99 although 101 correlates better. */
  lemma UpperNeighbourMissed(w: seq<Word16>)
    requires w == Crest()
    ensures Energy(w, TOTAL) <= MAX32 && ScaleShift(Energy(w, TOTAL)) == 0 && Scaled(w, 0) == w
    ensures forall i :: Stepped(i, 80, 143, 2) ==> Correlation(w, i) <= Correlation(w, 100)
    ensures Refined(w, 100) == 99 && Correlation(w, 100) < Correlation(w, 99) < Correlation(w, 101)
  {
    hide Correlation, Energy, ScaleShift, Scaled, Refined, Crest;
    CrestUnscaled(w);
    CrestRefined(w);
    CrestEven(w);
  }

  lemma CrestEven(w: seq<Word16>)
    requires w == Crest()
    ensures forall i :: Stepped(i, 80, 143, 2) ==> Correlation(w, i) <= 1
  {
    hide Correlation;
    forall i | Stepped(i, 80, 143, 2)
      ensures Correlation(w, i) <= 1
    {
      CrestCorrelation(i);
      EvenCrest(PAST - i);
    }
  }

  lemma EvenCrest(t: nat)
    requires t < PAST && t % 2 == 1
    ensures Crest()[t] <= 1
  {
  }

  method RefineThird(v: seq<int>, even: nat, top: Word32) returns (lag: nat, correlationMax: Word32)
    requires |v| == TOTAL && 80 <= even <= 142 && top == Correlation(v, even)
    ensures lag == Refined(v, even) && correlationMax == Correlation(v, lag)
  {
    hide Correlation;
    lag, correlationMax := even, top;
    if lag > 80 {
      var odd := GetCorrelation(v, lag - 1);
      if odd > correlationMax {
        lag, correlationMax := even - 1, odd;
      }
    }
    var odd := GetCorrelation(v, lag + 1);
    if odd > correlationMax {
      lag, correlationMax := even + 1, odd;
    }
  }

  /** A correlation divided by the root of the delayed energy, given as an integer function. */
  function Normalised(c: Word32, energy: Word32, invSqrt: int -> Word32): Word32 {
    Wrap32(c as int * invSqrt(if energy == 0 then 1 else energy) as int / 0x80_0000)
  }

  /** The second range's correlation with a quarter of the third's added for each multiple it is near. */
  function Raised2(i2: int, i3: int, n2: Word32, n3: Word32): Word32 {
    var m := if Abs(2 * i2 - i3) < 5 then Wrap32(n2 as int + n3 as int / 4) else n2;
    if Abs(3 * i2 - i3) < 7 then Wrap32(m as int + n3 as int / 4) else m
  }

  /** The first range's with a fifth of the raised second's. */
  function Raised1(i1: int, i2: int, n1: Word32, m2: Word32): Word32 {
    var m := if Abs(2 * i1 - i2) < 5 then Wrap32(n1 as int + MultP15(6554, m2)) else n1;
    if Abs(3 * i1 - i2) < 7 then Wrap32(m as int + MultP15(6554, m2)) else m
  }

  /** Three ranges' winners: the one of largest raised correlation, the shorter delay on ties. */
  function Favoured(i1: int, i2: int, i3: int, n1: Word32, n2: Word32, n3: Word32): (T: int)
    ensures var m2 := Raised2(i2, i3, n2, n3); var m1 := Raised1(i1, i2, n1, m2);
      && (T == i1 || T == i2 || T == i3)
      && (m1 >= m2 && m1 >= n3 ==> T == i1) && (m2 > m1 && m2 >= n3 ==> T == i2) && (n3 > m1 && n3 > m2 ==> T == i3)
  {
    var m2 := Raised2(i2, i3, n2, n3);
    var m1 := Raised1(i1, i2, n1, m2);
    if (if m1 < m2 then m2 else m1) < n3 then i3 else if m1 < m2 then i2 else i1
  }

  /** Whether a delay is near the double and near the triple of another. */
  function Near(i: int, j: int): (n: nat)
    ensures n <= 2
  {
    (if Abs(2 * i - j) < 5 then 1 else 0) + (if Abs(3 * i - j) < 7 then 1 else 0)
  }

  /** How far the favouring goes while nothing wraps: a quarter of the third correlation for each multiple. */
  lemma RaisedByQuarters(i2: int, i3: int, n2: Word32, n3: Word32)
    requires 0 <= n2 <= 0x2000_0000 && 0 <= n3 <= 0x2000_0000
    ensures Raised2(i2, i3, n2, n3) as int == n2 as int + Near(i2, i3) * (n3 as int / 4)
  {
    hide Wrap32, Abs;
    NoWrap32(n2 as int + n3 as int / 4);
    NoWrap32(n2 as int + n3 as int / 4 + n3 as int / 4);
  }

  /** And a fifth of the raised second one, up to rounding. */
  lemma RaisedByFifths(i1: int, i2: int, n1: Word32, m2: Word32)
    requires 0 <= n1 <= 0x2000_0000 && 0 <= m2 <= 0x4000_0000
    ensures Near(i1, i2) * (m2 as int - 6) <= 5 * (Raised1(i1, i2, n1, m2) as int - n1 as int)
         <= Near(i1, i2) * (m2 as int + 10 + m2 as int / 0x4000)
  {
    hide MultP15;
    FifthOf(m2);
    var fifth := MultP15(6554, m2);
    TwiceRaised(i1, i2, n1, m2, fifth);
    var near := Near(i1, i2);
    hide Near, Raised1;
    assert near == 0 || near == 1 || near == 2;
  }

  lemma TwiceRaised(i1: int, i2: int, n1: Word32, m2: Word32, fifth: int)
    requires 0 <= n1 <= 0x2000_0000 && fifth == MultP15(6554, m2) && -6 <= fifth <= 0x1000_0000
    ensures Raised1(i1, i2, n1, m2) as int == n1 as int + Near(i1, i2) * fifth
  {
    hide MultP15, Wrap32, Abs;
    NoWrap32(n1 as int + fifth);
    NoWrap32(n1 as int + fifth + fifth);
  }

  /** The multiply by 0.2 in Q15. */
  lemma FifthOf(m: Word32)
    requires 0 <= m <= 0x4000_0000
    ensures m as int - 6 <= 5 * MultP15(6554, m) <= m as int + 10 + m as int / 0x4000 && MultP15(6554, m) <= 0x1000_0000
  {
    SplitRoundIsRound(6554, m, 0x8000);
    hide SplitRound;
  }

  /** The energy of the stretch one lag back, as a 32-bit word. */
  method EnergyAt(v: seq<int>, lag: nat) returns (energy: Word32)
    requires |v| == TOTAL && lag <= PAST
    ensures energy == Wrap32(Stride(v, PAST - lag, 40))
  {
    energy := 0;
    var i := PAST - lag;
    for k := 0 to 40
      invariant i == PAST - lag + 2 * k && energy == Wrap32(Stride(v, PAST - lag, k))
    {
      NestedWrap32(Stride(v, PAST - lag, k), Squared(v[i]));
      energy := Wrap32(energy as int + v[i] * v[i]);
      i := i + 2;
    }
  }

  method TotalEnergy(w: seq<Word16>) returns (energy: Word64)
    requires |w| == TOTAL
    ensures energy == Energy(w, TOTAL)
  {
    energy := 0;
    for i := 0 to TOTAL
      invariant energy == Energy(w, i)
    {
      EnergyAtMost(w, i + 1);
      energy := energy + w[i] as int * w[i] as int;
    }
  }

  /** The winner of each range, refined in the last one. */
  ghost predicate Winners(v: seq<int>, i1: nat, i2: nat, even: nat)
    requires |v| == TOTAL
  {
    && Stepped(i1, 20, 39, 1) && (forall i :: Stepped(i, 20, 39, 1) ==> Correlation(v, i) <= Correlation(v, i1))
    && Stepped(i2, 40, 79, 1) && (forall i :: Stepped(i, 40, 79, 1) ==> Correlation(v, i) <= Correlation(v, i2))
    && Stepped(even, 80, 143, 2) && (forall i :: Stepped(i, 80, 143, 2) ==> Correlation(v, i) <= Correlation(v, even))
  }

  /** The open-loop delay of a weighted signal: the favoured one of three winners, in [20, 143]. */
  method FindOpenLoopPitchDelay(w: seq<Word16>, invSqrt: int -> Word32)
    returns (T: int, ghost i1: nat, ghost i2: nat, ghost even: nat, ghost v: seq<int>)
    requires |w| == TOTAL
    ensures 20 <= T <= 143
    ensures 0 <= Energy(w, TOTAL) <= TOTAL * 0x4000_0000 && v == Scaled(w, ScaleShift(Energy(w, TOTAL))) && Winners(v, i1, i2, even)
    ensures var i3 := Refined(v, even);
      var n1 := Normalised(Correlation(v, i1), Wrap32(Stride(v, PAST - i1, 40)), invSqrt);
      var n2 := Normalised(Correlation(v, i2), Wrap32(Stride(v, PAST - i2, 40)), invSqrt);
      var n3 := Normalised(Correlation(v, i3), Wrap32(Stride(v, PAST - i3, 40)), invSqrt);
      T == Favoured(i1, i2, i3, n1, n2, n3)
  {
    hide Scaled, ScaleShift, Energy, Correlation, Stride, Normalised, Favoured, Wrap32;
    var energy := TotalEnergy(w);
    ScaledEnergy(w);
    var scaled := Scaled(w, ScaleShift(energy));
    v := scaled;
    AboveLowest(v, 21);
    AboveLowest(v, 41);
    AboveLowest(v, 80);
    assert Stepped(21, 20, 39, 1) && Stepped(41, 40, 79, 1) && Stepped(80, 80, 143, 2);
    var index1, top1 := GetCorrelationMax(scaled, 20, 39, 1);
    var index2, top2 := GetCorrelationMax(scaled, 40, 79, 1);
    var indexEven, topEven := GetCorrelationMax(scaled, 80, 143, 2);
    i1, i2, even := index1, index2, indexEven;
    var index3, top3 := RefineThird(scaled, indexEven, topEven);
    var e1 := EnergyAt(scaled, index1);
    var e2 := EnergyAt(scaled, index2);
    var e3 := EnergyAt(scaled, index3);
    T := Favoured(index1, index2, index3, Normalised(top1, e1, invSqrt), Normalised(top2, e2, invSqrt), Normalised(top3, e3, invSqrt));
  }
}
