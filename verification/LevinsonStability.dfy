/** What the Levinson-Durbin recursion relies on: for a positive definite autocorrelation no step
    divides by zero, every error energy is positive and no larger than the one before, and every reflection
    coefficient is below one in magnitude. The lag sums of a signal that is not all zero are such. */
module LevinsonStability {
  import opened FixedPoint
  import opened RealSums
  import opened LagSums
  import opened LevinsonDurbin

  // ----- positive definite sequences --------------------------------------------------------

  /** The quadratic form of the Toeplitz matrix: the sum of a(k) times row k. */
  ghost function Form(a: int -> real, R: int -> real, n: nat): real {
    Sum(FormTerms(a, R, n), 0, n)
  }

  ghost function FormTerms(a: int -> real, R: int -> real, n: nat): int -> real {
    k => a(k) * Row(a, R, n, k)
  }

  ghost predicate SomeNonZero(a: seq<real>) {
    exists k :: 0 <= k < |a| && a[k] != 0.0
  }

  ghost predicate PositiveForm(r: seq<real>, a: seq<real>) {
    Form(Taps(a), Correlation(r), |a|) > 0.0
  }

  ghost predicate PositiveDefinite(r: seq<real>) {
    |r| >= 1 && forall a: seq<real> :: |a| <= |r| && SomeNonZero(a) ==> PositiveForm(r, a)
  }

  /** The form of a predictor is its error energy, because its rows vanish except the first. */
  lemma FormOfPredictor(r: seq<real>, i: nat)
    requires i < |r| && Regular(r, i)
    ensures Form(Taps(Levinson(r, i).a), Correlation(r), i + 1) == Levinson(r, i).E
  {
    hide Row, Levinson, Correlation;
    NormalEquations(r, i);
    var a := Taps(Levinson(r, i).a);
    var R := Correlation(r);
    var f := FormTerms(a, R, i + 1);
    SumSplit(f, 0, 1, i + 1);
    SumZero(f, 1, i + 1);
    assert Sum(f, 0, 1) == Sum(f, 0, 0) + f(0);
  }

  lemma PositiveEnergy(r: seq<real>, i: nat)
    requires PositiveDefinite(r) && i < |r| && Regular(r, i)
    ensures Levinson(r, i).E > 0.0
  {
    hide Levinson, Form;
    FormOfPredictor(r, i);
    var a := Levinson(r, i).a;
    assert a[0] != 0.0;
    assert SomeNonZero(a);
    assert PositiveForm(r, a);
  }

  lemma ProductSign(x: real, y: real)
    requires x >= 0.0
    ensures (y >= 0.0 ==> x * y >= 0.0) && (y <= 0.0 ==> x * y <= 0.0)
  {
  }

  lemma ReflectionBelowOne(E: real, k: real)
    requires E > 0.0 && NextEnergy(E, k) > 0.0
    ensures -1.0 < k < 1.0 && NextEnergy(E, k) <= E
  {
    ProductSign(E, 1.0 - k * k);
    assert k * k < 1.0;
    if k >= 1.0 {
      ProductSign(k - 1.0, k + 1.0);
    }
    if k <= -1.0 {
      ProductSign(-1.0 - k, 1.0 - k);
    }
    var square := SquareOf(k);
    ProductSign(E, square);
    assert NextEnergy(E, k) == E - E * square;
  }

  lemma SumBelowEnergy(sum: real, E: real)
    requires E > 0.0 && -1.0 < Reflection(sum, E) < 1.0
    ensures -E < sum < E
  {
    var k := Reflection(sum, E);
    assert sum == -(k * E);
    assert (1.0 - k) * E > 0.0 && (1.0 + k) * E > 0.0;
  }

  lemma RegularStep(r: seq<real>, i: nat)
    requires 1 <= i < |r| && Regular(r, i - 1) && Levinson(r, i - 1).E != 0.0
    ensures Regular(r, i)
  {
    hide Levinson;
  }

  /** A step whose accumulated sum is below the energy before it: its coefficient is below one and the
      energy stays positive and does not grow. */
  ghost predicate StableStep(p: Predictor, sum: real, q: Predictor) {
    && -p.E < sum < p.E && 0.0 < q.E <= p.E
    && |q.a| >= 1 && -1.0 < q.a[|q.a| - 1] < 1.0
  }

  lemma StepIsStable(p: Predictor, sum: real, q: Predictor)
    requires |p.a| >= 1 && p.E > 0.0 && q.E > 0.0
    requires var k := Reflection(sum, p.E); q == Predictor(Update(p.a, k), NextEnergy(p.E, k))
    ensures StableStep(p, sum, q)
  {
    hide Reflection, NextEnergy;
    ReflectionBelowOne(p.E, Reflection(sum, p.E));
    SumBelowEnergy(sum, p.E);
  }

  lemma {:induction false} EnergiesPositive(r: seq<real>, i: nat)
    requires PositiveDefinite(r) && i < |r|
    ensures Regular(r, i) && Levinson(r, i).E > 0.0
    decreases i
  {
    hide PositiveDefinite, Levinson;
    if i > 0 {
      EnergiesPositive(r, i - 1);
      RegularStep(r, i);
    }
    PositiveEnergy(r, i);
  }

  /** At every order the recursion is defined, its energy is positive and every step is stable. */
  lemma Stable(r: seq<real>, i: nat)
    requires PositiveDefinite(r) && 1 <= i < |r|
    ensures Regular(r, i) && Regular(r, i - 1)
    ensures StableStep(Levinson(r, i - 1), Residual(r, Levinson(r, i - 1).a, i, i), Levinson(r, i))
  {
    hide PositiveDefinite, Levinson, Regular, Residual, Reflection, NextEnergy, Update, StableStep;
    EnergiesPositive(r, i - 1);
    EnergiesPositive(r, i);
    LevinsonStep(r, i);
    StepIsStable(Levinson(r, i - 1), Residual(r, Levinson(r, i - 1).a, i, i), Levinson(r, i));
  }

  // ----- the lag sums of a signal --------------------------------------------------------------

  /** The signal is zero outside its n samples. */
  ghost predicate Supported(s: int -> real, n: nat) {
    forall t :: t < 0 || t >= n ==> s(t) == 0.0
  }

  ghost function Delayed(s: int -> real, k: int): int -> real {
    t => s(t - k)
  }

  /** The inner product over m samples. */
  ghost function Inner(x: int -> real, y: int -> real, m: int): real {
    Sum(Times(x, y), 0, m)
  }

  lemma InnerCommutes(x: int -> real, y: int -> real, m: int)
    ensures Inner(x, y, m) == Inner(y, x, m)
  {
    SumEqual(Times(x, y), Times(y, x), 0, m);
  }

  /** The correlation of a signal with itself d samples later. */
  ghost function Lag(s: int -> real, d: int, m: int): real {
    Inner(s, Delayed(s, d), m)
  }

  ghost function TapTerms(a: int -> real, s: int -> real, t: int): int -> real {
    k => a(k) * s(t - k)
  }

  /** The signal filtered by n taps. */
  ghost function Filtered(a: int -> real, s: int -> real, n: nat): int -> real {
    t => Sum(TapTerms(a, s, t), 0, n)
  }

  /** The taps times the inner products of the delayed signals with z. */
  ghost function InnerTerms(a: int -> real, s: int -> real, z: int -> real, m: int): int -> real {
    k => a(k) * Inner(Delayed(s, k), z, m)
  }

  /** Summing the inner products of z with the delayed signals gives that with the filtered one. */
  lemma {:induction false} Exchange(a: int -> real, s: int -> real, z: int -> real, n: nat, m: nat)
    ensures Sum(InnerTerms(a, s, z, m), 0, n) == Inner(Filtered(a, s, n), z, m)
    decreases n
  {
    if n == 0 {
      forall t | 0 <= t < m
        ensures Times(Filtered(a, s, 0), z)(t) == 0.0
      {
        assert Sum(TapTerms(a, s, t), 0, 0) == 0.0;
      }
      SumZero(Times(Filtered(a, s, 0), z), 0, m);
    } else {
      Exchange(a, s, z, n - 1, m);
      InnerOfFiltered(a, s, z, n, m);
      LastTerm(a, s, z, n, m);
    }
  }

  lemma InnerOfFiltered(a: int -> real, s: int -> real, z: int -> real, n: nat, m: nat)
    requires n >= 1
    ensures Inner(Filtered(a, s, n), z, m) == Inner(Filtered(a, s, n - 1), z, m) + a(n - 1) * Inner(Delayed(s, n - 1), z, m)
  {
    forall t | 0 <= t < m
      ensures Times(Filtered(a, s, n), z)(t) == Times(Filtered(a, s, n - 1), z)(t) + a(n - 1) * Times(Delayed(s, n - 1), z)(t)
    {
      OneMoreTap(a, s, z, n, t);
    }
    InnerLinear(Filtered(a, s, n - 1), Delayed(s, n - 1), Filtered(a, s, n), z, a(n - 1), m);
  }

  lemma InnerLinear(x: int -> real, y: int -> real, u: int -> real, z: int -> real, c: real, m: nat)
    requires forall t :: 0 <= t < m ==> Times(u, z)(t) == Times(x, z)(t) + c * Times(y, z)(t)
    ensures Inner(u, z, m) == Inner(x, z, m) + c * Inner(y, z, m)
  {
    hide Times;
    SumLinear(Times(x, z), Times(y, z), Times(u, z), c, 0, m);
  }

  lemma LastTerm(a: int -> real, s: int -> real, z: int -> real, n: nat, m: nat)
    requires n >= 1
    ensures Sum(InnerTerms(a, s, z, m), 0, n) == Sum(InnerTerms(a, s, z, m), 0, n - 1) + a(n - 1) * Inner(Delayed(s, n - 1), z, m)
  {
    hide Inner, Delayed;
    var f := InnerTerms(a, s, z, m);
    assert Sum(f, 0, n) == Sum(f, 0, n - 1) + f(n - 1);
  }

  lemma OneMoreTap(a: int -> real, s: int -> real, z: int -> real, n: nat, t: int)
    requires n >= 1
    ensures Times(Filtered(a, s, n), z)(t) == Times(Filtered(a, s, n - 1), z)(t) + a(n - 1) * Times(Delayed(s, n - 1), z)(t)
  {
    var f := TapTerms(a, s, t);
    assert Sum(f, 0, n) == Sum(f, 0, n - 1) + f(n - 1);
    TwoTerms(Sum(f, 0, n - 1), a(n - 1), s(t - (n - 1)), z(t));
  }

  /** Delaying both copies does not change their correlation while the window covers them. */
  lemma DelayedLag(s: int -> real, n: nat, d: nat, j: nat, m: nat)
    requires Supported(s, n) && n + j <= m
    ensures Inner(Delayed(s, j), Delayed(s, j + d), m) == Lag(s, d, m)
  {
    var f := Times(s, Delayed(s, d));
    var g := Times(Delayed(s, j), Delayed(s, j + d));
    ProductVanishes(s, Delayed(s, d), n);
    forall t | 0 - j <= t < m - j
      ensures g(t + j) == f(t)
    {
      DelayedProduct(s, d, j, t);
    }
    ShiftedSum(f, g, n, j, m);
  }

  /** Outside its support a signal adds nothing. */
  lemma MiddleSum(f: int -> real, n: nat, back: int, m: nat)
    requires Supported(f, n) && back <= 0 && n <= m + back
    ensures Sum(f, back, m + back) == Sum(f, 0, m)
  {
    SumSplit(f, back, 0, m + back);
    SumZero(f, back, 0);
    SumSplit(f, 0, m + back, m);
    SumZero(f, m + back, m);
  }

  lemma ShiftedSum(f: int -> real, g: int -> real, n: nat, j: nat, m: nat)
    requires Supported(f, n) && n + j <= m && forall t :: 0 - j <= t < m - j ==> g(t + j) == f(t)
    ensures Sum(g, 0, m) == Sum(f, 0, m)
  {
    MiddleSum(f, n, 0 - j, m);
    SumShift(f, g, 0 - j, m - j, j);
  }

  lemma DelayedProduct(s: int -> real, d: int, j: int, t: int)
    ensures Times(Delayed(s, j), Delayed(s, j + d))(t + j) == Times(s, Delayed(s, d))(t)
  {
    assert t + j - (j + d) == t - d && t + j - j == t;
  }

  lemma ProductVanishes(s: int -> real, z: int -> real, n: nat)
    requires Supported(s, n)
    ensures Supported(Times(s, z), n)
  {
    forall t | t < 0 || t >= n
      ensures Times(s, z)(t) == 0.0
    {
      assert s(t) == 0.0;
    }
  }

  /** The correlation of two delayed copies depends on the difference of the delays only. */
  lemma LagOfDelays(s: int -> real, n: nat, j: nat, k: nat, m: nat)
    requires Supported(s, n) && n + j <= m && n + k <= m
    ensures Inner(Delayed(s, j), Delayed(s, k), m) == Lag(s, if j <= k then k - j else j - k, m)
  {
    hide Inner, Lag, Delayed, Supported;
    if j <= k {
      DelayedLag(s, n, k - j, j, m);
    } else {
      DelayedLag(s, n, j - k, k, m);
      InnerCommutes(Delayed(s, j), Delayed(s, k), m);
    }
  }

  /** r holds the lag sums of the signal. */
  ghost predicate LagsOf(r: seq<real>, s: int -> real, m: int) {
    forall d :: 0 <= d < |r| ==> r[d] == Lag(s, d, m)
  }

  /** Row k of the Toeplitz matrix of a signal's lags is the correlation of the filtered signal with
      the signal delayed by k. */
  lemma RowOfSignal(r: seq<real>, s: int -> real, n: nat, a: int -> real, p: nat, k: nat)
    requires Supported(s, n) && k < p <= |r| && LagsOf(r, s, n + |r|)
    ensures Row(a, Correlation(r), p, k) == Inner(Filtered(a, s, p), Delayed(s, k), n + |r|)
  {
    var m := n + |r|;
    forall j | 0 <= j < p
      ensures RowTerms(a, Correlation(r), k)(j) == InnerTerms(a, s, Delayed(s, k), m)(j)
    {
      LagOfDelays(s, n, j, k, m);
      CorrelationAt(r, k - j);
    }
    hide RowTerms, InnerTerms, Inner, Filtered, Delayed, Correlation;
    SumEqual(RowTerms(a, Correlation(r), k), InnerTerms(a, s, Delayed(s, k), m), 0, p);
    Exchange(a, s, Delayed(s, k), p, m);
  }

  lemma CorrelationAt(r: seq<real>, d: int)
    requires -|r| < d < |r|
    ensures Correlation(r)(d) == r[if d < 0 then -d else d]
  {
  }

  /** The quadratic form is the energy of the filtered signal. */
  lemma FormOfSignal(r: seq<real>, s: int -> real, n: nat, a: int -> real, p: nat)
    requires Supported(s, n) && p <= |r| && LagsOf(r, s, n + |r|)
    ensures Form(a, Correlation(r), p) == Inner(Filtered(a, s, p), Filtered(a, s, p), n + |r|)
  {
    var m := n + |r|;
    var z := Filtered(a, s, p);
    forall k | 0 <= k < p
      ensures FormTerms(a, Correlation(r), p)(k) == InnerTerms(a, s, z, m)(k)
    {
      RowOfSignal(r, s, n, a, p, k);
      InnerCommutes(z, Delayed(s, k), m);
    }
    hide FormTerms, InnerTerms, Inner, Filtered, Correlation;
    SumEqual(FormTerms(a, Correlation(r), p), InnerTerms(a, s, z, m), 0, p);
    Exchange(a, s, z, p, m);
  }

  // ----- the filtered signal is not zero ---------------------------------------------------------

  lemma FirstNonZero(f: int -> real, k: nat) returns (i: nat)
    requires f(k) != 0.0
    ensures i <= k && f(i) != 0.0 && forall j :: 0 <= j < i ==> f(j) == 0.0
  {
    i := 0;
    while f(i) == 0.0
      invariant i <= k && forall j :: 0 <= j < i ==> f(j) == 0.0
      decreases k - i
    {
      i := i + 1;
    }
  }

  /** The first tap meets the first sample alone. */
  lemma FirstFiltered(a: int -> real, s: int -> real, p: nat, i: nat, u: nat)
    requires i < p && a(i) != 0.0 && s(u) != 0.0
    requires (forall j :: 0 <= j < i ==> a(j) == 0.0) && forall t :: t < u ==> s(t) == 0.0
    ensures Filtered(a, s, p)(i + u) != 0.0
  {
    var f := TapTerms(a, s, i + u);
    forall k | 0 <= k < p && k != i
      ensures f(k) == 0.0
    {
      assert if k < i then a(k) == 0.0 else s(i + u - k) == 0.0;
    }
    assert f(i) == a(i) * s(u) && f(i) != 0.0;
    hide TapTerms;
    SumSplit(f, 0, i, p);
    SumSplit(f, i, i + 1, p);
    SumZero(f, 0, i);
    SumZero(f, i + 1, p);
    assert Sum(f, i, i + 1) == Sum(f, i, i) + f(i);
  }

  lemma {:induction false} SquaresPositive(f: int -> real, m: nat, t: nat)
    requires f(t) != 0.0
    ensures Inner(f, f, m) >= 0.0
    ensures t < m ==> Inner(f, f, m) > 0.0
    decreases m
  {
    if m > 0 {
      SquaresPositive(f, m - 1, t);
      var square := LastSquare(f, m);
      hide Inner;
    }
  }

  lemma LastSquare(f: int -> real, m: nat) returns (square: real)
    requires m > 0
    ensures Inner(f, f, m) == Inner(f, f, m - 1) + square
    ensures square >= 0.0 && (f(m - 1) != 0.0 ==> square > 0.0)
  {
    square := SquareOf(f(m - 1));
    var g := Times(f, f);
    assert Sum(g, 0, m) == Sum(g, 0, m - 1) + g(m - 1);
  }

  lemma SquareOf(x: real) returns (square: real)
    ensures square == x * x && square >= 0.0 && (x != 0.0 ==> square > 0.0)
  {
    square := x * x;
    SquareNotNegative(x, square);
    if x != 0.0 {
      SquareNotZero(x, square);
    }
  }

  lemma SquareNotNegative(x: real, square: real)
    requires square == x * x
    ensures square >= 0.0
  {
  }

  lemma SquareNotZero(x: real, square: real)
    requires square == x * x && x != 0.0
    ensures square != 0.0
  {
    var inverse := 1.0 / x;
    assert x * inverse == 1.0;
    assert square * inverse == x * (x * inverse) == x;
  }

  /** The lag sums of a signal with a nonzero sample are positive definite, however many are taken. */
  lemma SignalIsPositiveDefinite(r: seq<real>, s: int -> real, n: nat, u: nat)
    requires |r| >= 1 && Supported(s, n) && LagsOf(r, s, n + |r|) && u < n && s(u) != 0.0
    ensures PositiveDefinite(r)
  {
    var v := FirstNonZero(s, u);
    forall a: seq<real> | |a| <= |r| && SomeNonZero(a)
      ensures PositiveForm(r, a)
    {
      var k :| 0 <= k < |a| && a[k] != 0.0;
      FilteredPositive(r, s, n, v, a, k);
    }
  }

  lemma FilteredPositive(r: seq<real>, s: int -> real, n: nat, v: nat, a: seq<real>, k: nat)
    requires Supported(s, n) && LagsOf(r, s, n + |r|) && v < n && s(v) != 0.0 && forall t :: 0 <= t < v ==> s(t) == 0.0
    requires k < |a| <= |r| && a[k] != 0.0
    ensures PositiveForm(r, a)
  {
    var i := FirstNonZero(Taps(a), k);
    assert forall t :: t < v ==> s(t) == 0.0;
    FirstFiltered(Taps(a), s, |a|, i, v);
    FormOfSignal(r, s, n, Taps(a), |a|);
    hide Form, Filtered, Correlation, LagsOf, Inner, Taps;
    SquaresPositive(Filtered(Taps(a), s, |a|), n + |r|, i + v);
  }

  // ----- the windowed signal of computeLP ----------------------------------------------------

  /** The windowed signal as real samples. */
  ghost function Samples(w: seq<Word16>): int -> real {
    t => if 0 <= t < |w| then w[t] as real else 0.0
  }

  /** The exact lag sums 0 to p - 1. */
  ghost function ExactLags(w: seq<Word16>, p: nat): (r: seq<real>)
    requires p <= |w| + 1
    ensures |r| == p
  {
    seq(p, d requires 0 <= d < p => Corr(w, d, |w|) as real)
  }

  lemma {:induction false} CorrIsLag(w: seq<Word16>, d: nat, n: nat)
    requires d <= n <= |w|
    ensures Corr(w, d, n) as real == Lag(Samples(w), d, n)
    decreases n
  {
    var f := Times(Samples(w), Delayed(Samples(w), d));
    if n == d {
      forall t | 0 <= t < n
        ensures f(t) == 0.0
      {
        assert Delayed(Samples(w), d)(t) == 0.0;
      }
      SumZero(f, 0, n);
    } else {
      CorrIsLag(w, d, n - 1);
      RealProduct(w[n - 1], w[n - 1 - d]);
      assert f(n - 1) == (w[n - 1] as real) * (w[n - 1 - d] as real);
    }
  }

  lemma RealProduct(x: int, y: int)
    ensures (x * y) as real == (x as real) * (y as real)
  {
  }

  lemma LagBeyondWindow(w: seq<Word16>, d: nat, m: nat)
    requires d <= |w| <= m
    ensures Lag(Samples(w), d, m) == Corr(w, d, |w|) as real
  {
    hide Times, Delayed, Samples, Corr;
    CorrIsLag(w, d, |w|);
    SamplesSupported(w);
    var f := Times(Samples(w), Delayed(Samples(w), d));
    ProductVanishes(Samples(w), Delayed(Samples(w), d), |w|);
    SumSplit(f, 0, |w|, m);
    SumZero(f, |w|, m);
  }

  lemma SamplesSupported(w: seq<Word16>)
    ensures Supported(Samples(w), |w|)
  {
  }

  /** So on the exact lag sums of any windowed signal that is not all zero, the recursion runs through to
      every order with positive energies and coefficients below one. */
  lemma WindowedSignalIsStable(w: seq<Word16>, p: nat, i: nat, u: nat)
    requires 1 <= i < p <= |w| + 1 && u < |w| && w[u] != 0
    ensures var r := ExactLags(w, p);
      && Regular(r, i) && Regular(r, i - 1)
      && StableStep(Levinson(r, i - 1), Residual(r, Levinson(r, i - 1).a, i, i), Levinson(r, i))
  {
    var r, s := ExactLags(w, p), Samples(w);
    SamplesSupported(w);
    assert s(u) != 0.0;
    hide Corr, Lag, Levinson, Regular, Samples, Supported, StableStep, Residual;
    forall d | 0 <= d < p
      ensures r[d] == Lag(s, d, |w| + p)
    {
      LagBeyondWindow(w, d, |w| + p);
    }
    SignalIsPositiveDefinite(r, s, |w|, u);
    hide PositiveDefinite;
    Stable(r, i);
  }
}
