/** Line spectral pairs and linear prediction coefficients, in exact arithmetic
    (sections 3.2.3 and 3.2.6 of Recommendation G.729).

    Both directions of the conversion work on half of a palindromic polynomial. The specification
    is the full polynomial, the product of (1 - 2q z^-1 + z^-2) over the line spectral pairs q. */
module LspPolynomials {
  import opened RealSums

  // ----- Chebyshev polynomials --------------------------------------------------------

  /** The product 2 x y of the recurrence. */
  function Doubled(x: real, y: real): real {
    2.0 * x * y
  }

  /** T_|m|(x). */
  function Chebyshev(m: int, x: real): real
    decreases if m < 0 then 1 - m else m
  {
    if m < 0 then Chebyshev(-m, x)
    else if m == 0 then 1.0
    else if m == 1 then x
    else Doubled(x, Chebyshev(m - 1, x)) - Chebyshev(m - 2, x)
  }

  lemma ChebyshevEven(m: int, x: real)
    ensures Chebyshev(-m, x) == Chebyshev(m, x)
  {
  }

  lemma ChebyshevUp(n: int, x: real, middle: real)
    requires n >= 2 && middle == Chebyshev(n - 1, x)
    ensures Chebyshev(n, x) == Doubled(x, middle) - Chebyshev(n - 2, x)
  {
  }

  lemma ChebyshevStart(x: real)
    ensures Chebyshev(0, x) == 1.0 && Chebyshev(1, x) == x && Doubled(x, Chebyshev(0, x)) == 2.0 * x
  {
  }

  lemma ChebyshevStep(m: int, x: real)
    ensures Chebyshev(m + 1, x) == Doubled(x, Chebyshev(m, x)) - Chebyshev(m - 1, x)
  {
    hide Chebyshev, Doubled;
    ChebyshevEven(m + 1, x);
    ChebyshevEven(m, x);
    ChebyshevEven(m - 1, x);
    ChebyshevStart(x);
    if m > 0 {
      ChebyshevUp(m + 1, x, Chebyshev(m, x));
    } else if m < 0 {
      ChebyshevUp(-m + 1, x, Chebyshev(m, x));
    }
  }

  // ----- the full polynomial ----------------------------------------------------------

  /** a + w b + c, one coefficient of a product with 1 + w z^-1 + z^-2. */
  function Combined(a: real, w: real, b: real, c: real): real {
    a + w * b + c
  }

  /** Coefficient of z^-k in the product of (1 - 2q z^-1 + z^-2) over qs. */
  function Coef(qs: seq<real>, k: int): real
    decreases |qs|
  {
    if |qs| == 0 then (if k == 0 then 1.0 else 0.0)
    else
      var p, q := qs[..|qs| - 1], qs[|qs| - 1];
      Combined(Coef(p, k), -2.0 * q, Coef(p, k - 1), Coef(p, k - 2))
  }

  lemma {:induction false} CoefOutside(qs: seq<real>, k: int)
    requires k < 0 || k > 2 * |qs|
    ensures Coef(qs, k) == 0.0
    decreases |qs|
  {
    if |qs| > 0 {
      var p := qs[..|qs| - 1];
      CoefOutside(p, k);
      CoefOutside(p, k - 1);
      CoefOutside(p, k - 2);
    }
  }

  /** The product polynomial reads the same from both ends. */
  lemma {:induction false} CoefPalindrome(qs: seq<real>, k: int)
    ensures Coef(qs, 2 * |qs| - k) == Coef(qs, k)
    decreases |qs|
  {
    if |qs| > 0 {
      var p := qs[..|qs| - 1];
      var n := |p|;
      CoefPalindrome(p, k);
      CoefPalindrome(p, k - 1);
      CoefPalindrome(p, k - 2);
      MirroredStep(qs, k, 2 * n - k);
    }
  }

  lemma MirroredStep(qs: seq<real>, k: int, m: int)
    requires |qs| > 0 && var p := qs[..|qs| - 1]; Coef(p, m) == Coef(p, k) && Coef(p, m + 1) == Coef(p, k - 1) && Coef(p, m + 2) == Coef(p, k - 2)
    ensures Coef(qs, m + 2) == Coef(qs, k)
  {
    hide Combined;
    var p, w := qs[..|qs| - 1], -2.0 * qs[|qs| - 1];
    CombinedMirrored(Coef(p, m), w, Coef(p, m + 1), Coef(p, m + 2));
    assert Coef(qs, m + 2) == Combined(Coef(p, m + 2), w, Coef(p, m + 1), Coef(p, m));
  }

  lemma CombinedMirrored(a: real, w: real, b: real, c: real)
    ensures Combined(a, w, b, c) == Combined(c, w, b, a)
  {
  }

  /** The product of 2(x - q) over qs. */
  function RootProduct(qs: seq<real>, x: real): real
    decreases |qs|
  {
    if |qs| == 0 then 1.0
    else RootProduct(qs[..|qs| - 1], x) * (2.0 * (x - qs[|qs| - 1]))
  }

  // ----- sums against a Chebyshev sequence ----------------------------------------------

  ghost predicate StepsAt(t: int -> real, x: real, k: int) {
    t(k) + t(k + 2) == Doubled(x, t(k + 1))
  }

  /** t obeys the three-term recurrence of the Chebyshev polynomials at x, in either direction. */
  ghost predicate Recurrence(t: int -> real, x: real) {
    forall k :: StepsAt(t, x, k)
  }

  ghost function Shift(t: int -> real, d: int): int -> real {
    k => t(k + d)
  }

  /** T_n(x), T_{n-1}(x), ... for k = 0, 1, ... */
  ghost function Descending(n: int, x: real): int -> real {
    k => Chebyshev(n - k, x)
  }

  lemma DescendingRecurrence(n: int, x: real)
    ensures Recurrence(Descending(n, x), x)
  {
    forall k
      ensures StepsAt(Descending(n, x), x, k)
    {
      DescendingStep(n, x, k);
    }
  }

  lemma DescendingStep(n: int, x: real, k: int)
    ensures StepsAt(Descending(n, x), x, k)
  {
    hide Chebyshev, Descending, Doubled;
    ChebyshevStep(n - k - 1, x);
    DescendingAt(n, x, k);
    DescendingAt(n, x, k + 1);
    DescendingAt(n, x, k + 2);
    assert n - k - 1 + 1 == n - k && n - k - 1 - 1 == n - (k + 2) && n - k - 1 == n - (k + 1);
  }

  lemma DescendingAt(n: int, x: real, k: int)
    ensures Descending(n, x)(k) == Chebyshev(n - k, x)
  {
    hide Chebyshev;
  }

  lemma ShiftRecurrence(t: int -> real, x: real, d: int)
    requires Recurrence(t, x)
    ensures Recurrence(Shift(t, d), x)
  {
    forall k
      ensures StepsAt(Shift(t, d), x, k)
    {
      assert StepsAt(t, x, k + d);
      assert k + d + 2 == k + 2 + d && k + d + 1 == k + 1 + d;
    }
  }

  /** c(0) t(0) + ... + c(n - 1) t(n - 1). */
  ghost function Dot(c: int -> real, t: int -> real, n: int): real {
    Sum(Times(c, t), 0, n)
  }

  lemma DotDelayed(c: int -> real, t: int -> real, n: nat, d: int)
    requires 0 <= d <= 2
    requires forall k :: k < 0 || k >= n ==> c(k) == 0.0
    ensures Dot(Shift(c, -d), t, n + 2) == Dot(c, Shift(t, d), n)
  {
    var f, g := Times(c, Shift(t, d)), Times(Shift(c, -d), t);
    forall k
      ensures g(k + d) == f(k)
    {
      DelayedTerm(c, t, d, k);
    }
    forall k | k < d || k >= n + d
      ensures g(k) == 0.0
    {
      assert c(k - d) == 0.0;
      TermVanishes(c, t, d, k);
    }
    DelayedSum(f, g, n, d);
  }

  lemma DelayedSum(f: int -> real, g: int -> real, n: nat, d: int)
    requires 0 <= d <= 2 && (forall k :: g(k + d) == f(k)) && forall k :: k < d || k >= n + d ==> g(k) == 0.0
    ensures Sum(g, 0, n + 2) == Sum(f, 0, n)
  {
    SumSplit(g, 0, d, n + 2);
    SumSplit(g, d, d + n, n + 2);
    SumZero(g, 0, d);
    SumZero(g, d + n, n + 2);
    SumShift(f, g, 0, n, d);
  }

  lemma DelayedTerm(c: int -> real, t: int -> real, d: int, k: int)
    ensures Times(Shift(c, -d), t)(k + d) == Times(c, Shift(t, d))(k)
  {
    assert k + d + -d == k;
  }

  lemma TermVanishes(c: int -> real, t: int -> real, d: int, k: int)
    requires c(k - d) == 0.0
    ensures Times(Shift(c, -d), t)(k) == 0.0
  {
    assert k + -d == k - d;
  }

  /** Coefficient k of c times 1 + w z^-1 + z^-2 is that of c'. */
  ghost predicate FactorAt(c: int -> real, c': int -> real, w: real, k: int) {
    c'(k) == Combined(c(k), w, c(k - 1), c(k - 2))
  }

  lemma DotOfSum(a: int -> real, b: int -> real, e: int -> real, s: int -> real, w: real, t: int -> real, n: int)
    requires forall k :: s(k) == a(k) + w * b(k) + e(k)
    ensures Dot(s, t, n) == Dot(a, t, n) + w * Dot(b, t, n) + Dot(e, t, n)
  {
    var f0, f1, f2, f := Times(a, t), Times(b, t), Times(e, t), Times(s, t);
    forall k
      ensures f(k) == f0(k) + w * f1(k) + f2(k)
    {
      Distribute(a(k), b(k), e(k), w, t(k));
    }
    hide Times;
    SumLinear3(f0, f1, f2, f, w, 0, n);
  }

  /** Multiplying a polynomial by 1 + w z^-1 + z^-2. */
  lemma DotTimesFactor(c: int -> real, c': int -> real, w: real, t: int -> real, n: nat)
    requires forall k :: k < 0 || k >= n ==> c(k) == 0.0
    requires forall k :: FactorAt(c, c', w, k)
    ensures Dot(c', t, n + 2) == Dot(c, Shift(t, 0), n) + w * Dot(c, Shift(t, 1), n) + Dot(c, Shift(t, 2), n)
  {
    forall k
      ensures c'(k) == Shift(c, -0)(k) + w * Shift(c, -1)(k) + Shift(c, -2)(k)
    {
      ShiftedFactor(c, c', w, k);
    }
    hide Dot, FactorAt, Shift;
    DotDelayed(c, t, n, 0);
    DotDelayed(c, t, n, 1);
    DotDelayed(c, t, n, 2);
    DotOfSum(Shift(c, -0), Shift(c, -1), Shift(c, -2), c', w, t, n + 2);
  }

  lemma ShiftedFactor(c: int -> real, c': int -> real, w: real, k: int)
    requires FactorAt(c, c', w, k)
    ensures c'(k) == Shift(c, -0)(k) + w * Shift(c, -1)(k) + Shift(c, -2)(k)
  {
    assert k + -0 == k && k + -1 == k - 1 && k + -2 == k - 2;
  }

  lemma Distribute(a: real, b: real, c: real, w: real, t: real)
    ensures (a + w * b + c) * t == a * t + w * (b * t) + c * t
  {
    assert (w * b) * t == w * (b * t);
  }

  ghost function Coefs(qs: seq<real>): int -> real {
    k => Coef(qs, k)
  }

  lemma CoefsOfFactor(p: seq<real>, q: real, w: real)
    requires w == -2.0 * q
    ensures forall k :: k < 0 || k >= 2 * |p| + 1 ==> Coefs(p)(k) == 0.0
    ensures forall k :: FactorAt(Coefs(p), Coefs(p + [q]), w, k)
  {
    forall k | k < 0 || k >= 2 * |p| + 1
      ensures Coefs(p)(k) == 0.0
    {
      CoefOutside(p, k);
    }
    assert (p + [q])[..|p|] == p;
  }

  /** Against any Chebyshev sequence, the product polynomial multiplies the middle term by the
      factors 2(x - q). */
  lemma {:induction false} DotIsProduct(qs: seq<real>, t: int -> real, x: real)
    requires Recurrence(t, x)
    ensures Dot(Coefs(qs), t, 2 * |qs| + 1) == RootProduct(qs, x) * t(|qs|)
    decreases |qs|
  {
    hide Dot, Coef, Coefs, Recurrence, Doubled;
    if |qs| == 0 {
      EmptyDot(t);
      assert qs == [];
    } else {
      var p, q := qs[..|qs| - 1], qs[|qs| - 1];
      var n := |p|;
      assert qs == p + [q];
      var w := -2.0 * q;
      CoefsOfFactor(p, q, w);
      DotTimesFactor(Coefs(p), Coefs(qs), w, t, 2 * n + 1);
      ShiftRecurrence(t, x, 0);
      ShiftRecurrence(t, x, 1);
      ShiftRecurrence(t, x, 2);
      DotIsProduct(p, Shift(t, 0), x);
      DotIsProduct(p, Shift(t, 1), x);
      DotIsProduct(p, Shift(t, 2), x);
      StepAt(t, x, n);
      FactorOut(RootProduct(p, x), q, x, w, t(n), t(n + 1), t(n + 2),
                Dot(Coefs(p), Shift(t, 0), 2 * n + 1), Dot(Coefs(p), Shift(t, 1), 2 * n + 1), Dot(Coefs(p), Shift(t, 2), 2 * n + 1));
    }
  }

  lemma EmptyDot(t: int -> real)
    ensures Dot(Coefs([]), t, 1) == t(0)
  {
    var f := Times(Coefs([]), t);
    assert Sum(f, 0, 1) == Sum(f, 0, 0) + f(0);
  }

  lemma StepAt(t: int -> real, x: real, k: int)
    requires Recurrence(t, x)
    ensures t(k) + t(k + 2) == Doubled(x, t(k + 1))
  {
    assert StepsAt(t, x, k);
  }

  lemma FactorOut(r: real, q: real, x: real, w: real, t0: real, t1: real, t2: real, d0: real, d1: real, d2: real)
    requires w == -2.0 * q && d0 == r * t0 && d1 == r * t1 && d2 == r * t2 && t0 + t2 == Doubled(x, t1)
    ensures d0 + w * d1 + d2 == (r * (2.0 * (x - q))) * t1
  {
    assert d0 + d2 == r * (2.0 * x * t1);
    assert r * (2.0 * x * t1) == (2.0 * x) * (r * t1);
    assert (r * (2.0 * (x - q))) * t1 == (2.0 * (x - q)) * (r * t1);
  }

  // ----- the half polynomial as Clenshaw's recurrence sees it ---------------------------

  /** T_n(x) + f(1) T_{n-1}(x) + ... + f(n-1) T_1(x) + f(n)/2, where f(0) = 1. */
  ghost function HalfSum(f: int -> real, n: int, x: real): real {
    Dot(f, Descending(n, x), n) + f(n) / 2.0
  }

  /** A palindrome's half sum is half of the full sum, so it is half of the product. */
  lemma HalfSumIsProduct(qs: seq<real>, x: real)
    ensures HalfSum(Coefs(qs), |qs|, x) == RootProduct(qs, x) / 2.0
  {
    hide Dot, Coefs, Descending, Chebyshev, RootProduct, MirroredAt, Recurrence;
    var n := |qs|;
    var t := Descending(n, x);
    forall k
      ensures MirroredAt(Coefs(qs), t, n, k)
    {
      MirroredTerm(qs, x, k);
    }
    DescendingRecurrence(n, x);
    DescendingAt(n, x, n);
    LowChebyshev(x);
    assert n - n == 0;
    DotIsProduct(qs, t, x);
    PalindromeHalves(Coefs(qs), t, n);
  }

  lemma MirroredTerm(qs: seq<real>, x: real, k: int)
    ensures MirroredAt(Coefs(qs), Descending(|qs|, x), |qs|, k)
  {
    hide Chebyshev, Coef, Descending;
    var n := |qs|;
    CoefPalindrome(qs, k);
    ChebyshevEven(n - k, x);
    DescendingAt(n, x, k);
    DescendingAt(n, x, 2 * n - k);
    assert n - (2 * n - k) == -(n - k);
  }

  ghost predicate MirroredAt(c: int -> real, t: int -> real, n: int, k: int) {
    c(2 * n - k) == c(k) && t(2 * n - k) == t(k)
  }

  lemma PalindromeHalves(c: int -> real, t: int -> real, n: nat)
    requires forall k :: MirroredAt(c, t, n, k)
    ensures Dot(c, t, 2 * n + 1) == 2.0 * Dot(c, t, n) + c(n) * t(n)
  {
    var f := Times(c, t);
    assert f(n) == c(n) * t(n);
    forall k | 0 <= k < n
      ensures f(2 * n - k) == f(k)
    {
      assert MirroredAt(c, t, n, k);
    }
    hide Times;
    MirroredSum(f, n);
  }

  lemma MirroredSum(f: int -> real, n: nat)
    requires forall k :: 0 <= k < n ==> f(2 * n - k) == f(k)
    ensures Sum(f, 0, 2 * n + 1) == 2.0 * Sum(f, 0, n) + f(n)
  {
    SumSplit(f, 0, n, 2 * n + 1);
    SumSplit(f, n, n + 1, 2 * n + 1);
    assert Sum(f, n, n + 1) == Sum(f, n, n) + f(n);
    MirroredHalf(f, n, n);
  }

  lemma {:induction false} MirroredHalf(f: int -> real, n: nat, j: nat)
    requires j <= n && forall k :: 0 <= k < n ==> f(2 * n - k) == f(k)
    ensures Sum(f, 2 * n + 1 - j, 2 * n + 1) == Sum(f, 0, j)
    decreases j
  {
    if j > 0 {
      MirroredHalf(f, n, j - 1);
      var m := 2 * n + 1 - j;
      SumSplit(f, m, m + 1, 2 * n + 1);
      assert Sum(f, m, m + 1) == Sum(f, m, m) + f(m);
      assert f(2 * n - (j - 1)) == f(j - 1);
    }
  }

  // ----- line spectral pairs to linear prediction ---------------------------------------

  /** The five line spectral pairs at positions from, from + 2, ..., from + 8. */
  function EveryOther(q: seq<real>, from: nat): (qs: seq<real>)
    requires |q| == 10 && from < 2
    ensures |qs| == 5
  {
    [q[from], q[from + 2], q[from + 4], q[from + 6], q[from + 8]]
  }

  /** Coefficient k of (1 + z^-1) F1(z), a palindrome of degree 11. */
  function SumCoef(q: seq<real>, k: int): real
    requires |q| == 10
  {
    Coef(EveryOther(q, 0), k) + Coef(EveryOther(q, 0), k - 1)
  }

  /** Coefficient k of (1 - z^-1) F2(z), an antipalindrome of degree 11. */
  function DifferenceCoef(q: seq<real>, k: int): real
    requires |q| == 10
  {
    Coef(EveryOther(q, 1), k) - Coef(EveryOther(q, 1), k - 1)
  }

  /** Coefficient k of A(z), the mean of the two polynomials, for k = 0..11. */
  function LpCoef(q: seq<real>, k: int): real
    requires |q| == 10
  {
    (SumCoef(q, k) + DifferenceCoef(q, k)) / 2.0
  }

  lemma MirroredCoefs(q: seq<real>, k: int)
    requires |q| == 10
    ensures SumCoef(q, 11 - k) == SumCoef(q, k)
    ensures DifferenceCoef(q, 11 - k) == -DifferenceCoef(q, k)
  {
    forall from: nat | from < 2
      ensures Coef(EveryOther(q, from), 11 - k) == Coef(EveryOther(q, from), k - 1)
      ensures Coef(EveryOther(q, from), 10 - k) == Coef(EveryOther(q, from), k)
    {
      CoefPalindrome(EveryOther(q, from), k);
      CoefPalindrome(EveryOther(q, from), k - 1);
    }
  }

  /** Coefficients k and 11 - k of A(z) from the sum and difference polynomials at k. */
  lemma MirroredLp(q: seq<real>, k: int)
    requires |q| == 10
    ensures LpCoef(q, k) == (SumCoef(q, k) + DifferenceCoef(q, k)) / 2.0
    ensures LpCoef(q, 11 - k) == (SumCoef(q, k) - DifferenceCoef(q, k)) / 2.0
  {
    hide SumCoef, DifferenceCoef;
    MirroredCoefs(q, k);
  }

  /** Half of the product polynomial of q[from], q[from + 2], ..., built in place.
      The top coefficient of each new factor uses the palindrome instead of a seventh entry. */
  method ComputePolynomialCoefficients(q: seq<real>, from: nat, f: array<real>)
    requires |q| == 10 && from < 2
    requires f.Length == 6
    modifies f
    ensures forall k :: 0 <= k <= 5 ==> f[k] == Coefs(EveryOther(q, from))(k)
  {
    hide Coefs, Coef, FactorAt;
    ghost var qs := EveryOther(q, from);
    f[0] := 1.0;
    f[1] := -2.0 * q[from];
    FirstFactor(qs);
    for i := 2 to 6
      invariant forall k :: 0 <= k < i ==> f[k] == Coefs(qs[..i - 1])(k)
    {
      var x := q[from + 2 * i - 2];
      NextFactor(qs, i, -2.0 * x);
      MultiplyInPlace(f, i, x, -2.0 * x, Coefs(qs[..i - 1]), Coefs(qs[..i]));
    }
    assert qs[..5] == qs;
  }

  /** A coefficient times 1 - 2x z^-1 + z^-2, and the middle one of a product of odd length, whose upper
      neighbour equals its lower one. */
  function NextCoef(here: real, x: real, below: real, next: real): real {
    here + (next - 2.0 * x * below)
  }

  function LastCoef(x: real, below: real, next: real): real {
    2.0 * (next - x * below)
  }

  /** One more factor: the new top coefficient first, then the others from the top down. */
  method MultiplyInPlace(f: array<real>, i: nat, x: real, ghost w: real, ghost c: int -> real, ghost c': int -> real)
    requires 2 <= i < 6 == f.Length && w == -2.0 * x
    requires forall k :: 0 <= k < i ==> f[k] == c(k)
    requires forall k :: FactorAt(c, c', w, k)
    requires c'(i) == LastCoef(x, c(i - 1), c(i - 2)) && c'(1) == c(1) - 2.0 * x && c'(0) == c(0)
    modifies f
    ensures forall k :: 0 <= k <= i ==> f[k] == c'(k)
  {
    hide FactorAt, NextCoef, LastCoef;
    f[i] := LastCoef(x, f[i - 1], f[i - 2]);
    var j := i - 1;
    while j > 1
      invariant 1 <= j <= i - 1
      invariant forall k :: 0 <= k <= j ==> f[k] == c(k)
      invariant forall k :: j < k <= i ==> f[k] == c'(k)
    {
      MiddleCoef(c, c', x, w, j);
      f[j] := NextCoef(f[j], x, f[j - 1], f[j - 2]);
      j := j - 1;
    }
    f[1] := f[1] - 2.0 * x;
  }

  lemma MiddleCoef(c: int -> real, c': int -> real, x: real, w: real, j: int)
    requires w == -2.0 * x && FactorAt(c, c', w, j)
    ensures c'(j) == NextCoef(c(j), x, c(j - 1), c(j - 2))
  {
    assert w * c(j - 1) == -(2.0 * x * c(j - 1));
  }

  lemma FirstFactor(qs: seq<real>)
    requires |qs| == 5
    ensures Coefs(qs[..1])(0) == 1.0 && Coefs(qs[..1])(1) == -2.0 * qs[0]
  {
    var w := -2.0 * qs[0];
    CoefsOfFactor([], qs[0], w);
    assert [] + [qs[0]] == qs[..1];
    assert FactorAt(Coefs([]), Coefs(qs[..1]), w, 0);
    assert FactorAt(Coefs([]), Coefs(qs[..1]), w, 1);
  }

  lemma NextFactor(qs: seq<real>, i: int, w: real)
    requires |qs| == 5 && 2 <= i <= 5 && w == -2.0 * qs[i - 1]
    ensures var c, c' := Coefs(qs[..i - 1]), Coefs(qs[..i]);
      && (forall k :: FactorAt(c, c', w, k))
      && c'(i) == LastCoef(qs[i - 1], c(i - 1), c(i - 2))
      && c'(1) == c(1) - 2.0 * qs[i - 1]
      && c'(0) == c(0)
  {
    hide Coef;
    var p, x := qs[..i - 1], qs[i - 1];
    var c, c' := Coefs(p), Coefs(qs[..i]);
    assert qs[..i] == p + [x];
    CoefsOfFactor(p, x, w);
    CoefPalindrome(p, i);
    assert c(i) == c(i - 2);
    assert c(-1) == 0.0 && c(-2) == 0.0;
    assert c(0) == 1.0 by { ConstantTerm(p); }
    assert FactorAt(c, c', w, i);
    assert FactorAt(c, c', w, 1);
    assert FactorAt(c, c', w, 0);
    TopCoef(w, x, c(i), c(i - 1), c(i - 2), c'(i));
  }

  lemma TopCoef(w: real, x: real, a: real, b: real, c: real, top: real)
    requires w == -2.0 * x && a == c && top == a + w * b + c
    ensures top == LastCoef(x, b, c)
  {
    assert w * b == -2.0 * (x * b);
  }

  lemma {:induction false} ConstantTerm(qs: seq<real>)
    ensures Coef(qs, 0) == 1.0
    decreases |qs|
  {
    if |qs| > 0 {
      ConstantTerm(qs[..|qs| - 1]);
      CoefOutside(qs[..|qs| - 1], -1);
      CoefOutside(qs[..|qs| - 1], -2);
    }
  }

  /** f1[i] + f1[i-1] and f2[i] - f2[i-1] in place, from the top down. */
  method AddNeighbours(q: seq<real>, f1: array<real>, f2: array<real>)
    requires |q| == 10 && f1.Length == 6 && f2.Length == 6 && f1 != f2
    requires forall k :: 0 <= k <= 5 ==> f1[k] == Coefs(EveryOther(q, 0))(k) && f2[k] == Coefs(EveryOther(q, 1))(k)
    modifies f1, f2
    ensures forall k :: 1 <= k <= 5 ==> f1[k] == SumCoef(q, k) && f2[k] == DifferenceCoef(q, k)
  {
    hide Coef;
    var i := 5;
    while i > 0
      invariant 0 <= i <= 5
      invariant forall k :: 0 <= k <= i ==> f1[k] == Coef(EveryOther(q, 0), k) && f2[k] == Coef(EveryOther(q, 1), k)
      invariant forall k :: i < k <= 5 ==> f1[k] == SumCoef(q, k) && f2[k] == DifferenceCoef(q, k)
    {
      f1[i] := f1[i] + f1[i - 1];
      f2[i] := f2[i] - f2[i - 1];
      i := i - 1;
    }
  }

  /** The ten coefficients of A(z): the upper five come from the lower halves by symmetry. */
  method QLsp2Lp(q: seq<real>, lp: array<real>)
    requires |q| == 10 && lp.Length == 10
    modifies lp
    ensures forall k :: 0 <= k < 10 ==> lp[k] == LpCoef(q, k + 1)
  {
    hide SumCoef, DifferenceCoef, LpCoef, Coef, Coefs, EveryOther;
    var f1, f2 := new real[6], new real[6];
    ComputePolynomialCoefficients(q, 0, f1);
    ComputePolynomialCoefficients(q, 1, f2);
    AddNeighbours(q, f1, f2);
    Means(q, f1[..], f2[..], lp);
  }

  /** The mean and the half difference of the two polynomials, from both ends inwards. */
  method Means(q: seq<real>, f1: seq<real>, f2: seq<real>, lp: array<real>)
    requires |q| == 10 && |f1| == 6 && |f2| == 6 && lp.Length == 10
    requires forall k :: 1 <= k <= 5 ==> f1[k] == SumCoef(q, k) && f2[k] == DifferenceCoef(q, k)
    modifies lp
    ensures forall k :: 0 <= k < 10 ==> lp[k] == LpCoef(q, k + 1)
  {
    hide SumCoef, DifferenceCoef, LpCoef;
    for i := 0 to 5
      invariant forall k :: 0 <= k < i || 10 - i <= k < 10 ==> lp[k] == LpCoef(q, k + 1)
    {
      MirroredLp(q, i + 1);
      lp[i] := (f1[i + 1] + f2[i + 1]) / 2.0;
      lp[9 - i] := (f1[i + 1] - f2[i + 1]) / 2.0;
    }
  }

  // ----- linear prediction to line spectral pairs ---------------------------------------

  /** F1 from the prediction coefficients: dividing A(z) + z^-11 A(1/z) by 1 + z^-1. */
  function QuotientSum(lp: seq<real>, k: int): real
    requires |lp| == 10 && 0 <= k <= 5
  {
    if k == 0 then 1.0 else lp[k - 1] + (lp[10 - k] - QuotientSum(lp, k - 1))
  }

  /** F2 from the prediction coefficients: dividing A(z) - z^-11 A(1/z) by 1 - z^-1. */
  function QuotientDifference(lp: seq<real>, k: int): real
    requires |lp| == 10 && 0 <= k <= 5
  {
    if k == 0 then 1.0 else QuotientDifference(lp, k - 1) + (lp[k - 1] - lp[10 - k])
  }

  method LpToPolynomials(lp: seq<real>) returns (f1: seq<real>, f2: seq<real>)
    requires |lp| == 10
    ensures |f1| == 6 && |f2| == 6
    ensures forall k :: 0 <= k <= 5 ==> f1[k] == QuotientSum(lp, k) && f2[k] == QuotientDifference(lp, k)
  {
    f1, f2 := [1.0], [1.0];
    for i := 0 to 5
      invariant |f1| == i + 1 && |f2| == i + 1
      invariant forall k :: 0 <= k <= i ==> f1[k] == QuotientSum(lp, k) && f2[k] == QuotientDifference(lp, k)
    {
      f1 := f1 + [lp[i] + (lp[9 - i] - f1[i])];
      f2 := f2 + [f2[i] + (lp[i] - lp[9 - i])];
    }
  }

  /** f(1), ..., f(5) as the evaluation reads them; f(0) stands for 1. */
  ghost function Monic(f: seq<real>): int -> real
    requires |f| == 6
  {
    k => if 1 <= k <= 5 then f[k] else 1.0
  }

  /** After consuming g(0), ..., g(j): the sum so far is a combination of two neighbours in t. */
  ghost predicate ClenshawAt(g: int -> real, t: int -> real, j: int, b1: real, b2: real) {
    Dot(g, t, j + 1) == b1 * t(j) - b2 * t(j + 1)
  }

  /** Clenshaw's recurrence; f[0] is not read. */
  method ChebyshevPolynomial(x: real, f: seq<real>) returns (c: real)
    requires |f| == 6
    ensures c == HalfSum(Monic(f), 5, x)
  {
    hide ClenshawAt, Recurrence, Descending, HalfSum;
    ghost var t := Descending(5, x);
    ghost var g := Monic(f);
    DescendingRecurrence(5, x);
    var bk1 := 2.0 * x + f[1];
    var bk2 := 1.0;
    ClenshawStart(g, t, x);
    var k := 3;
    while k > 0
      invariant 0 <= k <= 3
      invariant ClenshawAt(g, t, 4 - k, bk1, bk2)
    {
      var bk := 2.0 * (x * bk1) + f[5 - k] - bk2;
      ClenshawStep(g, t, x, 4 - k, bk1, bk2);
      bk2 := bk1;
      bk1 := bk;
      k := k - 1;
    }
    c := x * bk1 + f[5] / 2.0 - bk2;
    ClenshawEnd(f, x, bk1, bk2);
  }

  lemma ClenshawStart(g: int -> real, t: int -> real, x: real)
    requires Recurrence(t, x) && g(0) == 1.0
    ensures ClenshawAt(g, t, 1, 2.0 * x + g(1), 1.0)
  {
    var h := Times(g, t);
    assert StepsAt(t, x, 0);
    assert Sum(h, 0, 1) == Sum(h, 0, 0) + h(0);
    assert Sum(h, 0, 2) == Sum(h, 0, 1) + h(1);
    assert (2.0 * x + g(1)) * t(1) == 2.0 * x * t(1) + g(1) * t(1);
  }

  lemma ClenshawStep(g: int -> real, t: int -> real, x: real, j: nat, b1: real, b2: real)
    requires Recurrence(t, x)
    requires ClenshawAt(g, t, j, b1, b2)
    ensures ClenshawAt(g, t, j + 1, 2.0 * (x * b1) + g(j + 1) - b2, b1)
  {
    var h := Times(g, t);
    assert StepsAt(t, x, j);
    assert Sum(h, 0, j + 2) == Sum(h, 0, j + 1) + h(j + 1);
    ClenshawAlgebra(x, b1, b2, g(j + 1), t(j), t(j + 1), t(j + 2));
  }

  lemma ClenshawEnd(f: seq<real>, x: real, b1: real, b2: real)
    requires |f| == 6
    requires ClenshawAt(Monic(f), Descending(5, x), 4, b1, b2)
    ensures HalfSum(Monic(f), 5, x) == x * b1 + f[5] / 2.0 - b2
  {
    hide Chebyshev, Descending, Dot;
    LowChebyshev(x);
    DescendingAt(5, x, 4);
    DescendingAt(5, x, 5);
    assert 5 - 4 == 1 && 5 - 5 == 0;
    assert x * b1 == b1 * x;
  }

  lemma LowChebyshev(x: real)
    ensures Chebyshev(1, x) == x && Chebyshev(0, x) == 1.0
  {
  }

  lemma ClenshawAlgebra(x: real, b1: real, b2: real, f: real, t0: real, t1: real, t2: real)
    requires t0 + t2 == Doubled(x, t1)
    ensures b1 * t0 - b2 * t1 + f * t1 == (2.0 * (x * b1) + f - b2) * t1 - b1 * t2
  {
    assert b1 * t0 + b1 * t2 == b1 * (2.0 * x * t1);
    assert b1 * (2.0 * x * t1) == (2.0 * (x * b1)) * t1;
  }

  // ----- the duality --------------------------------------------------------------------

  /** The coefficients A(z) built from q, as the conversion back receives them. */
  function LpOf(q: seq<real>): (lp: seq<real>)
    requires |q| == 10
    ensures |lp| == 10 && forall k :: 0 <= k < 10 ==> lp[k] == LpCoef(q, k + 1)
  {
    seq(10, i => LpCoef(q, i + 1))
  }

  /** The sum and difference recursions undo the conversion to linear prediction. */
  lemma {:induction false} QuotientsRecoverFactors(q: seq<real>, k: int)
    requires |q| == 10 && 0 <= k <= 5
    ensures QuotientSum(LpOf(q), k) == Coef(EveryOther(q, 0), k)
    ensures QuotientDifference(LpOf(q), k) == Coef(EveryOther(q, 1), k)
    decreases k
  {
    ConstantTerm(EveryOther(q, 0));
    ConstantTerm(EveryOther(q, 1));
    if k > 0 {
      QuotientsRecoverFactors(q, k - 1);
      MirroredCoefs(q, k);
      assert LpOf(q)[10 - k] == LpCoef(q, 11 - k);
    }
  }

  /** The product of the distances from x to five points. */
  function Distances(x: real, qs: seq<real>): real
    requires |qs| == 5
  {
    (x - qs[0]) * (x - qs[1]) * (x - qs[2]) * (x - qs[3]) * (x - qs[4])
  }

  /** The two polynomials rebuilt from the prediction coefficients are 16 times the product of
      the distances to the line spectral pairs that were converted. */
  lemma DualPolynomials(q: seq<real>, f1: seq<real>, f2: seq<real>, x: real)
    requires |q| == 10 && |f1| == 6 && |f2| == 6
    requires forall k :: 0 <= k <= 5 ==> f1[k] == QuotientSum(LpOf(q), k) && f2[k] == QuotientDifference(LpOf(q), k)
    ensures HalfSum(Monic(f1), 5, x) == 16.0 * Distances(x, [q[0], q[2], q[4], q[6], q[8]])
    ensures HalfSum(Monic(f2), 5, x) == 16.0 * Distances(x, [q[1], q[3], q[5], q[7], q[9]])
  {
    hide Coef, HalfSum, Distances, QuotientSum, QuotientDifference;
    forall k | 0 <= k <= 5
      ensures f1[k] == Coef(EveryOther(q, 0), k) && f2[k] == Coef(EveryOther(q, 1), k)
    {
      QuotientsRecoverFactors(q, k);
    }
    HalfSumOfFactors(EveryOther(q, 0), f1, x);
    HalfSumOfFactors(EveryOther(q, 1), f2, x);
  }

  lemma HalfSumOfFactors(qs: seq<real>, f: seq<real>, x: real)
    requires |qs| == 5 && |f| == 6
    requires forall k :: 0 <= k <= 5 ==> f[k] == Coef(qs, k)
    ensures HalfSum(Monic(f), 5, x) == 16.0 * Distances(x, qs)
  {
    hide Dot, Distances, RootProduct;
    ConstantTerm(qs);
    HalfSumIsProduct(qs, x);
    DotEqual(Monic(f), Coefs(qs), Descending(5, x), 5);
    FiveFactors(qs, x);
  }

  lemma DotEqual(c: int -> real, d: int -> real, t: int -> real, n: nat)
    requires forall k :: 0 <= k < n ==> c(k) == d(k)
    ensures Dot(c, t, n) == Dot(d, t, n)
  {
    SumEqual(Times(c, t), Times(d, t), 0, n);
  }

  lemma FiveFactors(qs: seq<real>, x: real)
    requires |qs| == 5
    ensures RootProduct(qs, x) == 32.0 * Distances(x, qs)
  {
    assert qs[..4][..3] == qs[..3] && qs[..3][..2] == qs[..2] && qs[..2][..1] == qs[..1] && qs[..1][..0] == [];
    assert qs[..5] == qs;
    var p1 := x - qs[0];
    var p2 := p1 * (x - qs[1]);
    var p3 := p2 * (x - qs[2]);
    var p4 := p3 * (x - qs[3]);
    assert RootProduct(qs[..1], x) == 2.0 * p1;
    assert RootProduct(qs[..2], x) == 4.0 * p2 by { Doubling(2.0, p1, x - qs[1]); }
    assert RootProduct(qs[..3], x) == 8.0 * p3 by { Doubling(4.0, p2, x - qs[2]); }
    assert RootProduct(qs[..4], x) == 16.0 * p4 by { Doubling(8.0, p3, x - qs[3]); }
    Doubling(16.0, p4, x - qs[4]);
  }

  lemma Doubling(c: real, p: real, d: real)
    ensures (c * p) * (2.0 * d) == (c * 2.0) * (p * d)
  {
  }

  /** A value is a root of one of the rebuilt polynomials exactly when it is one of the line
      spectral pairs of that polynomial. */
  lemma RootsAreLineSpectralPairs(q: seq<real>, f1: seq<real>, f2: seq<real>, x: real)
    requires |q| == 10 && |f1| == 6 && |f2| == 6
    requires forall k :: 0 <= k <= 5 ==> f1[k] == QuotientSum(LpOf(q), k) && f2[k] == QuotientDifference(LpOf(q), k)
    ensures HalfSum(Monic(f1), 5, x) == 0.0 <==> x in [q[0], q[2], q[4], q[6], q[8]]
    ensures HalfSum(Monic(f2), 5, x) == 0.0 <==> x in [q[1], q[3], q[5], q[7], q[9]]
  {
    hide HalfSum, Distances;
    DualPolynomials(q, f1, f2, x);
    ZeroDistance(x, [q[0], q[2], q[4], q[6], q[8]]);
    ZeroDistance(x, [q[1], q[3], q[5], q[7], q[9]]);
  }

  lemma ZeroDistance(x: real, qs: seq<real>)
    requires |qs| == 5
    ensures Distances(x, qs) == 0.0 <==> x in qs
  {
    var d1 := x - qs[0];
    var d2 := d1 * (x - qs[1]);
    var d3 := d2 * (x - qs[2]);
    var d4 := d3 * (x - qs[3]);
    ZeroProduct(d1, x - qs[1], d2);
    ZeroProduct(d2, x - qs[2], d3);
    ZeroProduct(d3, x - qs[3], d4);
    ZeroProduct(d4, x - qs[4], d4 * (x - qs[4]));
  }

  lemma ZeroProduct(a: real, b: real, product: real)
    requires product == a * b
    ensures product == 0.0 <==> a == 0.0 || b == 0.0
  {
    if a != 0.0 {
      var inverse := 1.0 / a;
      assert inverse * a == 1.0;
      assert inverse * product == (inverse * a) * b == b;
    }
  }

  /** The whole round trip: convert line spectral pairs to prediction coefficients, rebuild the two
      polynomials, evaluate them. */
  method RoundTrip(q: seq<real>, x: real) returns (c1: real, c2: real)
    requires |q| == 10
    ensures c1 == 0.0 <==> x in [q[0], q[2], q[4], q[6], q[8]]
    ensures c2 == 0.0 <==> x in [q[1], q[3], q[5], q[7], q[9]]
  {
    var lp := new real[10];
    QLsp2Lp(q, lp);
    assert lp[..] == LpOf(q) by {
      forall i | 0 <= i < 10
        ensures lp[i] == LpOf(q)[i]
      {
        assert lp[(i + 1) - 1] == LpCoef(q, i + 1);
      }
    }
    var f1, f2 := LpToPolynomials(lp[..]);
    c1 := ChebyshevPolynomial(x, f1);
    c2 := ChebyshevPolynomial(x, f2);
    RootsAreLineSpectralPairs(q, f1, f2, x);
  }
}
