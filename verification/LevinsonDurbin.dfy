/** The Levinson-Durbin recursion of computeLP in exact arithmetic (section 3.2.2 of
    Recommendation G.729), for any order. */
module LevinsonDurbin {
  import opened RealSums

  /** a[0] = 1, a[1], ..., a[i] and the prediction error energy of order i. */
  datatype Predictor = Predictor(a: seq<real>, E: real)

  /** No step up to order i divides by zero. */
  predicate Regular(r: seq<real>, i: nat)
    requires i < |r|
    decreases i, 0
  {
    i == 0 || (Regular(r, i - 1) && Levinson(r, i - 1).E != 0.0)
  }

  /** The predictor of order i. */
  function Levinson(r: seq<real>, i: nat): (p: Predictor)
    requires i < |r| && Regular(r, i)
    ensures |p.a| == i + 1 && p.a[0] == 1.0
    decreases i, 1
  {
    if i == 0 then Predictor([1.0], r[0])
    else
      var p := Levinson(r, i - 1);
      var k := Reflection(Residual(r, p.a, i, i), p.E);
      Predictor(Update(p.a, k), NextEnergy(p.E, k))
  }

  function Reflection(sum: real, E: real): real
    requires E != 0.0
  {
    -(sum / E)
  }

  function NextEnergy(E: real, k: real): real {
    E * (1.0 - k * k)
  }

  function AddScaled(x: real, k: real, y: real): real {
    x + k * y
  }

  /** The predictor of the next order, given its last coefficient. */
  function Update(a: seq<real>, k: real): (a': seq<real>)
    requires |a| >= 1
    ensures |a'| == |a| + 1 && a'[0] == a[0] && a'[|a|] == k
    ensures forall j :: 1 <= j < |a| ==> a'[j] == AddScaled(a[j], k, a[|a| - j])
  {
    [a[0]] + seq(|a| - 1, j requires 0 <= j < |a| - 1 => AddScaled(a[j + 1], k, a[|a| - (j + 1)])) + [k]
  }

  /** r[i] + a[1] r[i-1] + ... + a[j-1] r[i-j+1]. */
  function Residual(r: seq<real>, a: seq<real>, i: nat, j: nat): real
    requires 1 <= j <= i < |r| && j <= |a|
  {
    if j == 1 then r[i] else Residual(r, a, i, j - 1) + a[j - 1] * r[i - j + 1]
  }

  /** The in-place recursion, with the coefficients of the previous order saved at each step. */
  method LevinsonDurbin(r: seq<real>, order: nat) returns (lp: array<real>, E: real)
    requires 1 <= order < |r| && Regular(r, order)
    ensures lp.Length == order + 1
    ensures lp[..] == Levinson(r, order).a && E == Levinson(r, order).E
  {
    hide Levinson, Residual, Update, NextEnergy, Reflection;
    RegularBelow(r, order, 1);
    FirstOrder(r);
    lp := new real[order + 1];
    var previous := new real[order + 1];
    lp[0] := 1.0;
    lp[1] := Reflection(r[1], r[0]);
    E := NextEnergy(r[0], lp[1]);
    for i := 2 to order + 1
      invariant Regular(r, i - 1)
      invariant lp[..i] == Levinson(r, i - 1).a
      invariant E == Levinson(r, i - 1).E
    {
      RegularBelow(r, order, i);
      ghost var p := Levinson(r, i - 1);
      for j := 1 to i
        invariant lp[..i] == p.a
        invariant forall k :: 1 <= k < j ==> previous[k] == lp[k]
      {
        previous[j] := lp[j];
      }
      var sum := PartialSum(r, lp, i, p.a);
      lp[i] := Reflection(sum, E);
      UpdateInPlace(lp, previous, i, p.a);
      E := NextEnergy(E, lp[i]);
      LevinsonStep(r, i);
    }
    assert lp[..] == lp[..order + 1];
  }

  /** r[i] plus the products of the coefficients with the earlier correlations. */
  method PartialSum(r: seq<real>, lp: array<real>, i: nat, ghost a: seq<real>) returns (sum: real)
    requires 2 <= i < |r| && i < lp.Length && lp[..i] == a
    ensures sum == Residual(r, a, i, i)
  {
    sum := 0.0;
    for j := 1 to i
      invariant sum + r[i] == Residual(r, a, i, j)
    {
      assert lp[j] == a[j];
      sum := sum + lp[j] * r[i - j];
    }
    sum := sum + r[i];
  }

  /** a[j] += a[i] a[i-j] for j = 1..i-1, reading the saved coefficients. */
  method UpdateInPlace(lp: array<real>, previous: array<real>, i: nat, ghost a: seq<real>)
    requires 2 <= i < lp.Length && i < previous.Length && lp != previous && |a| == i
    requires lp[..i] == a
    requires forall m :: 1 <= m < i ==> previous[m] == a[m]
    modifies lp
    ensures lp[i] == old(lp[i])
    ensures lp[..i + 1] == Update(a, lp[i])
  {
    hide Update, AddScaled;
    for j := 1 to i
      invariant lp[0] == a[0] && lp[i] == old(lp[i])
      invariant forall m :: 1 <= m < i ==> previous[m] == a[m]
      invariant forall m :: 1 <= m < j ==> lp[m] == AddScaled(a[m], old(lp[i]), a[i - m])
      invariant forall m :: j <= m < i ==> lp[m] == a[m]
    {
      lp[j] := AddScaled(lp[j], lp[i], previous[i - j]);
    }
    ghost var updated := Update(a, lp[i]);
    forall m | 1 <= m < i
      ensures lp[m] == updated[m]
    {
      assert updated[m] == AddScaled(a[m], lp[i], a[|a| - m]);
    }
    assert lp[..i + 1] == updated;
  }

  lemma RegularBelow(r: seq<real>, order: nat, i: nat)
    requires order < |r| && Regular(r, order) && i <= order
    ensures Regular(r, i)
  {
    if i < order {
      RegularBelow(r, order - 1, i);
    }
  }

  lemma FirstOrder(r: seq<real>)
    requires 1 < |r| && Regular(r, 1)
    ensures r[0] != 0.0
    ensures Levinson(r, 1) == Predictor([1.0, Reflection(r[1], r[0])], NextEnergy(r[0], Reflection(r[1], r[0])))
  {
    hide Reflection, NextEnergy;
    assert Levinson(r, 0) == Predictor([1.0], r[0]);
    assert Residual(r, [1.0], 1, 1) == r[1];
    assert Update([1.0], Reflection(r[1], r[0])) == [1.0, Reflection(r[1], r[0])];
  }

  lemma LevinsonStep(r: seq<real>, i: nat)
    requires 1 <= i < |r| && Regular(r, i)
    ensures var p := Levinson(r, i - 1);
      var k := Reflection(Residual(r, p.a, i, i), p.E);
      Levinson(r, i) == Predictor(Update(p.a, k), NextEnergy(p.E, k))
  {
    hide Update, Residual, Reflection, NextEnergy;
  }

  // ----- the normal equations -----------------------------------------------------------

  /** The predictor and the autocorrelation as functions on the integers. */
  ghost function Taps(a: seq<real>): int -> real {
    j => if 0 <= j < |a| then a[j] else 0.0
  }

  ghost function Correlation(r: seq<real>): int -> real {
    k => var m := if k < 0 then -k else k; if m < |r| then r[m] else 0.0
  }

  /** Row k of the Toeplitz system: a(0) R(k) + a(1) R(k-1) + ... + a(n-1) R(k-n+1). */
  ghost function Row(a: int -> real, R: int -> real, n: int, k: int): real {
    Sum(RowTerms(a, R, k), 0, n)
  }

  ghost predicate EvenAt(R: int -> real, k: int) {
    R(-k) == R(k)
  }

  ghost function Reversed(a: int -> real, i: int): int -> real {
    j => a(i - j)
  }

  ghost function RowTerms(a: int -> real, R: int -> real, k: int): int -> real {
    j => a(j) * R(k - j)
  }

  /** Reversing the taps of an order-i predictor mirrors the rows. */
  lemma RowReflects(a: int -> real, R: int -> real, i: nat, k: int)
    requires forall m :: EvenAt(R, m)
    ensures Row(Reversed(a, i), R, i + 1, k) == Row(a, R, i + 1, i - k)
  {
    hide RowTerms, Reversed;
    var f := RowTerms(a, R, i - k);
    var g := RowTerms(Reversed(a, i), R, k);
    forall j | 0 <= j < i + 1
      ensures g(i - j) == f(j)
    {
      TermReflects(a, R, i, k, j);
    }
    SumReverse(f, g, 0, i + 1);
  }

  lemma TermReflects(a: int -> real, R: int -> real, i: int, k: int, j: int)
    requires forall m :: EvenAt(R, m)
    ensures RowTerms(Reversed(a, i), R, k)(i - j) == RowTerms(a, R, i - k)(j)
  {
    assert EvenAt(R, i - k - j);
    assert k - (i - j) == -(i - k - j);
    assert i - (i - j) == j;
  }

  /** The order update adds the mirrored row. */
  lemma RowOfUpdate(a: int -> real, a': int -> real, R: int -> real, i: nat, k: int, c: real)
    requires forall m :: EvenAt(R, m)
    requires forall j :: 0 <= j <= i ==> UpdatedAt(a, a', i, c, j)
    ensures Row(a', R, i + 1, k) == Row(a, R, i + 1, k) + c * Row(a, R, i + 1, i - k)
  {
    var f, g, h := RowTerms(a, R, k), RowTerms(Reversed(a, i), R, k), RowTerms(a', R, k);
    forall j | 0 <= j < i + 1
      ensures h(j) == f(j) + c * g(j)
    {
      assert UpdatedAt(a, a', i, c, j);
      TwoTerms(a(j), c, Reversed(a, i)(j), R(k - j));
    }
    hide RowTerms, Reversed;
    SumLinear(f, g, h, c, 0, i + 1);
    RowReflects(a, R, i, k);
  }

  ghost predicate UpdatedAt(a: int -> real, a': int -> real, i: int, c: real, j: int) {
    a'(j) == AddScaled(a(j), c, a(i - j))
  }

  lemma TwoTerms(a: real, c: real, b: real, r: real)
    ensures (a + c * b) * r == a * r + c * (b * r)
  {
    assert (c * b) * r == c * (b * r);
  }

  lemma RowExtends(a: int -> real, R: int -> real, n: nat, k: int)
    requires a(n) == 0.0
    ensures Row(a, R, n + 1, k) == Row(a, R, n, k)
  {
    var f := RowTerms(a, R, k);
    assert Sum(f, 0, n + 1) == Sum(f, 0, n) + f(n);
  }

  /** The accumulated sum of the recursion is row i of the predictor of order i - 1. */
  lemma {:induction false} ResidualIsRow(r: seq<real>, a: seq<real>, i: nat, j: nat)
    requires 1 <= j <= i < |r| && j <= |a| && a[0] == 1.0
    ensures Residual(r, a, i, j) == Row(Taps(a), Correlation(r), j, i)
    decreases j
  {
    var f := RowTerms(Taps(a), Correlation(r), i);
    if j == 1 {
      assert Sum(f, 0, 1) == Sum(f, 0, 0) + f(0);
    } else {
      ResidualIsRow(r, a, i, j - 1);
      assert Sum(f, 0, j) == Sum(f, 0, j - 1) + f(j - 1);
    }
  }

  lemma CorrelationEven(r: seq<real>)
    ensures forall m :: EvenAt(Correlation(r), m)
  {
  }

  /** Rows 1..n-1 of the Toeplitz system vanish. */
  ghost predicate Solves(a: int -> real, R: int -> real, n: int) {
    forall k :: 1 <= k < n ==> Row(a, R, n, k) == 0.0
  }

  /** At every order i the predictor solves the Toeplitz system: rows 1..i vanish and row 0 is the
      prediction error energy. */
  lemma {:induction false} NormalEquations(r: seq<real>, i: nat)
    requires i < |r| && Regular(r, i)
    ensures var p := Levinson(r, i);
      Solves(Taps(p.a), Correlation(r), i + 1) && Row(Taps(p.a), Correlation(r), i + 1, 0) == p.E
    decreases i
  {
    hide NextEnergy, Reflection, Update, Residual, Row;
    if i == 0 {
      assert Levinson(r, 0) == Predictor([1.0], r[0]);
      OrderZero(r);
    } else {
      NormalEquations(r, i - 1);
      LevinsonStep(r, i);
      var p := Levinson(r, i - 1);
      ResidualIsRow(r, p.a, i, i);
      OrderStep(r, p, i, Reflection(Residual(r, p.a, i, i), p.E));
    }
  }

  lemma OrderZero(r: seq<real>)
    requires |r| > 0
    ensures Row(Taps([1.0]), Correlation(r), 1, 0) == r[0]
  {
    var f := RowTerms(Taps([1.0]), Correlation(r), 0);
    assert Sum(f, 0, 1) == Sum(f, 0, 0) + f(0);
  }

  lemma OrderStep(r: seq<real>, p: Predictor, i: nat, c: real)
    requires 1 <= i < |r| && |p.a| == i && p.a[0] == 1.0 && p.E != 0.0
    requires Solves(Taps(p.a), Correlation(r), i)
    requires Row(Taps(p.a), Correlation(r), i, 0) == p.E
    requires c == Reflection(Row(Taps(p.a), Correlation(r), i, i), p.E)
    ensures Solves(Taps(Update(p.a, c)), Correlation(r), i + 1)
    ensures Row(Taps(Update(p.a, c)), Correlation(r), i + 1, 0) == NextEnergy(p.E, c)
  {
    hide Taps, Correlation, Row, Update, EvenAt, UpdatedAt, NextEnergy, Reflection;
    var R, a, a' := Correlation(r), Taps(p.a), Taps(Update(p.a, c));
    CorrelationEven(r);
    forall j | 0 <= j <= i
      ensures UpdatedAt(a, a', i, c, j)
    {
      TapUpdate(p.a, c, j);
    }
    LastTapIsZero(p.a, i);
    var n := i + 1;
    EnergyStep(a, a', R, i, c, p.E);
    forall k | 1 <= k < n
      ensures Row(a', R, n, k) == 0.0
    {
      RowStep(a, a', R, i, k, c, p.E);
    }
  }

  lemma EnergyStep(a: int -> real, a': int -> real, R: int -> real, i: nat, c: real, E: real)
    requires forall m :: EvenAt(R, m)
    requires forall j :: 0 <= j <= i ==> UpdatedAt(a, a', i, c, j)
    requires a(i) == 0.0 && E != 0.0 && Row(a, R, i, 0) == E && c == Reflection(Row(a, R, i, i), E)
    ensures Row(a', R, i + 1, 0) == NextEnergy(E, c)
  {
    hide Row;
    RowOfUpdate(a, a', R, i, 0, c);
    RowExtends(a, R, i, 0);
    RowExtends(a, R, i, i);
    ReflectionCancels(Row(a, R, i, i), E, c);
  }

  lemma RowStep(a: int -> real, a': int -> real, R: int -> real, i: nat, k: nat, c: real, E: real)
    requires forall m :: EvenAt(R, m)
    requires forall j :: 0 <= j <= i ==> UpdatedAt(a, a', i, c, j)
    requires a(i) == 0.0 && 1 <= k <= i && Solves(a, R, i)
    requires E != 0.0 && Row(a, R, i, 0) == E && c == Reflection(Row(a, R, i, i), E)
    ensures Row(a', R, i + 1, k) == 0.0
  {
    hide Row, Reflection;
    RowOfUpdate(a, a', R, i, k, c);
    RowExtends(a, R, i, k);
    RowExtends(a, R, i, i - k);
    if k == i {
      ReflectionCancels(Row(a, R, i, i), E, c);
    } else {
      assert Row(a, R, i, k) == 0.0 && Row(a, R, i, i - k) == 0.0;
    }
  }

  lemma ReflectionCancels(sum: real, E: real, c: real)
    requires E != 0.0 && c == Reflection(sum, E)
    ensures sum + c * E == 0.0 && E + c * sum == NextEnergy(E, c)
  {
    assert c * E == -sum;
    assert c * sum == -(c * (c * E));
    assert E * (c * c) == c * (c * E);
  }

  lemma LastTapIsZero(a: seq<real>, i: nat)
    requires |a| == i
    ensures Taps(a)(i) == 0.0
  {
  }

  lemma TapUpdate(a: seq<real>, c: real, j: int)
    requires |a| >= 1 && a[0] == 1.0 && 0 <= j <= |a|
    ensures UpdatedAt(Taps(a), Taps(Update(a, c)), |a|, c, j)
  {
    hide Update;
  }
}
