/** The integer root search of LP2LSPConversion: a scan of cos(w) over a fixed grid that
    alternates between two polynomials, with two bisections around each sign change. */
module RootSearch {
  import opened FixedPoint

  /** cos(w) from 0 to pi/2 in 25 steps, in Q15. */
  function CosTable(i: nat): int
    requires i <= 25
  {
    match i
    case 0 => 32760 case 1 => 32703 case 2 => 32509 case 3 => 32187 case 4 => 31738
    case 5 => 31164 case 6 => 30466 case 7 => 29649 case 8 => 28714 case 9 => 27666
    case 10 => 26509 case 11 => 25248 case 12 => 23886 case 13 => 22431 case 14 => 20887
    case 15 => 19260 case 16 => 17557 case 17 => 15786 case 18 => 13951 case 19 => 12062
    case 20 => 10125 case 21 => 8149 case 22 => 6140 case 23 => 4106 case 24 => 2057
    case _ => 0
  }

  /** cos(w) from 0 to pi in 50 steps: the second half of the code's table mirrors the first. */
  function Grid(i: nat): (x: Word16)
    requires i <= 50
    ensures -32760 <= x <= 32760
  {
    if i <= 25 then CosTable(i) else -CosTable(50 - i)
  }

  lemma GridDecreases(i: nat)
    requires 1 <= i <= 50
    ensures Grid(i - 1) - Grid(i) >= 57
  {
  }

  // ----- the two polynomials ------------------------------------------------------------

  /** Coefficient k of F1 (sum) or F2 (difference) in Q12. */
  function PolyQ12(lp: seq<Word16>, sum: bool, k: nat): (c: Word32)
    requires |lp| == 10 && k <= 5
    ensures -0x1_0000 * k - 0x1000 <= c <= 0x1_0000 * k + 0x1000
  {
    if k == 0 then 0x1000
    else
      var low: int, high: int := lp[k - 1], lp[10 - k];
      if sum then low + (high - PolyQ12(lp, sum, k - 1))
      else PolyQ12(lp, sum, k - 1) + (low - high)
  }

  /** The same in Q15, as the evaluation reads it; coefficient 0 is not converted and not read. */
  function Poly(lp: seq<Word16>, sum: bool): (f: seq<Word32>)
    requires |lp| == 10
    ensures |f| == 6 && Moderate(f)
  {
    var f := [0x1000] + seq(5, k requires 0 <= k < 5 => 8 * PolyQ12(lp, sum, k + 1));
    assert forall k :: 1 <= k <= 5 ==> f[k] == 8 * PolyQ12(lp, sum, k);
    f
  }

  /** The size that coefficients made from 16-bit predictors have. */
  predicate Moderate(f: seq<Word32>)
    requires |f| == 6
  {
    forall k :: 1 <= k <= 5 ==> -0x8_0000 * k - 0x8000 <= f[k] <= 0x8_0000 * k + 0x8000
  }

  /** Clenshaw's b(5-j): b5 = 1, b4 = 2x + f1, b(4), b(3), b(2), b(1). */
  function B(x: Word16, f: seq<Word32>, j: nat): int
    requires |f| == 6 && j <= 4
  {
    if j == 0 then 0x8000
    else if j == 1 then 2 * x + f[1]
    else 2 * MultQ15(x, B(x, f, j - 1)) + f[j] - B(x, f, j - 2)
  }

  /** The polynomial's value at x in Q15. */
  function Value(x: Word16, f: seq<Word32>): int
    requires |f| == 6
  {
    MultQ15(x, B(x, f, 4)) + f[5] / 2 - B(x, f, 3)
  }

  lemma MultQ15Shrinks(x: Word16, b: int)
    ensures -Abs(b) <= MultQ15(x, b) <= Abs(b)
  {
    hide SplitFloor;
    SplitFloorIsFloor(x, b, 0x8000);
    ProductRange(x, b, 0x8000);
  }

  /** With 16-bit predictors every intermediate value is below 2^25, whatever x. */
  lemma ValueIsSmall(x: Word16, f: seq<Word32>)
    requires |f| == 6 && Moderate(f)
    ensures Abs(B(x, f, 1)) <= 622592 && Abs(B(x, f, 2)) <= 2359296
    ensures Abs(B(x, f, 3)) <= 6946816 && Abs(B(x, f, 4)) <= 18382848
    ensures Abs(Value(x, f)) < 0x200_0000
  {
    MultQ15Shrinks(x, B(x, f, 1));
    MultQ15Shrinks(x, B(x, f, 2));
    MultQ15Shrinks(x, B(x, f, 3));
    MultQ15Shrinks(x, B(x, f, 4));
  }

  method ChebyshevPolynomial(x: Word16, f: seq<Word32>) returns (c: Word32)
    requires |f| == 6 && Moderate(f)
    ensures c == Value(x, f)
    ensures Abs(c) < 0x200_0000
  {
    ValueIsSmall(x, f);
    var bk1: Word32 := 2 * x + f[1];
    var bk2: Word32 := 0x8000;
    var k := 3;
    while k > 0
      invariant 0 <= k <= 3
      invariant bk1 == B(x, f, 4 - k) && bk2 == B(x, f, 3 - k)
    {
      var product := MultiplyQ15(x, bk1);
      var bk: Word32 := 2 * product + f[5 - k] - bk2;
      bk2 := bk1;
      bk1 := bk;
      k := k - 1;
    }
    var product := MultiplyQ15(x, bk1);
    c := product + f[5] / 2 - bk2;
  }

  /** MULT16_32_Q15 with each of its 32-bit products in range. */
  method MultiplyQ15(a: Word16, b: Word32) returns (p: Word32)
    requires Abs(b) < 0x200_0000
    ensures p == MultQ15(a, b)
  {
    var q, r := b / 0x8000, b % 0x8000;
    ProductRange(q, a, 0x400);
    ProductRange(r, a, 0x8000);
    var high: Word32 := a * q;
    var low: Word32 := a * r;
    p := high + low / 0x8000;
  }

  // ----- signs --------------------------------------------------------------------------

  /** Bit 28 of the two's complement form. */
  predicate Bit28(v: int) {
    (v / 0x1000_0000) % 2 == 1
  }

  /** (a ^ b) & 0x10000000, the code's test for a change of sign. */
  predicate SignBitsDiffer(a: int, b: int) {
    Bit28(a) != Bit28(b)
  }

  /** Below 2^28 in magnitude, bit 28 is the sign. */
  lemma Bit28IsSign(v: int)
    requires Abs(v) < 0x1000_0000
    ensures Bit28(v) <==> v < 0
  {
    assert v / 0x1000_0000 == if v < 0 then -1 else 0;
  }

  /** For every predictor and every pair of points the bit test is exactly a change of sign. */
  lemma SignTestIsExact(f: seq<Word32>, x: Word16, y: Word16)
    requires |f| == 6 && Moderate(f)
    ensures SignBitsDiffer(Value(x, f), Value(y, f)) <==> Negative(f, x) != Negative(f, y)
  {
    ValueIsSmall(x, f);
    ValueIsSmall(y, f);
    Bit28IsSign(Value(x, f));
    Bit28IsSign(Value(y, f));
  }

  predicate Negative(f: seq<Word32>, x: Word16)
    requires |f| == 6
  {
    Value(x, f) < 0
  }

  // ----- the search ---------------------------------------------------------------------

  /** What the search knows when it reports a root: the grid step, the point whose value it carries
      as previousCx, the interval left after bisection, and the two values it interpolates. */
  datatype Bracket = Bracket(step: nat, anchor: Word16, xLow: Word16, xHigh: Word16, previousCx: Word32, cx: Word32)

  /** A point on the same side of the root as the anchor: the polynomial has the same sign at both. */
  predicate WithAnchor(f: seq<Word32>, anchor: Word16, x: Word16)
    requires |f| == 6
  {
    Negative(f, x) == Negative(f, anchor)
  }

  /** Halve an interval: keep the half whose lower end is on the other side from the anchor. */
  function Halved(f: seq<Word32>, anchor: Word16, xLow: Word16, xHigh: Word16): (r: (Word16, Word16))
    requires |f| == 6
  {
    var m: Word16 := (xLow + xHigh) / 2;
    if WithAnchor(f, anchor, m) then (m, xHigh) else (xLow, m)
  }

  /** The upper and the lower end of what two halvings leave of the grid cell below step. */
  function Quarter(f: seq<Word32>, anchor: Word16, step: nat): (r: (Word16, Word16))
    requires |f| == 6 && 1 <= step <= 50
  {
    var half := Halved(f, anchor, Grid(step - 1), Grid(step));
    Halved(f, anchor, half.0, half.1)
  }

  /** The middle of the grid cell below step, and the middle of its upper half. */
  function Middle(step: nat): Word16
    requires 1 <= step <= 50
  {
    (Grid(step - 1) + Grid(step)) / 2
  }

  function UpperMiddle(step: nat): Word16
    requires 1 <= step <= 50
  {
    (Grid(step - 1) + Middle(step)) / 2
  }

  /** The upper end of the grid cell or one of the two points that can replace it is on the anchor's side. */
  predicate AnchorReaches(f: seq<Word32>, anchor: Word16, step: nat)
    requires |f| == 6 && 1 <= step <= 50
  {
    WithAnchor(f, anchor, Grid(step - 1)) || WithAnchor(f, anchor, Middle(step)) || WithAnchor(f, anchor, UpperMiddle(step))
  }

  /** The interval is what two halvings leave of [Grid(step), Grid(step - 1)]; Cx is the value at
      xHigh, previousCx the value at xLow or, while xLow has not moved, at the anchor, and the two have
      opposite signs. */
  ghost predicate Brackets(f: seq<Word32>, b: Bracket)
    requires |f| == 6
  {
    && 1 <= b.step <= 50
    && (b.xLow, b.xHigh) == Quarter(f, b.anchor, b.step)
    && b.cx == Value(b.xHigh, f)
    && b.previousCx == Value(if b.xLow == Grid(b.step - 1) then b.anchor else b.xLow, f)
    && !WithAnchor(f, b.anchor, b.xHigh)
  }

  lemma HalvedWidth(f: seq<Word32>, anchor: Word16, xLow: Word16, xHigh: Word16)
    requires |f| == 6 && xHigh < xLow
    ensures var r := Halved(f, anchor, xLow, xHigh);
      xHigh <= r.1 <= r.0 <= xLow && xLow - xHigh - 1 <= 2 * (r.0 - r.1) <= xLow - xHigh + 1
  {
  }

  /** The interval is a quarter of the grid cell, up to rounding, and its upper end stays where it was or
      moves to a point on the anchor's side. */
  lemma QuarterOfCell(f: seq<Word32>, anchor: Word16, step: nat)
    requires |f| == 6 && 1 <= step <= 50
    ensures var r := Quarter(f, anchor, step);
      && Grid(step) <= r.1 <= r.0 <= Grid(step - 1)
      && Grid(step - 1) - Grid(step) - 3 <= 4 * (r.0 - r.1) <= Grid(step - 1) - Grid(step) + 3
      && (r.0 == Grid(step - 1) || WithAnchor(f, anchor, r.0))
  {
    hide WithAnchor, Grid;
    GridDecreases(step);
    var half := Halved(f, anchor, Grid(step - 1), Grid(step));
    HalvedWidth(f, anchor, Grid(step - 1), Grid(step));
    HalvedWidth(f, anchor, half.0, half.1);
  }

  /** One halving: compare the sign at the middle with that of the carried value. */
  method Halve(f: seq<Word32>, anchor: Word16, top: Word16, xLow: Word16, xHigh: Word16, previousCx: Word32, Cx: Word32)
    returns (newLow: Word16, newHigh: Word16, newPrevious: Word32, newCx: Word32)
    requires |f| == 6 && Moderate(f) && xHigh < xLow <= top
    requires Cx == Value(xHigh, f) && previousCx == Value(if xLow == top then anchor else xLow, f)
    requires !WithAnchor(f, anchor, xHigh) && (xLow != top ==> WithAnchor(f, anchor, xLow))
    ensures (newLow, newHigh) == Halved(f, anchor, xLow, xHigh)
    ensures newCx == Value(newHigh, f) && newPrevious == Value(if newLow == top then anchor else newLow, f)
    ensures !WithAnchor(f, anchor, newHigh) && (newLow != top ==> WithAnchor(f, anchor, newLow))
  {
    hide Value, Moderate;
    var xMean: Word16 := (xLow + xHigh) / 2;
    var middleCx := ChebyshevPolynomial(xMean, f);
    SignTestIsExact(f, if xLow == top then anchor else xLow, xMean);
    if SignBitsDiffer(previousCx, middleCx) {
      newLow, newHigh, newPrevious, newCx := xLow, xMean, previousCx, middleCx;
    } else {
      newLow, newHigh, newPrevious, newCx := xMean, xHigh, middleCx, Cx;
    }
  }

  /** Two bisections of the grid cell below step. previousCx holds the anchor's value. */
  method Bisect(f: seq<Word32>, step: nat, anchor: Word16, previous: Word32, current: Word32) returns (b: Bracket)
    requires |f| == 6 && Moderate(f) && 1 <= step <= 50
    requires previous == Value(anchor, f) && current == Value(Grid(step), f)
    requires !WithAnchor(f, anchor, Grid(step))
    ensures b.step == step && b.anchor == anchor && Brackets(f, b)
  {
    hide Value, Moderate, Grid, WithAnchor, Halved;
    GridDecreases(step);
    var top := Grid(step - 1);
    var xLow: Word16, xHigh: Word16 := top, Grid(step);
    var previousCx, Cx := previous, current;
    ghost var half := Halved(f, anchor, top, Grid(step));
    HalvedWidth(f, anchor, top, Grid(step));
    for j := 0 to 2
      invariant xHigh <= xLow <= top && (j < 2 ==> xHigh < xLow)
      invariant (xLow, xHigh) == if j == 0 then (top, Grid(step)) else if j == 1 then half else Halved(f, anchor, half.0, half.1)
      invariant Cx == Value(xHigh, f) && previousCx == Value(if xLow == top then anchor else xLow, f)
      invariant !WithAnchor(f, anchor, xHigh) && (xLow != top ==> WithAnchor(f, anchor, xLow))
    {
      HalvedWidth(f, anchor, xLow, xHigh);
      xLow, xHigh, previousCx, Cx := Halve(f, anchor, top, xLow, xHigh, previousCx, Cx);
    }
    b := Bracket(step, anchor, xLow, xHigh, previousCx, Cx);
  }

  /** The coefficients of both polynomials, summed in Q12 and then converted to Q15 in place. */
  method PolynomialCoefficients(lp: seq<Word16>) returns (f1: array<Word32>, f2: array<Word32>)
    requires |lp| == 10
    ensures f1.Length == 6 && f2.Length == 6
    ensures f1[..] == Poly(lp, true) && f2[..] == Poly(lp, false)
  {
    f1, f2 := SumAndDifference(lp);
    hide PolyQ12;
    ConvertToQ15(f1);
    ConvertToQ15(f2);
  }

  method SumAndDifference(lp: seq<Word16>) returns (f1: array<Word32>, f2: array<Word32>)
    requires |lp| == 10
    ensures fresh(f1) && fresh(f2) && f1 != f2 && f1.Length == 6 && f2.Length == 6
    ensures forall k :: 0 <= k <= 5 ==> f1[k] == PolyQ12(lp, true, k) && f2[k] == PolyQ12(lp, false, k)
  {
    hide PolyQ12;
    f1, f2 := new Word32[6], new Word32[6];
    f1[0], f2[0] := 0x1000, 0x1000;
    FirstCoefficients(lp);
    for i := 0 to 5
      invariant forall k :: 0 <= k <= i ==> f1[k] == PolyQ12(lp, true, k) && f2[k] == PolyQ12(lp, false, k)
    {
      NextCoefficients(lp, i);
      var low: int, high: int := lp[i], lp[9 - i];
      f1[i + 1] := low + (high - f1[i]);
      f2[i + 1] := f2[i] + (low - high);
    }
  }

  lemma FirstCoefficients(lp: seq<Word16>)
    requires |lp| == 10
    ensures PolyQ12(lp, true, 0) == 0x1000 && PolyQ12(lp, false, 0) == 0x1000
  {
  }

  lemma NextCoefficients(lp: seq<Word16>, i: nat)
    requires |lp| == 10 && i < 5
    ensures PolyQ12(lp, true, i + 1) == lp[i] as int + (lp[9 - i] as int - PolyQ12(lp, true, i))
    ensures PolyQ12(lp, false, i + 1) == PolyQ12(lp, false, i) + (lp[i] as int - lp[9 - i] as int)
  {
  }

  /** Q12 to Q15 in place; entry 0 is left alone. */
  method ConvertToQ15(f: array<Word32>)
    requires f.Length == 6
    requires forall k :: 1 <= k <= 5 ==> -0x1000_0000 <= f[k] < 0x1000_0000
    modifies f
    ensures f[0] == old(f[0])
    ensures forall k :: 1 <= k <= 5 ==> f[k] == 8 * old(f[k])
  {
    for i := 1 to 6
      invariant f[0] == old(f[0])
      invariant forall k :: 1 <= k < i ==> f[k] == 8 * old(f[k])
      invariant forall k :: i <= k <= 5 ==> f[k] == old(f[k])
    {
      f[i] := 8 * f[i];
    }
  }

  /** Root r belongs to F1 when r is even and to F2 when r is odd. */
  function PolyOf(lp: seq<Word16>, r: nat): (f: seq<Word32>)
    requires |lp| == 10
    ensures |f| == 6 && Moderate(f)
  {
    Poly(lp, r % 2 == 0)
  }

  /** The point whose value the search carries while it looks for root r: the start of the grid,
      then the previous interpolated root. It is not moved along with the scan. */
  function AnchorOf(roots: seq<Word16>, r: nat): Word16
    requires r <= |roots|
  {
    if r == 0 then Grid(0) else roots[r - 1]
  }

  function StepAfter(brackets: seq<Bracket>, r: nat): nat
    requires r <= |brackets|
  {
    if r == 0 then 0 else brackets[r - 1].step
  }

  /** No grid point strictly between two steps is on the other side from the anchor. */
  ghost predicate SameSideBetween(f: seq<Word32>, anchor: Word16, low: nat, high: nat)
    requires |f| == 6
  {
    forall s :: low < s < high && s <= 50 ==> Negative(f, Grid(s)) == Negative(f, anchor)
  }

  /** Root r was found at the first grid step after root r - 1 whose value is on the other side
      from the anchor, and it was interpolated from the interval left by bisecting there. */
  ghost predicate RootFound(lp: seq<Word16>, interpolate: Bracket -> Word16, roots: seq<Word16>, brackets: seq<Bracket>, r: nat)
    requires |lp| == 10 && r < |roots| == |brackets|
  {
    var b := brackets[r];
    && Brackets(PolyOf(lp, r), b)
    && b.anchor == AnchorOf(roots, r)
    && !WithAnchor(PolyOf(lp, r), b.anchor, Grid(b.step))
    && StepAfter(brackets, r) < b.step
    && SameSideBetween(PolyOf(lp, r), b.anchor, StepAfter(brackets, r), b.step)
    && roots[r] == interpolate(b)
  }

  /** The search of LP2LSPConversion. The linear interpolation inside a bracket is a parameter. */
  method LpToLsp(lp: seq<Word16>, interpolate: Bracket -> Word16)
    returns (found: bool, roots: seq<Word16>, brackets: seq<Bracket>)
    requires |lp| == 10
    ensures |roots| == |brackets| <= 10
    ensures forall r :: 0 <= r < |roots| ==> RootFound(lp, interpolate, roots, brackets, r)
    ensures found <==> |roots| == 10
    ensures !found ==>
              SameSideBetween(PolyOf(lp, |roots|), AnchorOf(roots, |roots|), StepAfter(brackets, |roots|), 51)
  {
    hide Value, Poly, Moderate, Brackets, Grid;
    var f1, f2 := PolynomialCoefficients(lp);
    var sumPolynomial, differencePolynomial := f1[..], f2[..];
    var coefficients := sumPolynomial;
    roots, brackets := [], [];
    var previousCx := ChebyshevPolynomial(Grid(0), coefficients);
    var i := 1;
    while i < 51 && |roots| < 10
      invariant 1 <= i <= 51
      invariant |roots| == |brackets| <= 10
      invariant StepAfter(brackets, |roots|) < i
      invariant coefficients == PolyOf(lp, |roots|)
      invariant previousCx == Value(AnchorOf(roots, |roots|), coefficients)
      invariant SameSideBetween(coefficients, AnchorOf(roots, |roots|), StepAfter(brackets, |roots|), i)
      invariant forall r :: 0 <= r < |roots| ==> RootFound(lp, interpolate, roots, brackets, r)
    {
      ghost var r := |roots|;
      ghost var anchor := AnchorOf(roots, r);
      ghost var roots0, brackets0 := roots, brackets;
      var Cx := ChebyshevPolynomial(Grid(i), coefficients);
      SignTestIsExact(coefficients, anchor, Grid(i));
      if SignBitsDiffer(previousCx, Cx) {
        var b := Bisect(coefficients, i, if |roots| == 0 then Grid(0) else roots[|roots| - 1], previousCx, Cx);
        coefficients := if |roots| % 2 == 0 then differencePolynomial else sumPolynomial;
        var xMean := interpolate(b);
        previousCx := ChebyshevPolynomial(xMean, coefficients);
        roots := roots + [xMean];
        brackets := brackets + [b];
        assert RootFound(lp, interpolate, roots, brackets, r);
        forall k | 0 <= k < r
          ensures RootFound(lp, interpolate, roots, brackets, k)
        {
          assert RootFound(lp, interpolate, roots0, brackets0, k);
        }
      }
      i := i + 1;
    }
    found := |roots| == 10;
  }

  /** What two halvings leave of a grid cell whose lower end is on the other side from the anchor encloses a
      change of sign if and only if the anchor's side reaches the upper end of the cell, its middle or
      the middle of its upper half. */
  lemma QuarterEnclosesSignChange(f: seq<Word32>, anchor: Word16, step: nat)
    requires |f| == 6 && 1 <= step <= 50 && !WithAnchor(f, anchor, Grid(step))
    ensures var r := Quarter(f, anchor, step);
      !WithAnchor(f, anchor, r.1) && (WithAnchor(f, anchor, r.0) <==> AnchorReaches(f, anchor, step))
  {
    hide WithAnchor, Grid;
  }

  /** The interval reported for a root encloses a sign change of that root's polynomial exactly when
      the anchor's side reaches one of three points of its grid cell, all known before the bisection. It
      always does unless the step follows the root before immediately: then the carried value belongs to
      the interpolated root, and its sign may be found nowhere in the cell. */
  lemma BracketEnclosesSignChange(lp: seq<Word16>, interpolate: Bracket -> Word16,
                                  roots: seq<Word16>, brackets: seq<Bracket>, r: nat)
    requires |lp| == 10 && r < |roots| == |brackets|
    requires RootFound(lp, interpolate, roots, brackets, r)
    ensures var f, b := PolyOf(lp, r), brackets[r];
      Negative(f, b.xLow) != Negative(f, b.xHigh) <==> AnchorReaches(f, AnchorOf(roots, r), b.step)
    ensures var f, b := PolyOf(lp, r), brackets[r];
      b.step > StepAfter(brackets, r) + 1 || r == 0 ==> AnchorReaches(f, AnchorOf(roots, r), b.step)
  {
    hide Value, Poly, PolyOf, Moderate, Grid, Quarter, Middle, UpperMiddle;
    var f, b := PolyOf(lp, r), brackets[r];
    assert !WithAnchor(f, b.anchor, Grid(b.step));
    QuarterEnclosesSignChange(f, b.anchor, b.step);
    if b.step > StepAfter(brackets, r) + 1 {
      assert Negative(f, Grid(b.step - 1)) == Negative(f, b.anchor);
    }
  }

  /** One step of the evaluation. */
  lemma NextB(x: Word16, f: seq<Word32>, j: nat, before: int, b: int, next: int)
    requires |f| == 6 && 2 <= j <= 4 && B(x, f, j - 2) == before && B(x, f, j - 1) == b
    requires next == 2 * MultQ15(x, b) + f[j] - before
    ensures B(x, f, j) == next
  {
    hide MultQ15;
  }

  /** The evaluation, step by step. */
  lemma ValueIs(x: Word16, f: seq<Word32>, b1: int, b2: int, b3: int, b4: int, v: int)
    requires |f| == 6 && b1 == 2 * x + f[1] && b2 == 2 * MultQ15(x, b1) + f[2] - 0x8000
    requires b3 == 2 * MultQ15(x, b2) + f[3] - b1 && b4 == 2 * MultQ15(x, b3) + f[4] - b2
    requires v == MultQ15(x, b4) + f[5] / 2 - b3
    ensures Value(x, f) == v
  {
    hide MultQ15, B;
    FirstB(x, f);
    NextB(x, f, 2, 0x8000, b1, b2);
    NextB(x, f, 3, b1, b2, b3);
    NextB(x, f, 4, b2, b3, b4);
  }

  lemma FirstB(x: Word16, f: seq<Word32>)
    requires |f| == 6
    ensures B(x, f, 0) == 0x8000 && B(x, f, 1) == 2 * x + f[1]
  {
  }

  lemma CloseCoefficients(lp: seq<Word16>)
    requires lp == [-14699, 23738, -24581, 19428, -11937, 3915, 1173, -1626, 719, -224]
    ensures PolyOf(lp, 0) == [0x1000, -152152, 347808, -557464, 722272, -786448]
    ensures PolyOf(lp, 1) == [0x1000, -83032, 101120, -82520, 63520, -63296]
  {
    hide PolyQ12, Poly, Moderate;
    CloseSums(lp);
    CloseDifferences(lp);
    PolyEntries(lp, true);
    PolyEntries(lp, false);
  }

  lemma CloseSums(lp: seq<Word16>)
    requires lp == [-14699, 23738, -24581, 19428, -11937, 3915, 1173, -1626, 719, -224]
    ensures PolyQ12(lp, true, 1) == -19019 && PolyQ12(lp, true, 2) == 43476 && PolyQ12(lp, true, 3) == -69683
    ensures PolyQ12(lp, true, 4) == 90284 && PolyQ12(lp, true, 5) == -98306
  {
    hide PolyQ12;
    NextCoefficient(lp, true, 1);
    NextCoefficient(lp, true, 2);
    NextCoefficient(lp, true, 3);
    NextCoefficient(lp, true, 4);
    NextCoefficient(lp, true, 5);
  }

  lemma CloseDifferences(lp: seq<Word16>)
    requires lp == [-14699, 23738, -24581, 19428, -11937, 3915, 1173, -1626, 719, -224]
    ensures PolyQ12(lp, false, 1) == -10379 && PolyQ12(lp, false, 2) == 12640 && PolyQ12(lp, false, 3) == -10315
    ensures PolyQ12(lp, false, 4) == 7940 && PolyQ12(lp, false, 5) == -7912
  {
    hide PolyQ12;
    NextCoefficient(lp, false, 1);
    NextCoefficient(lp, false, 2);
    NextCoefficient(lp, false, 3);
    NextCoefficient(lp, false, 4);
    NextCoefficient(lp, false, 5);
  }

  lemma NextCoefficient(lp: seq<Word16>, sum: bool, k: nat)
    requires |lp| == 10 && 1 <= k <= 5
    ensures PolyQ12(lp, sum, k) as int
         == if sum then lp[k - 1] as int + lp[10 - k] as int - PolyQ12(lp, sum, k - 1) as int
            else lp[k - 1] as int - lp[10 - k] as int + PolyQ12(lp, sum, k - 1) as int
    ensures k == 1 ==> PolyQ12(lp, sum, k - 1) == 0x1000
  {
  }

  lemma PolyEntries(lp: seq<Word16>, sum: bool)
    requires |lp| == 10
    ensures Poly(lp, sum) == [0x1000, 8 * PolyQ12(lp, sum, 1), 8 * PolyQ12(lp, sum, 2), 8 * PolyQ12(lp, sum, 3),
                              8 * PolyQ12(lp, sum, 4), 8 * PolyQ12(lp, sum, 5)]
  {
    hide PolyQ12, Moderate;
  }

  /** Values of the first polynomial of a predictor with two line spectral pairs between 32703 and 32760. */
  lemma FirstCloseRoot(f: seq<Word32>)
    requires f == [0x1000, -152152, 347808, -557464, 722272, -786448]
    ensures Value(32760, f) == 3 && Value(32745, f) == -1 && Value(32731, f) == -5 && Value(32703, f) == -9
  {
    hide Value;
    ValueIs(32760, f, -86632, 141818, -187266, 206012, 3);
    ValueIs(32745, f, -86662, 141836, -187330, 206038, -1);
    ValueIs(32731, f, -86690, 141854, -187388, 206064, -5);
    ValueIs(32703, f, -86746, 141892, -187498, 206126, -9);
  }

  /** And of the second. */
  lemma SecondCloseRoot(f: seq<Word32>)
    requires f == [0x1000, -83032, 101120, -82520, 63520, -63296]
    ensures Value(32749, f) == 128 && Value(32703, f) == -58 && Value(32654, f) == -250
    ensures Value(32606, f) == -433 && Value(32509, f) == -794
  {
    hide Value;
    ValueIs(32749, f, -17534, 33304, 1582, 33378, 128);
    ValueIs(32703, f, -17626, 33168, 1310, 32966, -58);
    ValueIs(32654, f, -17724, 33026, 1026, 32538, -250);
    ValueIs(32606, f, -17820, 32888, 750, 32124, -433);
    ValueIs(32509, f, -18014, 32608, 194, 31296, -794);
  }

  /** So both cells are halved downwards twice. */
  lemma CloseBrackets(f1: seq<Word32>, f2: seq<Word32>)
    requires f1 == [0x1000, -152152, 347808, -557464, 722272, -786448]
    requires f2 == [0x1000, -83032, 101120, -82520, 63520, -63296]
    ensures Brackets(f1, Bracket(1, 32760, 32760, 32745, 3, -1)) && !WithAnchor(f1, 32760, Grid(1))
    ensures Brackets(f2, Bracket(2, 32749, 32703, 32654, 128, -250)) && !WithAnchor(f2, 32749, Grid(2))
    ensures Negative(f2, 32703) && Negative(f2, 32654) && !AnchorReaches(f2, 32749, 2)
  {
    hide Value, Grid;
    FirstGridPoints();
    FirstCloseRoot(f1);
    SecondCloseRoot(f2);
  }

  /** The code's interpolation, with 32-bit wrap-around of its shifted numerator; where its denominator
      would be zero this function returns xLow. */
  function Interpolation(b: Bracket): Word16 {
    var denominator := Wrap32(b.cx as int - b.previousCx as int) as int / 2;
    if denominator == 0 then b.xLow
    else Wrap16(b.xLow as int - MultQ15(b.xHigh as int - b.xLow as int, TruncDiv(Wrap32(b.previousCx as int * 0x4000), denominator)))
  }

  lemma InterpolationIs(b: Bracket, denominator: int, numerator: int, ratio: int, offset: int, root: Word16)
    requires denominator == Wrap32(b.cx as int - b.previousCx as int) as int / 2 && denominator < 0
    requires numerator == Wrap32(b.previousCx as int * 0x4000) && numerator > 0 && ratio == -(numerator / -denominator)
    requires offset == MultQ15(b.xHigh as int - b.xLow as int, ratio) && root as int == b.xLow as int - offset
    ensures Interpolation(b) == root
  {
    hide Wrap32, MultQ15, TruncDiv;
    NegativeRatio(numerator, denominator);
  }

  lemma NegativeRatio(numerator: int, denominator: int)
    requires numerator > 0 && denominator < 0
    ensures TruncDiv(numerator, denominator) == -(numerator / -denominator)
  {
  }

  lemma InterpolatedRoots()
    ensures Interpolation(Bracket(1, 32760, 32760, 32745, 3, -1)) == 32749
    ensures Interpolation(Bracket(2, 32749, 32703, 32654, 128, -250)) == 32687
  {
    InterpolationIs(Bracket(1, 32760, 32760, 32745, 3, -1), -2, 49152, -24576, 11, 32749);
    InterpolationIs(Bracket(2, 32749, 32703, 32654, 128, -250), -189, 2097152, -11096, 16, 32687);
  }

  lemma FirstGridPoints()
    ensures Grid(0) == 32760 && Grid(1) == 32703 && Grid(2) == 32509
  {
  }

  /** The condition can fail: for this predictor two line spectral pairs lie in one grid cell. The
      first root is interpolated at 32749; the second polynomial has already changed sign between there and
      the grid, and the interval reported for its root holds no change of sign. */
  lemma LostSignChange() returns (lp: seq<Word16>, interpolate: Bracket -> Word16, roots: seq<Word16>, brackets: seq<Bracket>)
    ensures |lp| == 10 && |roots| == |brackets| == 2 && roots[0] == 32749 && interpolate == Interpolation
    ensures RootFound(lp, interpolate, roots, brackets, 0) && RootFound(lp, interpolate, roots, brackets, 1)
    ensures !AnchorReaches(PolyOf(lp, 1), AnchorOf(roots, 1), brackets[1].step)
    ensures var b := brackets[1]; Negative(PolyOf(lp, 1), b.xLow) && Negative(PolyOf(lp, 1), b.xHigh)
  {
    hide Value, Poly, PolyOf, Grid, Interpolation, Brackets, AnchorReaches;
    lp := [-14699, 23738, -24581, 19428, -11937, 3915, 1173, -1626, 719, -224];
    interpolate := Interpolation;
    brackets := [Bracket(1, 32760, 32760, 32745, 3, -1), Bracket(2, 32749, 32703, 32654, 128, -250)];
    roots := [32749, 32687];
    CloseCoefficients(lp);
    CloseBrackets(PolyOf(lp, 0), PolyOf(lp, 1));
    FirstGridPoints();
    InterpolatedRoots();
  }
}
