/** The energy of the code vector as the gain predictor sees it: at least one pulse survives the
    sharpening and the 32-bit sum of squares does not overflow, for every delay and gain the encoder
    can use. */
module CodeVectorEnergy {
  import opened FixedPoint
  import opened PulseEnergy
  import opened FixedCodebook
  import opened Gains

  /** Exact sum of the first n squares. */
  function Squares(c: seq<Word16>, n: nat): (s: int)
    requires n <= |c|
    ensures s >= 0
  {
    if n == 0 then 0 else Squares(c, n - 1) + Square(c[n - 1])
  }

  function Square(x: int): (s: int)
    ensures s >= 0
  {
    if x >= 0 then x * x else (-x) * (-x)
  }

  lemma SquareIsProduct(x: int)
    ensures Square(x) == x * x
  {
  }

  lemma {:induction false} SquaresGrow(c: seq<Word16>, m: nat, n: nat)
    requires m <= n <= |c|
    ensures Squares(c, m) <= Squares(c, n)
    decreases n
  {
    hide Square;
    if m < n {
      SquaresGrow(c, m, n - 1);
    }
  }

  /** While the exact sum fits 32 bits, nothing wraps. */
  lemma {:induction false} SumIsExact(c: seq<Word16>, n: nat)
    requires n <= |c| && Squares(c, n) <= MAX32
    ensures SquaresSum(c, n) == Squares(c, n)
    decreases n
  {
    if n > 0 {
      SquaresGrow(c, n - 1, n);
      SumIsExact(c, n - 1);
      SquareIsProduct(c[n - 1]);
      hide Square;
    }
  }

  /** The number of pulses before sample n. */
  function Count(ps: Pulses, n: int): (k: nat)
    ensures k <= 4
  {
    (if ps.i0 < n then 1 else 0) + (if ps.i1 < n then 1 else 0) + (if ps.i2 < n then 1 else 0) + (if ps.i3 < n then 1 else 0)
  }

  lemma CountStep(ps: Pulses, n: nat)
    requires ps.Valid() && n < L
    ensures Count(ps, n + 1) == Count(ps, n) + if PulseAt(ps, n) != 0 then 1 else 0
    ensures PulseAt(ps, n) == 0 || PulseAt(ps, n) == 0x2000 || PulseAt(ps, n) == -0x2000
  {
  }

  lemma CountStart(ps: Pulses, n: int)
    requires n <= 0
    ensures Count(ps, n) == 0
  {
  }

  /** The bare pulses have exactly the energy of four pulses. */
  lemma {:induction false} BareEnergy(ps: Pulses, n: nat)
    requires ps.Valid() && n <= L
    ensures Squares(PulseVector(ps), n) == 0x400_0000 * Count(ps, n)
    decreases n
  {
    if n == 0 {
      CountStart(ps, n);
    } else {
      BareEnergy(ps, n - 1);
      CountStep(ps, n - 1);
      hide Count, PulseAt;
    }
  }

  lemma BareSum(ps: Pulses)
    requires ps.Valid()
    ensures VectorEnergy(PulseVector(ps)) == 0x1000_0000 && HasEnergy(PulseVector(ps))
  {
    hide Squares, SquaresSum;
    BareEnergy(ps, L);
    SumIsExact(PulseVector(ps), L);
  }

  /** Delays and gains that occur: gains from 0.2 to 1.2 in Q14 on the encoder's side and to 0.8 on the
      decoder's, and delays from 20 on, or 19 for a decoder. */
  predicate Sharpens(T: nat, beta: int) {
    3277 <= beta <= 19661 && T >= 19 && (T == 19 ==> beta <= 13107)
  }

  lemma EchoBound(x: int, beta: int, half: int)
    requires x == 0 || x == 0x2000 || x == -0x2000
    requires 3277 <= beta <= 19661 && (half == 0 || half == 0x2000)
    ensures if x == 0 then Scaled(x, beta, half) == 0 else -9831 <= Scaled(x, beta, half) <= 9831
    ensures beta <= 13107 ==> -6554 <= Scaled(x, beta, half) <= 6554
  {
  }

  /** Up to twice the delay a sharpened sample is a pulse, or its absence, plus at most one echo. */
  lemma SampleIsPulseAndEcho(ps: Pulses, T: nat, beta: int, half: int, n: nat) returns (e: int)
    requires ps.Valid() && Sharpens(T, beta) && (half == 0 || half == 0x2000) && n < L && n < 2 * T
    ensures SharpenedAt(PulseVector(ps), T, beta, half, n) as int == PulseAt(ps, n) as int + e
    ensures if n < T || PulseAt(ps, n - T) == 0 then e == 0 else -9831 <= e <= 9831
    ensures beta <= 13107 ==> -6554 <= e <= 6554
  {
    hide PulseAt, Scaled, Count, Wrap16;
    e := 0;
    if n < T {
      NotSharpened(ps, T, beta, half, n);
    } else {
      NotSharpened(ps, T, beta, half, n - T);
      CountStep(ps, n);
      CountStep(ps, n - T);
      EchoBound(PulseAt(ps, n - T), beta, half);
      e := Scaled(PulseAt(ps, n - T), beta, half);
      FitsWord(PulseAt(ps, n) as int + e);
    }
  }

  lemma NotSharpened(ps: Pulses, T: nat, beta: int, half: int, n: nat)
    requires ps.Valid() && T >= 1 && n < L && n < T
    ensures SharpenedAt(PulseVector(ps), T, beta, half, n) == PulseAt(ps, n)
  {
  }

  lemma FitsWord(x: int)
    requires -0x8000 <= x <= 0x7fff
    ensures Wrap16(x) as int == x
  {
  }

  lemma SquareOfSum(p: int, e: int)
    ensures Square(p + e) <= 2 * Square(p) + 2 * Square(e)
  {
    hide Square;
    SquareIsProduct(p + e);
    SquareIsProduct(p);
    SquareIsProduct(e);
    SquareIsProduct(p - e);
    assert (p + e) * (p + e) + (p - e) * (p - e) == 2 * (p * p) + 2 * (e * e);
    var s := Square(p - e);
  }

  lemma SquareAtMost(x: int, m: int)
    requires -m <= x <= m
    ensures Square(x) <= m * m
  {
    hide Square;
    SquareIsProduct(x);
    assert (m - x) * (m + x) >= 0;
    assert (m - x) * (m + x) == m * m - x * x;
  }

  lemma SquareOfEcho(p: int, e: int)
    requires (p == 0 || p == 0x2000 || p == -0x2000) && -9831 <= e <= 9831
    ensures Square(p + e) <= 0x800_0000 * (if p != 0 then 1 else 0) + 193297122 * (if e != 0 then 1 else 0)
  {
    SquareOfSum(p, e);
    SquareAtMost(e, 9831);
    assert Square(0) == 0 && Square(0x2000) == Square(-0x2000) == 0x400_0000;
    hide Square;
  }

  /** The energy is at most twice that of the pulses and twice that of their echoes. */
  lemma {:induction false} SharpenedBound(ps: Pulses, T: nat, beta: int, half: int, n: nat)
    requires ps.Valid() && Sharpens(T, beta) && (half == 0 || half == 0x2000) && n <= L && n <= 2 * T
    ensures Squares(Sharpened(PulseVector(ps), T, beta, half), n) <= 0x800_0000 * Count(ps, n) + 193297122 * Count(ps, n - T)
    decreases n
  {
    hide Count, PulseAt, SharpenedAt, Square;
    if n == 0 {
      CountStart(ps, n);
      CountStart(ps, n - T);
    } else {
      SharpenedBound(ps, T, beta, half, n - 1);
      SampleBound(ps, T, beta, half, n - 1);
    }
  }

  lemma SampleBound(ps: Pulses, T: nat, beta: int, half: int, n: nat)
    requires ps.Valid() && Sharpens(T, beta) && (half == 0 || half == 0x2000) && n < L && n < 2 * T
    ensures Square(SharpenedAt(PulseVector(ps), T, beta, half, n))
         <= 0x800_0000 * (Count(ps, n + 1) - Count(ps, n)) + 193297122 * (Count(ps, n + 1 - T) - Count(ps, n - T))
  {
    hide Count, PulseAt, SharpenedAt, Square;
    var e := SampleIsPulseAndEcho(ps, T, beta, half, n);
    CountStep(ps, n);
    if n >= T {
      CountStep(ps, n - T);
    } else {
      CountStart(ps, n + 1 - T);
      CountStart(ps, n - T);
    }
    SquareOfEcho(PulseAt(ps, n), e);
  }

  /** At a delay of 19 the last two samples can hold an echo of an echo. */
  lemma DoubleEcho(ps: Pulses, beta: int, half: int, n: nat)
    requires ps.Valid() && Sharpens(19, beta) && (half == 0 || half == 0x2000) && 38 <= n < L
    ensures Square(Sharpened(PulseVector(ps), 19, beta, half)[n]) <= 20000 * 20000
  {
    hide PulseAt, Scaled, Count, Square, Wrap16;
    var v := PulseVector(ps);
    var e := SampleIsPulseAndEcho(ps, 19, beta, half, n - 19);
    CountStep(ps, n);
    CountStep(ps, n - 19);
    var x := SharpenedAt(v, 19, beta, half, n - 19);
    EchoOfEcho(x, beta, half);
    var y := PulseAt(ps, n) as int + Scaled(x, beta, half);
    FitsWord(y);
    assert SharpenedAt(v, 19, beta, half, n) as int == y;
    SquareAtMost(y, 20000);
  }

  lemma EchoOfEcho(x: int, beta: int, half: int)
    requires -14746 <= x <= 14746 && 3277 <= beta <= 13107 && (half == 0 || half == 0x2000)
    ensures -11798 <= Scaled(x, beta, half) <= 11798
  {
    ProductRange(x, beta, 14746);
  }

  /** The first pulse has no echo under it. */
  lemma FirstPulseStands(ps: Pulses, T: nat, beta: int, half: int) returns (m: nat)
    requires ps.Valid() && Sharpens(T, beta) && (half == 0 || half == 0x2000)
    ensures m < L && Square(Sharpened(PulseVector(ps), T, beta, half)[m]) == 0x400_0000
  {
    m := if ps.i0 < ps.i1 then ps.i0 else ps.i1;
    m := if m < ps.i2 then m else ps.i2;
    m := if m < ps.i3 then m else ps.i3;
    NothingBefore(ps, T, beta, half, m, m);
    CountStep(ps, m);
    assert PulseAt(ps, m) != 0;
  }

  lemma {:induction false} NothingBefore(ps: Pulses, T: nat, beta: int, half: int, m: nat, n: nat)
    requires ps.Valid() && Sharpens(T, beta) && (half == 0 || half == 0x2000)
    requires m <= ps.i0 && m <= ps.i1 && m <= ps.i2 && m <= ps.i3 && n <= m
    ensures SharpenedAt(PulseVector(ps), T, beta, half, n) == PulseAt(ps, n) && (n < m ==> PulseAt(ps, n) == 0)
    decreases n
  {
    hide PulseAt, Scaled, Wrap16;
    if n < m {
      NoPulseBefore(ps, m, n);
    }
    if n < T {
      NotSharpened(ps, T, beta, half, n);
    } else {
      NothingBefore(ps, T, beta, half, m, n - T);
      EchoBound(0, beta, half);
      FitsWord(PulseAt(ps, n));
    }
  }

  lemma NoPulseBefore(ps: Pulses, m: nat, n: nat)
    requires ps.Valid() && m <= ps.i0 && m <= ps.i1 && m <= ps.i2 && m <= ps.i3 && n < m
    ensures PulseAt(ps, n) == 0
  {
  }

  /** For every pair of pulses, delay and gain that occurs, the sum of squares is exact and positive:
      the logarithm of the gain prediction is always defined. */
  lemma SharpenedEnergy(ps: Pulses, T: nat, beta: int, half: int)
    requires ps.Valid() && Sharpens(T, beta) && (half == 0 || half == 0x2000)
    ensures HasEnergy(Sharpened(PulseVector(ps), T, beta, half))
    ensures VectorEnergy(Sharpened(PulseVector(ps), T, beta, half)) == Squares(Sharpened(PulseVector(ps), T, beta, half), L)
    ensures Squares(Sharpened(PulseVector(ps), T, beta, half), L) >= 0x400_0000
  {
    var v := Sharpened(PulseVector(ps), T, beta, half);
    EnergyBounded(ps, T, beta, half);
    var m := FirstPulseStands(ps, T, beta, half);
    SquaresGrow(v, m + 1, L);
    assert Squares(v, m + 1) == Squares(v, m) + Square(v[m]);
    hide Squares, SquaresSum, Sharpened, Square;
    SumIsExact(v, L);
  }

  lemma EnergyBounded(ps: Pulses, T: nat, beta: int, half: int)
    requires ps.Valid() && Sharpens(T, beta) && (half == 0 || half == 0x2000)
    ensures Squares(Sharpened(PulseVector(ps), T, beta, half), L) <= MAX32
  {
    hide Sharpened, Square, Count;
    if T >= 20 {
      SharpenedBound(ps, T, beta, half, L);
    } else {
      var v := Sharpened(PulseVector(ps), T, beta, half);
      SharpenedBound(ps, T, beta, half, 38);
      DoubleEcho(ps, beta, half, 38);
      DoubleEcho(ps, beta, half, 39);
      assert Squares(v, 39) == Squares(v, 38) + Square(v[38]);
      assert Squares(v, 40) == Squares(v, 39) + Square(v[39]);
    }
  }
}
