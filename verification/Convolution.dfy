/** Pitch sharpening and convolution in exact arithmetic (section 3.8 of Recommendation G.729,
    equations 48, 49 and 64): sharpening the impulse response or the code vector gives the same
    filtered vector. */
module Convolution {
  import opened RealSums

  type Signal = int -> real

  /** The products that make up sample n of a convolution. */
  ghost function Terms(a: Signal, b: Signal, n: int): Signal {
    k => a(k) * b(n - k)
  }

  /** Sample n of the causal convolution of a and b. */
  ghost function Conv(a: Signal, b: Signal, n: int): real {
    Sum(Terms(a, b, n), 0, n + 1)
  }

  /** A signal delayed by T samples, silent before. */
  ghost function Delay(s: Signal, T: int): Signal {
    k => if k < T then 0.0 else s(k - T)
  }

  /** The in-place pitch sharpening a[n] += beta a[n-T], sample n. */
  ghost function Sharpened(a: Signal, T: int, beta: real, n: int): real
    requires T >= 1
    decreases Distance(n)
  {
    if n < T then a(n) else a(n) + beta * Sharpened(a, T, beta, n - T)
  }

  function Distance(n: int): nat {
    if n < 0 then 0 else n
  }

  ghost function Sharpen(a: Signal, T: int, beta: real): Signal
    requires T >= 1
  {
    n => Sharpened(a, T, beta, n)
  }

  /** The whole convolution as a signal. */
  ghost function Filter(a: Signal, b: Signal): Signal {
    n => Conv(a, b, n)
  }

  lemma ConvCommutes(a: Signal, b: Signal, n: int)
    ensures Conv(a, b, n) == Conv(b, a, n)
  {
    forall k | 0 <= k < n + 1
      ensures Terms(b, a, n)(0 + (n + 1) - 1 - k) == Terms(a, b, n)(k)
    {
      assert n - (n - k) == k;
    }
    SumReverse(Terms(a, b, n), Terms(b, a, n), 0, n + 1);
  }

  /** Delaying one factor delays the convolution. */
  lemma ConvOfDelayed(s: Signal, b: Signal, T: int, n: int)
    requires 1 <= T <= n
    ensures Conv(Delay(s, T), b, n) == Conv(s, b, n - T)
  {
    var f, g := Terms(s, b, n - T), Terms(Delay(s, T), b, n);
    SumSplit(g, 0, T, n + 1);
    SumZero(g, 0, T);
    forall k | 0 <= k < n + 1 - T
      ensures g(k + T) == f(k)
    {
      assert n - (k + T) == n - T - k;
    }
    SumShift(f, g, 0, n + 1 - T, T);
  }

  /** Convolving a sharpened signal sharpens the convolution. */
  lemma {:induction false} ConvOfSharpened(a: Signal, b: Signal, T: int, beta: real, n: int)
    requires T >= 1
    ensures Conv(Sharpen(a, T, beta), b, n) == Sharpened(Filter(a, b), T, beta, n)
    decreases Distance(n)
  {
    var s := Sharpen(a, T, beta);
    if n < T {
      SumEqual(Terms(s, b, n), Terms(a, b, n), 0, n + 1);
    } else {
      forall k
        ensures SumAt(a, s, Delay(s, T), beta, k)
      {
      }
      ConvOfSum(a, s, Delay(s, T), b, beta, n);
      ConvOfDelayed(s, b, T, n);
      ConvOfSharpened(a, b, T, beta, n - T);
      assert Filter(a, b)(n) == Conv(a, b, n);
    }
  }

  ghost predicate SumAt(a: Signal, s: Signal, d: Signal, c: real, k: int) {
    s(k) == a(k) + c * d(k)
  }

  lemma ConvOfSum(a: Signal, s: Signal, d: Signal, b: Signal, c: real, n: int)
    requires forall k :: SumAt(a, s, d, c, k)
    ensures Conv(s, b, n) == Conv(a, b, n) + c * Conv(d, b, n)
  {
    forall k | 0 <= k < n + 1
      ensures Terms(s, b, n)(k) == Terms(a, b, n)(k) + c * Terms(d, b, n)(k)
    {
      assert SumAt(a, s, d, c, k);
      Distributes(a(k), c, d(k), b(n - k));
    }
    hide Terms;
    SumLinear(Terms(a, b, n), Terms(d, b, n), Terms(s, b, n), c, 0, n + 1);
  }

  lemma Distributes(x: real, c: real, y: real, z: real)
    ensures (x + c * y) * z == x * z + c * (y * z)
  {
    assert (c * y) * z == c * (y * z);
  }

  lemma {:induction false} SharpenedEqual(a: Signal, b: Signal, T: int, beta: real, n: int)
    requires T >= 1
    requires forall m :: a(m) == b(m)
    ensures Sharpened(a, T, beta, n) == Sharpened(b, T, beta, n)
    decreases Distance(n)
  {
    if n >= T {
      SharpenedEqual(a, b, T, beta, n - T);
    }
  }

  /** Filtering the raw code vector with the sharpened response equals filtering the sharpened code
      vector with the original response, at every sample and for every delay. */
  lemma SharpeningEitherSide(c: Signal, h: Signal, T: int, beta: real, n: int)
    requires T >= 1
    ensures Conv(c, Sharpen(h, T, beta), n) == Conv(Sharpen(c, T, beta), h, n)
  {
    ConvCommutes(c, Sharpen(h, T, beta), n);
    ConvOfSharpened(h, c, T, beta, n);
    ConvOfSharpened(c, h, T, beta, n);
    forall m
      ensures Filter(h, c)(m) == Filter(c, h)(m)
    {
      ConvCommutes(h, c, m);
    }
    SharpenedEqual(Filter(h, c), Filter(c, h), T, beta, n);
  }

  // ----- signed pulses --------------------------------------------------------------------

  datatype Pulse = Pulse(position: nat, sign: real)

  /** The raw code vector: signed unit pulses. */
  ghost function Train(ps: seq<Pulse>): Signal {
    n => TrainAt(ps, n)
  }

  function TrainAt(ps: seq<Pulse>, n: int): real {
    if ps == [] then 0.0
    else TrainAt(ps[..|ps| - 1], n) + (if n == ps[|ps| - 1].position then ps[|ps| - 1].sign else 0.0)
  }

  /** The sum of the response delayed to every pulse and signed, as the code accumulates it. */
  ghost function Delayed(ps: seq<Pulse>, h: Signal, n: int): real {
    if ps == [] then 0.0
    else
      var p := ps[|ps| - 1];
      Delayed(ps[..|ps| - 1], h, n) + (if p.position <= n then p.sign * h(n - p.position) else 0.0)
  }

  ghost function One(p: Pulse): Signal {
    k => if k == p.position then p.sign else 0.0
  }

  lemma {:induction false} SumOfOnePulse(h: Signal, p: Pulse, n: int, m: int)
    requires m <= n + 1
    ensures Sum(Terms(One(p), h, n), 0, m) == if p.position < m then p.sign * h(n - p.position) else 0.0
    decreases Distance(m)
  {
    if m > 0 {
      SumOfOnePulse(h, p, n, m - 1);
      var f := Terms(One(p), h, n);
      assert Sum(f, 0, m) == Sum(f, 0, m - 1) + f(m - 1);
    }
  }

  /** Convolving a pulse train adds up the delayed responses. */
  lemma {:induction false} ConvOfTrain(ps: seq<Pulse>, h: Signal, n: int)
    ensures Conv(Train(ps), h, n) == Delayed(ps, h, n)
    decreases |ps|
  {
    if ps == [] {
      ConvOfNothing(h, n);
    } else {
      hide Terms, Train, SumAt;
      var qs, p := ps[..|ps| - 1], ps[|ps| - 1];
      ConvOfTrain(qs, h, n);
      SumOfOnePulse(h, p, n, n + 1);
      TrainGrows(ps);
      ConvOfSum(Train(qs), Train(ps), One(p), h, 1.0, n);
    }
  }

  lemma ConvOfNothing(h: Signal, n: int)
    ensures Conv(Train([]), h, n) == 0.0
  {
    SumZero(Terms(Train([]), h, n), 0, n + 1);
  }

  lemma TrainGrows(ps: seq<Pulse>)
    requires ps != []
    ensures var qs, p := ps[..|ps| - 1], ps[|ps| - 1]; forall k :: SumAt(Train(qs), Train(ps), One(p), 1.0, k)
  {
  }

  /** What the code adds up from the sharpened response is the sharpened code vector filtered by the
      original response. */
  lemma ConvolvedVector(ps: seq<Pulse>, h: Signal, T: int, beta: real, n: int)
    requires T >= 1
    ensures Delayed(ps, Sharpen(h, T, beta), n) == Conv(Sharpen(Train(ps), T, beta), h, n)
  {
    ConvOfTrain(ps, Sharpen(h, T, beta), n);
    SharpeningEitherSide(Train(ps), h, T, beta, n);
  }
}
