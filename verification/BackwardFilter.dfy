/** The backward filtered target of both codebook searches: correlating a vector with it is correlating the
    filtered vector with the target (sections 3.7 and 3.8.1 of Recommendation G.729). */
module BackwardFilter {
  import opened FixedPoint

  /** Correlation n of the target with the response, over samples n..m-1. */
  function CrossSum(t: seq<Word16>, h: seq<Word16>, n: nat, m: nat): int
    requires n <= m <= |t| && |h| == |t|
    decreases m - n
  {
    if m == n then 0 else CrossSum(t, h, n, m - 1) + t[m - 1] as int * h[m - 1 - n] as int
  }

  /** The 32-bit accumulators suffice, sign change included. */
  ghost predicate SumsFit(t: seq<Word16>, h: seq<Word16>) {
    |t| == |h| && forall n, m :: 0 <= n <= m <= |t| ==> -MAX32 <= CrossSum(t, h, n, m) <= MAX32
  }

  method CrossTotal(t: seq<Word16>, h: seq<Word16>, n: nat) returns (acc: Word32)
    requires SumsFit(t, h) && n < |t|
    ensures acc == CrossSum(t, h, n, |t|)
  {
    acc := 0;
    for i := n to |t|
      invariant acc == CrossSum(t, h, n, i)
    {
      assert CrossSum(t, h, n, i + 1) == CrossSum(t, h, n, i) + t[i] as int * h[i - n] as int;
      acc := acc as int + t[i] as int * h[i - n] as int;
    }
  }

  /** The backward filtered target. */
  function Backward(t: seq<Word16>, h: seq<Word16>): (b: seq<Word32>)
    requires SumsFit(t, h)
    ensures |b| == |t|
  {
    seq(|t|, n requires 0 <= n < |t| => CrossSum(t, h, n, |t|))
  }

  /** correlateVectors. */
  method CorrelateVectors(t: seq<Word16>, h: seq<Word16>) returns (b: seq<Word32>)
    requires SumsFit(t, h)
    ensures b == Backward(t, h)
  {
    hide CrossSum;
    var c := new Word32[|t|];
    for n := 0 to |t|
      invariant forall k :: 0 <= k < n ==> c[k] == CrossSum(t, h, k, |t|)
    {
      c[n] := CrossTotal(t, h, n);
    }
    b := c[..];
  }

  // ----- what it stands for -------------------------------------------------------------------

  /** The products of the first n samples of two signals. */
  function Inner(x: seq<int>, y: seq<int>, n: nat): int
    requires n <= |x| && n <= |y|
  {
    if n == 0 then 0 else Inner(x, y, n - 1) + x[n - 1] * y[n - 1]
  }

  /** Sample k of the first m samples of e through the filter h. */
  function Through(h: seq<int>, e: seq<int>, k: nat, m: nat): int
    requires m <= |e| && m <= k + 1 && k < |h|
  {
    if m == 0 then 0 else Through(h, e, k, m - 1) + e[m - 1] * h[k - (m - 1)]
  }

  /** e through the filter h. */
  function Filter(h: seq<int>, e: seq<int>): (y: seq<int>)
    requires |h| == |e|
    ensures |y| == |e|
  {
    seq(|e|, k requires 0 <= k < |e| => Through(h, e, k, k + 1))
  }

  /** The first m samples of e against the correlations over the first n samples of the target. */
  function Against(t: seq<Word16>, h: seq<Word16>, e: seq<int>, m: nat, n: nat): int
    requires m <= n <= |t| && |h| == |t| == |e|
  {
    if m == 0 then 0 else Against(t, h, e, m - 1, n) + e[m - 1] * CrossSum(t, h, m - 1, n)
  }

  /** One more sample of the target adds its product with what the filter makes of the m samples. */
  lemma {:induction false} AgainstGrows(t: seq<Word16>, h: seq<Word16>, e: seq<int>, m: nat, n: nat)
    requires m <= n < |t| && |h| == |t| == |e|
    ensures Against(t, h, e, m, n + 1) == Against(t, h, e, m, n) + t[n] as int * Through(h, e, n, m)
    decreases m
  {
    hide Against, Through, CrossSum;
    AgainstUnfolds(t, h, e, m, n);
    if m > 0 {
      AgainstGrows(t, h, e, m - 1, n);
      CrossGrows(t, h, m - 1, n);
      ThreeFactors(e[m - 1], CrossSum(t, h, m - 1, n), t[n], h[n - (m - 1)], Through(h, e, n, m - 1));
    }
  }

  lemma AgainstUnfolds(t: seq<Word16>, h: seq<Word16>, e: seq<int>, m: nat, n: nat)
    requires m <= n < |t| && |h| == |t| == |e|
    ensures m == 0 ==> Against(t, h, e, m, n) == Against(t, h, e, m, n + 1) == t[n] as int * Through(h, e, n, m) == 0
    ensures m > 0 ==>
              && Against(t, h, e, m, n) == Against(t, h, e, m - 1, n) + e[m - 1] * CrossSum(t, h, m - 1, n)
              && Against(t, h, e, m, n + 1) == Against(t, h, e, m - 1, n + 1) + e[m - 1] * CrossSum(t, h, m - 1, n + 1)
              && Through(h, e, n, m) == Through(h, e, n, m - 1) + e[m - 1] * h[n - (m - 1)]
  {
    hide CrossSum;
  }

  lemma CrossGrows(t: seq<Word16>, h: seq<Word16>, m: nat, n: nat)
    requires m <= n < |t| && |h| == |t|
    ensures CrossSum(t, h, m, n + 1) == CrossSum(t, h, m, n) + t[n] as int * h[n - m] as int
  {
  }

  lemma ThreeFactors(x: int, c: int, t: int, h: int, f: int)
    ensures x * (c + t * h) == x * c + t * (x * h) && t * (f + x * h) == t * f + t * (x * h)
  {
    assert x * (t * h) == t * (x * h);
  }

  /** Over the first n samples both sums agree. */
  lemma {:induction false} AgainstIsInner(t: seq<Word16>, h: seq<Word16>, e: seq<int>, n: nat)
    requires n <= |t| == |h| == |e|
    ensures Against(t, h, e, n, n) == Inner(t, Filter(h, e), n)
    decreases n
  {
    if n > 0 {
      AgainstIsInner(t, h, e, n - 1);
      AgainstGrows(t, h, e, n - 1, n - 1);
      LastSample(t, h, e, n);
      hide Against, Through, CrossSum;
      assert Filter(h, e)[n - 1] == Through(h, e, n - 1, n);
    }
  }

  lemma LastSample(t: seq<Word16>, h: seq<Word16>, e: seq<int>, n: nat)
    requires 0 < n <= |t| == |h| == |e|
    ensures Against(t, h, e, n, n) == Against(t, h, e, n - 1, n) + e[n - 1] * (t[n - 1] as int * h[0] as int)
    ensures t[n - 1] as int * Through(h, e, n - 1, n)
         == t[n - 1] as int * Through(h, e, n - 1, n - 1) + e[n - 1] * (t[n - 1] as int * h[0] as int)
  {
    assert CrossSum(t, h, n - 1, n) == CrossSum(t, h, n - 1, n - 1) + t[n - 1] as int * h[0] as int;
    hide CrossSum;
    ThreeFactors(e[n - 1], 0, t[n - 1], h[0], Through(h, e, n - 1, n - 1));
  }

  /** Any vector against the backward filtered target is that vector filtered against the target. */
  lemma BackwardIsAdjoint(t: seq<Word16>, h: seq<Word16>, e: seq<int>)
    requires SumsFit(t, h) && |e| == |t|
    ensures Inner(e, Backward(t, h), |e|) == Inner(t, Filter(h, e), |t|)
  {
    AgainstIsInner(t, h, e, |t|);
    InnerIsAgainst(t, h, e, |t|);
  }

  lemma {:induction false} InnerIsAgainst(t: seq<Word16>, h: seq<Word16>, e: seq<int>, m: nat)
    requires SumsFit(t, h) && m <= |e| == |t|
    ensures Inner(e, Backward(t, h), m) == Against(t, h, e, m, |t|)
    decreases m
  {
    hide CrossSum;
    if m > 0 {
      InnerIsAgainst(t, h, e, m - 1);
    }
  }
}
