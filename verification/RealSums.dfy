/** Finite sums over a half-open integer range of real values. */
module RealSums {
  /** f(lo) + ... + f(hi - 1). */
  ghost function Sum(f: int -> real, lo: int, hi: int): real
    decreases hi - lo
  {
    if hi <= lo then 0.0 else Sum(f, lo, hi - 1) + f(hi - 1)
  }

  lemma {:induction false} SumEqual(f: int -> real, g: int -> real, lo: int, hi: int)
    requires forall k :: lo <= k < hi ==> f(k) == g(k)
    ensures Sum(f, lo, hi) == Sum(g, lo, hi)
    decreases hi - lo
  {
    if lo < hi {
      SumEqual(f, g, lo, hi - 1);
    }
  }

  /** Sum of f + c g. */
  lemma {:induction false} SumLinear(f: int -> real, g: int -> real, h: int -> real, c: real, lo: int, hi: int)
    requires forall k :: lo <= k < hi ==> h(k) == f(k) + c * g(k)
    ensures Sum(h, lo, hi) == Sum(f, lo, hi) + c * Sum(g, lo, hi)
    decreases hi - lo
  {
    if lo < hi {
      SumLinear(f, g, h, c, lo, hi - 1);
      assert h(hi - 1) == f(hi - 1) + c * g(hi - 1);
      assert c * (Sum(g, lo, hi - 1) + g(hi - 1)) == c * Sum(g, lo, hi - 1) + c * g(hi - 1);
    }
  }

  /** Sum of f + c g + h. */
  lemma {:induction false} SumLinear3(f: int -> real, g: int -> real, h: int -> real, s: int -> real, c: real, lo: int, hi: int)
    requires forall k :: lo <= k < hi ==> s(k) == f(k) + c * g(k) + h(k)
    ensures Sum(s, lo, hi) == Sum(f, lo, hi) + c * Sum(g, lo, hi) + Sum(h, lo, hi)
    decreases hi - lo
  {
    if lo < hi {
      SumLinear3(f, g, h, s, c, lo, hi - 1);
      assert s(hi - 1) == f(hi - 1) + c * g(hi - 1) + h(hi - 1);
      assert c * (Sum(g, lo, hi - 1) + g(hi - 1)) == c * Sum(g, lo, hi - 1) + c * g(hi - 1);
    }
  }

  lemma {:induction false} SumShift(f: int -> real, g: int -> real, lo: int, hi: int, d: int)
    requires forall k :: lo <= k < hi ==> g(k + d) == f(k)
    ensures Sum(g, lo + d, hi + d) == Sum(f, lo, hi)
    decreases hi - lo
  {
    if lo < hi {
      SumShift(f, g, lo, hi - 1, d);
      assert g(hi - 1 + d) == f(hi - 1);
    }
  }

  lemma {:induction false} SumSplit(f: int -> real, lo: int, mid: int, hi: int)
    requires lo <= mid <= hi
    ensures Sum(f, lo, hi) == Sum(f, lo, mid) + Sum(f, mid, hi)
    decreases hi - mid
  {
    if mid < hi {
      SumSplit(f, lo, mid, hi - 1);
    }
  }

  lemma {:induction false} SumZero(f: int -> real, lo: int, hi: int)
    requires forall k :: lo <= k < hi ==> f(k) == 0.0
    ensures Sum(f, lo, hi) == 0.0
    decreases hi - lo
  {
    if lo < hi {
      SumZero(f, lo, hi - 1);
    }
  }

  ghost function Times(x: int -> real, y: int -> real): int -> real {
    k => x(k) * y(k)
  }

  ghost function Next(g: int -> real): int -> real {
    x => g(x + 1)
  }

  /** Summing in the opposite order: g(lo + hi - 1 - k) == f(k). */
  lemma {:induction false} SumReverse(f: int -> real, g: int -> real, lo: int, hi: int)
    requires forall k :: lo <= k < hi ==> g(lo + hi - 1 - k) == f(k)
    ensures Sum(g, lo, hi) == Sum(f, lo, hi)
    decreases hi - lo
  {
    if lo < hi {
      assert g(lo + hi - 1 - (hi - 1)) == f(hi - 1);
      FirstTerm(g, lo, hi);
      NextMirrors(f, g, lo, hi);
      SumReverse(f, Next(g), lo, hi - 1);
    }
  }

  lemma NextMirrors(f: int -> real, g: int -> real, lo: int, hi: int)
    requires forall k :: lo <= k < hi ==> g(lo + hi - 1 - k) == f(k)
    ensures forall k :: lo <= k < hi - 1 ==> Next(g)(lo + (hi - 1) - 1 - k) == f(k)
  {
    forall k | lo <= k < hi - 1
      ensures Next(g)(lo + (hi - 1) - 1 - k) == f(k)
    {
      assert g(lo + hi - 1 - k) == f(k);
    }
  }

  /** The first term taken out, the others moved down. */
  lemma FirstTerm(g: int -> real, lo: int, hi: int)
    requires lo < hi
    ensures Sum(g, lo, hi) == g(lo) + Sum(Next(g), lo, hi - 1)
  {
    SumSplit(g, lo, lo + 1, hi);
    assert Sum(g, lo, lo + 1) == Sum(g, lo, lo) + g(lo);
    SumShift(Next(g), g, lo, hi - 1, 1);
  }
}
