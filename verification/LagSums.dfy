/** Correlation sums of a 16-bit signal with its own delayed copy, and the bounds that keep their
    partial sums inside the signal's energy. */
module LagSums {
  import opened FixedPoint

  /** w[i] w[0] + ... + w[n-1] w[n-1-i]. */
  function Corr(w: seq<Word16>, i: nat, n: nat): int
    requires i <= n <= |w|
  {
    if n == i then 0
    else
      var x: int, y: int := w[n - 1], w[n - 1 - i];
      Corr(w, i, n - 1) + x * y
  }

  lemma EnergyGrows(w: seq<Word16>, m: nat, n: nat)
    requires m <= n <= |w|
    ensures 0 <= Corr(w, 0, m) <= Corr(w, 0, n)
  {
    if m < n {
      EnergyGrows(w, m, n - 1);
      SquareNonNegative(w[n - 1]);
    } else if m > 0 {
      EnergyGrows(w, m - 1, m - 1);
      SquareNonNegative(w[m - 1]);
    }
  }

  lemma SquareNonNegative(x: int)
    ensures 0 <= x * x
  {
  }

  lemma SquareBound(x: Word16)
    ensures x as int * x as int <= 0x4000_0000
  {
    ProductRange(x, x, 0x8000);
  }

  lemma EnergyBound(w: seq<Word16>, n: nat)
    requires n <= |w|
    ensures Corr(w, 0, n) <= n * 0x4000_0000
  {
    if n > 0 {
      EnergyBound(w, n - 1);
      SquareBound(w[n - 1]);
    }
  }

  lemma ProductBound(x: int, y: int)
    ensures -(x * x + y * y) <= 2 * (x * y) <= x * x + y * y
  {
    assert (x - y) * (x - y) == x * x - 2 * (x * y) + y * y;
    assert (x + y) * (x + y) == x * x + 2 * (x * y) + y * y;
    SquareNonNegative(x - y);
    SquareNonNegative(x + y);
  }

  /** Every partial sum at every lag is bounded by the energies of the two stretches it multiplies. */
  lemma {:induction false} LagBound(w: seq<Word16>, i: nat, n: nat)
    requires i <= n <= |w|
    ensures -(Corr(w, 0, n) + Corr(w, 0, n - i)) <= 2 * Corr(w, i, n) <= Corr(w, 0, n) + Corr(w, 0, n - i)
    decreases n
  {
    if n == i {
      EnergyGrows(w, 0, n);
    } else {
      LagBound(w, i, n - 1);
      ProductBound(w[n - 1], w[n - 1 - i]);
    }
  }

  /** Every partial sum at every lag is at most the energy of the whole window in magnitude. */
  lemma PartialSumBound(w: seq<Word16>, i: nat, n: nat)
    requires i <= n <= |w|
    ensures -Corr(w, 0, |w|) <= Corr(w, i, n) <= Corr(w, 0, |w|)
  {
    LagBound(w, i, n);
    EnergyGrows(w, n, |w|);
    EnergyGrows(w, n - i, |w|);
  }
}
