/** computeImpulseResponseCorrelationMatrix: the signed correlation matrix, filled diagonal by diagonal
    from a running sum, with the diagonals the search never reads left out. */
module CorrelationMatrix {
  import opened FixedPoint
  import opened LagSums
  import opened PulseEnergy

  /** The pairs of positions the search reads: equal, or on different tracks. */
  predicate Needed(i: int, j: int) {
    i == j || (i - j) % 5 != 0
  }

  predicate Square(m: array2<Word32>) {
    m.Length0 == L && m.Length1 == L
  }

  /** The lower triangle before signs: the running sum of its diagonal, halved on the main one. */
  function Raw(h: seq<Word16>, scale: nat, i: nat, j: nat): int
    requires |h| == L && j <= i < L
  {
    (if i == j then Corr(h, 0, L - i) / 2 else Corr(h, i - j, L - j)) / Pow2(scale)
  }

  /** A word shifted down stays a word. */
  function Shifted(x: Word32, scale: nat): (y: Word32)
    ensures y as int == x as int / Pow2(scale)
  {
    QuotientShrinks(x, Pow2(scale));
    x as int / Pow2(scale)
  }

  /** Half the running sum of squares, from the bottom of the main diagonal up. */
  method HalvedSquares(h: seq<Word16>, phi: array2<Word32>)
    requires Quiet(h) && Square(phi)
    modifies phi
    ensures forall i :: 0 <= i < L ==> phi[i, i] == Corr(h, 0, L - i) / 2
  {
    hide Corr;
    var acc: Word32 := 0;
    EmptyCorr(h, 0);
    for i := 0 to L
      invariant acc == Corr(h, 0, i)
      invariant forall k :: L - i <= k < L ==> phi[k, k] == Corr(h, 0, L - k) / 2
    {
      PartialSumBound(h, 0, i + 1);
      CorrStep(h, 0, i);
      var x: int := h[i];
      acc := acc + x * x;
      phi[L - 1 - i, L - 1 - i] := acc / 2;
    }
  }

  lemma ScaleCases(total: int)
    requires 0 <= total <= MAX32 - 0x333_3333
    ensures if total / 2 > 0x666_6666 then
              var zeros := LeadingZeros(2 * (total / 2) + 0x333_3333); zeros <= 3 && ScaleOf(total) == 3 - zeros
            else ScaleOf(total) == 0
  {
    hide Pow2;
    if total / 2 > 0x666_6666 {
      ScaleBound(total, LeadingZeros(2 * (total / 2) + 0x333_3333));
    }
  }

  /** The main diagonal, scaled if the energies could overflow. */
  method MainDiagonal(h: seq<Word16>, phi: array2<Word32>) returns (scale: nat)
    requires Quiet(h) && Square(phi)
    modifies phi
    ensures scale == ScaleOf(Corr(h, 0, L))
    ensures forall i :: 0 <= i < L ==> phi[i, i] == Raw(h, scale, i, i)
  {
    hide Corr, Pow2, LeadingZeros, ScaleOf;
    HalvedSquares(h, phi);
    ScaleCases(Corr(h, 0, L));
    assert phi[0, 0] == Corr(h, 0, L) / 2;
    scale := 0;
    if phi[0, 0] > 0x666_6666 {
      var zeros := CountLeadingZeros(2 * phi[0, 0] + 0x333_3333);
      scale := 3 - zeros;
      ScaleDiagonal(h, scale, phi);
    } else {
      UnitPow();
    }
  }

  method ScaleDiagonal(h: seq<Word16>, scale: nat, phi: array2<Word32>)
    requires |h| == L && Square(phi)
    requires forall i :: 0 <= i < L ==> phi[i, i] == Corr(h, 0, L - i) / 2
    modifies phi
    ensures forall i :: 0 <= i < L ==> phi[i, i] == Raw(h, scale, i, i)
  {
    hide Corr, Pow2;
    for i := 0 to L
      invariant forall k :: 0 <= k < i ==> phi[k, k] == Raw(h, scale, k, k)
      invariant forall k :: i <= k < L ==> phi[k, k] == Corr(h, 0, L - k) / 2
    {
      phi[i, i] := Shifted(phi[i, i], scale);
    }
  }

  lemma EmptyCorr(h: seq<Word16>, d: nat)
    requires d <= |h|
    ensures Corr(h, d, d) == 0
  {
  }

  lemma CorrStep(h: seq<Word16>, d: nat, n: nat)
    requires d <= n < |h|
    ensures Corr(h, d, n + 1) == Corr(h, d, n) + h[n] as int * h[n - d] as int
  {
  }

  lemma UnitPow()
    ensures Pow2(0) == 1
  {
  }

  /** One diagonal: phi(39, start), phi(38, start - 1), ..., from a single accumulator. */
  method ComputePhiDiagonal(start: nat, h: seq<Word16>, phi: array2<Word32>, scale: nat)
    requires start < L - 1 && Quiet(h) && Square(phi)
    modifies phi
    ensures forall i, j :: 0 <= j < i < L && i - j == L - 1 - start ==> phi[i, j] == Raw(h, scale, i, j)
    ensures forall i, j :: 0 <= i < L && 0 <= j < L && i - j != L - 1 - start ==> phi[i, j] == old(phi[i, j])
  {
    hide Corr, Pow2;
    var acc: Word32 := 0;
    var i, j, iComp, jComp: int := L - 1, start, 0, L - 1 - start;
    ghost var d := jComp;
    EmptyCorr(h, d);
    UnitPow();
    while j >= 0
      invariant -1 <= j <= start && i == j + d && iComp == start - j && jComp == iComp + d
      invariant acc == Corr(h, d, jComp)
      invariant forall m, n :: 0 <= n < m < L && m - n == d && n > j ==> phi[m, n] == Raw(h, scale, m, n)
      invariant forall m, n :: 0 <= m < L && 0 <= n < L && m - n != d ==> phi[m, n] == old(phi[m, n])
    {
      PartialSumBound(h, d, jComp + 1);
      CorrStep(h, d, jComp);
      var x: int, y: int := h[iComp], h[jComp];
      acc := acc + x * y;
      phi[i, j] := if scale == 0 then acc else Shifted(acc, scale);
      j, i, jComp, iComp := j - 1, i - 1, jComp + 1, iComp + 1;
    }
  }

  /** All the diagonals the search needs: those that do not stay on one track. */
  method LowerTriangle(h: seq<Word16>, phi: array2<Word32>) returns (scale: nat)
    requires Quiet(h) && Square(phi)
    modifies phi
    ensures scale == ScaleOf(Corr(h, 0, L))
    ensures forall i, j :: 0 <= j <= i < L && Needed(i, j) ==> phi[i, j] == Raw(h, scale, i, j)
  {
    hide Raw, Corr;
    scale := MainDiagonal(h, phi);
    for i := 0 to 8
      invariant forall m :: 0 <= m < L ==> phi[m, m] == Raw(h, scale, m, m)
      invariant forall m, n :: 0 <= n < m < L && L - 1 - m + n < 5 * i && (m - n) % 5 != 0 ==> phi[m, n] == Raw(h, scale, m, n)
    {
      for j := 0 to 4
        invariant forall m :: 0 <= m < L ==> phi[m, m] == Raw(h, scale, m, m)
        invariant forall m, n :: 0 <= n < m < L && L - 1 - m + n < 5 * i + j && (m - n) % 5 != 0 ==> phi[m, n] == Raw(h, scale, m, n)
      {
        ComputePhiDiagonal(5 * i + j, h, phi, scale);
      }
    }
  }

  /** Signs and absolute values of the correlation. */
  method SplitSigns(correlation: array<Word16>, sgn: array<int>)
    requires correlation.Length == L && sgn.Length == L
    requires forall i :: 0 <= i < L ==> correlation[i] > -0x8000
    modifies correlation, sgn
    ensures Signs(sgn[..])
    ensures forall i :: 0 <= i < L ==> correlation[i] as int == Abs(old(correlation[i])) && sgn[i] * correlation[i] == old(correlation[i])
    ensures forall i :: 0 <= i < L ==> sgn[i] == if old(correlation[i]) >= 0 then 1 else -1
  {
    for i := 0 to L
      invariant forall k :: 0 <= k < i ==> correlation[k] as int == Abs(old(correlation[k])) && sgn[k] * correlation[k] == old(correlation[k])
      invariant forall k :: 0 <= k < i ==> sgn[k] == if old(correlation[k]) >= 0 then 1 else -1
      invariant forall k :: i <= k < L ==> correlation[k] == old(correlation[k])
    {
      if correlation[i] >= 0 {
        sgn[i] := 1;
      } else {
        sgn[i] := -1;
        correlation[i] := -correlation[i];
      }
    }
  }

  /** Give the lower triangle the product of its pulses' signs. Entries the search never reads may hold
      anything. */
  method ApplySigns(h: seq<Word16>, scale: nat, sgn: seq<int>, phi: array2<Word32>)
    requires ScaledFor(h, scale) && Signs(sgn) && Square(phi)
    requires forall i, j :: 0 <= j <= i < L && Needed(i, j) ==> phi[i, j] == Raw(h, scale, i, j)
    modifies phi
    ensures forall i, j :: 0 <= j <= i < L && Needed(i, j) ==> phi[i, j] == Entry(h, sgn, scale, i, j)
  {
    hide Corr;
    for i := 0 to L
      invariant forall m, n :: 0 <= n <= m < i && Needed(m, n) ==> phi[m, n] == Entry(h, sgn, scale, m, n)
      invariant forall m, n :: i <= m < L && 0 <= n <= m && Needed(m, n) ==> phi[m, n] == Raw(h, scale, m, n)
    {
      for j := 0 to i + 1
        invariant forall m, n :: 0 <= n <= m < i && Needed(m, n) ==> phi[m, n] == Entry(h, sgn, scale, m, n)
        invariant forall m, n :: i < m < L && 0 <= n <= m && Needed(m, n) ==> phi[m, n] == Raw(h, scale, m, n)
        invariant forall n :: 0 <= n < j && Needed(i, n) ==> phi[i, n] == Entry(h, sgn, scale, i, n)
        invariant forall n :: j <= n <= i && Needed(i, n) ==> phi[i, n] == Raw(h, scale, i, n)
      {
        SignedEntry(h, sgn, scale, i, j);
        EntryFits(h, sgn, scale, i, j);
        WordKept(Entry(h, sgn, scale, i, j));
        phi[i, j] := Wrap32(phi[i, j] * (if sgn[i] > 0 then sgn[j] else -sgn[j]));
      }
    }
  }

  lemma WordKept(x: int)
    requires MIN32 <= x <= MAX32
    ensures Wrap32(x) as int == x
  {
  }

  lemma SignedEntry(h: seq<Word16>, sgn: seq<int>, scale: nat, i: nat, j: nat)
    requires |h| == L && Signs(sgn) && j <= i < L
    ensures Entry(h, sgn, scale, i, j) == Raw(h, scale, i, j) * (if sgn[i] > 0 then sgn[j] else -sgn[j])
  {
  }

  lemma EntriesMirrored(h: seq<Word16>, scale: nat, sgn: seq<int>)
    requires |h| == L && Signs(sgn)
    ensures forall i, j :: 0 <= i < L && 0 <= j < L ==> Entry(h, sgn, scale, i, j) == Entry(h, sgn, scale, j, i)
  {
    hide Corr, Pow2;
  }

  /** Copy the computed diagonals to the upper triangle. */
  method Mirror(h: seq<Word16>, scale: nat, sgn: seq<int>, phi: array2<Word32>)
    requires |h| == L && Signs(sgn) && Square(phi)
    requires forall i, j :: 0 <= j <= i < L && Needed(i, j) ==> phi[i, j] == Entry(h, sgn, scale, i, j)
    modifies phi
    ensures forall i, j :: 0 <= i < L && 0 <= j < L && Needed(i, j) ==> phi[i, j] == Entry(h, sgn, scale, i, j)
  {
    hide Entry;
    EntriesMirrored(h, scale, sgn);
    for i := 0 to 8
      invariant forall m, n :: 0 <= n <= m < L && Needed(m, n) ==> phi[m, n] == Entry(h, sgn, scale, m, n)
      invariant forall m, n :: 0 <= n < m < L && L - 1 - m + n < 5 * i && (m - n) % 5 != 0 ==> phi[n, m] == Entry(h, sgn, scale, m, n)
    {
      for j := 0 to 4
        invariant forall m, n :: 0 <= n <= m < L && Needed(m, n) ==> phi[m, n] == Entry(h, sgn, scale, m, n)
        invariant forall m, n :: 0 <= n < m < L && L - 1 - m + n < 5 * i + j && (m - n) % 5 != 0 ==> phi[n, m] == Entry(h, sgn, scale, m, n)
      {
        MirrorDiagonal(5 * i + j, phi);
      }
    }
  }

  /** One diagonal copied across: phi(start - k, 39 - k) from phi(39 - k, start - k). */
  method MirrorDiagonal(start: nat, phi: array2<Word32>)
    requires start < L - 1 && Square(phi)
    modifies phi
    ensures forall m, n :: 0 <= n < m < L && m - n == L - 1 - start ==> phi[n, m] == old(phi[m, n])
    ensures forall m, n :: 0 <= m < L && 0 <= n < L && n - m != L - 1 - start ==> phi[m, n] == old(phi[m, n])
  {
    for k := 0 to start + 1
      invariant forall m, n :: 0 <= n < m < L && m - n == L - 1 - start && n > start - k ==> phi[n, m] == old(phi[m, n])
      invariant forall m, n :: 0 <= m < L && 0 <= n < L && n - m != L - 1 - start ==> phi[m, n] == old(phi[m, n])
    {
      phi[start - k, L - 1 - k] := phi[L - 1 - k, start - k];
    }
  }

  /** The matrix holds the entries the search reads. */
  ghost predicate IsMatrix(phi: array2<Word32>, h: seq<Word16>, sgn: seq<int>, scale: nat)
    requires |h| == L && Signs(sgn)
    reads phi
  {
    Square(phi) && forall i, j :: 0 <= i < L && 0 <= j < L && Needed(i, j) ==> phi[i, j] == Entry(h, sgn, scale, i, j)
  }

  method ComputeImpulseResponseCorrelationMatrix(h: seq<Word16>, correlation: array<Word16>)
    returns (sgn: seq<int>, phi: array2<Word32>, scale: nat)
    requires Quiet(h) && correlation.Length == L
    requires forall i :: 0 <= i < L ==> correlation[i] > -0x8000
    modifies correlation
    ensures scale == ScaleOf(Corr(h, 0, L)) && Signs(sgn) && IsMatrix(phi, h, sgn, scale)
    ensures forall i :: 0 <= i < L ==> sgn[i] == if old(correlation[i]) >= 0 then 1 else -1
    ensures forall i :: 0 <= i < L ==> correlation[i] as int == Abs(old(correlation[i]))
  {
    phi := new Word32[L, L];
    scale := LowerTriangle(h, phi);
    var signs := new int[L];
    SplitSigns(correlation, signs);
    sgn := signs[..];
    ApplySigns(h, scale, sgn, phi);
    Mirror(h, scale, sgn, phi);
  }
}
