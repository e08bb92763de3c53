/** The line spectral state of the encoder and of the decoder. The encoder shifts its history by
    whole rows after predicting; the decoder shifts it coefficient by coefficient while it
    accumulates. */
module LspChannel {
  import opened FixedPoint
  import opened LspQuantizer
  import opened LspErasure

  /** The array holds the rows of h. */
  ghost predicate Holds(a: array2<Word16>, h: seq<seq<Word16>>)
    reads a
  {
    && a.Length0 == 4 && a.Length1 == 10 && IsHistory(h)
    && forall j, i :: 0 <= j < 4 && 0 <= i < 10 ==> a[j, i] == h[j][i]
  }

  ghost function InitialHistory(): (h: seq<seq<Word16>>)
    ensures IsHistory(h)
  {
    [InitialRow(), InitialRow(), InitialRow(), InitialRow()]
  }

  /** The quantized vector before rearrangement. */
  method SumCodebooks(L: Indices) returns (v: array<Word16>)
    requires L.Valid()
    ensures fresh(v) && v.Length == 10 && v[..] == Quantized(L)
  {
    v := new Word16[10];
    for i := 0 to 10
      invariant forall k :: 0 <= k < i ==> v[k] == Quantized(L)[k]
    {
      v[i] := QuantizedAt(L, i);
    }
  }

  /** Both rearrangements of the quantized vector. */
  method ReconstructCodeWord(L: Indices) returns (v: array<Word16>)
    requires L.Valid()
    ensures fresh(v) && v.Length == 10 && v[..] == CodeWord(L)
  {
    hide Quantized, Rearrange;
    v := SumCodebooks(L);
    RearrangeWithin(Quantized(L), GAP1, 10, -1800, 26400);
    RearrangeCoefficients(v, GAP1);
    RearrangeCoefficients(v, GAP2);
  }

  /** Each pair of s lies halfway between those of the other two, half a unit above where that is no
      integer. This leaves one s. */
  predicate Midway(previous: seq<Word16>, current: seq<Word16>, s: seq<Word16>) {
    && |previous| == |current| == |s| == 10
    && forall i :: 0 <= i < 10 ==> 2 * s[i] as int - 1 <= previous[i] as int + current[i] as int <= 2 * s[i] as int
  }

  /** The line spectral pairs of the first subframe: the previous ones and the new ones interpolated. */
  function Interpolated(previous: seq<Word16>, current: seq<Word16>): (s: seq<Word16>)
    requires |previous| == 10 && |current| == 10
    ensures |s| == 10 && Midway(previous, current, s)
  {
    seq(10, i requires 0 <= i < 10 => (previous[i] as int + current[i] as int + 1) / 2)
  }

  /** cos of every frequency. */
  function Cosines(q: seq<int>, cos: int -> Word16): (s: seq<Word16>)
    requires |q| == 10
    ensures |s| == 10
  {
    seq(10, i requires 0 <= i < 10 => cos(q[i]))
  }

  method ConvertToLsp(q: array<Word16>, cos: int -> Word16) returns (qLSP: array<Word16>)
    requires q.Length == 10
    ensures fresh(qLSP) && qLSP.Length == 10 && qLSP[..] == Cosines(q[..], cos)
  {
    qLSP := new Word16[10];
    for i := 0 to 10
      invariant forall k :: 0 <= k < i ==> qLSP[k] == cos(q[k])
    {
      qLSP[i] := cos(q[i]);
    }
  }

  method Interpolate(previous: array<Word16>, current: array<Word16>) returns (s: array<Word16>)
    requires previous.Length == 10 && current.Length == 10
    ensures fresh(s) && s.Length == 10 && s[..] == Interpolated(previous[..], current[..])
    ensures Midway(previous[..], current[..], s[..])
  {
    s := new Word16[10];
    for i := 0 to 10
      invariant forall k :: 0 <= k < i ==> s[k] == Interpolated(previous[..], current[..])[k]
    {
      s[i] := (previous[i] as int + current[i] as int + 1) / 2;
    }
  }

  // ----- encoder ------------------------------------------------------------------------

  class LspEncoder {
    const previousqLSF: array2<Word16>
    const previousqLSP: array<Word16>
    ghost var history: seq<seq<Word16>>

    ghost predicate Valid()
      reads this, previousqLSF
    {
      Holds(previousqLSF, history) && previousqLSP.Length == 10
    }

    constructor ()
      ensures Valid() && fresh(previousqLSF) && fresh(previousqLSP)
      ensures history == InitialHistory() && previousqLSP[..] == InitialLsp()
    {
      previousqLSF := new Word16[4, 10]((j, i) => if 0 <= i < 10 then InitialRow()[i] else 0);
      previousqLSP := new Word16[10](i => if 0 <= i < 10 then InitialLsp()[i] else 0);
      history := InitialHistory();
    }

    /** The prediction of every frequency from the code word and the history. */
    method Predict(l0: nat, output: array<Word16>) returns (q: array<Word16>)
      requires Valid() && l0 < 2 && output.Length == 10
      ensures fresh(q) && q.Length == 10 && q[..] == PredictedAll(l0, output[..], history)
    {
      q := new Word16[10];
      for i := 0 to 10
        invariant forall k :: 0 <= k < i ==> q[k] == Predicted(l0, output[k], history, k)
      {
        var acc: Word32 := PredictOne(l0, output[i], i);
        q[i] := Wrap16((acc + 0x4000) / 0x8000);
      }
    }

    method PredictOne(l0: nat, x: Word16, i: nat) returns (acc: Word32)
      requires Valid() && l0 < 2 && i < 10
      ensures acc == Accumulated(l0, x, history, i) && acc <= MAX32 - 0x8000
    {
      hide MaSum, MaPredictor, RowsBefore, RowsFrom;
      RowsUnfolded(l0, history, i);
      AccumulationFits(l0, x, history, i, 0);
      acc := MaSum(l0, i) * x;
      for j := 0 to 4
        invariant acc == MaSum(l0, i) * x + RowsBefore(l0, history, i, j)
      {
        AccumulationFits(l0, x, history, i, j + 1);
        NextRow(l0, history, i, j);
        acc := acc + MaPredictor(l0, j, i) * previousqLSF[j, i];
      }
    }

    /** Move every row one place back and store the new code word in front. */
    method ShiftRows(output: array<Word16>)
      requires Valid() && output.Length == 10
      modifies this, previousqLSF
      ensures Valid() && history == Push(old(output[..]), old(history))
    {
      ghost var h := history;
      ghost var s := output[..];
      var j := 3;
      while j > 0
        invariant 0 <= j <= 3 && output[..] == s
        invariant forall m, i :: 0 <= m <= j && 0 <= i < 10 ==> previousqLSF[m, i] == h[m][i]
        invariant forall m, i :: j < m < 4 && 0 <= i < 10 ==> previousqLSF[m, i] == h[m - 1][i]
      {
        forall i | 0 <= i < 10 {
          previousqLSF[j, i] := previousqLSF[j - 1, i];
        }
        j := j - 1;
      }
      forall i | 0 <= i < 10 {
        previousqLSF[0, i] := output[i];
      }
      history := Push(s, h);
    }

    /** LSPQuantization from the selected indices on, then the frame's interpolation. */
    method Encode(L: Indices, cos: int -> Word16) returns (interpolated: array<Word16>, qLSP: array<Word16>)
      requires Valid() && L.Valid()
      modifies this, previousqLSF, previousqLSP
      ensures Valid() && history == Push(CodeWord(L), old(history))
      ensures qLSP.Length == 10 && interpolated.Length == 10
      ensures qLSP[..] == Cosines(Frequencies(L, old(history)), cos) && previousqLSP[..] == qLSP[..]
      ensures interpolated[..] == Interpolated(old(previousqLSP[..]), qLSP[..])
      ensures Midway(old(previousqLSP[..]), qLSP[..], interpolated[..])
    {
      hide Midway;
      var output := ReconstructCodeWord(L);
      var qLSF := Predict(L.l0, output);
      ShiftRows(output);
      Stabilise(qLSF);
      qLSP := ConvertToLsp(qLSF, cos);
      interpolated := Interpolate(previousqLSP, qLSP);
      forall i | 0 <= i < 10 {
        previousqLSP[i] := qLSP[i];
      }
    }
  }

  lemma NextRow(l0: nat, h: seq<seq<Word16>>, i: nat, j: nat)
    requires l0 < 2 && i < 10 && j < 4 && IsHistory(h)
    ensures RowsBefore(l0, h, i, j + 1) == RowsBefore(l0, h, i, j) + MaPredictor(l0, j, i) * h[j][i]
    ensures RowsFrom(l0, h, i, j) == MaPredictor(l0, j, i) * h[j][i] + RowsFrom(l0, h, i, j + 1)
  {
  }

  // ----- decoder ------------------------------------------------------------------------

  /** The code word stored for an erased frame. */
  function ConcealedCodeWord(l0: nat, q: seq<Word16>, h: seq<seq<Word16>>): (s: seq<Word16>)
    requires l0 < 2 && |q| == 10 && IsHistory(h)
    ensures |s| == 10
  {
    seq(10, i requires 0 <= i < 10 => RecoveredCodeWord(l0, q[i], h, i))
  }

  /** Column i of the array moved back by one row, with x in front; the other columns kept. */
  twostate predicate ColumnShifted(a: array2<Word16>, i: nat, x: Word16)
    requires a.Length0 == 4 && a.Length1 == 10 && i < 10
    reads a
  {
    && a[0, i] == x && a[1, i] == old(a[0, i]) && a[2, i] == old(a[1, i]) && a[3, i] == old(a[2, i])
    && forall j, k :: 0 <= j < 4 && 0 <= k < 10 && k != i ==> a[j, k] == old(a[j, k])
  }

  class LspDecoder {
    const previousLCodeWord: array2<Word16>
    const previousqLSP: array<Word16>
    const lastqLSF: array<Word16>
    var lastValidL0: nat
    ghost var history: seq<seq<Word16>>

    ghost predicate Valid()
      reads this, previousLCodeWord
    {
      && Holds(previousLCodeWord, history) && previousqLSP.Length == 10 && lastqLSF.Length == 10
      && previousqLSP != lastqLSF && lastValidL0 < 2
    }

    constructor ()
      ensures Valid() && fresh(previousLCodeWord) && fresh(previousqLSP) && fresh(lastqLSF)
      ensures history == InitialHistory() && previousqLSP[..] == InitialLsp()
      ensures lastqLSF[..] == InitialRow() && lastValidL0 == 0
    {
      previousLCodeWord := new Word16[4, 10]((j, i) => if 0 <= i < 10 then InitialRow()[i] else 0);
      previousqLSP := new Word16[10](i => if 0 <= i < 10 then InitialLsp()[i] else 0);
      lastqLSF := new Word16[10](i => if 0 <= i < 10 then InitialRow()[i] else 0);
      lastValidL0 := 0;
      history := InitialHistory();
    }

    /** Accumulate coefficient i from the oldest row to the newest, moving each row back once it
        has been used. */
    method PredictAndShift(l0: nat, x: Word16, i: nat, ghost h: seq<seq<Word16>>) returns (acc: Word32)
      requires l0 < 2 && i < 10 && IsHistory(h)
      requires previousLCodeWord.Length0 == 4 && previousLCodeWord.Length1 == 10
      requires forall j :: 0 <= j < 4 ==> previousLCodeWord[j, i] == h[j][i]
      modifies previousLCodeWord
      ensures acc == Accumulated(l0, x, h, i) && acc <= MAX32 - 0x8000
      ensures ColumnShifted(previousLCodeWord, i, x)
    {
      hide MaSum, MaPredictor, RowsBefore, RowsFrom;
      RowsUnfolded(l0, h, i);
      AccumulationFits(l0, x, h, i, 4);
      acc := MaSum(l0, i) * x;
      var j := 3;
      while j >= 0
        invariant -1 <= j <= 3
        invariant acc == MaSum(l0, i) * x + RowsFrom(l0, h, i, j + 1)
        invariant forall m :: 0 <= m <= j ==> previousLCodeWord[m, i] == h[m][i]
        invariant forall m :: j < m < 4 ==> previousLCodeWord[m, i] == if m == 0 then x else h[m - 1][i]
        invariant forall m, k :: 0 <= m < 4 && 0 <= k < 10 && k != i ==> previousLCodeWord[m, k] == old(previousLCodeWord[m, k])
      {
        AccumulationFits(l0, x, h, i, j);
        NextRow(l0, h, i, j);
        acc := acc + MaPredictor(l0, j, i) * previousLCodeWord[j, i];
        previousLCodeWord[j, i] := if j > 0 then previousLCodeWord[j - 1, i] else x;
        j := j - 1;
      }
      AccumulationFits(l0, x, h, i, 0);
    }

    /** The prediction of every frequency; the code words in the array become frequencies. */
    method Predict(l0: nat, current: array<Word16>)
      requires Valid() && l0 < 2 && current.Length == 10
      modifies this`history, previousLCodeWord, current
      ensures Valid() && history == Push(old(current[..]), old(history))
      ensures current[..] == PredictedAll(l0, old(current[..]), old(history))
    {
      ghost var h := history;
      ghost var s := current[..];
      for i := 0 to 10
        invariant forall k :: 0 <= k < i ==> current[k] == Predicted(l0, s[k], h, k)
        invariant forall k :: i <= k < 10 ==> current[k] == s[k]
        invariant forall j, k :: 0 <= j < 4 && i <= k < 10 ==> previousLCodeWord[j, k] == h[j][k]
        invariant forall j, k :: 0 <= j < 4 && 0 <= k < i ==> previousLCodeWord[j, k] == Push(s, h)[j][k]
      {
        var acc := PredictAndShift(l0, current[i], i, h);
        current[i] := Wrap16((acc + 0x4000) / 0x8000);
      }
      history := Push(s, h);
    }

    /** The accumulator of an erased frame's code word for coefficient i. */
    method ConcealOne(i: nat, ghost h: seq<seq<Word16>>) returns (acc: Word32)
      requires i < 10 && IsHistory(h) && lastValidL0 < 2 && lastqLSF.Length == 10
      requires previousLCodeWord.Length0 == 4 && previousLCodeWord.Length1 == 10
      requires forall j :: 0 <= j < 4 ==> previousLCodeWord[j, i] == h[j][i]
      ensures Wrap16(RoundQ15(acc)) == RecoveredCodeWord(lastValidL0, lastqLSF[i], h, i)
    {
      hide MaSum, MaPredictor, RowsBefore, RowsFrom, MultiplyQ12, RoundQ15;
      var l0, q: int := lastValidL0, lastqLSF[i];
      RowsUnfolded(l0, h, i);
      acc := 0x8000 * q;
      for j := 0 to 4
        invariant acc == 0x8000 * q - RowsBefore(l0, h, i, j)
      {
        AccumulationFits(l0, 0, h, i, j + 1);
        NextRow(l0, h, i, j);
        acc := acc - MaPredictor(l0, j, i) * previousLCodeWord[j, i];
      }
      acc := MultiplyQ12(InverseMaSum(l0, i), acc);
    }

    /** Move column i back by one row and put x in front. */
    method ShiftColumn(i: nat, x: Word16)
      requires i < 10 && previousLCodeWord.Length0 == 4 && previousLCodeWord.Length1 == 10
      modifies previousLCodeWord
      ensures ColumnShifted(previousLCodeWord, i, x)
    {
      var j := 3;
      while j >= 0
        invariant -1 <= j <= 3
        invariant forall m :: 0 <= m <= j ==> previousLCodeWord[m, i] == old(previousLCodeWord[m, i])
        invariant forall m :: j < m < 4 ==> previousLCodeWord[m, i] == if m == 0 then x else old(previousLCodeWord[m - 1, i])
        invariant forall m, k :: 0 <= m < 4 && 0 <= k < 10 && k != i ==> previousLCodeWord[m, k] == old(previousLCodeWord[m, k])
      {
        previousLCodeWord[j, i] := if j > 0 then previousLCodeWord[j - 1, i] else x;
        j := j - 1;
      }
    }

    method Conceal()
      requires Valid()
      modifies this`history, previousLCodeWord
      ensures Valid() && history == Push(ConcealedCodeWord(lastValidL0, lastqLSF[..], old(history)), old(history))
    {
      ghost var h := history;
      ghost var s := ConcealedCodeWord(lastValidL0, lastqLSF[..], h);
      for i := 0 to 10
        invariant lastqLSF[..] == old(lastqLSF[..])
        invariant forall j, k :: 0 <= j < 4 && i <= k < 10 ==> previousLCodeWord[j, k] == h[j][k]
        invariant forall j, k :: 0 <= j < 4 && 0 <= k < i ==> previousLCodeWord[j, k] == Push(s, h)[j][k]
      {
        var acc := ConcealOne(i, h);
        ShiftColumn(i, Wrap16(RoundQ15(acc)));
      }
      history := Push(s, h);
    }

    /** decodeLSP up to the frequencies. L is not read when the frame is erased. */
    method DecodeFrequencies(L: Indices, frameErased: bool) returns (currentqLSF: array<Word16>)
      requires Valid() && (!frameErased ==> L.Valid())
      modifies this, previousLCodeWord, lastqLSF
      ensures Valid() && fresh(currentqLSF)
      ensures !frameErased ==>
                && history == Push(CodeWord(L), old(history))
                && lastqLSF[..] == Frequencies(L, old(history)) && lastValidL0 == L.l0
      ensures frameErased ==>
                && history == Push(ConcealedCodeWord(old(lastValidL0), old(lastqLSF[..]), old(history)), old(history))
                && lastqLSF[..] == old(lastqLSF[..]) && lastValidL0 == old(lastValidL0)
      ensures currentqLSF.Length == 10 && currentqLSF[..] == lastqLSF[..]
    {
      if !frameErased {
        currentqLSF := ReconstructCodeWord(L);
        Predict(L.l0, currentqLSF);
        Stabilise(currentqLSF);
        forall i | 0 <= i < 10 {
          lastqLSF[i] := currentqLSF[i];
        }
        lastValidL0 := L.l0;
      } else {
        currentqLSF := new Word16[10];
        forall i | 0 <= i < 10 {
          currentqLSF[i] := lastqLSF[i];
        }
        Conceal();
        assert lastqLSF[..] == old(lastqLSF[..]);
      }
    }

    /** decodeLSP, then the frame's interpolation. */
    method Decode(L: Indices, frameErased: bool, cos: int -> Word16) returns (interpolated: array<Word16>, qLSP: array<Word16>)
      requires Valid() && (!frameErased ==> L.Valid())
      modifies this, previousLCodeWord, previousqLSP, lastqLSF
      ensures Valid()
      ensures !frameErased ==>
                && history == Push(CodeWord(L), old(history))
                && lastqLSF[..] == Frequencies(L, old(history)) && lastValidL0 == L.l0
      ensures frameErased ==>
                && history == Push(ConcealedCodeWord(old(lastValidL0), old(lastqLSF[..]), old(history)), old(history))
                && lastqLSF[..] == old(lastqLSF[..]) && lastValidL0 == old(lastValidL0)
      ensures qLSP.Length == 10 && interpolated.Length == 10
      ensures qLSP[..] == Cosines(lastqLSF[..], cos) && previousqLSP[..] == qLSP[..]
      ensures interpolated[..] == Interpolated(old(previousqLSP[..]), qLSP[..])
      ensures Midway(old(previousqLSP[..]), qLSP[..], interpolated[..])
    {
      hide Midway, Frequencies, CodeWord, ConcealedCodeWord, Push;
      var currentqLSF := DecodeFrequencies(L, frameErased);
      assert previousqLSP[..] == old(previousqLSP[..]);
      qLSP := ConvertToLsp(currentqLSF, cos);
      interpolated := Interpolate(previousqLSP, qLSP);
      ghost var frequencies := lastqLSF[..];
      forall i | 0 <= i < 10 {
        previousqLSP[i] := qLSP[i];
      }
      assert lastqLSF[..] == frequencies;
    }
  }

  // ----- error-free runs ------------------------------------------------------------------

  /** Every row of the history is a possible code word. */
  predicate CodeWordRange(h: seq<seq<Word16>>)
    requires IsHistory(h)
  {
    forall j :: 0 <= j < 4 ==> Within(h[j], -1890, 26490)
  }

  lemma InitialInRange()
    ensures CodeWordRange(InitialHistory())
  {
  }

  lemma RoundedInRange(acc: int)
    requires 32767 * -1890 <= acc <= 32767 * 26490
    ensures -1890 <= Wrap16((acc + 0x4000) / 0x8000) <= 26490
  {
  }

  lemma PredictionInRange(L: Indices, h: seq<seq<Word16>>, i: nat)
    requires L.Valid() && IsHistory(h) && CodeWordRange(h) && i < 10
    ensures -1890 <= Predicted(L.l0, CodeWord(L)[i], h, i) <= 26490
  {
    hide MaSum, MaPredictor, CodeWord;
    var s := CodeWord(L);
    assert Within(h[0], -1890, 26490) && Within(h[1], -1890, 26490) && Within(h[2], -1890, 26490) && Within(h[3], -1890, 26490);
    var x: int, a: int, b: int, c: int, d: int := s[i], h[0][i], h[1][i], h[2][i], h[3][i];
    assert -1890 <= x <= 26490 && -1890 <= a <= 26490 && -1890 <= b <= 26490 && -1890 <= c <= 26490 && -1890 <= d <= 26490;
    hide Within, CodeWordRange;
    AccumulatorBound(L.l0, i, x, a, b, c, d, -1890, 26490);
    RoundedInRange(Accumulated(L.l0, x, h, i));
  }

  lemma SortedInRange(q: seq<Word16>)
    requires |q| == 10 && forall i :: 0 <= i < 10 ==> -1890 <= q[i] <= 26490
    ensures RoomToSpread(LowLimit(Sorted10(q)))
  {
    var t := Sorted10(q);
    forall k | 0 <= k < 10
      ensures -1890 <= t[k] <= 26490
    {
      assert t[k] in multiset(t);
      assert t[k] in q;
    }
  }

  /** With code words for a history nothing wraps: the predicted frequencies leave room for the
      distance pass, so its closed form holds on every error-free frame. */
  lemma ErrorFreeFrame(L: Indices, h: seq<seq<Word16>>)
    requires L.Valid() && IsHistory(h) && CodeWordRange(h)
    ensures CodeWordRange(Push(CodeWord(L), h))
    ensures RoomToSpread(LowLimit(Sorted10(PredictedAll(L.l0, CodeWord(L), h))))
  {
    var q := PredictedAll(L.l0, CodeWord(L), h);
    forall i | 0 <= i < 10
      ensures -1890 <= q[i] <= 26490
    {
      PredictionInRange(L, h, i);
    }
    hide CodeWord, Predicted, PredictedAll, Spaced;
    SortedInRange(q);
  }
}
