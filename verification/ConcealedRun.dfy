/** Concealment over whole runs: when every burst of lost frames comes after at least five frames that
    arrived, or at the start of the run before any loss, each code word recovered in it fits 16 bits,
    however long the burst, so the predictor gives the repeated frequencies back. */
module ConcealedRun {
  import opened FixedPoint
  import opened LspQuantizer
  import opened LspErasure
  import opened LspChannel
  import opened LspShape
  import opened LspSettled
  import opened LspBurst
  import opened AdaptiveCodebook
  import opened Gains
  import opened BitStream
  import opened CodecRun

  // ----- what a decoder holds before and during a burst ----------------------------------------

  /** The rows of code words, the oldest of them already dropped from the history, and frequencies
      that came from predicting with them. */
  ghost predicate Rested(d: Decoder, oldest: seq<Word16>)
    requires d.Valid()
  {
    && ShapelyRows(d.history) && Shapely(oldest)
    && forall i :: 0 <= i < 10 ==>
         Settled(d.lastL0, d.lastqLSF[i], Accumulated(d.lastL0, d.history[0][i], [d.history[1], d.history[2], d.history[3], oldest], i), i)
  }

  /** Coefficient i of the history is the end of the column c. */
  ghost predicate InBurst(d: Decoder, i: nat, c: seq<int>)
    requires d.Valid() && i < 10
  {
    && Column(d.lastL0, i, d.lastqLSF[i], c)
    && forall j :: 0 <= j < 4 ==> d.history[j][i] == c[|c| - 1 - j]
  }

  lemma BurstStarts(d: Decoder, oldest: seq<Word16>, i: nat) returns (c: seq<int>)
    requires d.Valid() && i < 10 && Rested(d, oldest)
    ensures InBurst(d, i, c)
  {
    var h := d.history;
    c := [oldest[i], h[3][i], h[2][i], h[1][i], h[0][i]];
    InRange(oldest, i);
    InRange(h[3], i);
    InRange(h[2], i);
    InRange(h[1], i);
    InRange(h[0], i);
    hide MaSum, MaPredictor, Low, High, Shapely, Settled;
    assert Weighted(d.lastL0, i, c, 4) == Accumulated(d.lastL0, h[0][i], [h[1], h[2], h[3], oldest], i);
  }

  lemma InRange(r: seq<Word16>, i: nat)
    requires Shapely(r) && i < 10
    ensures Low(i) <= r[i] <= High(i)
  {
    hide Low, High;
  }

  // ----- one lost frame ---------------------------------------------------------------------------

  /** The recovered code word solves for the kept frequency, so it fits. */
  lemma RecoveredFits(d: Decoder, i: nat, c: seq<int>)
    requires d.Valid() && i < 10 && InBurst(d, i, c)
    ensures var x := ExactCodeWord(d.lastL0, d.lastqLSF[i], d.history, i);
      IsWord(x) && x == RecoveredCodeWord(d.lastL0, d.lastqLSF[i], d.history, i) as int && Column(d.lastL0, i, d.lastqLSF[i], c + [x])
    ensures -0x8000 + 3 <= d.lastqLSF[i] <= 0x7fff - 3
  {
    var l0, q, h := d.lastL0, d.lastqLSF[i], d.history;
    var x := ExactCodeWord(l0, q, h, i);
    MissOfCodeWord(l0, q, h, i);
    RowsUnfolded(l0, h, i);
    KeptRange(l0, i, q, c);
    TableRange(l0, i);
    RecoveredIsNarrowed(l0, q, h, i);
    hide MaSum, MaPredictor, ExactCodeWord, RecoveredCodeWord, Column, RowsBefore, RowsFrom, High, Rise;
    assert Past(l0, i, c) == RowsBefore(l0, h, i, 4);
    NextFits(l0, i, q, c, x);
    NarrowingKeeps(x);
  }

  lemma TableRange(l0: nat, i: nat)
    requires l0 < 2 && i < 10
    ensures 0x8000 * (High(i) + Rise(l0, i)) <= 0x8000 * 28000
  {
  }

  /** What a lost frame leaves behind. */
  lemma LostFrame(d: Decoder, bits: seq<nat>, f: Conversion)
    requires d.Valid() && IsFrame(bits)
    ensures var d' := DecodeFrame(d, bits, true, f).0;
      && d'.lastL0 == d.lastL0 && d'.lastqLSF == d.lastqLSF
      && d'.history == Push(ConcealedCodeWord(d.lastL0, d.lastqLSF, d.history), d.history)
  {
    hide Unpack, DecodeSubframes, ConcealedCodeWord, Cosines, Interpolated, Push, InWidth;
  }

  lemma BurstGoesOn(d: Decoder, bits: seq<nat>, f: Conversion, i: nat, c: seq<int>) returns (c': seq<int>)
    requires d.Valid() && IsFrame(bits) && i < 10 && InBurst(d, i, c)
    ensures InBurst(DecodeFrame(d, bits, true, f).0, i, c')
  {
    hide DecodeFrame, Column, ExactCodeWord, RecoveredCodeWord, ConcealedCodeWord, Push;
    LostFrame(d, bits, f);
    RecoveredFits(d, i, c);
    ConcealedHistory(d, i);
    c' := c + [ExactCodeWord(d.lastL0, d.lastqLSF[i], d.history, i)];
  }

  lemma ConcealedHistory(d: Decoder, i: nat)
    requires d.Valid() && i < 10
    ensures var h := Push(ConcealedCodeWord(d.lastL0, d.lastqLSF, d.history), d.history);
      && h[0][i] == RecoveredCodeWord(d.lastL0, d.lastqLSF[i], d.history, i)
      && h[1] == d.history[0] && h[2] == d.history[1] && h[3] == d.history[2]
  {
    hide RecoveredCodeWord;
  }

  // ----- runs ---------------------------------------------------------------------------------------

  /** The last n frames arrived, or all of a shorter run. */
  predicate Arrived(es: seq<Event>, n: nat) {
    forall k :: 0 <= k < |es| && |es| - n <= k ==> !es[k].erased
  }

  /** Every burst begins after five frames that arrived, or before any loss. */
  predicate WellSpaced(es: seq<Event>) {
    forall k :: 0 <= k < |es| && es[k].erased && (k > 0 ==> !es[k - 1].erased) ==> Arrived(es[..k], 5)
  }

  /** The first n rows have the shape of code words. */
  predicate FirstShapely(h: seq<seq<Word16>>, n: int)
    requires IsHistory(h)
  {
    (n >= 1 ==> Shapely(h[0])) && (n >= 2 ==> Shapely(h[1])) && (n >= 3 ==> Shapely(h[2])) && (n >= 4 ==> Shapely(h[3]))
  }

  /** A frame that arrives puts its code word in front and keeps what it predicted. */
  lemma ArrivedFrame(es: seq<Event>, f: Conversion)
    requires ValidRun(es) && es != [] && !es[|es| - 1].erased
    ensures var d, d', c := DecoderAfter(es[..|es| - 1], f), DecoderAfter(es, f), es[|es| - 1].choice;
      && d'.history == Push(CodeWord(c.lsp), d.history)
      && d'.lastL0 == c.lsp.l0 && d'.lastqLSF == Frequencies(c.lsp, d.history)
  {
    hide Unpack, Pack, Parameters, DecodeSubframes, CodeWord, Frequencies, Cosines, Interpolated, Push, WordsOf, Parity, LspOf, InWidth, DecoderAfter,
         EncoderAfter, EncodeFrame;
    LastFrame(es, f);
    var c := es[|es| - 1].choice;
    WordsArrive(c);
  }

  lemma {:induction false} RowsAreShapely(es: seq<Event>, f: Conversion, n: nat)
    requires ValidRun(es) && Arrived(es, n)
    ensures FirstShapely(DecoderAfter(es, f).history, n)
    decreases n
  {
    hide DecodeFrame, CodeWord, Shapely;
    if es == [] {
      InitialIsShapely();
    } else if n > 0 {
      RowsAreShapely(es[..|es| - 1], f, n - 1);
      ArrivedFrame(es, f);
      CodeWordIsShapely(es[|es| - 1].choice.lsp);
    }
  }

  lemma InitialRested()
    ensures Rested(InitialDecoder(), InitialRow())
  {
    hide Shapely;
    InitialIsShapely();
    forall i | 0 <= i < 10
      ensures Settled(0, InitialRow()[i], Accumulated(0, InitialRow()[i], [InitialRow(), InitialRow(), InitialRow(), InitialRow()], i), i)
    {
      InitialSettled(i);
    }
  }

  lemma InitialSettled(i: nat)
    requires i < 10
    ensures Settled(0, InitialRow()[i], Accumulated(0, InitialRow()[i], [InitialRow(), InitialRow(), InitialRow(), InitialRow()], i), i)
  {
    hide MaSum, MaPredictor;
    var r: int := InitialRow()[i];
    PredictorWeights(0, i);
    assert 0 <= r <= 24000;
    var share := Share(0, i);
    assert Accumulated(0, r, [InitialRow(), InitialRow(), InitialRow(), InitialRow()], i) == share * r by {
      ShareDistributes(MaSum(0, i), MaPredictor(0, 0, i), MaPredictor(0, 1, i), MaPredictor(0, 2, i), MaPredictor(0, 3, i), r);
    }
    assert 0 <= (0x8000 - share) * r <= 3 * r;
  }

  /** A frame predicted from four rows of the shape leaves the decoder rested. */
  lemma RestedAfterFrame(d: Decoder, L: Indices, h: seq<seq<Word16>>)
    requires d.Valid() && L.Valid() && ShapelyRows(h)
    requires d.history == Push(CodeWord(L), h) && d.lastL0 == L.l0 && d.lastqLSF == Frequencies(L, h)
    ensures Rested(d, h[3])
  {
    hide CodeWord, Shapely, Settled, Accumulated, PredictedAll, Stabilised;
    CodeWordIsShapely(L);
    assert [d.history[1], d.history[2], d.history[3], h[3]] == h;
    forall i | 0 <= i < 10
      ensures Settled(L.l0, d.lastqLSF[i], Accumulated(L.l0, d.history[0][i], h, i), i)
    {
      FrequencyIsSettled(L.l0, CodeWord(L), h, i);
    }
  }

  /** After five arrivals, or at a start without losses, the decoder is rested. */
  lemma RestedBeforeBurst(es: seq<Event>, f: Conversion) returns (oldest: seq<Word16>)
    requires ValidRun(es) && Arrived(es, 5)
    ensures Rested(DecoderAfter(es, f), oldest)
  {
    hide Rested, Shapely, DecodeFrame;
    if es == [] {
      oldest := InitialRow();
      InitialRested();
    } else {
      RowsAreShapely(es[..|es| - 1], f, 4);
      oldest := RestedAfterRows(es, f);
    }
  }

  lemma RestedAfterRows(es: seq<Event>, f: Conversion) returns (oldest: seq<Word16>)
    requires ValidRun(es) && es != [] && !es[|es| - 1].erased && ShapelyRows(DecoderAfter(es[..|es| - 1], f).history)
    ensures Rested(DecoderAfter(es, f), oldest)
  {
    hide DecoderAfter, CodeWord, Shapely, Rested, Frequencies, Push, DecodeFrame, EncodeFrame, Parameters, Pack, EncoderAfter;
    ArrivedFrame(es, f);
    var h := DecoderAfter(es[..|es| - 1], f).history;
    oldest := h[3];
    RestedAfterFrame(DecoderAfter(es, f), es[|es| - 1].choice.lsp, h);
  }

  /** The column of every coefficient goes on through a burst of any length. */
  lemma {:induction false} BurstColumn(es: seq<Event>, f: Conversion, n: nat, i: nat) returns (c: seq<int>)
    requires ValidRun(es) && n <= |es| && i < 10 && Arrived(es[..|es| - n], 5)
    requires forall k :: |es| - n <= k < |es| ==> es[k].erased
    ensures InBurst(DecoderAfter(es, f), i, c)
    decreases n
  {
    hide DecodeFrame, InBurst, Rested, Frame;
    if n == 0 {
      assert es[..|es|] == es;
      var oldest := RestedBeforeBurst(es, f);
      c := BurstStarts(DecoderAfter(es, f), oldest, i);
    } else {
      var before := es[..|es| - 1];
      assert before[..|before| - (n - 1)] == es[..|es| - n];
      c := BurstColumn(before, f, n - 1, i);
      c := BurstGoesOn(DecoderAfter(before, f), Frame(es[|es| - 1]), f, i, c);
    }
  }

  /** How many frames at the end of the run are lost. */
  function LostAtEnd(es: seq<Event>): (n: nat)
    ensures n <= |es| && forall k :: |es| - n <= k < |es| ==> es[k].erased
    ensures n < |es| ==> !es[|es| - n - 1].erased
  {
    if es == [] || !es[|es| - 1].erased then 0 else 1 + LostAtEnd(es[..|es| - 1])
  }

  /** In a well-spaced run every lost frame recovers code words that fit 16 bits, and predicting with them
      gives each repeated frequency back within 3 units of Q13. */
  lemma ConcealmentInverts(es: seq<Event>, f: Conversion, i: nat)
    requires ValidRun(es) && es != [] && es[|es| - 1].erased && WellSpaced(es) && i < 10
    ensures var d, d' := DecoderAfter(es[..|es| - 1], f), DecoderAfter(es, f);
      && -0x8000 <= ExactCodeWord(d.lastL0, d.lastqLSF[i], d.history, i) <= 0x7fff
      && d'.history[0][i] == RecoveredCodeWord(d.lastL0, d.lastqLSF[i], d.history, i)
      && d'.lastqLSF == d.lastqLSF && -3 <= Predicted(d.lastL0, d'.history[0][i], d.history, i) as int - d'.lastqLSF[i] as int <= 3
  {
    hide DecodeFrame, Frame, InBurst, ExactCodeWord, RecoveredCodeWord, Predicted;
    var n := LostAtEnd(es);
    var before := es[..|es| - 1];
    var start := |es| - n;
    assert es[start].erased;
    assert before[..|before| - (n - 1)] == es[..start];
    var c := BurstColumn(before, f, n - 1, i);
    var d := DecoderAfter(before, f);
    RecoveredFits(d, i, c);
    LostFrame(d, Frame(es[|es| - 1]), f);
    ErasureInversion(d.lastL0, d.lastqLSF[i], d.history, i);
  }
}
