/** Whole runs of the coder: what the encoder's and the decoder's contexts hold from frame to frame,
    with every frame going through the 80-bit stream (sections 3 and 4 of Recommendation G.729).

    The encoder's searches are not decided here: any choice they could make is a Choice. The cosine
    and the conversion of line spectral pairs to filter coefficients are the same two functions on
    both sides, given as parameters. */
module CodecRun {
  import opened FixedPoint
  import opened LspQuantizer
  import opened LspChannel
  import opened AdaptiveCodebook
  import opened FixedCodebook
  import opened CodeVectorEnergy
  import opened Gains
  import opened GainRange
  import opened SharpenedGain
  import opened BitStream

  // ----- parity ---------------------------------------------------------------------------------

  /** The number of ones among the n low bits. */
  function Ones(x: nat, n: nat): nat {
    if n == 0 then 0 else x % 2 + Ones(x / 2, n - 1)
  }

  /** Odd parity over the six high bits of P1. */
  function Parity(index: nat): (p: nat)
    ensures p < 2
  {
    (1 + Ones(index / 4, 6)) % 2
  }

  /** The six high bits and the parity bit together hold an odd number of ones. */
  lemma ParityIsOdd(index: nat)
    ensures (index / 4 % 2 + index / 8 % 2 + index / 16 % 2 + index / 32 % 2 + index / 64 % 2 + index / 128 % 2 + Parity(index)) % 2 == 1
  {
    hide Ones;
    Halves(index);
    SixOnes(index / 4, index / 8, index / 16, index / 32, index / 64, index / 128);
    OddTogether(Ones(index / 4, 6));
  }

  lemma Halves(index: nat)
    ensures index / 8 == index / 4 / 2 && index / 16 == index / 8 / 2 && index / 32 == index / 16 / 2
    ensures index / 64 == index / 32 / 2 && index / 128 == index / 64 / 2
  {
  }

  lemma SixOnes(a: nat, b: nat, c: nat, d: nat, e: nat, f: nat)
    requires b == a / 2 && c == b / 2 && d == c / 2 && e == d / 2 && f == e / 2
    ensures Ones(a, 6) == a % 2 + b % 2 + c % 2 + d % 2 + e % 2 + f % 2
  {
    assert Ones(f, 1) == f % 2 && Ones(e, 2) == e % 2 + Ones(f, 1) && Ones(d, 3) == d % 2 + Ones(e, 2);
    assert Ones(c, 4) == c % 2 + Ones(d, 3) && Ones(b, 5) == b % 2 + Ones(c, 4);
  }

  lemma OddTogether(s: nat)
    ensures (s + (1 + s) % 2) % 2 == 1
  {
  }

  /** The loop of exclusive ors, each a sum modulo 2. */
  method ComputeParity(index: nat) returns (parity: nat)
    ensures parity == Parity(index)
  {
    parity := 1;
    var rest: nat := index / 4;
    for i := 0 to 6
      invariant parity < 2 && (parity + Ones(rest, 6 - i)) % 2 == Parity(index)
    {
      NextBit(parity, rest, 6 - i);
      parity := (parity + rest % 2) % 2;
      rest := rest / 2;
    }
  }

  lemma NextBit(parity: nat, rest: nat, n: nat)
    requires n > 0
    ensures ((parity + rest % 2) % 2 + Ones(rest / 2, n - 1)) % 2 == (parity + Ones(rest, n)) % 2
  {
    assert Ones(rest, n) == rest % 2 + Ones(rest / 2, n - 1);
    hide Ones;
    CarryOver(parity + rest % 2, Ones(rest / 2, n - 1));
  }

  lemma CarryOver(x: nat, y: nat)
    ensures (x % 2 + y) % 2 == (x + y) % 2
  {
  }

  /** Flipping any one of the six high bits of P1 is detected; the two low bits are not covered. */
  lemma ParityDetects(index: nat, k: nat)
    requires index < 256 && k < 8 && index / Pow2(k) % 2 == 0
    ensures Parity(index + Pow2(k)) != Parity(index) <==> k >= 2
  {
    hide Ones, Pow2;
    if k < 2 {
      SmallPow(k);
      LowBits(index, k);
    } else {
      HighBit(index, k);
      FlippedOnes(index / 4, k - 2, 6);
      Quarter(index, Pow2(k - 2));
      OneMoreOne(Ones(index / 4, 6));
    }
  }

  lemma SmallPow(k: nat)
    requires k < 2
    ensures Pow2(k) == k + 1
  {
  }

  lemma OneMoreOne(n: nat)
    ensures (1 + (n + 1)) % 2 != (1 + n) % 2
  {
  }

  lemma HighBit(x: nat, k: nat)
    requires k >= 2
    ensures Pow2(k) == 4 * Pow2(k - 2) && x / Pow2(k) == x / 4 / Pow2(k - 2)
  {
    var p := Pow2(k - 2);
    assert Pow2(k) == 2 * (2 * p);
    DivideByHalves(x, 2 * p);
    DivideByHalves(x / 2, p);
    hide Pow2;
    assert x / 2 / 2 == x / 4;
  }

  lemma LowBits(x: nat, k: nat)
    requires k < 2 && x / (k + 1) % 2 == 0
    ensures (x + k + 1) / 4 == x / 4
  {
  }

  lemma Quarter(x: nat, p: nat)
    ensures (x + 4 * p) / 4 == x / 4 + p
  {
  }

  lemma {:induction false} FlippedOnes(x: nat, k: nat, n: nat)
    requires k < n && x / Pow2(k) % 2 == 0
    ensures Ones(x + Pow2(k), n) == Ones(x, n) + 1
    decreases n
  {
    if k == 0 {
      assert (x + 1) / 2 == x / 2;
    } else {
      DivideByHalves(x, Pow2(k - 1));
      FlippedOnes(x / 2, k - 1, n - 1);
      assert (x + 2 * Pow2(k - 1)) / 2 == x / 2 + Pow2(k - 1);
    }
  }

  lemma DivideByHalves(x: nat, p: nat)
    requires p > 0
    ensures x / (2 * p) == x / 2 / p
  {
    var q, r := x / 2 / p, x / 2 % p;
    assert x == 2 * (q * p + r) + x % 2;
    assert q * (2 * p) == 2 * (q * p);
    QuotientIsUnique(x, 2 * p, q, 2 * r + x % 2);
  }

  // ----- one frame's parameters -----------------------------------------------------------------

  /** What the encoder's searches choose for a frame. */
  datatype Choice = Choice(lsp: Indices, T1: int, frac1: int, T2: int, frac2: int, pulses1: Pulses, pulses2: Pulses,
                           ga1: nat, gb1: nat, ga2: nat, gb2: nat)
  {
    predicate Valid() {
      && lsp.Valid() && FirstChoice(T1, frac1)
      && SecondWindowMin(T1) <= T2 <= SecondWindowMin(T1) + 9 && -1 <= frac2 <= 1
      && pulses1.Valid() && pulses2.Valid() && ga1 < 8 && gb1 < 16 && ga2 < 8 && gb2 < 16
    }
  }

  /** The fifteen parameters of a choice. */
  function Parameters(c: Choice): (p: seq<nat>)
    requires c.Valid()
    ensures |p| == 15 && InWidth(p)
  {
    FirstCodewordRoundTrip(c.T1, c.frac1, 0);
    SecondCodewordRoundTrip(c.T1, c.T2, c.frac2, 0);
    PulsesRoundTrip(c.pulses1);
    PulsesRoundTrip(c.pulses2);
    hide Parity, PositionWord, SignWord, DecodedPulses, DecodeFirst, DecodeSecond, IndexMappingGA, IndexMappingGB;
    var p1 := FirstCodeword(c.T1, c.frac1);
    var r := [c.lsp.l0, c.lsp.l1, c.lsp.l2, c.lsp.l3,
              p1, Parity(p1), PositionWord(c.pulses1), SignWord(c.pulses1), IndexMappingGA(c.ga1), IndexMappingGB(c.gb1),
              SecondCodeword(c.T2, c.frac2, SecondWindowMin(c.T1)),
              PositionWord(c.pulses2), SignWord(c.pulses2), IndexMappingGA(c.ga2), IndexMappingGB(c.gb2)];
    EveryFieldFits(r);
    r
  }

  lemma EveryFieldFits(p: seq<nat>)
    requires |p| == 15 && p[0] < 2 && p[1] < 128 && p[2] < 32 && p[3] < 32 && p[4] < 256 && p[5] < 2 && p[6] < 0x2000 && p[7] < 16
    requires p[8] < 8 && p[9] < 16 && p[10] < 32 && p[11] < 0x2000 && p[12] < 16 && p[13] < 8 && p[14] < 16
    ensures InWidth(p)
  {
  }

  // ----- contexts -------------------------------------------------------------------------------

  /** The two conversions both sides share. */
  datatype Conversion = Conversion(cos: int -> Word16, toLp: seq<Word16> -> seq<Word16>)

  datatype Encoder = Encoder(history: seq<seq<Word16>>, qLSP: seq<Word16>, errors: seq<Word16>, beta: Word16)
  {
    predicate Valid() {
      IsHistory(history) && |qLSP| == 10 && IsErrors(errors) && 3277 <= beta <= 19661
    }
  }

  /** What the subframes of the decoder carry along. */
  datatype Carried = Carried(memory: int, gains: GainState, beta: Word16, seed: nat)
  {
    predicate Valid() {
      19 <= memory <= 144 && IsErrors(gains.errors) && 3277 <= beta <= 13107
    }
  }

  datatype Decoder = Decoder(history: seq<seq<Word16>>, qLSP: seq<Word16>, lastqLSF: seq<Word16>, lastL0: nat, carried: Carried)
  {
    predicate Valid() {
      IsHistory(history) && |qLSP| == 10 && |lastqLSF| == 10 && lastL0 < 2 && carried.Valid()
    }
  }

  function InitialEncoder(): (s: Encoder)
    ensures s.Valid()
  {
    Encoder([InitialRow(), InitialRow(), InitialRow(), InitialRow()], InitialLsp(), InitialErrors(), 3277)
  }

  function InitialDecoder(): (s: Decoder)
    ensures s.Valid()
  {
    Decoder([InitialRow(), InitialRow(), InitialRow(), InitialRow()], InitialLsp(), InitialRow(), 0,
            Carried(60, GainState(0, 0, InitialErrors()), 3277, 21845))
  }

  /** A subframe as either side understands it: delay, pulses, the sharpening gain and the code vector it
      makes of the pulses, and the two gains. */
  datatype Subframe = Subframe(T: int, frac: int, pulses: Pulses, beta: Word16, code: seq<Word16>, adaptive: Word16, fixed: Word16)

  datatype Output = Output(lp1: seq<Word16>, lp2: seq<Word16>, first: Subframe, second: Subframe)

  // ----- the encoder ------------------------------------------------------------------------------

  /** The sharpening gain for the next subframe: the quantized gain kept between 0.2 and 1.2. */
  function EncoderBound(g: Word16): (b: Word16)
    ensures 3277 <= b <= 19661
  {
    if g > 19661 then 19661 else if g < 3277 then 3277 else g
  }

  function EncodeSubframe(errors: seq<Word16>, beta: Word16, T: int, frac: int, ps: Pulses, ga: nat, gb: nat): Subframe
    requires IsErrors(errors) && 3277 <= beta <= 19661 && T >= 20 && ps.Valid() && ga < 8 && gb < 16
  {
    SharpenedEnergy(ps, T, beta, 0);
    var v := Sharpened(PulseVector(ps), T, beta, 0);
    Subframe(T, frac, ps, beta, v, AdaptiveGain(ga, gb), EncoderFixedGain(Factor(ga, gb), PredictedGain(errors, v)))
  }

  function ErrorsAfter(errors: seq<Word16>, ga: nat, gb: nat): (e: seq<Word16>)
    requires IsErrors(errors) && ga < 8 && gb < 16
    ensures IsErrors(e)
  {
    PushError(ErrorOf(Factor(ga, gb)), errors)
  }

  /** One frame of the encoder. */
  function EncodeFrame(s: Encoder, c: Choice, f: Conversion): (r: (Encoder, Output))
    requires s.Valid() && c.Valid()
    ensures r.0.Valid()
  {
    var qLSP := Cosines(Frequencies(c.lsp, s.history), f.cos);
    var errors1 := ErrorsAfter(s.errors, c.ga1, c.gb1);
    (Encoder(Push(CodeWord(c.lsp), s.history), qLSP, ErrorsAfter(errors1, c.ga2, c.gb2), EncoderBound(AdaptiveGain(c.ga2, c.gb2))),
     Output(f.toLp(Interpolated(s.qLSP, qLSP)), f.toLp(qLSP),
            EncodeSubframe(s.errors, s.beta, c.T1, c.frac1, c.pulses1, c.ga1, c.gb1),
            EncodeSubframe(errors1, EncoderBound(AdaptiveGain(c.ga1, c.gb1)), c.T2, c.frac2, c.pulses2, c.ga2, c.gb2)))
  }

  // ----- the decoder ------------------------------------------------------------------------------

  /** The decoder's sharpening gain: between 0.2 and 0.8. */
  function DecoderBound(g: Word16): (b: Word16)
    ensures 3277 <= b <= 13107
  {
    if g > 13107 then 13107 else if g < 3277 then 3277 else g
  }

  function Random(seed: nat): nat {
    (13849 + seed * 31821) % 0x1_0000
  }

  /** The words of one subframe. */
  datatype Words = Words(P: nat, C: nat, S: nat, GA: nat, GB: nat)

  function LspOf(p: seq<nat>): (lsp: Indices)
    requires InWidth(p)
    ensures lsp.Valid()
  {
    assert p[0] < Bound(0) && p[1] < Bound(1) && p[2] < Bound(2) && p[3] < Bound(3);
    Indices(p[0], p[1], p[2], p[3])
  }

  function WordsOf(first: bool, p: seq<nat>): (w: Words)
    requires InWidth(p)
    ensures InRange(first, w)
  {
    assert p[4] < Bound(4) && p[8] < Bound(8) && p[9] < Bound(9) && p[10] < Bound(10) && p[13] < Bound(13) && p[14] < Bound(14);
    if first then Words(p[4], p[6], p[7], p[8], p[9]) else Words(p[10], p[11], p[12], p[13], p[14])
  }

  /** The pulses of a subframe, random when the frame is erased. */
  function PulsesOf(w: Words, erased: bool, seed: nat): (ps: Pulses)
    ensures ps.Valid()
  {
    if erased then DecodedPulses(Random(Random(seed)) % 0x10, Random(seed) % 0x2000) else DecodedPulses(w.S, w.C)
  }

  function GainsAfter(g: GainState, w: Words, v: seq<Word16>, erased: bool): (g': GainState)
    requires IsErrors(g.errors) && w.GA < 8 && w.GB < 16 && HasEnergy(v)
    ensures IsErrors(g'.errors)
  {
    if erased then
      GainState(ErasedAdaptiveGain(g.adaptive), ErasedFixedGain(g.fixed), PushError(ErasedError(g.errors), g.errors))
    else
      var i, j := ReverseIndexMappingGA(w.GA), ReverseIndexMappingGB(w.GB);
      GainState(AdaptiveGain(i, j), DecoderFixedGain(Factor(i, j), PredictedGain(g.errors, v)), ErrorsAfter(g.errors, i, j))
  }

  predicate InRange(first: bool, w: Words) {
    w.P < (if first then 256 else 32) && w.GA < 8 && w.GB < 16
  }

  /** One subframe of the decoder; parityError counts in the first one only. */
  function DecodeSubframe(first: bool, s: Carried, w: Words, parityError: bool, erased: bool, T1: int): (r: (Carried, Subframe))
    requires s.Valid() && InRange(first, w) && (!first ==> 19 <= T1 <= 144)
    ensures r.0.Valid() && 19 <= r.1.T <= 144
  {
    var damaged := erased || (first && parityError);
    DelayStaysInRange(first, w.P, damaged, T1, s.memory);
    var d := NextDelay(first, w.P, damaged, T1, s.memory);
    var ps := PulsesOf(w, erased, s.seed);
    SharpenedEnergy(ps, d.T, s.beta, 0x2000);
    var v := Sharpened(PulseVector(ps), d.T, s.beta, 0x2000);
    var gains := GainsAfter(s.gains, w, v, erased);
    (Carried(d.memory, gains, DecoderBound(gains.adaptive), if erased then Random(Random(s.seed)) else s.seed),
     Subframe(d.T, d.frac, ps, s.beta, v, gains.adaptive, gains.fixed))
  }

  /** The two subframes of a frame. */
  function DecodeSubframes(s: Carried, p: seq<nat>, erased: bool): (r: (Carried, Subframe, Subframe))
    requires s.Valid() && InWidth(p)
    ensures r.0.Valid()
  {
    var r1 := DecodeSubframe(true, s, WordsOf(true, p), Parity(p[4]) != p[5], erased, 0);
    var r2 := DecodeSubframe(false, r1.0, WordsOf(false, p), false, erased, r1.1.T);
    (r2.0, r1.1, r2.1)
  }

  function WordOf(s: Decoder, p: seq<nat>, erased: bool): (word: seq<Word16>)
    requires s.Valid() && InWidth(p)
    ensures |word| == 10
  {
    if erased then ConcealedCodeWord(s.lastL0, s.lastqLSF, s.history) else CodeWord(LspOf(p))
  }

  /** Every quantized frequency is a 16-bit word. */
  lemma FrequenciesAreWords(lsp: Indices, h: seq<seq<Word16>>)
    requires lsp.Valid() && IsHistory(h)
    ensures forall k :: 0 <= k < 10 ==> -0x8000 <= Frequencies(lsp, h)[k] <= 0x7fff
  {
    hide PredictedAll, CodeWord, Spaced;
    var q := PredictedAll(lsp.l0, CodeWord(lsp), h);
    var t := Sorted10(q);
    forall k | 0 <= k < 10
      ensures -0x8000 <= t[k] <= 0x7fff
    {
      assert t[k] in multiset(t);
      assert t[k] in q;
    }
    forall k | 0 <= k < 10
      ensures -0x8000 <= Spaced(LowLimit(t), k) <= 0x7fff
    {
      SpacedFits(LowLimit(t), k);
    }
  }

  function FrequenciesOf(s: Decoder, p: seq<nat>, erased: bool): (q: seq<Word16>)
    requires s.Valid() && InWidth(p)
    ensures |q| == 10
  {
    FrequenciesAreWords(LspOf(p), s.history);
    if erased then s.lastqLSF else Frequencies(LspOf(p), s.history)
  }

  /** One frame of the decoder. */
  function DecodeFrame(s: Decoder, bits: seq<nat>, erased: bool, f: Conversion): (r: (Decoder, Output))
    requires s.Valid() && IsFrame(bits)
    ensures r.0.Valid()
  {
    UnpackInWidth(bits);
    var p := Unpack(bits);
    var q := FrequenciesOf(s, p, erased);
    var qLSP := Cosines(q, f.cos);
    var r := DecodeSubframes(s.carried, p, erased);
    (Decoder(Push(WordOf(s, p, erased), s.history), qLSP, q, if erased then s.lastL0 else LspOf(p).l0, r.0),
     Output(f.toLp(Interpolated(s.qLSP, qLSP)), f.toLp(qLSP), r.1, r.2))
  }

  lemma UnpackInWidth(bits: seq<nat>)
    requires IsFrame(bits)
    ensures InWidth(Unpack(bits))
  {
    PackUnpack(bits);
    RoundTripExactlyInWidth(Unpack(bits));
  }

  // ----- the filters of a frame -----------------------------------------------------------------

  /** The encoder's filters: the first subframe's from pairs midway between those of the frame before and
      the new ones, the second's from the new ones. */
  lemma EncodedFilters(s: Encoder, c: Choice, f: Conversion) returns (mid: seq<Word16>)
    requires s.Valid() && c.Valid()
    ensures var r := EncodeFrame(s, c, f); Midway(s.qLSP, r.0.qLSP, mid) && r.1.lp1 == f.toLp(mid) && r.1.lp2 == f.toLp(r.0.qLSP)
  {
    hide Midway, CodeWord, Frequencies, Cosines, EncodeSubframe, ErrorsAfter, EncoderBound, Push, AdaptiveGain;
    mid := Interpolated(s.qLSP, EncodeFrame(s, c, f).0.qLSP);
  }

  /** The decoder's, for a frame that arrives and for one that is lost. */
  lemma DecodedFilters(d: Decoder, bits: seq<nat>, erased: bool, f: Conversion) returns (mid: seq<Word16>)
    requires d.Valid() && IsFrame(bits)
    ensures var r := DecodeFrame(d, bits, erased, f); Midway(d.qLSP, r.0.qLSP, mid) && r.1.lp1 == f.toLp(mid) && r.1.lp2 == f.toLp(r.0.qLSP)
  {
    hide Midway, WordOf, FrequenciesOf, Cosines, DecodeSubframes, Push, Unpack, InWidth, LspOf;
    mid := Interpolated(d.qLSP, DecodeFrame(d, bits, erased, f).0.qLSP);
  }

  /** There is only one sequence midway between two. */
  lemma MidwayIsUnique(previous: seq<Word16>, current: seq<Word16>, s: seq<Word16>, t: seq<Word16>)
    requires Midway(previous, current, s) && Midway(previous, current, t)
    ensures s == t
  {
    forall i | 0 <= i < 10
      ensures s[i] == t[i]
    {
      assert 2 * s[i] as int - 1 <= previous[i] as int + current[i] as int <= 2 * s[i] as int;
      assert 2 * t[i] as int - 1 <= previous[i] as int + current[i] as int <= 2 * t[i] as int;
    }
  }

  // ----- one good frame -------------------------------------------------------------------------

  /** The words the decoder reads from a frame are the encoder's. */
  lemma WordsArrive(c: Choice)
    requires c.Valid()
    ensures var p := Unpack(Pack(Parameters(c)));
      && p == Parameters(c) && LspOf(p) == c.lsp && Parity(p[4]) == p[5]
      && WordsOf(true, p) == Words(FirstCodeword(c.T1, c.frac1), PositionWord(c.pulses1), SignWord(c.pulses1),
                                   IndexMappingGA(c.ga1), IndexMappingGB(c.gb1))
      && WordsOf(false, p) == Words(SecondCodeword(c.T2, c.frac2, SecondWindowMin(c.T1)), PositionWord(c.pulses2), SignWord(c.pulses2),
                                    IndexMappingGA(c.ga2), IndexMappingGB(c.gb2))
  {
    RoundTripExactlyInWidth(Parameters(c));
    hide Unpack, Pack, Parity, PositionWord, SignWord, IndexMappingGA, IndexMappingGB, FirstCodeword, SecondCodeword, InWidth, Bound;
    FirstCodewordRoundTrip(c.T1, c.frac1, 0);
    SecondCodewordRoundTrip(c.T1, c.T2, c.frac2, 0);
  }

  /** What the decoder makes of a subframe whose delay, pulses and gains arrive. */
  function Received(s: Carried, T: int, frac: int, ps: Pulses, ga: nat, gb: nat): (Carried, Subframe)
    requires s.Valid() && T >= 20 && ps.Valid() && ga < 8 && gb < 16
  {
    SharpenedEnergy(ps, T, s.beta, 0x2000);
    var v := Sharpened(PulseVector(ps), T, s.beta, 0x2000);
    var fixed := DecoderFixedGain(Factor(ga, gb), PredictedGain(s.gains.errors, v));
    var adaptive := AdaptiveGain(ga, gb);
    (Carried(T, GainState(adaptive, fixed, ErrorsAfter(s.gains.errors, ga, gb)), DecoderBound(adaptive), s.seed),
     Subframe(T, frac, ps, s.beta, v, adaptive, fixed))
  }

  lemma SubframeArrives(first: bool, s: Carried, P: nat, T1: int, T: int, frac: int, ps: Pulses, ga: nat, gb: nat)
    requires s.Valid() && T >= 20 && ps.Valid() && ga < 8 && gb < 16
    requires var w := Words(P, PositionWord(ps), SignWord(ps), IndexMappingGA(ga), IndexMappingGB(gb));
      InRange(first, w) && (!first ==> 19 <= T1 <= 144)
    requires if first then DecodeFirst(P) == (T, frac) else DecodeSecond(P, T1) == (T, frac)
    ensures var w := Words(P, PositionWord(ps), SignWord(ps), IndexMappingGA(ga), IndexMappingGB(gb));
      DecodeSubframe(first, s, w, false, false, T1) == Received(s, T, frac, ps, ga, gb)
  {
    hide PositionWord, SignWord, DecodedPulses, IndexMappingGA, IndexMappingGB, ReverseIndexMappingGA, ReverseIndexMappingGB, DecodeFirst,
         DecodeSecond, AdaptiveGain, Factor, DecoderFixedGain, PredictedGain, ErrorOf, HasEnergy, Sharpened, PulseVector, DecoderBound;
    PulsesRoundTrip(ps);
    IndexMapsAreInverse(ga, gb);
    SharpenedEnergy(ps, T, s.beta, 0x2000);
  }

  lemma SubframesArrive(s: Carried, c: Choice)
    requires s.Valid() && c.Valid()
    ensures var r1 := Received(s, c.T1, c.frac1, c.pulses1, c.ga1, c.gb1);
      var r2 := Received(r1.0, c.T2, c.frac2, c.pulses2, c.ga2, c.gb2);
      DecodeSubframes(s, Unpack(Pack(Parameters(c))), false) == (r2.0, r1.1, r2.1)
  {
    hide Received, DecodeSubframe, WordsOf, Parity, Parameters, Unpack, Pack, PositionWord, SignWord, IndexMappingGA, IndexMappingGB,
         FirstCodeword, SecondCodeword, DecodeFirst, DecodeSecond, InWidth;
    WordsArrive(c);
    FirstCodewordRoundTrip(c.T1, c.frac1, 0);
    SecondCodewordRoundTrip(c.T1, c.T2, c.frac2, 0);
    var r1 := Received(s, c.T1, c.frac1, c.pulses1, c.ga1, c.gb1);
    SubframeArrives(true, s, FirstCodeword(c.T1, c.frac1), 0, c.T1, c.frac1, c.pulses1, c.ga1, c.gb1);
    ReceivedIsCarried(s, c.T1, c.frac1, c.pulses1, c.ga1, c.gb1);
    SubframeArrives(false, r1.0, SecondCodeword(c.T2, c.frac2, SecondWindowMin(c.T1)), c.T1, c.T2, c.frac2, c.pulses2, c.ga2, c.gb2);
  }

  lemma ReceivedIsCarried(s: Carried, T: int, frac: int, ps: Pulses, ga: nat, gb: nat)
    requires s.Valid() && 20 <= T <= 144 && ps.Valid() && ga < 8 && gb < 16
    ensures var r := Received(s, T, frac, ps, ga, gb);
      && r.0.Valid() && r.1.T == T && r.0.memory == T && r.0.gains.errors == ErrorsAfter(s.gains.errors, ga, gb)
      && r.0.beta == DecoderBound(AdaptiveGain(ga, gb))
  {
    hide ErrorsAfter, AdaptiveGain, DecoderFixedGain, PredictedGain, DecoderBound;
  }

  // ----- runs -----------------------------------------------------------------------------------

  /** A frame as chosen by the encoder, and whether it is lost on the way. */
  datatype Event = Event(choice: Choice, erased: bool)

  predicate ValidRun(es: seq<Event>) {
    forall k :: 0 <= k < |es| ==> es[k].choice.Valid()
  }

  function Frame(e: Event): (bits: seq<nat>)
    requires e.choice.Valid()
    ensures IsFrame(bits)
  {
    Pack(Parameters(e.choice))
  }

  function EncoderAfter(es: seq<Event>, f: Conversion): (s: Encoder)
    requires ValidRun(es)
    ensures s.Valid()
  {
    if es == [] then InitialEncoder() else EncodeFrame(EncoderAfter(es[..|es| - 1], f), es[|es| - 1].choice, f).0
  }

  function DecoderAfter(es: seq<Event>, f: Conversion): (s: Decoder)
    requires ValidRun(es)
    ensures s.Valid()
  {
    if es == [] then InitialDecoder() else DecodeFrame(DecoderAfter(es[..|es| - 1], f), Frame(es[|es| - 1]), es[|es| - 1].erased, f).0
  }

  /** The two sides' outputs for the last frame of a run. */
  function Sent(es: seq<Event>, f: Conversion): Output
    requires ValidRun(es) && es != []
  {
    EncodeFrame(EncoderAfter(es[..|es| - 1], f), es[|es| - 1].choice, f).1
  }

  function Heard(es: seq<Event>, f: Conversion): Output
    requires ValidRun(es) && es != []
  {
    DecodeFrame(DecoderAfter(es[..|es| - 1], f), Frame(es[|es| - 1]), es[|es| - 1].erased, f).1
  }

  /** The last n frames of the run arrive. */
  predicate EndsGood(es: seq<Event>, n: nat) {
    n <= |es| && forall k :: |es| - n <= k < |es| ==> !es[k].erased
  }

  /** The first n rows, or all of them, are the same. */
  predicate SameRows<T(==)>(a: seq<T>, b: seq<T>, n: int)
    requires |a| == 4 && |b| == 4
  {
    (n >= 1 ==> a[0] == b[0]) && (n >= 2 ==> a[1] == b[1]) && (n >= 3 ==> a[2] == b[2]) && (n >= 4 ==> a[3] == b[3])
  }

  lemma AllRows<T>(a: seq<T>, b: seq<T>, n: int)
    requires |a| == 4 && |b| == 4 && SameRows(a, b, n) && n >= 4
    ensures a == b
  {
  }

  /** What a frame that arrives does to a decoder, next to what it does to an encoder. */
  lemma GoodFrame(s: Encoder, d: Decoder, c: Choice, f: Conversion)
    requires s.Valid() && d.Valid() && c.Valid()
    ensures var r, t := EncodeFrame(s, c, f), DecodeFrame(d, Pack(Parameters(c)), false, f);
      && r.0.history == Push(CodeWord(c.lsp), s.history) && t.0.history == Push(CodeWord(c.lsp), d.history)
      && r.0.errors == ErrorsAfter(ErrorsAfter(s.errors, c.ga1, c.gb1), c.ga2, c.gb2)
      && t.0.carried.gains.errors == ErrorsAfter(ErrorsAfter(d.carried.gains.errors, c.ga1, c.gb1), c.ga2, c.gb2)
      && r.0.qLSP == Cosines(Frequencies(c.lsp, s.history), f.cos) && t.0.qLSP == Cosines(Frequencies(c.lsp, d.history), f.cos)
      && r.1.lp1 == f.toLp(Interpolated(s.qLSP, r.0.qLSP)) && t.1.lp1 == f.toLp(Interpolated(d.qLSP, t.0.qLSP))
      && r.1.lp2 == f.toLp(r.0.qLSP) && t.1.lp2 == f.toLp(t.0.qLSP)
      && t.0.carried.memory == c.T2 && t.0.carried.beta == Capped(r.0.beta)
  {
    hide Received, DecodeSubframes, EncodeSubframe, Parameters, Unpack, Pack, ErrorsAfter, CodeWord, Frequencies, Cosines, Interpolated,
         Push, WordsOf, Parity, LspOf, InWidth, EncoderBound, DecoderBound, AdaptiveGain, Capped;
    WordsArrive(c);
    BoundsMatch(AdaptiveGain(c.ga2, c.gb2));
    SubframesArrive(d.carried, c);
    var r1 := Received(d.carried, c.T1, c.frac1, c.pulses1, c.ga1, c.gb1);
    ReceivedIsCarried(d.carried, c.T1, c.frac1, c.pulses1, c.ga1, c.gb1);
    ReceivedIsCarried(r1.0, c.T2, c.frac2, c.pulses2, c.ga2, c.gb2);
  }

  /** Delays, pulses and adaptive gains agree. The decoder's sharpening gain is the encoder's, capped; the
      code vectors are the same exactly where no echo falls into the subframe or the gain is even
      and not capped, and there the decoder's fixed gain is 0, 1 or 2 units of Q1 above the encoder's. */
  predicate Agree(a: Subframe, b: Subframe) {
    && AgreeButFixed(a, b) && b.beta == Capped(a.beta) && a.T >= 20
    && (a.code == b.code <==> SameCodeVector(a.pulses, a.T, a.beta))
    && (a.code == b.code ==> 0 <= b.fixed as int - a.fixed as int <= 2)
  }

  /** The same with nothing said of the fixed gain and the code vector. */
  predicate AgreeButFixed(a: Subframe, b: Subframe) {
    b.T == a.T && b.frac == a.frac && b.pulses == a.pulses && b.adaptive == a.adaptive
  }

  /** What the gain codebook guarantees of an encoder's errors and sharpening gain: no error above
      14.1 dB, and none above 11.2 dB in front while the gain is even and not capped. */
  predicate Tuned(errors: seq<Word16>, beta: Word16) {
    && IsErrors(errors) && Moderate(errors) && 3277 <= beta <= 19661 && beta != 13108 && beta != 13109
    && (beta <= 13107 && beta % 2 == 0 ==> errors[0] <= 11420)
  }

  lemma SubframesAgree(errors: seq<Word16>, beta: Word16, s: Carried, T: int, frac: int, ps: Pulses, ga: nat, gb: nat)
    requires Tuned(errors, beta) && s.Valid() && T >= 20 && ps.Valid() && ga < 8 && gb < 16
    ensures var a, b := EncodeSubframe(errors, beta, T, frac, ps, ga, gb), Received(s, T, frac, ps, ga, gb).1;
      AgreeButFixed(a, b) && (s.gains.errors == errors && s.beta == Capped(beta) ==> Agree(a, b))
  {
    hide PredictedGain, EncoderFixedGain, DecoderFixedGain, AdaptiveGain, Factor, HasEnergy, SharpenedAt, Scaled, Moderate, ErrorsAfter,
         Sharpened, SameCodeVector, Capped;
    if s.gains.errors == errors && s.beta == Capped(beta) {
      SameVectorExactly(ps, T, beta);
      if SameCodeVector(ps, T, beta) {
        GapOfSameVector(errors, beta, T, ps, ga, gb);
      }
    }
  }

  lemma GapOfSameVector(errors: seq<Word16>, beta: Word16, T: nat, ps: Pulses, ga: nat, gb: nat)
    requires Tuned(errors, beta) && T >= 20 && ps.Valid() && SameCodeVector(ps, T, beta) && ga < 8 && gb < 16
    ensures var v := Sharpened(PulseVector(ps), T, beta, 0);
      && HasEnergy(v)
      && 0 <= DecoderFixedGain(Factor(ga, gb), PredictedGain(errors, v)) - EncoderFixedGain(Factor(ga, gb), PredictedGain(errors, v)) <= 2
  {
    hide PredictedGain, EncoderFixedGain, DecoderFixedGain, Factor, HasEnergy, VectorEnergy, Sharpened, Moderate;
    var v := Sharpened(PulseVector(ps), T, beta, 0);
    SharpenedEnergy(ps, T, beta, 0);
    if Unechoed(ps, T) {
      Unsharpened(ps, T, beta);
      BareSum(ps);
      FourPulsesGap(errors, v, ga, gb);
    } else {
      LeastEnergy(ps, T, beta, 0);
      SharpenedPredict(errors, v);
      FixedGainGap(ga, gb, PredictedGain(errors, v));
    }
  }

  lemma Unsharpened(ps: Pulses, T: nat, beta: Word16)
    requires ps.Valid() && T >= 20 && Unechoed(ps, T) && 3277 <= beta <= 19661
    ensures Sharpened(PulseVector(ps), T, beta, 0) == PulseVector(ps)
  {
    hide SharpenedAt, PulseAt;
    forall n | 0 <= n < 40
      ensures SharpenedAt(PulseVector(ps), T, beta, 0, n) == PulseAt(ps, n)
    {
      SampleOf(ps, T, beta, 0, n);
      hide PulseAt;
      if n >= T {
        PulseSize(ps, n - T);
      }
    }
  }

  lemma ModerateErrors(errors: seq<Word16>, ga: nat, gb: nat)
    requires IsErrors(errors) && Moderate(errors) && ga < 8 && gb < 16
    ensures Moderate(ErrorsAfter(errors, ga, gb))
  {
    hide ErrorOf, Factor;
    ErrorOfFactor(ga, gb);
  }

  /** After any subframe. */
  lemma TunedAfter(errors: seq<Word16>, ga: nat, gb: nat)
    requires IsErrors(errors) && Moderate(errors) && ga < 8 && gb < 16
    ensures Tuned(ErrorsAfter(errors, ga, gb), EncoderBound(AdaptiveGain(ga, gb)))
  {
    hide AdaptiveGain, Factor, ErrorOf, Moderate;
    ModerateErrors(errors, ga, gb);
    EvenGainFactor(ga, gb);
    if Factor(ga, gb) <= 14778 {
      ModestError(ga, gb);
    }
  }

  /** The encoder's prediction errors and sharpening gain are always those of codebook pairs or the
      initial ones. */
  lemma {:induction false} EncoderIsTuned(es: seq<Event>, f: Conversion)
    requires ValidRun(es)
    ensures Tuned(EncoderAfter(es, f).errors, EncoderAfter(es, f).beta)
    decreases |es|
  {
    hide EncodeSubframe, ErrorsAfter, Tuned, EncoderBound, AdaptiveGain;
    if es == [] {
      InitialIsTuned();
    } else {
      EncoderIsTuned(es[..|es| - 1], f);
      var s, c := EncoderAfter(es[..|es| - 1], f), es[|es| - 1].choice;
      TunedIsModerate(s.errors, s.beta);
      ModerateErrors(s.errors, c.ga1, c.gb1);
      TunedAfter(ErrorsAfter(s.errors, c.ga1, c.gb1), c.ga2, c.gb2);
    }
  }

  lemma TunedIsModerate(errors: seq<Word16>, beta: Word16)
    requires Tuned(errors, beta)
    ensures Moderate(errors)
  {
  }

  lemma InitialIsTuned()
    ensures Tuned(InitialErrors(), 3277)
  {
  }

  lemma FrameAgrees(s: Encoder, d: Decoder, c: Choice, f: Conversion)
    requires s.Valid() && d.Valid() && c.Valid() && Tuned(s.errors, s.beta)
    ensures var a, b := EncodeFrame(s, c, f).1, DecodeFrame(d, Pack(Parameters(c)), false, f).1;
      && AgreeButFixed(a.first, b.first) && AgreeButFixed(a.second, b.second)
      && (s.errors == d.carried.gains.errors && d.carried.beta == Capped(s.beta) ==> Agree(a.first, b.first))
      && (s.errors == d.carried.gains.errors ==> Agree(a.second, b.second))
  {
    hide Received, DecodeSubframes, EncodeSubframe, Parameters, Unpack, Pack, ErrorsAfter, Tuned, Agree, AgreeButFixed, EncoderBound,
         DecoderBound, CodeWord, Frequencies, Cosines, Interpolated, Push, FrequenciesOf, WordOf, AdaptiveGain, Capped;
    SubframesArrive(d.carried, c);
    var r1 := Received(d.carried, c.T1, c.frac1, c.pulses1, c.ga1, c.gb1);
    ReceivedIsCarried(d.carried, c.T1, c.frac1, c.pulses1, c.ga1, c.gb1);
    SubframesAgree(s.errors, s.beta, d.carried, c.T1, c.frac1, c.pulses1, c.ga1, c.gb1);
    TunedIsModerate(s.errors, s.beta);
    TunedAfter(s.errors, c.ga1, c.gb1);
    BoundsMatch(AdaptiveGain(c.ga1, c.gb1));
    SubframesAgree(ErrorsAfter(s.errors, c.ga1, c.gb1), EncoderBound(AdaptiveGain(c.ga1, c.gb1)), r1.0, c.T2, c.frac2, c.pulses2, c.ga2, c.gb2);
  }

  lemma BoundsMatch(g: Word16)
    ensures DecoderBound(g) == Capped(EncoderBound(g))
  {
  }

  /** How far the two contexts agree n good frames after any losses: the n newest code words, the 2n
      newest prediction errors, the sharpening gain from the first frame and the line spectral pairs from
      the fifth. */
  predicate Recovering(s: Encoder, d: Decoder, n: int)
    requires s.Valid() && d.Valid()
  {
    && SameRows(s.history, d.history, n) && SameRows(s.errors, d.carried.gains.errors, 2 * n)
    && (n >= 5 ==> s.qLSP == d.qLSP) && (n >= 1 ==> d.carried.beta == Capped(s.beta))
  }

  lemma OneMoreRow(x: seq<Word16>, a: seq<seq<Word16>>, b: seq<seq<Word16>>, n: nat)
    requires |x| == 10 && IsHistory(a) && IsHistory(b) && SameRows(a, b, n)
    ensures SameRows(Push(x, a), Push(x, b), n + 1)
  {
  }

  lemma OneMoreError(a: seq<Word16>, b: seq<Word16>, ga: nat, gb: nat, n: nat)
    requires IsErrors(a) && IsErrors(b) && ga < 8 && gb < 16 && SameRows(a, b, n)
    ensures SameRows(ErrorsAfter(a, ga, gb), ErrorsAfter(b, ga, gb), n + 1)
  {
    hide ErrorOf, Factor;
  }

  lemma OneMoreFrame(s: Encoder, d: Decoder, c: Choice, f: Conversion, n: nat)
    requires s.Valid() && d.Valid() && c.Valid() && Recovering(s, d, n)
    ensures Recovering(EncodeFrame(s, c, f).0, DecodeFrame(d, Pack(Parameters(c)), false, f).0, n + 1)
  {
    hide EncodeFrame, DecodeFrame, CodeWord, Frequencies, Cosines, ErrorsAfter, Interpolated, Push, SameRows, Parameters, Pack, Capped;
    GoodFrame(s, d, c, f);
    OneMoreRow(CodeWord(c.lsp), s.history, d.history, n);
    var e := d.carried.gains.errors;
    OneMoreError(s.errors, e, c.ga1, c.gb1, 2 * n);
    OneMoreError(ErrorsAfter(s.errors, c.ga1, c.gb1), ErrorsAfter(e, c.ga1, c.gb1), c.ga2, c.gb2, 2 * n + 1);
    if n >= 4 {
      AllRows(s.history, d.history, n);
    }
  }

  lemma LastFrame(es: seq<Event>, f: Conversion)
    requires ValidRun(es) && es != [] && !es[|es| - 1].erased
    ensures var before, c := es[..|es| - 1], es[|es| - 1].choice;
      && EncoderAfter(es, f) == EncodeFrame(EncoderAfter(before, f), c, f).0
      && DecoderAfter(es, f) == DecodeFrame(DecoderAfter(before, f), Pack(Parameters(c)), false, f).0
      && Sent(es, f) == EncodeFrame(EncoderAfter(before, f), c, f).1
      && Heard(es, f) == DecodeFrame(DecoderAfter(before, f), Pack(Parameters(c)), false, f).1
  {
    hide EncodeFrame, DecodeFrame, Parameters, Pack;
  }

  lemma NothingYet(s: Encoder, d: Decoder)
    requires s.Valid() && d.Valid()
    ensures Recovering(s, d, 0)
  {
  }

  lemma {:induction false} Recovers(es: seq<Event>, f: Conversion, n: nat)
    requires ValidRun(es) && EndsGood(es, n)
    ensures Recovering(EncoderAfter(es, f), DecoderAfter(es, f), n)
    decreases n
  {
    hide EncoderAfter, DecoderAfter, EncodeFrame, DecodeFrame, Parameters, Pack, Recovering, Frame;
    if n == 0 {
      NothingYet(EncoderAfter(es, f), DecoderAfter(es, f));
    } else {
      var before, c := es[..|es| - 1], es[|es| - 1].choice;
      Recovers(before, f, n - 1);
      LastFrame(es, f);
      OneMoreFrame(EncoderAfter(before, f), DecoderAfter(before, f), c, f, n - 1);
    }
  }

  /** After any losses, one good frame brings the sharpening gains together, two make the prediction errors
      equal, four the code-word histories, five the line spectral pairs. */
  lemma Resynchronises(es: seq<Event>, f: Conversion, n: nat)
    requires ValidRun(es) && EndsGood(es, n)
    ensures n >= 4 ==> EncoderAfter(es, f).history == DecoderAfter(es, f).history
    ensures n >= 2 ==> EncoderAfter(es, f).errors == DecoderAfter(es, f).carried.gains.errors
    ensures n >= 5 ==> EncoderAfter(es, f).qLSP == DecoderAfter(es, f).qLSP
    ensures n >= 1 ==> DecoderAfter(es, f).carried.beta == Capped(EncoderAfter(es, f).beta)
  {
    hide EncoderAfter, DecoderAfter;
    Recovers(es, f, n);
    Recovered(EncoderAfter(es, f), DecoderAfter(es, f), n);
  }

  lemma Recovered(s: Encoder, d: Decoder, n: int)
    requires s.Valid() && d.Valid() && Recovering(s, d, n)
    ensures (n >= 4 ==> s.history == d.history) && (n >= 2 ==> s.errors == d.carried.gains.errors) && (n >= 5 ==> s.qLSP == d.qLSP)
    ensures n >= 1 ==> d.carried.beta == Capped(s.beta)
  {
    hide SameRows;
    if n >= 4 {
      AllRows(s.history, d.history, n);
    }
    if n >= 2 {
      AllRows(s.errors, d.carried.gains.errors, 2 * n);
    }
  }

  /** What the n-th good frame after any losses sounds like on both sides: delays, pulses and adaptive
      gains agree at once, fixed gains from the third frame on, the filter of the second subframe from
      the fifth and that of the first from the sixth. */
  lemma FrameAfterLosses(es: seq<Event>, f: Conversion, n: nat)
    requires ValidRun(es) && n >= 1 && EndsGood(es, n)
    ensures var a, b := Sent(es, f), Heard(es, f);
      && AgreeButFixed(a.first, b.first) && AgreeButFixed(a.second, b.second)
      && (n >= 3 ==> Agree(a.first, b.first) && Agree(a.second, b.second))
      && (n >= 5 ==> a.lp2 == b.lp2) && (n >= 6 ==> a.lp1 == b.lp1)
  {
    hide EncoderAfter, DecoderAfter, EncodeFrame, DecodeFrame, Parameters, Pack, Tuned, Capped, Agree, AgreeButFixed, SameRows, Cosines,
         Frequencies, Interpolated, Sent, Heard, CodeWord, ErrorsAfter, Push;
    var before, c := es[..|es| - 1], es[|es| - 1].choice;
    LastFrame(es, f);
    Resynchronises(before, f, n - 1);
    EncoderIsTuned(before, f);
    FrameAgrees(EncoderAfter(before, f), DecoderAfter(before, f), c, f);
    GoodFrame(EncoderAfter(before, f), DecoderAfter(before, f), c, f);
  }

  /** Both sides hold the same, the decoder's sharpening gain capped at 0.8. */
  predicate Together(s: Encoder, d: Decoder) {
    s.history == d.history && s.qLSP == d.qLSP && s.errors == d.carried.gains.errors && d.carried.beta == Capped(s.beta)
  }

  /** In every error-free run, whatever the searches choose, the two contexts stay together. */
  lemma {:induction false} LockStep(es: seq<Event>, f: Conversion)
    requires ValidRun(es) && EndsGood(es, |es|)
    ensures Together(EncoderAfter(es, f), DecoderAfter(es, f))
    decreases |es|
  {
    if es == [] {
    } else {
      hide EncoderAfter, DecoderAfter, EncodeFrame, DecodeFrame, Parameters, Pack, Cosines, Frequencies, CodeWord, ErrorsAfter, Push, Interpolated;
      var before, c := es[..|es| - 1], es[|es| - 1].choice;
      LockStep(before, f);
      LastFrame(es, f);
      GoodFrame(EncoderAfter(before, f), DecoderAfter(before, f), c, f);
    }
  }

  /** And every frame of it comes out as it was sent: the filters of both subframes, delays, pulses and
      adaptive gains, and the fixed gains to within two units wherever the code vectors are the same. */
  lemma ErrorFreeOutput(es: seq<Event>, f: Conversion)
    requires ValidRun(es) && EndsGood(es, |es|) && es != []
    ensures var a, b := Sent(es, f), Heard(es, f);
      a.lp1 == b.lp1 && a.lp2 == b.lp2 && Agree(a.first, b.first) && Agree(a.second, b.second)
  {
    hide EncoderAfter, DecoderAfter, EncodeFrame, DecodeFrame, Parameters, Pack, Tuned, Capped, Agree, AgreeButFixed, Cosines, Frequencies,
         Interpolated, Sent, Heard, CodeWord, ErrorsAfter, Push;
    var before, c := es[..|es| - 1], es[|es| - 1].choice;
    LastFrame(es, f);
    LockStep(before, f);
    EncoderIsTuned(before, f);
    FrameAgrees(EncoderAfter(before, f), DecoderAfter(before, f), c, f);
    GoodFrame(EncoderAfter(before, f), DecoderAfter(before, f), c, f);
  }
}
