/** The channel contexts of the encoder and the decoder: every frame updates them as the functions of
    CodecRun say. */
module CodecContext {
  import opened FixedPoint
  import opened LspQuantizer
  import opened LspChannel
  import opened AdaptiveCodebook
  import opened FixedCodebook
  import opened CodeVectorEnergy
  import opened GainTerms
  import opened Gains
  import opened BitStream
  import opened CodecRun

  // ----- the encoder ------------------------------------------------------------------------------

  /** What the searches of one subframe hand to the context: the delay, the pulses, the unquantized gains, and the
      signals of the gain search: the target, the filtered adaptive vector and the convolved code vector. */
  datatype Found = Found(T: int, frac: int, pulses: Pulses, bestAdaptive: Word32, bestFixed: Word32,
                         target: seq<Word16>, filtered: seq<Word16>, convolved: seq<Word16>)
  {
    predicate Valid() {
      pulses.Valid() && |target| == |filtered| == |convolved| == N
    }
  }

  class FrameEncoder {
    const lsp: LspEncoder
    const gains: GainEncoder
    var beta: Word16

    ghost predicate Valid()
      reads this, lsp, lsp.previousqLSF
    {
      && lsp.Valid() && gains.Valid() && lsp.previousqLSP != gains.errors && 3277 <= beta <= 19661
    }

    ghost function State(): (s: Encoder)
      requires Valid()
      reads this, lsp, lsp.previousqLSF, lsp.previousqLSP, gains.errors
      ensures s.Valid()
    {
      Encoder(lsp.history, lsp.previousqLSP[..], gains.errors[..], beta)
    }

    constructor ()
      ensures Valid() && State() == InitialEncoder()
      ensures fresh(lsp) && fresh(lsp.previousqLSF) && fresh(lsp.previousqLSP) && fresh(gains.errors)
    {
      lsp := new LspEncoder();
      gains := new GainEncoder();
      beta := 3277;
    }

    /** Code vector, gains and sharpening gain of one subframe. */
    method Subframe(found: Found) returns (GA: nat, GB: nat, ghost ga: nat, ghost gb: nat, ghost sent: CodecRun.Subframe)
      requires Valid() && found.T >= 20 && found.Valid()
      modifies this`beta, gains.errors
      ensures Valid() && ga < 8 && gb < 16 && GA == IndexMappingGA(ga) && GB == IndexMappingGB(gb)
      ensures gains.errors[..] == ErrorsAfter(old(gains.errors[..]), ga, gb) && beta == EncoderBound(AdaptiveGain(ga, gb))
      ensures sent == EncodeSubframe(old(gains.errors[..]), old(beta), found.T, found.frac, found.pulses, ga, gb)
    {
      hide PredictedGain, EncoderFixedGain, AdaptiveGain, Factor, ErrorOf, HasEnergy, SharpenedAt, IndexMappingGA, IndexMappingGB, PulseAt;
      var vector := new Word16[40];
      EncodeVector(found.pulses, found.T, beta, vector);
      SharpenedEnergy(found.pulses, found.T, beta, 0);
      var gp, gc;
      ghost var baseGa, baseGb, t, s;
      var gain, xy, yy := ComputeAdaptativeCodebookGain(found.target, found.filtered);
      gp, gc, GA, GB, ga, gb, baseGa, baseGb, t, s
        := gains.Quantize(vector[..], found.target, found.filtered, found.convolved, xy, yy, found.bestAdaptive, found.bestFixed);
      sent := CodecRun.Subframe(found.T, found.frac, found.pulses, beta, vector[..], gp, gc);
      beta := gp;
      if beta > 19661 {
        beta := 19661;
      }
      if beta < 3277 {
        beta := 3277;
      }
    }

    /** One frame, from what the searches found to the ten bytes; c is the choice they amount to. */
    method Encode(indices: Indices, found1: Found, found2: Found, f: Conversion)
      returns (bits: seq<nat>, ghost c: Choice, ghost sent: Output)
      requires Valid() && indices.Valid()
      requires FirstChoice(found1.T, found1.frac) && found1.Valid() && found2.Valid()
      requires SecondWindowMin(found1.T) <= found2.T <= SecondWindowMin(found1.T) + 9 && -1 <= found2.frac <= 1
      modifies this, lsp, lsp.previousqLSF, lsp.previousqLSP, gains.errors
      ensures Valid() && c.Valid() && bits == Pack(Parameters(c))
      ensures c.lsp == indices && c.T1 == found1.T && c.frac1 == found1.frac && c.T2 == found2.T && c.frac2 == found2.frac
      ensures c.pulses1 == found1.pulses && c.pulses2 == found2.pulses
      ensures (State(), sent) == EncodeFrame(old(State()), c, f)
    {
      hide CodeWord, Frequencies, Cosines, Interpolated, ErrorsAfter, EncodeSubframe, AdaptiveGain, IndexMappingGA, IndexMappingGB,
           Push, Parity, PositionWord, SignWord, Pack, FirstCodeword, SecondCodeword, EncoderBound;
      var interpolated, qLSP := lsp.Encode(indices, f.cos);
      ghost var lp1, lp2 := f.toLp(interpolated[..]), f.toLp(qLSP[..]);
      var p1: int := FirstCodeword(found1.T, found1.frac);
      FirstCodewordRoundTrip(found1.T, found1.frac, 0);
      var p0 := ComputeParity(p1);
      ghost var ga1, gb1, ga2, gb2, sent1, sent2;
      var GA1, GB1, GA2, GB2;
      GA1, GB1, ga1, gb1, sent1 := Subframe(found1);
      GA2, GB2, ga2, gb2, sent2 := Subframe(found2);
      c := Choice(indices, found1.T, found1.frac, found2.T, found2.frac, found1.pulses, found2.pulses, ga1, gb1, ga2, gb2);
      sent := Output(lp1, lp2, sent1, sent2);
      var p2: int := SecondCodeword(found2.T, found2.frac, SecondWindowMin(found1.T));
      SecondCodewordRoundTrip(found1.T, found2.T, found2.frac, 0);
      bits := Pack([indices.l0, indices.l1, indices.l2, indices.l3, p1, p0, PositionWord(found1.pulses), SignWord(found1.pulses), GA1, GB1,
                    p2, PositionWord(found2.pulses), SignWord(found2.pulses), GA2, GB2]);
    }
  }

  // ----- the decoder ------------------------------------------------------------------------------

  class FrameDecoder {
    const lsp: LspDecoder
    const pitch: PitchDecoder
    const gains: GainDecoder
    const exc: array<Word16>
    var beta: Word16
    var seed: nat

    ghost predicate Valid()
      reads this, lsp, lsp.previousLCodeWord, pitch
    {
      && lsp.Valid() && pitch.Valid() && gains.Valid() && exc.Length == PAST + 80
      && lsp.previousqLSP != gains.errors && lsp.lastqLSF != gains.errors
      && exc != lsp.previousqLSP && exc != lsp.lastqLSF && exc != gains.errors
      && 3277 <= beta <= 13107
    }

    ghost function Memory(): (s: Carried)
      requires Valid()
      reads this, lsp, lsp.previousLCodeWord, pitch, gains, gains.errors
      ensures s.Valid()
    {
      Carried(pitch.previousIntPitchDelay, GainState(gains.adaptiveGain, gains.fixedGain, gains.errors[..]), beta, seed)
    }

    ghost function State(): (s: Decoder)
      requires Valid()
      reads this, lsp, lsp.previousLCodeWord, lsp.previousqLSP, lsp.lastqLSF, pitch, gains, gains.errors
      ensures s.Valid()
    {
      Decoder(lsp.history, lsp.previousqLSP[..], lsp.lastqLSF[..], lsp.lastValidL0, Memory())
    }

    constructor ()
      ensures Valid() && State() == InitialDecoder()
      ensures fresh(lsp) && fresh(lsp.previousLCodeWord) && fresh(lsp.previousqLSP) && fresh(lsp.lastqLSF)
      ensures fresh(pitch) && fresh(gains) && fresh(gains.errors) && fresh(exc)
    {
      lsp := new LspDecoder();
      pitch := new PitchDecoder();
      gains := new GainDecoder();
      exc := new Word16[PAST + 80](_ => 0);
      beta, seed := 3277, 21845;
    }

    method PseudoRandom() returns (r: nat)
      modifies this`seed
      ensures seed == r == Random(old(seed))
    {
      seed := (13849 + seed * 31821) % 0x1_0000;
      r := seed;
    }

    /** The pulses' words, random when the frame is erased. */
    method PulseWordsOf(w: Words, erased: bool) returns (positions: nat, signs: nat)
      modifies this`seed
      ensures DecodedPulses(signs, positions) == PulsesOf(w, erased, old(seed))
      ensures seed == if erased then Random(Random(old(seed))) else old(seed)
    {
      positions, signs := w.C, w.S;
      if erased {
        positions := PseudoRandom();
        positions := positions % 0x2000;
        signs := PseudoRandom();
        signs := signs % 0x10;
      }
    }

    lemma BoundedBy(g: Word16, b: int)
      requires b == if g > 13107 then 13107 else if g < 3277 then 3277 else g as int
      ensures b == DecoderBound(g)
    {
    }

    /** The adaptive and fixed code vectors and the gains of one subframe. */
    method Subframe(first: bool, w: Words, parityError: bool, erased: bool, T1: int)
      returns (T: int, ghost heard: CodecRun.Subframe)
      requires Valid() && InRange(first, w) && (!first ==> 19 <= T1 <= 144)
      modifies this`beta, this`seed, pitch, gains, gains.errors, exc
      ensures Valid() && T == heard.T && 19 <= T <= 144
      ensures (Memory(), heard) == DecodeSubframe(first, old(Memory()), w, parityError && first, erased, T1)
    {
      hide PredictedGain, DecoderFixedGain, AdaptiveGain, Factor, ErrorOf, HasEnergy, SharpenedAt, PulseAt, NextDelay, DecodedPulses, PulsesOf,
           ErasedAdaptiveGain, ErasedFixedGain, ErasedError, ReverseIndexMappingGA, ReverseIndexMappingGB, AdaptiveVector, Random, Sharpened,
           PulseVector, VectorEnergy, Extended, DecodeFirst, DecodeSecond;
      ghost var before := Memory();
      ghost var frac;
      T, frac := pitch.DecodeAdaptativeCodeVector(first, w.P, parityError && first, erased, T1, exc, if first then PAST else PAST + 40);
      var positions, signs := PulseWordsOf(w, erased);
      var vector := new Word16[40];
      DecodeFixedCodeVector(signs, positions, T, beta, vector);
      ghost var ps := DecodedPulses(signs, positions);
      SharpenedEnergy(ps, T, beta, 0x2000);
      gains.Decode(w.GA, w.GB, vector[..], erased);
      assert GainState(gains.adaptiveGain, gains.fixedGain, gains.errors[..]) == GainsAfter(before.gains, w, vector[..], erased);
      hide GainsAfter, DecoderBound;
      heard := CodecRun.Subframe(T, frac, ps, beta, vector[..], gains.adaptiveGain, gains.fixedGain);
      beta := gains.adaptiveGain;
      if beta > 13107 {
        beta := 13107;
      }
      if beta < 3277 {
        beta := 3277;
      }
      BoundedBy(gains.adaptiveGain, beta);
    }

    /** One frame: the line spectral pairs, then the two subframes. */
    method Decode(bits: seq<nat>, erased: bool, f: Conversion) returns (ghost heard: Output)
      requires Valid() && IsFrame(bits)
      modifies this, lsp, lsp.previousLCodeWord, lsp.previousqLSP, lsp.lastqLSF, pitch, gains, gains.errors, exc
      ensures Valid() && (State(), heard) == DecodeFrame(old(State()), bits, erased, f)
    {
      hide CodeWord, Frequencies, Cosines, Interpolated, DecodeSubframe, ConcealedCodeWord, Push, Unpack, Parity, InWidth;
      UnpackInWidth(bits);
      var p := Unpack(bits);
      ghost var memory := Memory();
      var interpolated, qLSP := lsp.Decode(LspOf(p), erased, f.cos);
      var lp1, lp2 := f.toLp(interpolated[..]), f.toLp(qLSP[..]);
      var parity := ComputeParity(p[4]);
      var T1, T2;
      ghost var first, second;
      T1, first := Subframe(true, WordsOf(true, p), parity != p[5], erased, 0);
      T2, second := Subframe(false, WordsOf(false, p), false, erased, T1);
      heard := Output(lp1, lp2, first, second);
    }
  }
}
