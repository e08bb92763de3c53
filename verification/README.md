# A verified model of the bcg729 speech coder, with MD5 and the ffplay picture ring

This project models, in Dafny 4.11, the fixed-point G.729 Annex A coder bcg729 (encoder and decoder),
the streaming MD5 of libvpx, and the picture ring that ffplay's two threads share. `dafny verify
dfyconfig.toml` checks everything.

**The coder.** Code that works step by step on arrays and contexts is modelled by methods and
classes with the same loops, and each is proved against a specification function; the lemmas are
about those functions. Integer code is modelled with machine words as subset types (`Word16`,
`Word32`, `Word64`): storing a value in one proves that the C variable does not overflow. Where the code
narrows with a cast, or can overflow, the model writes the wrap-around out. Two parts whose point is
an algebraic identity, the LSP/LP conversion and the Levinson-Durbin recursion, are modelled over the
reals, as is the convolution identity of the pulse search.

- `FixedPoint`, `LagSums`, `RealSums`: word arithmetic and sums.
- `Autocorrelation`, `LevinsonDurbin`, `LevinsonStability`: LP analysis.
- `LspPolynomials`, `RootSearch`: line spectral pairs, both directions.
- `LspCodebooks`, `LspQuantizer`, `LspRearrangement`, `LspErasure`, `LspChannel`: the predictive LSP
  quantizer, its decoder and its concealment.
- `LspShape`, `LspSettled`, `LspBurst`, `ConcealedRun`: concealment over bursts of any length: the shape of
  code words, what stabilising moves, one coefficient through a burst, and whole runs.
- `OpenLoopPitch`, `AdaptiveCodebook`: pitch search, pitch decoding and concealment.
- `BackwardFilter`: the backward filtered target of both codebook searches.
- `PulseEnergy`, `CorrelationMatrix`, `PulseSearch`, `PulseMatch`, `Convolution`, `FixedCodebook`,
  `CodeVectorEnergy`: the algebraic codebook.
- `GainTerms`, `Gains`, `GainError`, `GainRange`, `SharpenedGain`, `FixedGainLoss`: gain quantizer, predictor
  and concealment, what the quantizer minimises, and where the two sides' fixed gains stay together.
- `BitStream`: the 80-bit frame.
- `CodecRun`, `CodecContext`: both channel contexts over whole runs, through the bit stream, with and
  without lost frames.

**MD5.** `Md5` proves the unrolled transform equal to the table-driven rounds of RFC 1321 and the
streaming context equal to the whole-message definition, for every cut of the message into chunks.

**The picture ring.** `PictureRing` is a step model of the two threads; its theorems hold over every
interleaving.

## Where the code differs from its comments

- The search for line spectral pairs does not move the carried value along with the scan, and after
  a root it belongs to the interpolated root, not to the grid point. So an interval need not enclose
  a sign change; `RootSearch.BracketEnclosesSignChange` gives the exact condition, on the polynomial,
  the carried point and the step, and `RootSearch.LostSignChange` a predictor for which it fails.
- The low limit of the LSP frequencies is applied to index 1, not to index 0.
- Rearranging coefficients does not give the minimum distance its comment promises: pushing a pair apart
  takes from the pair before it. `LspRearrangement.SpacedExactlyWhenRoomy` and `CodeWordSpaced` say for
  which inputs it does, up to the rounding of a half, and `DisorderedCodeWord` names indices whose code
  word is not even ordered.
- The refinement of the last open-loop range tries the upper odd neighbour only if the lower one did
  not win; `OpenLoopPitch.RefinedIsBest` says exactly when that is enough and
  `OpenLoopPitch.UpperNeighbourMissed` gives a signal for which it is not.
- The encoder narrows the predicted gain to 16 bits, the decoder does not: for one code vector the fixed
  gains stay within 2 units exactly while the prediction is below 2^27. In error-free runs that is so
  in every subframe in which both sides hold the same code vector, and `SharpenedGain.SameVectorExactly`
  says which those are. In the others it can fail: `FixedGainLoss.LostFixedGain` is such a run.
- The comment on MD5's padding calls the bit count most significant byte first; the code writes it lowest
  byte first, as RFC 1321 has it (`Md5.PaddedLayout`).
- A recovered code word is narrowed to 16 bits; the inversion holds exactly when it fits
  (`LspErasure.ErasureInversion`). It fits in every run whose bursts of losses begin after five frames
  that arrived, or before any loss (`ConcealedRun.ConcealmentInverts`).

## Model

| member | source | states |
|---|---|---|
| `FixedPoint.SplitFloorIsFloor` | submodules/bcg729/include/fixedPointMacros.h:69-92 | the MULT16_32_Qs macros, which split the 32-bit operand, equal the floor of the full product, for every operand and multiplier |
| `FixedPoint.SplitRoundIsRound` | submodules/bcg729/include/fixedPointMacros.h:82-91 | the MULT16_32_Ps macros equal the full product rounded half up |
| `FixedPoint.NarrowedMultiply` | submodules/bcg729/src/decodeLSP.c:150-151 | a Q12 split multiply, rounded and narrowed to 16 bits, equals the narrowed exact value whatever overflows in 32 bits on the way |
| `FixedPoint.LeadingZeros` | submodules/bcg729/include/utils.h:90-99 | shifting a positive word left by its leading-zero count lands in [2^30, 2^31) |
| `FixedPoint.CountLeadingZeros` | submodules/bcg729/include/utils.h:90-99 | the loop returns that count, 31 for zero |
| `LspPolynomials.ComputePolynomialCoefficients` | submodules/bcg729/src/qLSP2LP.c:72-96 | the in-place descending update leaves the low half of the product of (1 - 2q z^-1 + z^-2) over every other line spectral pair |
| `LspPolynomials.CoefPalindrome` | submodules/bcg729/src/qLSP2LP.c:53-60 | the full product is a palindrome, which is why half of it suffices |
| `LspPolynomials.AddNeighbours` | submodules/bcg729/src/qLSP2LP.c:48-51 | the in-place neighbour sums and differences are the coefficients of (1 + z^-1) F1 and (1 - z^-1) F2 |
| `LspPolynomials.QLsp2Lp` | submodules/bcg729/src/qLSP2LP.c:36-62 | LP coefficients 1 to 10 are the means of the two polynomials' coefficients, the upper five read from the lower halves by symmetry |
| `LspPolynomials.LpToPolynomials` | submodules/bcg729/src/LP2LSPConversion.c:55-58 | the sum and difference recursions compute the quotients of the two polynomials |
| `LspPolynomials.QuotientsRecoverFactors` | submodules/bcg729/src/LP2LSPConversion.c:55-58 | those recursions undo the LSP to LP conversion: they return the coefficients qLSP2LP started from |
| `LspPolynomials.ChebyshevPolynomial` | submodules/bcg729/src/LP2LSPConversion.c:130-144 | the Clenshaw recurrence evaluates the half polynomial T5 + f1 T4 + f2 T3 + f3 T2 + f4 T1 + f5/2 |
| `LspPolynomials.DualPolynomials` | submodules/bcg729/src/LP2LSPConversion.c:130-144 | for every ten pairs, the two polynomials rebuilt from the LP coefficients equal 16 times the product of (x - q) over the even-indexed and over the odd-indexed pairs |
| `LspPolynomials.RootsAreLineSpectralPairs` | submodules/bcg729/src/LP2LSPConversion.c:68-105 | x is a root of a rebuilt polynomial if and only if it is one of that polynomial's five line spectral pairs |
| `LspPolynomials.RoundTrip` | submodules/bcg729/src/qLSP2LP.c:36-95 | LSP to LP, rebuilding and evaluation composed: the computed value is zero exactly at the pairs converted |
| `RootSearch.ValueIsSmall` | submodules/bcg729/src/LP2LSPConversion.c:130-144 | for every 16-bit predictor and 16-bit x each intermediate of the integer evaluation is below 2^25 in magnitude |
| `RootSearch.ChebyshevPolynomial` | submodules/bcg729/src/LP2LSPConversion.c:130-144 | the integer evaluation with 32-bit variables never overflows and returns the specified value |
| `RootSearch.SignTestIsExact` | submodules/bcg729/src/LP2LSPConversion.c:74-84 | the bit-28 exclusive-or test is exactly a change of sign |
| `RootSearch.Bisect` | submodules/bcg729/src/LP2LSPConversion.c:75-91 | from a cell whose two sides differ, the two bisections return the interval Quarter names in terms of polynomial, carried point and step; Cx is the value at xHigh, previousCx that at xLow once it has moved and at the carried point before, with opposite signs |
| `RootSearch.LpToLsp` | submodules/bcg729/src/LP2LSPConversion.c:42-118 | every root comes from the first grid step after the last root whose sign differs from the carried value's; polynomials alternate; fewer than ten roots are returned only if no further step differs |
| `RootSearch.QuarterEnclosesSignChange` | submodules/bcg729/src/LP2LSPConversion.c:75-91 | what two halvings leave of any cell encloses a sign change if and only if the carried point's side reaches the upper end of the cell, its middle or the middle of its upper half |
| `RootSearch.BracketEnclosesSignChange` | submodules/bcg729/src/LP2LSPConversion.c:74-105 | a reported interval encloses a sign change of its polynomial if and only if the carried point's side reaches one of those three points, all known before the bisection; it always does unless the step follows a root immediately |
| `RootSearch.LostSignChange` | submodules/bcg729/src/LP2LSPConversion.c:100-105 | a concrete predictor, with the code's own interpolation, for which the condition fails at the second root and both ends of its interval have the same sign |
| `LevinsonDurbin.LevinsonDurbin` | submodules/bcg729/src/computeLP.c:134-164 | the in-place update with the saved previous coefficients computes the predictor of the requested order, for any order |
| `LevinsonDurbin.NormalEquations` | submodules/bcg729/src/computeLP.c:134-164 | at every order i, rows 1..i of the Toeplitz system vanish and row 0 is the prediction error energy E |
| `LevinsonStability.Stable` | submodules/bcg729/src/computeLP.c:116-129 | for positive definite lags no division is by zero at any order, every E is positive and at most the one before, and every reflection coefficient is below 1 in magnitude |
| `LevinsonStability.SignalIsPositiveDefinite` | submodules/bcg729/src/computeLP.c:77-97 | the lag sums of any signal of finite length with a nonzero sample are positive definite, however many are taken |
| `LevinsonStability.WindowedSignalIsStable` | submodules/bcg729/src/computeLP.c:134-164 | so on the exact lag sums of any windowed signal that is not all zero the recursion runs through to every order with positive energies and coefficients below 1 |
| `LagSums.PartialSumBound` | submodules/bcg729/src/computeLP.c:77-97 | every partial sum at every lag is bounded by the energy r(0) |
| `Autocorrelation.Normalise` | submodules/bcg729/src/computeLP.c:60-75 | halving or left shifting ends, and leaves r(0) in [2^30, 2^31) |
| `Autocorrelation.LagSum32` | submodules/bcg729/src/computeLP.c:87-97 | when r(0) fits 31 bits the 32-bit accumulator never overflows and equals the exact sum |
| `Autocorrelation.LagSum64` | submodules/bcg729/src/computeLP.c:77-86 | the 64-bit path computes the exact sum |
| `Autocorrelation.NormalisedLags` | submodules/bcg729/src/computeLP.c:77-97 | both paths give the exact lag sums scaled like r(0) |
| `Autocorrelation.Autocorrelation` | submodules/bcg729/src/computeLP.c:53-103 | normalised r(0) in [2^30, 2^31), lags 1 to 10 scaled alike and multiplied by the lag window with rounding, all within [-r(0), r(0)] |
| `LspQuantizer.RearrangeStepEffect` | submodules/bcg729/src/utils.c:87-101 | one step leaves its pair at least gap - 1 apart, keeps the pair's sum and every other value |
| `LspRearrangement.GapsOfRearranged` | submodules/bcg729/src/utils.c:87-101 | after a pass over any values gap k is the old one, plus twice its own push, less the pushes of its two neighbours, each push given in closed form by the gaps before |
| `LspRearrangement.SpacedExactlyWhenRoomy` | submodules/bcg729/src/utils.c:79-101 | one pass leaves every gap at least J - 1 if and only if every pair can spare what the push of the next pair takes from it |
| `LspRearrangement.CodeWordSpaced` | submodules/bcg729/src/decodeLSP.c:70-84 | the gaps of a code word in closed form from its indices, and that both passes leave them at least the second minimum less 1 if and only if the gaps after the first pass are roomy |
| `LspRearrangement.DisorderedCodeWord` | submodules/bcg729/src/decodeLSP.c:70-84 | the promise fails: the code word of the indices 0, 103, 4, 29 has its fifth frequency 71 units below the fourth |
| `LspQuantizer.RearrangeKeepsTotal` | submodules/bcg729/src/utils.c:87-101 | the whole pass keeps the sum of the ten values |
| `LspQuantizer.RearrangeCoefficients` | submodules/bcg729/src/utils.c:87-101 | for every array and gap the in-place loop is that pass in 16-bit arithmetic; for values the quantizer can hold it is the exact one and keeps the sum |
| `LspQuantizer.InsertionSort` | submodules/bcg729/src/utils.c:35-53 | the in-place sort equals Sort of the old contents |
| `LspQuantizer.Sort` | submodules/bcg729/src/utils.c:35-53 | an ordered permutation of its input |
| `LspQuantizer.SortedIsUnique` | submodules/bcg729/src/utils.c:35-53 | there is only one ordered permutation |
| `LspQuantizer.SpacedIsMaximum` | submodules/bcg729/src/decodeLSP.c:117-123 | every value after the distance pass is the maximum over j <= k of input j + 321 (k - j) if and only if no input k is above 32767 - 321 (9 - k), where the pass wraps |
| `LspQuantizer.SpacedIsLeast` | submodules/bcg729/src/LSPQuantization.c:246-252 | then it is the least sequence above the input with all gaps at least 321 |
| `LspQuantizer.Stabilise` | submodules/bcg729/src/decodeLSP.c:109-127 | sort, low limit on index 1, distance pass, and a final clamp that changes only the last value |
| `LspQuantizer.AccumulationFits` | submodules/bcg729/src/decodeLSP.c:95-107 | every partial accumulation of the moving-average predictor fits 32 bits for every 16-bit history |
| `LspErasure.NearInverse` | submodules/bcg729/src/codebooks.c:195-218 | each product of a predictor sum and its stored inverse falls short of 1 in Q27 by at most 3 times the inverse |
| `LspErasure.RecoveredIsNarrowed` | submodules/bcg729/src/decodeLSP.c:144-151 | overflow in the erased frame's code word only shows as narrowing to 16 bits |
| `LspErasure.ErasureInversion` | submodules/bcg729/src/decodeLSP.c:142-156 | for every history and every frequency at least 3 units inside the 16-bit range, predicting with the recovered code word gives the repeated frequency back within 3 units of Q13 if and only if the exact code word fits 16 bits |
| `LspShape.CodeWordIsShapely` | submodules/bcg729/src/decodeLSP.c:70-84 | every code word, whatever its indices, lies between ten lower and ten upper limits, and no value exceeds a later one by more than a table of 45 distances |
| `LspSettled.FrequencyIsSettled` | submodules/bcg729/src/decodeLSP.c:109-134 | sorting, spreading and clamping move a frequency predicted from such rows by at most 4500 units down and 1 to 5000 up from the sum it came from |
| `LspBurst.NextFits` | submodules/bcg729/src/decodeLSP.c:136-157 | five rows of that shape and any number of code words recovered after them make the next recovered one fit 16 bits |
| `ConcealedRun.ConcealmentInverts` | submodules/bcg729/src/decodeLSP.c:136-157 | in every run whose bursts of lost frames, of any length, begin after five frames that arrived or before any loss, each recovered code word fits 16 bits and predicting with it gives the repeated frequency back within 3 units |
| `LspChannel.LspEncoder.constructor` | submodules/bcg729/src/LSPQuantization.c:31-41 | the history starts as four copies of the initial row |
| `LspChannel.LspEncoder.ShiftRows` | submodules/bcg729/src/LSPQuantization.c:232-236 | moving whole rows back and copying the new code word in front pushes it on the history |
| `LspChannel.LspEncoder.Encode` | submodules/bcg729/src/LSPQuantization.c:208-264 | from the chosen indices: new history, quantized pairs, previous pairs, in place, and pairs midway between the previous and the new ones for the first subframe |
| `LspChannel.LspDecoder.PredictAndShift` | submodules/bcg729/src/decodeLSP.c:95-107 | accumulating from the oldest row while shifting column i gives the same prediction and the same shifted history |
| `LspChannel.LspDecoder.Conceal` | submodules/bcg729/src/decodeLSP.c:136-157 | an erased frame pushes the recovered code word computed from the last frequencies and predictor |
| `LspChannel.LspDecoder.Decode` | submodules/bcg729/src/decodeLSP.c:61-166 | good and erased frames: history, last frequencies, last predictor, pairs, and pairs midway between the previous and the new ones for the first subframe |
| `LspChannel.Interpolate` | submodules/bcg729/src/interpolateqLSP.c:35-41 | twice each pair of the first subframe is the sum of the previous and the current pair, or one more where that is odd |
| `LspChannel.ErrorFreeFrame` | submodules/bcg729/src/decodeLSP.c:67-127 | on error-free frames code words and predictions stay in a range where the distance pass cannot wrap, and that range is kept |
| `OpenLoopPitch.ScaledEnergy` | submodules/bcg729/src/findOpenLoopPitchDelay.c:51-66 | the shift chosen from the 64-bit energy brings the energy of the scaled signal below 2^32 |
| `OpenLoopPitch.GetCorrelationMax` | submodules/bcg729/src/findOpenLoopPitchDelay.c:184-198 | the largest correlation of a range and its lag, or lag 0 if none is above the lowest word |
| `OpenLoopPitch.RefinedIsBest` | submodules/bcg729/src/findOpenLoopPitchDelay.c:75-88 | the refinement of the last range is the best of the three lags if and only if it is not the case that the lower neighbour beats the even lag and the upper beats the lower |
| `OpenLoopPitch.UpperNeighbourMissed` | submodules/bcg729/src/findOpenLoopPitchDelay.c:75-88 | a signal, used unscaled, whose best even lag is 100 and whose refinement stops at 99 although 101 correlates better |
| `OpenLoopPitch.Favoured` | submodules/bcg729/src/findOpenLoopPitchDelay.c:131-139 | the range with the largest raised correlation wins, the shorter delay on ties |
| `OpenLoopPitch.RaisedByQuarters` | submodules/bcg729/src/findOpenLoopPitchDelay.c:112-120 | the second range is raised by a quarter of the third for each multiple it is near, while nothing wraps |
| `OpenLoopPitch.RaisedByFifths` | submodules/bcg729/src/findOpenLoopPitchDelay.c:122-129 | the first by a fifth of the raised second, up to rounding |
| `OpenLoopPitch.FindOpenLoopPitchDelay` | submodules/bcg729/src/findOpenLoopPitchDelay.c:45-140 | for every signal the delay is in [20, 143] and is the favoured one of the three ranges' winners |
| `AdaptiveCodebook.FirstWindow` | submodules/bcg729/src/encoder.c:168-176 | a 7-wide window around the open-loop delay inside [20, 143] |
| `AdaptiveCodebook.SecondWindow` | submodules/bcg729/src/adaptativeCodebookSearch.c:127-137 | a 10-wide window around the first delay inside [20, 143] |
| `AdaptiveCodebook.ThirdIsExact` | submodules/bcg729/src/decodeAdaptativeCodeVector.c:67-105 | multiplying by 10923 and shifting by 15 is exact division by 3 on the range used |
| `AdaptiveCodebook.FirstCodewordRoundTrip` | submodules/bcg729/src/adaptativeCodebookSearch.c:139-144 | P1 fits 8 bits and decodes to the encoder's delay and fraction; and every 8-bit word is the code of what it decodes to |
| `AdaptiveCodebook.CodewordsCountThirds` | submodules/bcg729/src/adaptativeCodebookSearch.c:139-148 | code words grow with the delay and, where fractions are coded, count its thirds from 19 1/3 and from two thirds below the second window |
| `AdaptiveCodebook.SecondCodewordRoundTrip` | submodules/bcg729/src/decodeAdaptativeCodeVector.c:88-105 | the same for P2 on 5 bits, relative to the first delay |
| `AdaptiveCodebook.AccFits` | submodules/bcg729/src/adaptativeCodebookSearch.c:184-191 | every partial sum of the interpolation filter fits 32 bits |
| `AdaptiveCodebook.GenerateAdaptativeCodebookVector` | submodules/bcg729/src/adaptativeCodebookSearch.c:167-192 | the 40 samples written are the interpolation of the past excitation alone, at the given delay and fraction; nothing else changes |
| `AdaptiveCodebook.VectorInterpolates` | submodules/bcg729/src/adaptativeCodebookSearch.c:167-192 | sample n of the vector is the saturated, rounded sum of the twenty samples around the position T + frac/3 back, of the past and of the vector's own earlier ones, each weighted by the filter at its distance from that position in thirds |
| `AdaptiveCodebook.ImpulseResponse` | submodules/bcg729/src/decodeAdaptativeCodeVector.c:117-142 | one sample p back in a silent past is heard at sample n as the filter's value at |3(n + p) - (3T + frac)|, and not at all beyond ten samples |
| `AdaptiveCodebook.SearchDelay` | submodules/bcg729/src/adaptativeCodebookSearch.c:66-80 | the first whole delay with the largest correlation in the window |
| `AdaptiveCodebook.BestFraction` | submodules/bcg729/src/adaptativeCodebookSearch.c:84-124 | no fraction's vector correlates better than the chosen one's; on ties 0 comes before -1 before +1 |
| `AdaptiveCodebook.SearchFraction` | submodules/bcg729/src/adaptativeCodebookSearch.c:84-124 | that fraction, with its vector in the buffer whichever trial was written last |
| `BackwardFilter.CorrelateVectors` | submodules/bcg729/src/utils.c:139-150 | the 32-bit loops compute the correlations of target and impulse response |
| `BackwardFilter.BackwardIsAdjoint` | submodules/bcg729/src/adaptativeCodebookSearch.c:62-73 | any vector against the backward filtered target is the target against that vector filtered by the impulse response |
| `AdaptiveCodebook.CorrelationMatchesTarget` | submodules/bcg729/src/adaptativeCodebookSearch.c:66-73 | so the correlation compared is, up to the fractions of its forty Q12 products and to wrapping, the target against the filtered candidate |
| `AdaptiveCodebook.DelayedMatchesTarget` | submodules/bcg729/src/adaptativeCodebookSearch.c:66-73 | the same for the excitation a whole delay back |
| `AdaptiveCodebook.AdaptativeCodebookSearch` | submodules/bcg729/src/adaptativeCodebookSearch.c:58-149 | for a target and an impulse response: delay, fraction, code word, next window, and the vector, independent of the residual stored there first and of the trials |
| `AdaptiveCodebook.PitchDecoder.WriteVector` | submodules/bcg729/src/decodeAdaptativeCodeVector.c:117-142 | the decoder writes the same function of the past excitation; every read is inside the buffer and before the sample written |
| `AdaptiveCodebook.PitchDecoder.DecodeAdaptativeCodeVector` | submodules/bcg729/src/decodeAdaptativeCodeVector.c:54-145 | delay decoding and concealment as NextDelay, then that vector |
| `AdaptiveCodebook.DelayStaysInRange` | submodules/bcg729/src/decodeAdaptativeCodeVector.c:60-105 | for every mix of good, parity-error and erased subframes the memory stays in [19, 144] and fractions are -1, 0 or 1 |
| `AdaptiveCodebook.LostDelays` | submodules/bcg729/src/decodeAdaptativeCodeVector.c:54-66 | through a run of damaged subframes the delay grows by one from each to the next, up to 143, without a fraction |
| `PulseEnergy.DiagonalIsPhi` | submodules/bcg729/src/fixedCodebookSearch.c:379-397 | the diagonal recurrence computes the correlation of two delayed responses |
| `PulseEnergy.EnergyNearNorm` | submodules/bcg729/src/fixedCodebookSearch.c:119-176 | 2^(scale+1) times an accumulated energy is within one unit per matrix entry of the squared norm of the signed filtered pulses; without scaling twice the energy is at most 1 per pulse below it |
| `PulseEnergy.EnergyPositive` | submodules/bcg729/src/fixedCodebookSearch.c:141-176 | energies are positive at every scaling because h[0] is 1 in Q12 |
| `PulseEnergy.EntryFits` | submodules/bcg729/src/fixedCodebookSearch.c:322-329 | the scaling chosen keeps every signed matrix entry, and twice every diagonal one, within 28 bits, and diagonal ones are not negative |
| `PulseEnergy.EnergyFits` | submodules/bcg729/src/fixedCodebookSearch.c:322-329 | so the energy of up to four pulses stays within 32 bits, in fact within half of n^2 such entries |
| `CorrelationMatrix.ComputePhiDiagonal` | submodules/bcg729/src/fixedCodebookSearch.c:379-397 | one diagonal filled from one accumulator; every other diagonal unchanged |
| `CorrelationMatrix.ComputeImpulseResponseCorrelationMatrix` | submodules/bcg729/src/fixedCodebookSearch.c:308-376 | the matrix holds the signed, halved and scaled entries the search reads; the correlation becomes its magnitudes and the signs are returned |
| `PulseSearch.CrossMultiplied` | submodules/bcg729/src/fixedCodebookSearch.c:146-186 | every cross-multiplied comparison is the comparison of the two ratios C^2/E |
| `PulseSearch.SquareSurvives` | submodules/bcg729/src/fixedCodebookSearch.c:167-169 | a sum of four correlations can wrap only at 32768 and its square is still right |
| `PulseSearch.FindTop` | submodules/bcg729/src/fixedCodebookSearch.c:129-138 | the first largest correlation of a track other than the excluded position |
| `PulseSearch.SearchPair` | submodules/bcg729/src/fixedCodebookSearch.c:119-158 | a pair with the best ratio among those starting at one of the track's two maxima |
| `PulseSearch.SearchRest` | submodules/bcg729/src/fixedCodebookSearch.c:160-178 | with the first pair fixed, the best of all 64 completions |
| `PulseSearch.SearchPulses` | submodules/bcg729/src/fixedCodebookSearch.c:94-201 | the best of the four runs' outcomes, one pulse on each track, jx naming the last one's track |
| `FixedCodebook.SharpenDown` | submodules/bcg729/src/fixedCodebookSearch.c:62-65 | the in-place loop computes v(i) plus the scaled sharpened sample one delay before, at every delay |
| `FixedCodebook.CorrelationSignal` | submodules/bcg729/src/fixedCodebookSearch.c:67-82 | the correlation of target and response and its largest magnitude |
| `PulseMatch.SignedCrossIsInner` | submodules/bcg729/src/fixedCodebookSearch.c:71-77 | the correlations under any signed pulses add up to the target against those pulses filtered by the response |
| `PulseMatch.CorrelationIsInner` | submodules/bcg729/src/fixedCodebookSearch.c:67-92 | the sum the search squares is that inner product in units of 2^shift, off by less than a unit for each pulse, and exact without a shift |
| `PulseMatch.BestGainLeaves` | submodules/bcg729/src/fixedCodebookSearch.c:94-118 | with the gain C/E a vector leaves the target's energy less C^2/E, and no gain leaves less |
| `PulseMatch.LargerRatioLeavesLess` | submodules/bcg729/src/fixedCodebookSearch.c:141-186 | of two vectors the one with the larger C^2/E leaves less of the target, whatever the other's gain |
| `PulseMatch.TargetIsRest` | submodules/bcg729/src/fixedCodebookSearch.c:56-60 | the target searched for is what the adaptive contribution at its Q14 gain leaves of the whole one, to less than a unit |
| `FixedCodebook.ShiftedFits` | submodules/bcg729/src/fixedCodebookSearch.c:83-92 | normalised correlations fit 13 bits and sign, and use the top bit whenever anything was shifted out |
| `FixedCodebook.NormaliseCorrelation` | submodules/bcg729/src/fixedCodebookSearch.c:83-92 | both branches give the correlation shifted down by that amount |
| `FixedCodebook.PulsesRoundTrip` | submodules/bcg729/src/fixedCodebookSearch.c:219-228 | position and sign words fit 13 and 4 bits and decode to the same pulses |
| `FixedCodebook.WordsRoundTrip` | submodules/bcg729/src/decodeFixedCodeVector.c:43-69 | every 13-bit and 4-bit word is the code of the pulses it decodes to |
| `FixedCodebook.DecodeFixedCodeVector` | submodules/bcg729/src/decodeFixedCodeVector.c:36-74 | the decoder's vector is the decoded pulses, sharpened with rounding |
| `FixedCodebook.LongDelaysAgree` | submodules/bcg729/src/decodeFixedCodeVector.c:70-73 | from delay 40 on both sides hold the bare pulses, whatever their gains |
| `FixedCodebook.ShortDelaysDiffer` | submodules/bcg729/src/fixedCodebookSearch.c:214-217 | for delays 20 to 39 and the same gain the decoder's sample is the encoder's, plus 1 exactly where a pulse is echoed and the gain is odd |
| `FixedCodebook.ConvolvePulses` | submodules/bcg729/src/fixedCodebookSearch.c:235-275 | the convolved vector is the 16-bit sum of the signed delayed sharpened responses |
| `FixedCodebook.FilteredIsConvolution` | submodules/bcg729/src/fixedCodebookSearch.c:230-275 | that sum is the raw signed pulses convolved with the sharpened response |
| `FixedCodebook.FixedCodebookSearch` | submodules/bcg729/src/fixedCodebookSearch.c:52-276 | the whole search: sharpened response, the problem its target poses, the best of four runs, both words, code vector and convolved vector |
| `Convolution.ConvOfSharpened` | submodules/bcg729/src/fixedCodebookSearch.c:62-65 | convolving a sharpened signal is sharpening the convolution, for any delay and gain |
| `Convolution.ConvolvedVector` | submodules/bcg729/src/fixedCodebookSearch.c:230-234 | in exact arithmetic the pulses convolved with the sharpened response equal the sharpened vector convolved with the original response |
| `BitStream.UnpackPackMasks` | submodules/bcg729/src/utils.c:263-327 | unpacking a packed array masks every parameter to its width |
| `BitStream.PackUnpack` | submodules/bcg729/src/utils.c:263-327 | packing an unpacked frame restores all ten bytes |
| `BitStream.RoundTripExactlyInWidth` | submodules/bcg729/src/utils.c:263-327 | a parameter array survives if and only if every parameter fits its field |
| `BitStream.FrameLayout` | submodules/bcg729/src/utils.c:263-297 | the frame is the 80-bit number with the fields of Table 8 in order, most significant bit first |
| `Gains.IndexMapsAreInverse` | submodules/bcg729/src/codebooks.c:226-229 | the two index maps and their reverses are inverse permutations |
| `Gains.MACodeGainPrediction` | submodules/bcg729/src/utils.c:163-208 | the loops compute the predicted gain from the last four errors and the vector's energy |
| `Gains.ComputeGainPredictionError` | submodules/bcg729/src/utils.c:219-233 | the error array is shifted and the new error stored in front |
| `Gains.PushErrorShifts` | submodules/bcg729/src/utils.c:228-232 | the older errors move back by one place and keep their order |
| `GainRange.LogOfDouble` | submodules/bcg729/include/g729FixedPointMath.h:62-90 | the integer logarithm of twice a number is exactly one more |
| `GainRange.ExpOfNext` | submodules/bcg729/include/g729FixedPointMath.h:106-121 | one more doubles the integer exponential exactly |
| `GainRange.ErrorOfDouble` | submodules/bcg729/src/utils.c:219-233 | twice the factor is 6165 units of Q10 more, 20 log10 2 |
| `Gains.Preselect` | submodules/bcg729/src/gainQuantization.c:171-184 | the preselected windows start just below the rows that reach the unquantized gains |
| `GainTerms.ComputeAdaptativeCodebookGain` | submodules/bcg729/src/computeAdaptativeCodebookGain.c:41-67 | the 64-bit sums, and their quotient in Q14 between 0 and 1.2, which fits the 32-bit variable |
| `GainTerms.AdaptativeGainIsBest` | submodules/bcg729/src/computeAdaptativeCodebookGain.c:41-67 | no gain from 0 to 1.2 leaves less of the target, but for the next larger one, which leaves less by no more than the vector's energy |
| `GainTerms.ErrorIsForm` | submodules/bcg729/src/gainQuantization.c:58-66 | the sum of (target - gp y - gc z)^2 over any signals is the form in the six inner products, for all gains |
| `GainTerms.ScaleTerms` | submodules/bcg729/src/gainQuantization.c:69-111 | the five inner products shifted down alike, by the least shift that leaves those used twice 30 bits and a sign and the energies 31 bits |
| `Gains.DistanceIsForm` | submodules/bcg729/src/gainQuantization.c:196-204 | for such terms and all codebook gains the 64-bit distance does not wrap and is that form without the target's own energy |
| `Gains.SearchGains` | submodules/bcg729/src/gainQuantization.c:186-216 | the pair returned has the least distance over the 4 by 8 window, and is in the window for scaled terms |
| `GainError.DistanceIsError` | submodules/bcg729/src/gainQuantization.c:190-204 | the distance of a pair, in units of 2^s, is the error of its gains on the signals less the target's energy, to within 2^s - 1 times the pair's coefficients |
| `GainError.QuantizedIsBest` | submodules/bcg729/src/gainQuantization.c:186-216 | no pair of the windows leaves less of the target than the one returned, when nothing had to be shifted out; otherwise less by no more than 2^s - 1 times both pairs' coefficients |
| `Gains.GainEncoder.Quantize` | submodules/bcg729/src/gainQuantization.c:58-225 | from the signals: the scaled terms, the pair of least distance in the preselected windows, its gains and transmitted indices, and the updated error history |
| `Gains.GainDecoder.Decode` | submodules/bcg729/src/decodeGains.c:55-111 | good and erased branches: both gains and the history |
| `Gains.FixedGainGap` | submodules/bcg729/src/decodeGains.c:92-110 | for the same vector and history the decoder's fixed gain is the encoder's plus 0, 1 or 2 if and only if the predicted gain is below 2^27 |
| `Gains.ErasedAdaptiveGain` | submodules/bcg729/src/decodeGains.c:59-64 | nine tenths of the gain, at most one unit less, and nine tenths of 1 from 1 on |
| `Gains.ErasedFixedGain` | submodules/bcg729/src/decodeGains.c:65-66 | 0.98 of the gain, less than a unit below and 0.36 above |
| `Gains.ErasedErrorIsMean` | submodules/bcg729/src/decodeGains.c:68-83 | four times the error, plus 4 dB each, is the sum of the last four to within 2 units, or -14 dB below a mean of -10 dB |
| `Gains.ErasedGainsFade` | submodules/bcg729/src/decodeGains.c:59-69 | non-negative gains lose at least one unit per erased subframe until they are zero |
| `Gains.ErasureRunSettles` | submodules/bcg729/src/decodeGains.c:59-90 | in any unbroken erasure run all four errors are at -14336 from the 52nd subframe on, and non-negative gains reach 0 and stay |
| `GainRange.ErrorOfFactor` | submodules/bcg729/src/utils.c:219-233 | no codebook factor puts an error above 14420 in the history |
| `GainRange.ExpRange` | submodules/bcg729/include/g729FixedPointMath.h:106-121 | the integer exponential is never negative, and below 2^27 for arguments below 11 in Q11 |
| `GainRange.FourPulsesGap` | submodules/bcg729/src/gainQuantization.c:166-170 | for an unsharpened code vector and codebook errors the prediction is below 2^27, so the gap is always 0, 1 or 2 |
| `SharpenedGain.SameVectorExactly` | submodules/bcg729/src/fixedCodebookSearch.c:214-217 | for every pulses, delay and gain the encoder's and the decoder's code vectors are the same if and only if no echo falls into the subframe or the encoder's gain is an even number up to 0.8 |
| `SharpenedGain.LeastEnergy` | submodules/bcg729/src/utils.c:176-184 | no sharpening with a gain up to 0.8 takes the energy of four pulses below 139583816 |
| `SharpenedGain.SharpenedPredict` | submodules/bcg729/src/utils.c:163-208 | with a newest error of at most 11.2 dB the prediction for such a vector is below 2^27 |
| `SharpenedGain.EvenGainFactor` | submodules/bcg729/src/gainQuantization.c:166-170 | every pair of gain indices that leaves an even sharpening gain up to 0.8 has a factor of at most 14778, hence such an error; 13108 and 13109 do not occur |
| `FixedGainLoss.LostFixedGain` | submodules/bcg729/src/decodeGains.c:92-110 | an error-free run of three frames in which all histories agree and the fixed gain of a subframe with delay 21 is -1324 in the encoder and 2165 in the decoder |
| `CodeVectorEnergy.BareSum` | submodules/bcg729/src/utils.c:176-182 | four bare pulses have the energy 2^28 |
| `CodeVectorEnergy.SharpenedEnergy` | submodules/bcg729/src/utils.c:176-184 | for every pulses, delay and gain that occurs on either side the 32-bit sum of squares is exact and positive, so the logarithm is defined |
| `CodecRun.ComputeParity` | submodules/bcg729/src/utils.c:64-76 | the loop computes odd parity over the six high bits of P1 |
| `CodecRun.ParityIsOdd` | submodules/bcg729/src/utils.c:64-76 | the six high bits of P1 and the parity bit hold an odd number of ones |
| `CodecRun.ParityDetects` | submodules/bcg729/src/utils.c:64-76 | flipping one bit of P1 is detected if and only if it is one of the six high bits |
| `CodecRun.Parameters` | submodules/bcg729/src/encoder.c:217-236 | whatever the searches choose, all fifteen parameters fit their fields |
| `CodecRun.EncodedFilters` | submodules/bcg729/src/encoder.c:123-130 | the encoder converts pairs midway between the previous and the new ones for the first subframe and the new ones for the second |
| `CodecRun.DecodedFilters` | submodules/bcg729/src/decoder.c:136-146 | so does the decoder, for frames that arrive and for lost ones |
| `CodecRun.GoodFrame` | submodules/bcg729/src/decoder.c:117-198 | what one frame that arrives does to a decoder, next to what it did to the encoder |
| `CodecRun.LockStep` | submodules/bcg729/src/decodeLSP.c:67-162 | in every error-free run through the bit stream, for any in-range choices, code-word histories, previous pairs and prediction-error histories of both sides are equal, and the decoder's sharpening gain is the encoder's, capped at 0.8 |
| `CodecRun.ErrorFreeOutput` | submodules/bcg729/src/decoder.c:136-198 | every frame of such a run comes out with equal LP filters for both subframes, equal delays, fractions, pulses and adaptive gains, the same code vector exactly where no echo falls into the subframe or the gain is even and not capped, and there fixed gains 0 to 2 apart |
| `CodecRun.Recovers` | submodules/bcg729/src/decoder.c:97-198 | n good frames after any losses bring the n newest code words and the 2n newest prediction errors into agreement |
| `CodecRun.Resynchronises` | submodules/bcg729/src/decodeLSP.c:95-107 | after one good frame the sharpening gains agree up to the cap, after two the prediction errors are equal, after four the histories, after five the previous pairs |
| `CodecRun.FrameAfterLosses` | submodules/bcg729/src/decoder.c:136-198 | what the n-th good frame after losses decodes to, next to what was sent: pulses, delays and adaptive gains at once, code vectors and fixed gains as without losses from the third, filters from the fifth and sixth |
| `CodecContext.FrameEncoder.constructor` | submodules/bcg729/src/encoder.c:54-76 | the initial encoder context |
| `CodecContext.FrameEncoder.Encode` | submodules/bcg729/src/encoder.c:123-242 | the context after a frame, the filters and subframes, and the ten bytes are those of the encoder function for the choice the searches made |
| `CodecContext.FrameDecoder.constructor` | submodules/bcg729/src/decoder.c:52-74 | the initial decoder context |
| `CodecContext.FrameDecoder.Subframe` | submodules/bcg729/src/decoder.c:159-198 | one subframe: delay, pulses (random when erased), gains and sharpening gain |
| `CodecContext.FrameDecoder.Decode` | submodules/bcg729/src/decoder.c:97-198 | the context after any frame, good or erased, is that of the decoder function |
| `Md5.F1` | submodules/externals/libvpx/md5_utils.c:152-153 | the optimised choice function is the RFC 1321 function F |
| `Md5.MixChoosesByX` | submodules/externals/libvpx/md5_utils.c:152-156 | F takes the second argument where the first is set and the third elsewhere |
| `Md5.MixChoosesByZ` | submodules/externals/libvpx/md5_utils.c:152-156 | G takes the first where the third is set and the second elsewhere |
| `Md5.MixDiffers` | submodules/externals/libvpx/md5_utils.c:152-156 | H is the difference of the first two where the third is clear and its inverse where it is set |
| `Md5.MixInverts` | submodules/externals/libvpx/md5_utils.c:152-156 | I is the difference of the first two where the third is set and the inverse of the second elsewhere |
| `Md5.RotatesBySeven` | submodules/externals/libvpx/md5_utils.c:159-160 | the rotation moves bits up and brings the top ones back below |
| `Md5.Stirred` | submodules/externals/libvpx/md5_utils.c:158-160 | the step macro is the RFC step |
| `Md5.WordSchedule` | submodules/externals/libvpx/md5_utils.c:177-243 | the stored word order of rounds 2 to 4 is 1 + 5i, 5 + 3i and 7i modulo 16 |
| `Md5.Transform` | submodules/externals/libvpx/md5_utils.c:168-249 | the 64 unrolled steps equal the table-driven rounds of RFC 1321, section 3.4 |
| `Md5.BytesReadBack` | submodules/externals/libvpx/md5_utils.c:138-145 | the four bytes of every 32-bit number read back to it lowest first, as a number and as a word |
| `Md5.WordsRead` | submodules/externals/libvpx/md5_utils.c:28-45 | word k of a block is what bytes 4k to 4k + 3 read, lowest first |
| `Md5.StartBytes` | submodules/externals/libvpx/md5_utils.c:53-58 | the registers start as the bytes 01 23 45 67 89 ab cd ef and their reverse |
| `Md5.PaddedLength` | submodules/externals/libvpx/md5_utils.c:110-141 | padding reaches the least multiple of 64 with room for the marker and the count |
| `Md5.PaddedLayout` | submodules/externals/libvpx/md5_utils.c:110-141 | the padded message is the message, 0x80, zeros, and eight bytes that read lowest first are its length in bits modulo 2^64 |
| `Md5.OutputReads` | submodules/externals/libvpx/md5_utils.c:142-145 | the digest's four groups of bytes read lowest first are the registers |
| `Md5.CountAdds` | submodules/externals/libvpx/md5_utils.c:76-79 | two 32-bit words with carry count bytes modulo 2^64 |
| `Md5.BitCount` | submodules/externals/libvpx/md5_utils.c:138-140 | the shifted words are the bit count modulo 2^64 |
| `Md5.ChainedPrefix` | submodules/externals/libvpx/md5_utils.c:96-104 | the chaining value after k blocks does not depend on what follows them |
| `Md5.MD5Context.constructor` | submodules/externals/libvpx/md5_utils.c:53-63 | the empty message |
| `Md5.MD5Context.Update` | submodules/externals/libvpx/md5_utils.c:69-108 | the context represents the old message followed by the chunk, in all three branches |
| `Md5.MD5Context.Final` | submodules/externals/libvpx/md5_utils.c:114-146 | the digest of the whole message, in both padding cases, and a wiped context |
| `Md5.DigestInChunks` | submodules/externals/libvpx/md5_utils.c:53-146 | for every message and every cut into chunks the result is the digest of the concatenation |
| `PictureRing.RunKeepsInvariant` | submodules/externals/ffmpeg/ffplay.c:1155-1260 | the ring invariant holds over every interleaving of the two threads |
| `PictureRing.CountIsDistance` | submodules/externals/ffmpeg/ffplay.c:1404-1510 | 0 <= count <= 2, and the indices differ by the count up to moves under way |
| `PictureRing.NoSlotIsShared` | submodules/externals/ffmpeg/ffplay.c:1164-1254 | the decoder thread never writes the slot being shown or peeked at, and an overlay is replaced only while its slot holds no waiting picture |
| `PictureRing.TakenInOrder` | submodules/externals/ffmpeg/ffplay.c:1404-1510 | pictures shown or dropped are the first ones queued, in order, without gaps, and read whole |
| `PictureRing.SleeperCanWake` | submodules/externals/ffmpeg/ffplay.c:1350-1450 | no wake-up is lost: steps of the main thread alone wake a sleeping decoder thread with its condition met |

## Left out

- LspPolynomials.QLsp2Lp: exact arithmetic; the rounding and possible overflow of the Q24 integer code are not modelled.
- LspPolynomials.ComputePolynomialCoefficients: exact arithmetic; the Q24 rounding of its split multiplies is not modelled.
- LspPolynomials.AddNeighbours: exact arithmetic; the 32-bit width of its sums is not modelled.
- LspPolynomials.LpToPolynomials: exact arithmetic; the shift from Q12 to Q15 is in `RootSearch`.
- LspPolynomials.ChebyshevPolynomial: exact arithmetic; the Q15 floor is in `RootSearch.ChebyshevPolynomial`.
- LevinsonDurbin.LevinsonDurbin: exact arithmetic; the Q27 and Q31 rounding and the final conversion to Q12 are not modelled.
- LevinsonDurbin.NormalEquations: holds for the exact recursion, up to rounding for the code's.
- LevinsonStability.WindowedSignalIsStable: for the exact lag sums; that multiplying them by the rounded lag window keeps them positive definite, and that fixed-point energies stay positive, is not proved.
- Convolution.ConvOfSharpened: exact arithmetic, as the identity below.
- Convolution.ConvolvedVector: exact arithmetic; the 16-bit code satisfies it only up to rounding and wrap-around.
- RootSearch.LpToLsp: the interpolated root is a parameter, because the code's value can leave its interval, overflow its shifted numerator, or divide by zero when the two values differ by one.
- LspQuantizer.Stabilise: nothing is said of a least value of frequency 0 or of the last gap after the clamp, because the code leaves both open.
- LspErasure.ErasureInversion: frequencies within 3 units of the 16-bit limits are left out, because their prediction can be narrowed to the other end; `LspBurst.KeptRange` shows that no frequency of a well-spaced run comes near them.
- ConcealedRun.ConcealmentInverts: when fewer than five frames arrive between two bursts, the history holds recovered code words that have no known shape. For those frames only the condition of `LspErasure.ErasureInversion` on the frame is proved; no such run that fails it is known.
- LspChannel.ErrorFreeFrame: histories of code words that arrived; histories with recovered ones are those of `ConcealedRun`.
- LspChannel.LspEncoder.Encode: the indices are arbitrary in-range values; the weighted index search of LSPQuantization.c:53-206 and its optimality are not modelled.
- CodecRun.LockStep: the cosine and the LSP to LP conversion are parameters, the same functions on both sides.
- CodecRun.ErrorFreeOutput: fixed gains are compared where both sides hold the same code vector; elsewhere they are predicted from different energies, and `FixedGainLoss.LostFixedGain` shows that they can part. Excitation and speech are not compared; they differ by design: the encoder bounds its sharpening gain at 1.2 and the decoder at 0.8, and sharpening truncates on one side and rounds on the other.
- CodecRun.FrameAfterLosses: fixed gains as in `CodecRun.ErrorFreeOutput`.
- OpenLoopPitch.FindOpenLoopPitchDelay: the inverse square root is a parameter; 32-bit correlation sums wrap, where C leaves overflow undefined.
- AdaptiveCodebook.AdaptativeCodebookSearch: requires that the 32-bit sums of the backward filtered target do not overflow, which the code takes for granted; its own correlations wrap, where C leaves overflow undefined.
- FixedCodebook.FixedCodebookSearch: requires that the 32-bit accumulators of the correlation and of the response's energy do not overflow, with the margin the scaling test adds to the energy; the code takes both for granted.
- GainRange.FourPulsesGap: unsharpened vectors; `SharpenedGain` treats the sharpened ones.
- Gains.GainEncoder.Quantize: the unquantized best gains of gainQuantization.c:112-162, which only place the windows, are inputs.
- Gains.SearchGains: for terms of any size the 64-bit distance wraps; indices the code leaves uninitialised when no distance is below the maximum start at the first row. Neither happens for scaled terms.
- GainTerms.ScaleTerms: a term of exactly -2^30 is doubled and negated without overflow, where C leaves the 32-bit overflow undefined.
- GainError.QuantizedIsBest: among the pairs of the preselected windows; that the windows hold the best of all 128 pairs is not promised by the code.
- Gains.MACodeGainPrediction: requires a positive energy, which the logarithm expects and CodeVectorEnergy proves for every vector that occurs. Logarithm and exponential are right at powers of two and over octaves; their accuracy in between is not claimed.
- CodecContext.FrameEncoder.Encode: takes what the searches found as inputs, with the signals of the gain search; the excitation, target and signal buffers are not part of it.
- CodecContext.FrameEncoder.constructor: only the fields the model carries.
- CodecContext.FrameDecoder.constructor: only the fields the model carries.
- CodecContext.FrameDecoder.Subframe: as `CodecContext.FrameDecoder.Decode`.
- CodecContext.FrameDecoder.Decode: mixing the two code vectors into the excitation, synthesis, post-filter and post-processing are not modelled; a missing bit stream is a frame of zeros marked erased.
- Md5.MD5Context.Update: little-endian machines only, where byteSwap does nothing; a chunk is shorter than 2^32 bytes, as its length parameter is 32 bits.
- PictureRing.NoSlotIsShared: no abort, seek or flush; clocks, SDL, subtitles and scaling only appear as open choices; a critical section, or moving an index with its wrap, is one step, and an overlay that cannot be created ends the program.
- Pre-processing, windowing of the signal, weighted speech, and the perceptual filters: straight-line filters that would add easy members.
- The packet queue of ffplay: a plain locked list that would add easy members.
- The media streamer filters and other tools of the repository: input and output and calls into libraries that are not shown.
- Memory allocation, null pointers and uninitialised memory in C.
