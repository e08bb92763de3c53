/** Around the pulse search: the sharpened impulse response, the 13-bit correlation, the code vector,
    its two parameter words and its convolution on the encoder side, and the decoder that rebuilds
    the code vector (sections 3.8 and 4.1.4 of Recommendation G.729). */
module FixedCodebook {
  import opened FixedPoint
  import opened BackwardFilter
  import opened LagSums
  import opened PulseEnergy
  import opened CorrelationMatrix
  import opened PulseSearch
  import Convolution

  // ----- harmonic sharpening ------------------------------------------------------------------

  /** A sample scaled by a Q14 gain: rounded down when half is 0, to nearest when half is 0x2000. */
  function Scaled(x: int, beta: int, half: int): int {
    (x * beta + half) / 0x4000
  }

  /** Sample i of the sharpened signal: v(i) plus the scaled sharpened sample one delay before. */
  function SharpenedAt(v: seq<Word16>, T: nat, beta: int, half: int, i: nat): Word16
    requires T >= 1 && i < |v|
    decreases i
  {
    if i < T then v[i] else Wrap16(v[i] + Scaled(SharpenedAt(v, T, beta, half, i - T), beta, half))
  }

  function Sharpened(v: seq<Word16>, T: nat, beta: int, half: int): (s: seq<Word16>)
    requires T >= 1
    ensures |s| == |v|
  {
    seq(|v|, i requires 0 <= i < |v| => SharpenedAt(v, T, beta, half, i))
  }

  /** The encoder's loop, used on the impulse response and on the code vector. */
  method SharpenDown(a: array<Word16>, T: nat, beta: Word16)
    requires T >= 1
    modifies a
    ensures a[..] == Sharpened(old(a[..]), T, beta, 0)
  {
    hide Scaled, Wrap16;
    var i := T;
    while i < a.Length
      invariant T <= i
      invariant forall k :: 0 <= k < i && k < a.Length ==> a[k] == SharpenedAt(old(a[..]), T, beta, 0, k)
      invariant forall k :: i <= k < a.Length ==> a[k] == old(a[k])
    {
      a[i] := Wrap16(a[i] as int + Scaled(a[i - T], beta, 0));
      i := i + 1;
    }
  }

  /** The decoder's loop: the scaled sample is rounded and narrowed before it is added. */
  method SharpenRounded(a: array<Word16>, T: nat, beta: Word16)
    requires T >= 1
    modifies a
    ensures a[..] == Sharpened(old(a[..]), T, beta, 0x2000)
  {
    hide Scaled, Wrap16;
    var i := T;
    while i < a.Length
      invariant T <= i
      invariant forall k :: 0 <= k < i && k < a.Length ==> a[k] == SharpenedAt(old(a[..]), T, beta, 0x2000, k)
      invariant forall k :: i <= k < a.Length ==> a[k] == old(a[k])
    {
      WrapOfSum(a[i], Scaled(a[i - T], beta, 0x2000));
      a[i] := Wrap16(a[i] as int + Wrap16(Scaled(a[i - T], beta, 0x2000)) as int);
      i := i + 1;
    }
  }

  lemma WrapOfSum(x: int, y: int)
    ensures Wrap16(x + Wrap16(y) as int) == Wrap16(x + y)
  {
    var k := (y + 0x8000) / 0x1_0000;
    assert y == Wrap16(y) as int + 0x1_0000 * k;
    WrapIsPeriodic(x + Wrap16(y) as int, k);
  }

  // ----- pulses and their two words -----------------------------------------------------------

  /** Four signed pulses, one on each of the tracks of Table 7; jx names the last one's track. */
  datatype Pulses = Pulses(i0: nat, i1: nat, i2: nat, i3: nat, s0: int, s1: int, s2: int, s3: int)
  {
    predicate Valid() {
      && i0 < L && i1 < L && i2 < L && i3 < L
      && i0 % 5 == 0 && i1 % 5 == 1 && i2 % 5 == 2 && (i3 % 5 == 3 || i3 % 5 == 4)
      && Sign(s0) && Sign(s1) && Sign(s2) && Sign(s3)
    }

    function Jx(): int {
      i3 % 5 - 3
    }
  }

  predicate Sign(s: int) {
    s == 1 || s == -1
  }

  /** Sample n of the code vector before sharpening, in Q13. */
  function PulseAt(ps: Pulses, n: nat): Word16
    requires ps.Valid()
  {
    if n == ps.i0 then 0x2000 * ps.s0
    else if n == ps.i1 then 0x2000 * ps.s1
    else if n == ps.i2 then 0x2000 * ps.s2
    else if n == ps.i3 then 0x2000 * ps.s3
    else 0
  }

  function PulseVector(ps: Pulses): (v: seq<Word16>)
    requires ps.Valid()
    ensures |v| == L
  {
    seq(L, n requires 0 <= n < L => PulseAt(ps, n))
  }

  /** The multiply by 0.2 in Q15 that stands for a division by 5. */
  function Fifth(i: int): int {
    i * 6554 / 0x8000
  }

  lemma FifthIsExact(i: nat)
    requires i < L
    ensures Fifth(i) == i / 5
  {
  }

  /** The 13-bit position word. */
  function PositionWord(ps: Pulses): nat
    requires ps.Valid()
  {
    Fifth(ps.i0) + 8 * Fifth(ps.i1) + 64 * Fifth(ps.i2) + 512 * (2 * Fifth(ps.i3) + ps.Jx())
  }

  /** The 4-bit sign word; the bits are disjoint, so the code's `|` is a sum. */
  function SignWord(ps: Pulses): nat
    requires ps.Valid()
  {
    (ps.s0 + 1) / 2 + 2 * ((ps.s1 + 1) / 2) + 4 * ((ps.s2 + 1) / 2) + 8 * ((ps.s3 + 1) / 2)
  }

  function SignOf(bit: nat): int {
    if bit % 2 != 0 then 1 else -1
  }

  /** The pulses named by any pair of words; the mask by 7 is a remainder, the shifts are quotients. */
  function DecodedPulses(signs: nat, positions: nat): (ps: Pulses)
    ensures ps.Valid()
  {
    var jx := positions / 512 % 2;
    Placed(positions % 8, 0);
    Placed(positions / 8 % 8, 1);
    Placed(positions / 64 % 8, 2);
    Placed(positions / 1024 % 8, 3 + jx);
    Pulses(positions % 8 * 5, positions / 8 % 8 * 5 + 1, positions / 64 % 8 * 5 + 2, positions / 1024 % 8 * 5 + 3 + jx,
           SignOf(signs), SignOf(signs / 2), SignOf(signs / 4), SignOf(signs / 8))
  }

  lemma Placed(field: nat, track: nat)
    requires field < 8 && track < 5
    ensures field * 5 + track < L && (field * 5 + track) % 5 == track
  {
  }

  /** The words of a search result fit their widths and decode to the same pulses. */
  lemma PulsesRoundTrip(ps: Pulses)
    requires ps.Valid()
    ensures PositionWord(ps) < 0x2000 && SignWord(ps) < 0x10
    ensures DecodedPulses(SignWord(ps), PositionWord(ps)) == ps
  {
    hide PositionWord, SignWord, SignOf;
    PositionsRoundTrip(ps);
    SignsRoundTrip(ps);
  }

  lemma SignsRoundTrip(ps: Pulses)
    requires ps.Valid()
    ensures var w := SignWord(ps);
      w < 0x10 && SignOf(w) == ps.s0 && SignOf(w / 2) == ps.s1 && SignOf(w / 4) == ps.s2 && SignOf(w / 8) == ps.s3
  {
  }

  lemma PositionsRoundTrip(ps: Pulses)
    requires ps.Valid()
    ensures var w := PositionWord(ps);
      && w < 0x2000 && w % 8 * 5 == ps.i0 && w / 8 % 8 * 5 + 1 == ps.i1 && w / 64 % 8 * 5 + 2 == ps.i2
      && w / 512 % 2 == ps.Jx() && w / 1024 % 8 * 5 + 3 + ps.Jx() == ps.i3
  {
    hide Fifth;
    OnTrack(ps.i0, 0);
    OnTrack(ps.i1, 1);
    OnTrack(ps.i2, 2);
    OnTrack(ps.i3, 3 + ps.Jx());
    FieldsOfWord(Fifth(ps.i0), Fifth(ps.i1), Fifth(ps.i2), ps.Jx(), Fifth(ps.i3));
  }

  lemma OnTrack(i: nat, track: nat)
    requires i < L && i % 5 == track
    ensures i == Fifth(i) * 5 + track && 0 <= Fifth(i) < 8
  {
    FifthIsExact(i);
  }

  lemma FieldsOfWord(a: nat, b: nat, c: nat, jx: nat, e: nat)
    requires a < 8 && b < 8 && c < 8 && jx < 2 && e < 8
    ensures var w := a + 8 * b + 64 * c + 512 * (2 * e + jx);
      w < 0x2000 && w % 8 == a && w / 8 % 8 == b && w / 64 % 8 == c && w / 512 % 2 == jx && w / 1024 % 8 == e
  {
    var w := a + 8 * b + 64 * c + 512 * (2 * e + jx);
    assert w / 8 == b + 8 * (c + 8 * (2 * e + jx));
    assert w / 64 == c + 8 * (2 * e + jx);
    assert w / 512 == 2 * e + jx;
    assert w / 1024 == e;
  }

  /** And every pair of words within the widths is that of the pulses it decodes to. */
  lemma WordsRoundTrip(signs: nat, positions: nat)
    requires signs < 0x10 && positions < 0x2000
    ensures PositionWord(DecodedPulses(signs, positions)) == positions
    ensures SignWord(DecodedPulses(signs, positions)) == signs
  {
    PositionsOfWord(signs, positions);
    SignsOfWord(signs, positions);
  }

  lemma SignsOfWord(signs: nat, positions: nat)
    requires signs < 0x10
    ensures SignWord(DecodedPulses(signs, positions)) == signs
  {
    BitOfSign(signs);
    BitOfSign(signs / 2);
    BitOfSign(signs / 4);
    BitOfSign(signs / 8);
    BitsOfWord(signs);
    hide SignOf;
    var ps := DecodedPulses(signs, positions);
    assert ps.s0 == SignOf(signs) && ps.s1 == SignOf(signs / 2) && ps.s2 == SignOf(signs / 4) && ps.s3 == SignOf(signs / 8);
    hide DecodedPulses;
  }

  lemma BitsOfWord(w: nat)
    requires w < 0x10
    ensures w % 2 + 2 * (w / 2 % 2) + 4 * (w / 4 % 2) + 8 * (w / 8 % 2) == w
  {
    assert w / 2 == w / 2 % 2 + 2 * (w / 4);
    assert w / 4 == w / 4 % 2 + 2 * (w / 8);
  }

  lemma BitOfSign(bit: nat)
    ensures (SignOf(bit) + 1) / 2 == bit % 2
  {
  }

  lemma FieldOf(field: nat, track: nat)
    requires field < 8 && track < 5
    ensures Fifth(field * 5 + track) == field && (field * 5 + track) % 5 == track
  {
    FifthIsExact(field * 5 + track);
  }

  lemma PositionsOfWord(signs: nat, positions: nat)
    requires positions < 0x2000
    ensures PositionWord(DecodedPulses(signs, positions)) == positions
  {
    var w := positions;
    var ps := DecodedPulses(signs, w);
    hide Fifth;
    FieldOf(w % 8, 0);
    FieldOf(w / 8 % 8, 1);
    FieldOf(w / 64 % 8, 2);
    FieldOf(w / 1024 % 8, 3 + w / 512 % 2);
    assert ps.Jx() == w / 512 % 2;
    assert PositionWord(ps) == w % 8 + 8 * (w / 8 % 8) + 64 * (w / 64 % 8) + 512 * (2 * (w / 1024 % 8) + w / 512 % 2);
    WordOfFields(w);
  }

  lemma WordOfFields(w: nat)
    requires w < 0x2000
    ensures w % 8 + 8 * (w / 8 % 8) + 64 * (w / 64 % 8) + 512 * (2 * (w / 1024 % 8) + w / 512 % 2) == w
  {
    AfterFirst(w);
    AfterSecond(w);
    AfterThird(w);
    Joined(w, w % 8, w / 8, w / 8 % 8, w / 64, w / 64 % 8, w / 512, w / 512 % 2, w / 1024, w / 1024 % 8);
  }

  lemma AfterFirst(w: nat)
    ensures w == w % 8 + 8 * (w / 8) && w / 8 == w / 8 % 8 + 8 * (w / 64)
  {
  }

  lemma AfterSecond(w: nat)
    ensures w / 64 == w / 64 % 8 + 8 * (w / 512)
  {
  }

  lemma AfterThird(w: nat)
    requires w < 0x2000
    ensures w / 512 == w / 512 % 2 + 2 * (w / 1024) && w / 1024 == w / 1024 % 8
  {
  }

  lemma Joined(w: nat, a: nat, v: nat, b: nat, u: nat, c: nat, t: nat, d: nat, s: nat, e: nat)
    requires w == a + 8 * v && v == b + 8 * u && u == c + 8 * t && t == d + 2 * s && s == e
    ensures a + 8 * b + 64 * c + 512 * (2 * e + d) == w
  {
  }

  // ----- the decoder --------------------------------------------------------------------------

  method DecodeFixedCodeVector(signs: nat, positions: nat, T: nat, beta: Word16, v: array<Word16>)
    requires v.Length == L && T >= 1
    modifies v
    ensures v[..] == Sharpened(PulseVector(DecodedPulses(signs, positions)), T, beta, 0x2000)
  {
    var word := positions;
    var m := new nat[4];
    m[0] := word % 8 * 5;
    word := word / 8;
    m[1] := word % 8 * 5 + 1;
    word := word / 8;
    m[2] := word % 8 * 5 + 2;
    word := word / 8;
    var jx := word % 2;
    word := word / 2;
    m[3] := word % 8 * 5 + 3 + jx;
    ghost var ps := DecodedPulses(signs, positions);
    ShiftedFields(positions);
    assert m[0] == ps.i0 && m[1] == ps.i1 && m[2] == ps.i2 && m[3] == ps.i3;
    for i := 0 to L
      invariant forall k :: 0 <= k < i ==> v[k] == 0
      modifies v
    {
      v[i] := 0;
    }
    SetSigned(signs, ps, m, v);
    assert v[..] == PulseVector(ps);
    SharpenRounded(v, T, beta);
  }

  lemma ShiftedFields(w: nat)
    ensures w / 8 / 8 == w / 64 && w / 64 / 8 == w / 512 && w / 512 / 2 == w / 1024
  {
  }

  /** The loop over the sign bits. */
  method SetSigned(signs: nat, ghost ps: Pulses, m: array<nat>, v: array<Word16>)
    requires ps.Valid() && m.Length == 4 && v.Length == L
    requires m[0] == ps.i0 && m[1] == ps.i1 && m[2] == ps.i2 && m[3] == ps.i3
    requires ps.s0 == SignOf(signs) && ps.s1 == SignOf(signs / 2) && ps.s2 == SignOf(signs / 4) && ps.s3 == SignOf(signs / 8)
    requires forall k :: 0 <= k < L ==> v[k] == 0
    modifies v
    ensures forall k :: 0 <= k < L ==> v[k] == PulseAt(ps, k)
  {
    var bits := signs;
    for i := 0 to 4
      invariant bits == if i == 0 then signs else if i == 1 then signs / 2 else if i == 2 then signs / 4 else if i == 3 then signs / 8 else bits
      invariant forall k :: 0 <= k < L ==> v[k] == if k in m[..i] then PulseAt(ps, k) else 0
    {
      ghost var before := v[..];
      v[m[i]] := if bits % 2 != 0 then 0x2000 else -0x2000;
      assert v[m[i]] == PulseAt(ps, m[i]);
      assert m[..i + 1] == m[..i] + [m[i]];
      bits := bits / 2;
    }
    assert m[..4] == [ps.i0, ps.i1, ps.i2, ps.i3];
  }

  // ----- encoder and decoder code vectors -----------------------------------------------------

  /** From a delay of 40 on there is nothing to sharpen: both sides hold the bare pulses, whatever
      their gains. */
  lemma LongDelaysAgree(ps: Pulses, T: nat, beta: Word16, beta': Word16, n: nat)
    requires ps.Valid() && T >= L && n < L
    ensures SharpenedAt(PulseVector(ps), T, beta, 0, n) == PulseAt(ps, n)
    ensures SharpenedAt(PulseVector(ps), T, beta', 0x2000, n) == PulseAt(ps, n)
  {
  }

  /** For a delay of 20 to 39 and the same gain, the decoder's sample is the encoder's, or one more:
      exactly when a pulse is echoed there and the gain is odd. */
  lemma ShortDelaysDiffer(ps: Pulses, T: nat, beta: Word16, n: nat)
    requires ps.Valid() && 20 <= T < L && n < L
    ensures var v := PulseVector(ps);
      SharpenedAt(v, T, beta, 0x2000, n) as int - SharpenedAt(v, T, beta, 0, n) as int
      == if n >= T && v[n - T] != 0 && beta % 2 != 0 then 1 else 0
  {
    hide PulseAt, Scaled, Wrap16;
    var v := PulseVector(ps);
    if n >= T {
      BareValue(ps, n);
      BareValue(ps, n - T);
      EchoOf(PulseAt(ps, n - T), beta);
      NoWrap16(PulseAt(ps, n) as int + Scaled(PulseAt(ps, n - T), beta, 0));
      NoWrap16(PulseAt(ps, n) as int + Scaled(PulseAt(ps, n - T), beta, 0x2000));
      assert SharpenedAt(v, T, beta, 0, n - T) == PulseAt(ps, n - T) == SharpenedAt(v, T, beta, 0x2000, n - T);
    }
  }

  lemma BareValue(ps: Pulses, n: nat)
    requires ps.Valid()
    ensures PulseAt(ps, n) == 0 || PulseAt(ps, n) == 0x2000 || PulseAt(ps, n) == -0x2000
  {
  }

  lemma NoWrap16(x: int)
    requires -0x8000 <= x <= 0x7fff
    ensures Wrap16(x) as int == x
  {
  }

  lemma EchoOf(x: int, beta: Word16)
    requires x == 0 || x == 0x2000 || x == -0x2000
    ensures -0x4000 <= Scaled(x, beta, 0) <= 0x4000 && -0x4000 <= Scaled(x, beta, 0x2000) <= 0x4000
    ensures Scaled(x, beta, 0x2000) - Scaled(x, beta, 0) == if x != 0 && beta % 2 != 0 then 1 else 0
  {
  }

  // ----- the correlation on 13 bits -----------------------------------------------------------

  /** The 32-bit accumulators suffice, sign change included. */
  ghost predicate CrossFits(t: seq<Word16>, h: seq<Word16>) {
    |t| == L && |h| == L && SumsFit(t, h)
  }

  method CorrelationSignal(t: seq<Word16>, h: seq<Word16>) returns (c: array<int>, top: Word32)
    requires CrossFits(t, h)
    ensures fresh(c) && c.Length == L && forall n :: 0 <= n < L ==> c[n] == CrossSum(t, h, n, L) && Abs(c[n]) <= top
    ensures top == 0 || exists n :: 0 <= n < L && Abs(c[n]) == top
  {
    c := new int[L];
    top := 0;
    for n := 0 to L
      invariant forall k :: 0 <= k < n ==> c[k] == CrossSum(t, h, k, L) && Abs(c[k]) <= top
      invariant 0 <= top && (top == 0 || exists k :: 0 <= k < n && Abs(c[k]) == top)
    {
      c[n] := CrossTotal(t, h, n);
      var a: Word32 := if c[n] >= 0 then c[n] else -c[n];
      assert a == Abs(c[n]);
      if a > top {
        top := a;
      }
    }
  }

  /** The correlation shifted down by 18 minus the number of leading zeros of its maximum, when that
      is positive. */
  function Shift13(top: Word32): nat
    requires top >= 0
  {
    var zeros := LeadingZeros(top);
    if zeros < 18 then 18 - zeros else 0
  }

  /** Normalised values fit the 13 bits the 32-bit squares of the search need; the largest uses the
      13th bit whenever anything was shifted out. */
  lemma ShiftedFits(x: int, top: Word32)
    requires top >= 0 && Abs(x) <= top
    ensures -0x2000 <= x / Pow2(Shift13(top)) < 0x2000
    ensures Shift13(top) > 0 && x == top ==> x / Pow2(Shift13(top)) >= 0x1000
  {
    if top > 0 {
      var zeros := LeadingZeros(top);
      var p, q := Pow2(zeros), Pow2(Shift13(top));
      Pow2Of30(30);
      Pow2Sum(13, 18);
      Pow2Sum(1, 17);
      Pow2Sum(8, 9);
      Pow2Sum(4, 4);
      Pow2Sum(5, 8);
      assert Pow2(18) == 0x4_0000 && Pow2(13) == 0x2000;
      if zeros < 18 {
        Pow2Sum(zeros, 18 - zeros);
        Quotient13(x, top, p, q);
      } else {
        Pow2Sum(18, zeros - 18);
        assert p == 0x4_0000 * Pow2(zeros - 18);
        SmallTop(top, p, Pow2(zeros - 18));
      }
    }
  }

  lemma SmallTop(top: int, p: int, r: int)
    requires top > 0 && r >= 1 && p == 0x4_0000 * r && top * p <= MAX32
    ensures top < 0x2000
  {
    assert top * p == 0x4_0000 * (top * r);
    assert top * r >= top by { MulAtLeast(r, top); }
  }

  /** p * q is 2^18 and top * p lies in [2^30, 2^31). */
  lemma Quotient13(x: int, top: int, p: int, q: int)
    requires p > 0 && q > 0 && p * q == 0x4_0000 && 0x4000_0000 <= top * p <= MAX32 && -top <= x <= top
    ensures -0x2000 <= x / q < 0x2000 && (x == top ==> x / q >= 0x1000)
  {
    assert top < 0x2000 * q by {
      if top >= 0x2000 * q {
        MulOrder(0x2000 * q, top, p);
        Regroup(0x2000, q, p);
      }
    }
    assert top >= 0x1000 * q by {
      if top < 0x1000 * q {
        MulOrder(top, 0x1000 * q, p);
        Regroup(0x1000, q, p);
        StrictMul(top, 0x1000 * q, p);
      }
    }
    QuotientBounds(x, q);
  }

  lemma Regroup(a: int, q: int, p: int)
    ensures (a * q) * p == a * (p * q)
  {
  }

  lemma MulOrder(a: int, b: int, p: int)
    requires a <= b && p > 0
    ensures a * p <= b * p
  {
  }

  lemma StrictMul(a: int, b: int, p: int)
    requires a < b && p > 0
    ensures a * p < b * p
  {
  }

  lemma QuotientBounds(x: int, q: int)
    requires q > 0
    ensures x < 0x2000 * q ==> x / q < 0x2000
    ensures x >= -0x2000 * q ==> x / q >= -0x2000
    ensures x >= 0x1000 * q ==> x / q >= 0x1000
  {
    var y := x / q;
    assert x == y * q + x % q;
    if y >= 0x2000 { MulOrder(0x2000, y, q); }
    if y <= -0x2001 { MulOrder(y, -0x2001, q); }
    if y <= 0xfff { MulOrder(y, 0xfff, q); }
  }

  method NormaliseCorrelation(c: array<int>, top: Word32) returns (d: array<Word16>)
    requires c.Length == L && top >= 0 && forall n :: 0 <= n < L ==> Abs(c[n]) <= top
    ensures fresh(d) && d.Length == L
    ensures forall n :: 0 <= n < L ==> d[n] == c[n] / Pow2(Shift13(top)) && -0x2000 <= d[n] < 0x2000
  {
    hide Abs, LeadingZeros, Pow2;
    d := new Word16[L];
    var zeros := CountLeadingZeros(top);
    for i := 0 to L
      invariant forall n :: 0 <= n < i ==> d[n] == c[n] / Pow2(Shift13(top)) && -0x2000 <= d[n] < 0x2000
    {
      ShiftedFits(c[i], top);
      if zeros < 18 {
        d[i] := c[i] / Pow2(18 - zeros);
      } else {
        UnitPow();
        d[i] := Wrap16(c[i]);
      }
    }
  }

  // ----- the convolved vector -----------------------------------------------------------------

  /** The first pulse: silence before it, then the response or its negative. */
  method StartConvolved(h: seq<Word16>, s: int, m: nat, y: array<Word16>)
    requires |h| == L && y.Length == L && m < L && Sign(s)
    modifies y
    ensures forall n :: 0 <= n < L ==> y[n] == Wrap16(s * Tap(h, m, n))
  {
    for i := 0 to m
      invariant forall k :: 0 <= k < i ==> y[k] == 0
    {
      y[i] := 0;
    }
    for i := m to L
      invariant forall k :: 0 <= k < m ==> y[k] == 0
      invariant forall k :: m <= k < i ==> y[k] == Wrap16(s * Tap(h, m, k))
    {
      y[i] := Wrap16(if s > 0 then h[i - m] as int else -(h[i - m] as int));
    }
  }

  /** One more pulse: the delayed response added or subtracted on 16 bits. */
  method AddDelayed(h: seq<Word16>, s: int, m: nat, y: array<Word16>)
    requires |h| == L && y.Length == L && m < L && Sign(s)
    modifies y
    ensures forall n :: 0 <= n < L ==> y[n] == Wrap16(old(y[n]) as int + s * Tap(h, m, n))
  {
    for i := m to L
      invariant forall k :: 0 <= k < m ==> y[k] == old(y[k])
      invariant forall k :: m <= k < i ==> y[k] == Wrap16(old(y[k]) as int + s * Tap(h, m, k))
      invariant forall k :: i <= k < L ==> y[k] == old(y[k])
    {
      y[i] := Wrap16(if s > 0 then y[i] as int + h[i - m] as int else y[i] as int - h[i - m] as int);
    }
  }

  /** The convolved vector is the signed sum of delayed responses whose energy the search uses. */
  method ConvolvePulses(h: seq<Word16>, sgn: seq<int>, i0: nat, i1: nat, i2: nat, i3: nat, y: array<Word16>)
    requires |h| == L && y.Length == L && Signs(sgn) && Positions([i0, i1, i2, i3])
    modifies y
    ensures forall n :: 0 <= n < L ==> y[n] == Wrap16(Filtered(h, sgn, [i0, i1, i2, i3], n))
  {
    hide Wrap16, Tap, Filtered;
    assert [i0, i1, i2, i3][0] == i0 && [i0, i1, i2, i3][1] == i1 && [i0, i1, i2, i3][2] == i2 && [i0, i1, i2, i3][3] == i3;
    StartConvolved(h, sgn[i0], i0, y);
    AddDelayed(h, sgn[i1], i1, y);
    AddDelayed(h, sgn[i2], i2, y);
    AddDelayed(h, sgn[i3], i3, y);
    forall n | 0 <= n < L
      ensures y[n] == Wrap16(Filtered(h, sgn, [i0, i1, i2, i3], n))
    {
      FourDelayed(h, sgn, i0, i1, i2, i3, n);
    }
  }

  lemma FourDelayed(h: seq<Word16>, sgn: seq<int>, i0: nat, i1: nat, i2: nat, i3: nat, n: int)
    requires |h| == L && Signs(sgn) && i0 < L && i1 < L && i2 < L && i3 < L
    ensures Wrap16(Filtered(h, sgn, [i0, i1, i2, i3], n))
         == Wrap16(Wrap16(Wrap16(Wrap16(sgn[i0] * Tap(h, i0, n)) as int + sgn[i1] * Tap(h, i1, n)) as int + sgn[i2] * Tap(h, i2, n)) as int
                   + sgn[i3] * Tap(h, i3, n))
  {
    assert [i0, i1, i2, i3][..3] == [i0, i1, i2] && [i0, i1, i2][..2] == [i0, i1] && [i0, i1][..1] == [i0] && [i0][..0] == [];
    var a, b, c, e := sgn[i0] * Tap(h, i0, n), sgn[i1] * Tap(h, i1, n), sgn[i2] * Tap(h, i2, n), sgn[i3] * Tap(h, i3, n);
    assert Filtered(h, sgn, [i0], n) == a;
    assert Filtered(h, sgn, [i0, i1], n) == a + b;
    assert Filtered(h, sgn, [i0, i1, i2], n) == a + b + c;
    assert Filtered(h, sgn, [i0, i1, i2, i3], n) == a + b + c + e;
    hide Wrap16, Filtered, Tap;
    WrapOfSum(b, a);
    WrapOfSum(c, a + b);
    WrapOfSum(e, a + b + c);
  }

  /** The response as a signal over the reals. */
  ghost function Response(h: seq<Word16>): Convolution.Signal {
    n => if 0 <= n < |h| then h[n] as real else 0.0
  }

  /** The pulses as a train over the reals. */
  function TrainOf(sgn: seq<int>, ms: seq<nat>): seq<Convolution.Pulse>
    requires Signs(sgn) && Positions(ms)
  {
    if ms == [] then []
    else
      var m := ms[|ms| - 1];
      TrainOf(sgn, ms[..|ms| - 1]) + [Convolution.Pulse(m, sgn[m] as real)]
  }

  /** The integer sum is the delayed sum of the exact identity, so as long as it fits 16 bits the
      code's convolved vector is the pulse train filtered by the stored response. */
  lemma {:induction false} FilteredIsConvolution(h: seq<Word16>, sgn: seq<int>, ms: seq<nat>, n: int)
    requires |h| == L && Signs(sgn) && Positions(ms) && 0 <= n < L
    ensures Filtered(h, sgn, ms, n) as real == Convolution.Conv(Convolution.Train(TrainOf(sgn, ms)), Response(h), n)
  {
    FilteredIsDelayed(h, sgn, ms, n);
    Convolution.ConvOfTrain(TrainOf(sgn, ms), Response(h), n);
  }

  lemma {:induction false} FilteredIsDelayed(h: seq<Word16>, sgn: seq<int>, ms: seq<nat>, n: int)
    requires |h| == L && Signs(sgn) && Positions(ms) && 0 <= n < L
    ensures Filtered(h, sgn, ms, n) as real == Convolution.Delayed(TrainOf(sgn, ms), Response(h), n)
    decreases |ms|
  {
    if ms != [] {
      var rest, m := ms[..|ms| - 1], ms[|ms| - 1];
      FilteredIsDelayed(h, sgn, rest, n);
      var train := TrainOf(sgn, ms);
      assert train[..|train| - 1] == TrainOf(sgn, rest);
      SignedTap(sgn[m], Tap(h, m, n));
    }
  }

  lemma SignedTap(s: int, x: int)
    requires s == 1 || s == -1
    ensures (s * x) as real == (s as real) * (x as real)
  {
  }

  // ----- the search ---------------------------------------------------------------------------

  /** The target of the fixed codebook: what the adaptive codebook leaves. */
  function TargetAt(target: seq<Word16>, filtered: seq<Word16>, gain: int, i: nat): Word16
    requires i < |target| == |filtered|
  {
    Wrap16(target[i] as int - filtered[i] as int * gain / 0x4000)
  }

  function Target(target: seq<Word16>, filtered: seq<Word16>, gain: int): (t: seq<Word16>)
    requires |target| == |filtered|
    ensures |t| == |target|
  {
    seq(|target|, i requires 0 <= i < |target| => TargetAt(target, filtered, gain, i))
  }

  /** top is the largest magnitude of the correlation. */
  ghost predicate IsPeak(t: seq<Word16>, h: seq<Word16>, top: Word32)
    requires |t| == L && |h| == L
  {
    && top >= 0 && (forall n :: 0 <= n < L ==> Abs(CrossSum(t, h, n, L)) <= top)
    && (top == 0 || exists n :: 0 <= n < L && Abs(CrossSum(t, h, n, L)) == top)
  }

  /** p asks for the pulses that best match the target t through the response h. */
  ghost predicate Poses(p: Problem, t: seq<Word16>, h: seq<Word16>, top: Word32)
    requires |t| == L && Quiet(h)
  {
    && p.Valid() && p.h == h && p.scale == ScaleOf(Corr(h, 0, L)) && IsPeak(t, h, top)
    && (forall n :: 0 <= n < L ==> p.sgn[n] == if CrossSum(t, h, n, L) >= 0 then 1 else -1)
    && (forall n :: 0 <= n < L ==> p.d[n] as int == Abs(CrossSum(t, h, n, L) / Pow2(Shift13(top))))
  }

  lemma SignOfQuotient(x: int, q: int)
    requires q > 0
    ensures x / q >= 0 <==> x >= 0
  {
    if x < 0 && x / q >= 0 {
      MulOrder(0, x / q, q);
    }
  }

  /** The signed, normalised correlation and its matrix. */
  method PoseProblem(t: seq<Word16>, h: seq<Word16>) returns (d: array<Word16>, sgn: seq<int>, phi: array2<Word32>, p: Problem, ghost top: Word32)
    requires Quiet(h) && h[0] == 0x1000 && CrossFits(t, h)
    ensures d.Length == L && p == Problem(h, sgn, p.scale, d[..]) && Poses(p, t, h, top)
    ensures IsMatrix(phi, h, sgn, p.scale)
  {
    var c, peak := CorrelationSignal(t, h);
    top := peak;
    d := NormaliseCorrelation(c, peak);
    ghost var before := d[..];
    var scale;
    sgn, phi, scale := ComputeImpulseResponseCorrelationMatrix(h, d);
    p := Problem(h, sgn, scale, d[..]);
    hide CrossFits, Corr, Pow2, Shift13, IsMatrix, CrossSum, Signs;
    forall n | 0 <= n < L
      ensures (before[n] >= 0) == (CrossSum(t, h, n, L) >= 0)
    {
      SignOfQuotient(CrossSum(t, h, n, L), Pow2(Shift13(top)));
    }
    forall n | 0 <= n < L
      ensures d[n] as int == Abs(CrossSum(t, h, n, L) / Pow2(Shift13(top))) && 0 <= d[n] <= 0x2000
    {
    }
  }

  /** The pulses of a chosen run with the signs of the correlation under them. */
  function SignedPulses(sgn: seq<int>, i: (nat, nat, nat, nat)): Pulses
    requires Signs(sgn) && i.0 < L && i.1 < L && i.2 < L && i.3 < L
  {
    Pulses(i.0, i.1, i.2, i.3, sgn[i.0], sgn[i.1], sgn[i.2], sgn[i.3])
  }

  method ComputeTarget(target: seq<Word16>, filtered: seq<Word16>, gain: Word16) returns (t: array<Word16>)
    requires |target| == L && |filtered| == L
    ensures fresh(t) && t[..] == Target(target, filtered, gain)
  {
    t := new Word16[L];
    for i := 0 to L
      invariant forall k :: 0 <= k < i ==> t[k] == TargetAt(target, filtered, gain, k)
    {
      t[i] := Wrap16(target[i] as int - filtered[i] as int * gain as int / 0x4000);
    }
  }

  /** The four pulses in place, then sharpened. */
  method EncodeVector(ps: Pulses, T: nat, beta: Word16, v: array<Word16>)
    requires ps.Valid() && T >= 1 && v.Length == L
    modifies v
    ensures v[..] == Sharpened(PulseVector(ps), T, beta, 0)
  {
    for i := 0 to L
      invariant forall k :: 0 <= k < i ==> v[k] == 0
    {
      v[i] := 0;
    }
    v[ps.i0] := 0x2000 * ps.s0;
    v[ps.i1] := 0x2000 * ps.s1;
    v[ps.i2] := 0x2000 * ps.s2;
    v[ps.i3] := 0x2000 * ps.s3;
    assert v[..] == PulseVector(ps);
    SharpenDown(v, T, beta);
  }

  /** quads are the outcomes of the four runs and chosen is the best of them. */
  ghost predicate Best(p: Problem, quads: seq<seq<nat>>, chosen: nat)
    requires p.Valid()
  {
    && |quads| == 4 && chosen < 4 && RunOutcomes(p, quads) && |quads[chosen]| == 4
    && forall r :: 0 <= r < 4 ==> Ratio(p, quads[r]) <= Ratio(p, quads[chosen])
  }

  method PoseAndSearch(t: seq<Word16>, h: seq<Word16>)
    returns (ps: Pulses, jx: nat, sgn: seq<int>, ghost p: Problem, ghost top: Word32, ghost quads: seq<seq<nat>>, ghost chosen: nat)
    requires Quiet(h) && h[0] == 0x1000 && CrossFits(t, h)
    ensures Poses(p, t, h, top) && Best(p, quads, chosen) && sgn == p.sgn
    ensures ps.Valid() && ps.Jx() == jx == chosen / 2
    ensures Arranged(chosen % 2, quads[chosen]) == (ps.i0, ps.i1, ps.i2, ps.i3)
    ensures ps == SignedPulses(sgn, (ps.i0, ps.i1, ps.i2, ps.i3))
  {
    hide Quiet, CrossFits, IsMatrix, RunOutcome, Ratio, IsPeak, Arranged;
    var d, phi, problem;
    d, sgn, phi, problem, top := PoseProblem(t, h);
    p := problem;
    var i0, i1, i2, i3;
    i0, i1, i2, i3, jx, quads, chosen := SearchPulses(problem, phi);
    ps := Pulses(i0, i1, i2, i3, sgn[i0], sgn[i1], sgn[i2], sgn[i3]);
  }

  /** The two parameter words of the chosen pulses. */
  method PulseWords(ps: Pulses, jx: nat) returns (parameter: nat, signs: nat)
    requires ps.Valid() && ps.Jx() == jx
    ensures parameter == PositionWord(ps) && signs == SignWord(ps)
  {
    hide Fifth;
    FifthIsExact(ps.i0);
    FifthIsExact(ps.i1);
    FifthIsExact(ps.i2);
    FifthIsExact(ps.i3);
    parameter := Fifth(ps.i0) + 8 * Fifth(ps.i1) + 64 * Fifth(ps.i2) + 512 * (2 * Fifth(ps.i3) + jx);
    signs := (ps.s0 + 1) / 2 + 2 * ((ps.s1 + 1) / 2) + 4 * ((ps.s2 + 1) / 2) + 8 * ((ps.s3 + 1) / 2);
  }

  /** The words, code vector and convolved vector of the pulses at positions i, with the problem's signs. */
  ghost predicate Delivered(p: Problem, i: (nat, nat, nat, nat), T: nat, beta: Word16, parameter: nat, signs: nat,
                            vector: seq<Word16>, convolved: seq<Word16>)
    requires p.Valid() && T >= 1
  {
    && i.0 < L && i.1 < L && i.2 < L && i.3 < L
    && var ps := SignedPulses(p.sgn, i);
    && ps.Valid() && parameter == PositionWord(ps) && signs == SignWord(ps)
    && vector == Sharpened(PulseVector(ps), T, beta, 0)
    && |convolved| == L && forall n :: 0 <= n < L ==> convolved[n] == Wrap16(Filtered(p.h, p.sgn, [i.0, i.1, i.2, i.3], n))
  }

  /** Write out the chosen pulses: the code vector, the two words and the convolved vector. */
  method Deliver(ps: Pulses, jx: nat, T: nat, beta: Word16, h: seq<Word16>, sgn: seq<int>, ghost p: Problem,
                 vector: array<Word16>, convolved: array<Word16>) returns (parameter: nat, signs: nat)
    requires p.Valid() && p.h == h && p.sgn == sgn && T >= 1 && ps.Valid() && ps.Jx() == jx
    requires ps == SignedPulses(sgn, (ps.i0, ps.i1, ps.i2, ps.i3))
    requires vector.Length == L && convolved.Length == L && vector != convolved
    modifies vector, convolved
    ensures Delivered(p, (ps.i0, ps.i1, ps.i2, ps.i3), T, beta, parameter, signs, vector[..], convolved[..])
  {
    hide Sharpened, Filtered, Wrap16, PositionWord, SignWord, PulseVector;
    EncodeVector(ps, T, beta, vector);
    parameter, signs := PulseWords(ps, jx);
    ConvolvePulses(h, sgn, ps.i0, ps.i1, ps.i2, ps.i3, convolved);
  }

  /** The fixed codebook search: h becomes the sharpened response; quads are the four runs' outcomes
      for the problem posed by the target and that response, chosen the best of them; the two words,
      the code vector and the convolved vector are those of its pulses. */
  method FixedCodebookSearch(target: seq<Word16>, h: array<Word16>, T: nat, lastGain: Word16,
                             filtered: seq<Word16>, gain: Word16, vector: array<Word16>, convolved: array<Word16>)
    returns (parameter: nat, signs: nat, ghost p: Problem, ghost top: Word32, ghost quads: seq<seq<nat>>, ghost chosen: nat)
    requires |target| == L && |filtered| == L && h.Length == L && vector.Length == L && convolved.Length == L
    requires h != vector && h != convolved && vector != convolved
    requires T >= 1 && h[0] == 0x1000
    requires Quiet(Sharpened(h[..], T, lastGain, 0))
    requires CrossFits(Target(target, filtered, gain), Sharpened(h[..], T, lastGain, 0))
    modifies h, vector, convolved
    ensures h[..] == Sharpened(old(h[..]), T, lastGain, 0)
    ensures Poses(p, Target(target, filtered, gain), h[..], top)
    ensures Best(p, quads, chosen)
    ensures Delivered(p, Arranged(chosen % 2, quads[chosen]), T, lastGain, parameter, signs, vector[..], convolved[..])
    ensures Arranged(chosen % 2, quads[chosen]).3 % 5 == 3 + chosen / 2
  {
    hide Quiet, CrossFits, Sharpened, SharpenedAt, Target, Best, Poses, Delivered, Arranged, SignedPulses;
    FirstSampleKept(h[..], T, lastGain);
    var t := ComputeTarget(target, filtered, gain);
    SharpenDown(h, T, lastGain);
    var ps, jx, sgn;
    ps, jx, sgn, p, top, quads, chosen := PoseAndSearch(t[..], h[..]);
    FactsOfProblem(p, t[..], h[..], top, quads, chosen);
    parameter, signs := Deliver(ps, jx, T, lastGain, h[..], sgn, p, vector, convolved);
  }

  lemma FactsOfProblem(p: Problem, t: seq<Word16>, h: seq<Word16>, top: Word32, quads: seq<seq<nat>>, chosen: nat)
    requires |t| == L && Quiet(h) && Poses(p, t, h, top) && Best(p, quads, chosen)
    ensures p.Valid() && p.h == h && |quads| == 4 && chosen < 4 && |quads[chosen]| == 4
  {
  }

  lemma FirstSampleKept(h: seq<Word16>, T: nat, beta: Word16)
    requires T >= 1 && |h| == L
    ensures Sharpened(h, T, beta, 0)[0] == h[0]
  {
  }
}
