/** The 80-bit frame: fifteen parameters packed into ten bytes (section 4, Table 8, of
    Recommendation G.729). Masking a field to w bits is `% 2^w`, shifting is multiplication or
    division by a power of two, and joining fields with disjoint bits is addition. */
module BitStream {
  import opened FixedPoint

  /** 2 to the widths of L0, L1, L2, L3, P1, P0, C1, S1, GA1, GB1, P2, C2, S2, GA2, GB2. */
  function Bound(i: nat): (b: int)
    requires i < 15
    ensures b > 0
  {
    match i
    case 0 => 2 case 1 => 128 case 2 => 32 case 3 => 32 case 4 => 256
    case 5 => 2 case 6 => 8192 case 7 => 16 case 8 => 8 case 9 => 16
    case 10 => 32 case 11 => 8192 case 12 => 16 case 13 => 8 case _ => 16
  }

  predicate InWidth(p: seq<nat>) {
    |p| == 15 && forall i :: 0 <= i < 15 ==> p[i] < Bound(i)
  }

  predicate IsFrame(b: seq<nat>) {
    |b| == 10 && forall i :: 0 <= i < 10 ==> b[i] < 256
  }

  // ----- the bytes of a frame -------------------------------------------------------------

  function Byte0(l0: nat, l1: nat): (b: nat)
    ensures b < 256
  {
    l0 % 2 * 128 + l1 % 128
  }

  function Byte1(l2: nat, l3: nat): (b: nat)
    ensures b < 256
  {
    l2 % 32 * 8 + l3 / 4 % 8
  }

  function Byte2(l3: nat, p1: nat): (b: nat)
    ensures b < 256
  {
    l3 % 4 * 64 + p1 / 4 % 64
  }

  function Byte3(p1: nat, p0: nat, c1: nat): (b: nat)
    ensures b < 256
  {
    p1 % 4 * 64 + p0 % 2 * 32 + c1 / 256 % 32
  }

  function Byte4(c1: nat): (b: nat)
    ensures b < 256
  {
    c1 % 256
  }

  function Byte5(s1: nat, ga1: nat, gb1: nat): (b: nat)
    ensures b < 256
  {
    s1 % 16 * 16 + ga1 % 8 * 2 + gb1 / 8 % 2
  }

  function Byte6(gb1: nat, p2: nat): (b: nat)
    ensures b < 256
  {
    gb1 % 8 * 32 + p2 % 32
  }

  function Byte7(c2: nat): (b: nat)
    ensures b < 256
  {
    c2 / 32 % 256
  }

  function Byte8(c2: nat, s2: nat): (b: nat)
    ensures b < 256
  {
    c2 % 32 * 8 + s2 / 2 % 8
  }

  function Byte9(s2: nat, ga2: nat, gb2: nat): (b: nat)
    ensures b < 256
  {
    s2 % 2 * 128 + ga2 % 8 * 16 + gb2 % 16
  }

  // ----- the fields of a frame ------------------------------------------------------------

  function FieldL0(a: nat): nat { a / 128 % 2 }
  function FieldL1(a: nat): nat { a % 128 }
  function FieldL2(a: nat): nat { a / 8 % 32 }
  function FieldL3(a: nat, b: nat): nat { a % 8 * 4 + b / 64 % 4 }
  function FieldP1(a: nat, b: nat): nat { a % 64 * 4 + b / 64 % 4 }
  function FieldP0(a: nat): nat { a / 32 % 2 }
  function FieldC1(a: nat, b: nat): nat { a % 32 * 256 + b }
  function FieldS1(a: nat): nat { a / 16 % 16 }
  function FieldGA1(a: nat): nat { a / 2 % 8 }
  function FieldGB1(a: nat, b: nat): nat { a % 2 * 8 + b / 32 % 8 }
  function FieldP2(a: nat): nat { a % 32 }
  function FieldC2(a: nat, b: nat): nat { a * 32 + b / 8 % 32 }
  function FieldS2(a: nat, b: nat): nat { a % 8 * 2 + b / 128 % 2 }
  function FieldGA2(a: nat): nat { a / 16 % 8 }
  function FieldGB2(a: nat): nat { a % 16 }

  /** parametersArray2BitStream. */
  function Pack(p: seq<nat>): (b: seq<nat>)
    requires |p| == 15
    ensures IsFrame(b)
  {
    [Byte0(p[0], p[1]),
     Byte1(p[2], p[3]),
     Byte2(p[3], p[4]),
     Byte3(p[4], p[5], p[6]),
     Byte4(p[6]),
     Byte5(p[7], p[8], p[9]),
     Byte6(p[9], p[10]),
     Byte7(p[11]),
     Byte8(p[11], p[12]),
     Byte9(p[12], p[13], p[14])]
  }

  /** parametersBitStream2Array. */
  function Unpack(b: seq<nat>): (p: seq<nat>)
    requires IsFrame(b)
    ensures |p| == 15
  {
    [FieldL0(b[0]),
     FieldL1(b[0]),
     FieldL2(b[1]),
     FieldL3(b[1], b[2]),
     FieldP1(b[2], b[3]),
     FieldP0(b[3]),
     FieldC1(b[3], b[4]),
     FieldS1(b[5]),
     FieldGA1(b[5]),
     FieldGB1(b[5], b[6]),
     FieldP2(b[6]),
     FieldC2(b[7], b[8]),
     FieldS2(b[8], b[9]),
     FieldGA2(b[9]),
     FieldGB2(b[9])]
  }

  /** Quotient and remainder of a number written in digits. */
  lemma Digits(q: int, r: int, m: int)
    requires 0 <= r < m
    ensures (q * m + r) / m == q && (q * m + r) % m == r
  {
    QuotientIsUnique(q * m + r, m, q, r);
  }

  /** A number cut after its low digit and masked above it is the masked number. */
  lemma Rejoined(x: nat, m: nat, k: nat)
    requires m > 0 && k > 0
    ensures m * k > 0 && x / m % k * m + x % m == x % (m * k)
  {
    var q, low := x / m, x / m % k * m + x % m;
    LowPart(x / m % k, x % m, m, k);
    assert x == q * m + x % m && q == (q / k) * k + q % k;
    assert ((q / k) * k + q % k) * m == (q / k) * (m * k) + q % k * m;
    Digits(q / k, low, m * k);
  }

  lemma LowPart(d: nat, r: nat, m: nat, k: nat)
    requires d < k && r < m
    ensures 0 <= d * m + r < m * k
  {
    assert (k - 1 - d) * m >= 0;
    assert (k - 1 - d) * m == m * k - m - d * m;
  }

  // ----- each field from its bytes --------------------------------------------------------

  lemma MaskedL0(l0: nat, l1: nat)
    ensures FieldL0(Byte0(l0, l1)) == l0 % 2
  {
  }

  lemma MaskedL1(l0: nat, l1: nat)
    ensures FieldL1(Byte0(l0, l1)) == l1 % 128
  {
  }

  lemma MaskedL2(l2: nat, l3: nat)
    ensures FieldL2(Byte1(l2, l3)) == l2 % 32
  {
  }

  lemma MaskedL3(l2: nat, l3: nat, p1: nat)
    ensures FieldL3(Byte1(l2, l3), Byte2(l3, p1)) == l3 % 32
  {
    Digits(l2 % 32, l3 / 4 % 8, 8);
    Digits(l3 % 4, p1 / 4 % 64, 64);
    Rejoined(l3, 4, 8);
  }

  lemma MaskedP1(l3: nat, p1: nat, p0: nat, c1: nat)
    ensures FieldP1(Byte2(l3, p1), Byte3(p1, p0, c1)) == p1 % 256
  {
    Digits(l3 % 4, p1 / 4 % 64, 64);
    Digits(p1 % 4, p0 % 2 * 32 + c1 / 256 % 32, 64);
    Rejoined(p1, 4, 64);
  }

  lemma MaskedP0(p1: nat, p0: nat, c1: nat)
    ensures FieldP0(Byte3(p1, p0, c1)) == p0 % 2
  {
  }

  lemma MaskedC1(p1: nat, p0: nat, c1: nat)
    ensures FieldC1(Byte3(p1, p0, c1), Byte4(c1)) == c1 % 8192
  {
    Digits(p1 % 4 * 2 + p0 % 2, c1 / 256 % 32, 32);
    Rejoined(c1, 256, 32);
  }

  lemma MaskedS1(s1: nat, ga1: nat, gb1: nat)
    ensures FieldS1(Byte5(s1, ga1, gb1)) == s1 % 16
  {
  }

  lemma MaskedGA1(s1: nat, ga1: nat, gb1: nat)
    ensures FieldGA1(Byte5(s1, ga1, gb1)) == ga1 % 8
  {
  }

  lemma MaskedGB1(s1: nat, ga1: nat, gb1: nat, p2: nat)
    ensures FieldGB1(Byte5(s1, ga1, gb1), Byte6(gb1, p2)) == gb1 % 16
  {
    Digits(s1 % 16 * 8 + ga1 % 8, gb1 / 8 % 2, 2);
    Digits(gb1 % 8, p2 % 32, 32);
    Rejoined(gb1, 8, 2);
  }

  lemma MaskedP2(gb1: nat, p2: nat)
    ensures FieldP2(Byte6(gb1, p2)) == p2 % 32
  {
  }

  lemma MaskedC2(c2: nat, s2: nat)
    ensures FieldC2(Byte7(c2), Byte8(c2, s2)) == c2 % 8192
  {
    Digits(c2 % 32, s2 / 2 % 8, 8);
    Rejoined(c2, 32, 256);
  }

  lemma MaskedS2(c2: nat, s2: nat, ga2: nat, gb2: nat)
    ensures FieldS2(Byte8(c2, s2), Byte9(s2, ga2, gb2)) == s2 % 16
  {
    Digits(c2 % 32, s2 / 2 % 8, 8);
    Digits(s2 % 2, ga2 % 8 * 16 + gb2 % 16, 128);
    Rejoined(s2, 2, 8);
  }

  lemma MaskedGA2(s2: nat, ga2: nat, gb2: nat)
    ensures FieldGA2(Byte9(s2, ga2, gb2)) == ga2 % 8
  {
  }

  lemma MaskedGB2(s2: nat, ga2: nat, gb2: nat)
    ensures FieldGB2(Byte9(s2, ga2, gb2)) == gb2 % 16
  {
  }

  /** Unpacking a packed frame masks every parameter to its width. */
  lemma UnpackPackMasks(p: seq<nat>)
    requires |p| == 15
    ensures Unpack(Pack(p)) == seq(15, i requires 0 <= i < 15 => p[i] % Bound(i))
  {
    hide Byte0, Byte1, Byte2, Byte3, Byte4, Byte5, Byte6, Byte7, Byte8, Byte9,
         FieldL0, FieldL1, FieldL2, FieldL3, FieldP1, FieldP0, FieldC1, FieldS1, FieldGA1, FieldGB1, FieldP2, FieldC2, FieldS2, FieldGA2, FieldGB2;
    MaskedL0(p[0], p[1]);
    MaskedL1(p[0], p[1]);
    MaskedL2(p[2], p[3]);
    MaskedL3(p[2], p[3], p[4]);
    MaskedP1(p[3], p[4], p[5], p[6]);
    MaskedP0(p[4], p[5], p[6]);
    MaskedC1(p[4], p[5], p[6]);
    MaskedS1(p[7], p[8], p[9]);
    MaskedGA1(p[7], p[8], p[9]);
    MaskedGB1(p[7], p[8], p[9], p[10]);
    MaskedP2(p[9], p[10]);
    MaskedC2(p[11], p[12]);
    MaskedS2(p[11], p[12], p[13], p[14]);
    MaskedGA2(p[12], p[13], p[14]);
    MaskedGB2(p[12], p[13], p[14]);
  }

  // ----- each byte from its fields; l and n are the bytes before and after ------------------

  lemma Restored0(a: nat)
    requires a < 256
    ensures Byte0(FieldL0(a), FieldL1(a)) == a
  {
  }

  lemma Restored1(a: nat, n: nat)
    requires a < 256 && n < 256
    ensures Byte1(FieldL2(a), FieldL3(a, n)) == a
  {
    Digits(a % 8, n / 64 % 4, 4);
    assert a == a / 8 * 8 + a % 8 && a / 8 < 32;
  }

  lemma Restored2(l: nat, a: nat, n: nat)
    requires l < 256 && a < 256 && n < 256
    ensures Byte2(FieldL3(l, a), FieldP1(a, n)) == a
  {
    Digits(l % 8, a / 64 % 4, 4);
    Digits(a % 64, n / 64 % 4, 4);
    assert a == a / 64 * 64 + a % 64 && a / 64 < 4;
  }

  lemma Restored3(l: nat, a: nat, n: nat)
    requires l < 256 && a < 256 && n < 256
    ensures Byte3(FieldP1(l, a), FieldP0(a), FieldC1(a, n)) == a
  {
    Digits(l % 64, a / 64 % 4, 4);
    Digits(a % 32, n, 256);
    Cut3(a);
  }

  lemma Cut3(a: nat)
    requires a < 256
    ensures a / 64 % 4 % 4 * 64 + a / 32 % 2 % 2 * 32 + a % 32 % 32 == a
  {
    var b := a / 32;
    assert a == b * 32 + a % 32 && b < 8;
    assert b == b / 2 * 2 + b % 2 && b / 2 == a / 64;
  }

  lemma Restored4(l: nat, a: nat)
    requires l < 256 && a < 256
    ensures Byte4(FieldC1(l, a)) == a
  {
  }

  lemma Restored5(a: nat, n: nat)
    requires a < 256 && n < 256
    ensures Byte5(FieldS1(a), FieldGA1(a), FieldGB1(a, n)) == a
  {
    Digits(a % 2, n / 32 % 8, 8);
    Cut5(a);
  }

  lemma Cut5(a: nat)
    requires a < 256
    ensures a / 16 % 16 % 16 * 16 + a / 2 % 8 % 8 * 2 + a % 2 % 2 == a
  {
    var b := a / 2;
    assert a == b * 2 + a % 2 && b < 128;
    assert b == b / 8 * 8 + b % 8 && b / 8 == a / 16;
  }

  lemma Restored6(l: nat, a: nat)
    requires l < 256 && a < 256
    ensures Byte6(FieldGB1(l, a), FieldP2(a)) == a
  {
    Digits(l % 2, a / 32 % 8, 8);
    assert a == a / 32 * 32 + a % 32 && a / 32 < 8;
  }

  lemma Restored7(a: nat, n: nat)
    requires a < 256 && n < 256
    ensures Byte7(FieldC2(a, n)) == a
  {
  }

  lemma Restored8(l: nat, a: nat, n: nat)
    requires l < 256 && a < 256 && n < 256
    ensures Byte8(FieldC2(l, a), FieldS2(a, n)) == a
  {
    Digits(l, a / 8 % 32, 32);
    Digits(a % 8, n / 128 % 2, 2);
    assert a == a / 8 * 8 + a % 8 && a / 8 < 32;
  }

  lemma Restored9(l: nat, a: nat)
    requires l < 256 && a < 256
    ensures Byte9(FieldS2(l, a), FieldGA2(a), FieldGB2(a)) == a
  {
    Digits(l % 8, a / 128 % 2, 2);
    Cut9(a);
  }

  lemma Cut9(a: nat)
    requires a < 256
    ensures a / 128 % 2 % 2 * 128 + a / 16 % 8 % 8 * 16 + a % 16 % 16 == a
  {
    var b := a / 16;
    assert a == b * 16 + a % 16 && b < 16;
    assert b == b / 8 * 8 + b % 8 && b / 8 == a / 128;
  }

  /** Packing what was unpacked gives every frame back. */
  lemma PackUnpack(b: seq<nat>)
    requires IsFrame(b)
    ensures Pack(Unpack(b)) == b
  {
    hide Byte0, Byte1, Byte2, Byte3, Byte4, Byte5, Byte6, Byte7, Byte8, Byte9,
         FieldL0, FieldL1, FieldL2, FieldL3, FieldP1, FieldP0, FieldC1, FieldS1, FieldGA1, FieldGB1, FieldP2, FieldC2, FieldS2, FieldGA2, FieldGB2;
    Restored0(b[0]);
    Restored1(b[1], b[2]);
    Restored2(b[1], b[2], b[3]);
    Restored3(b[2], b[3], b[4]);
    Restored4(b[3], b[4]);
    Restored5(b[5], b[6]);
    Restored6(b[5], b[6]);
    Restored7(b[7], b[8]);
    Restored8(b[7], b[8], b[9]);
    Restored9(b[8], b[9]);
  }

  lemma MaskedInWidth(x: nat, i: nat)
    requires i < 15
    ensures x % Bound(i) < Bound(i) && (x % Bound(i) == x <==> x < Bound(i))
  {
    hide Bound;
    var b := Bound(i);
    if x < b {
      Small(x, b);
    }
  }

  /** A parameter array survives the bit stream exactly when every parameter fits its field, and what
      comes out of the bit stream always fits. */
  lemma RoundTripExactlyInWidth(p: seq<nat>)
    requires |p| == 15
    ensures Unpack(Pack(p)) == p <==> InWidth(p)
    ensures InWidth(Unpack(Pack(p)))
  {
    hide Unpack, Pack, Bound;
    UnpackPackMasks(p);
    var u := Unpack(Pack(p));
    forall i | 0 <= i < 15
      ensures u[i] < Bound(i) && (u[i] == p[i] <==> p[i] < Bound(i))
    {
      MaskedInWidth(p[i], i);
    }
  }

  // ----- the layout -----------------------------------------------------------------------

  /** The first n fields as one number, most significant field first. */
  function FieldsValue(p: seq<nat>, n: nat): int
    requires |p| == 15 && n <= 15
  {
    if n == 0 then 0 else FieldsValue(p, n - 1) * Bound(n - 1) + p[n - 1]
  }

  /** The first n bytes as one number, most significant byte first. */
  function BytesValue(b: seq<nat>, n: nat): int
    requires n <= |b|
  {
    if n == 0 then 0 else BytesValue(b, n - 1) * 256 + b[n - 1]
  }

  lemma FieldsUnfolded(p: seq<nat>)
    requires |p| == 15
    ensures FieldsValue(p, 2) == p[0] * 128 + p[1]
    ensures FieldsValue(p, 4) == (FieldsValue(p, 2) * 32 + p[2]) * 32 + p[3]
    ensures FieldsValue(p, 7) == ((FieldsValue(p, 4) * 256 + p[4]) * 2 + p[5]) * 8192 + p[6]
    ensures FieldsValue(p, 9) == (FieldsValue(p, 7) * 16 + p[7]) * 8 + p[8]
    ensures FieldsValue(p, 11) == (FieldsValue(p, 9) * 16 + p[9]) * 32 + p[10]
    ensures FieldsValue(p, 13) == (FieldsValue(p, 11) * 8192 + p[11]) * 16 + p[12]
    ensures FieldsValue(p, 15) == (FieldsValue(p, 13) * 8 + p[13]) * 16 + p[14]
  {
    assert FieldsValue(p, 1) == FieldsValue(p, 0) * 2 + p[0];
    assert FieldsValue(p, 3) == FieldsValue(p, 2) * 32 + p[2];
    assert FieldsValue(p, 5) == FieldsValue(p, 4) * 256 + p[4];
    assert FieldsValue(p, 6) == FieldsValue(p, 5) * 2 + p[5];
    assert FieldsValue(p, 8) == FieldsValue(p, 7) * 16 + p[7];
    assert FieldsValue(p, 10) == FieldsValue(p, 9) * 16 + p[9];
    assert FieldsValue(p, 12) == FieldsValue(p, 11) * 8192 + p[11];
    assert FieldsValue(p, 14) == FieldsValue(p, 13) * 8 + p[13];
  }

  lemma BytesUnfolded(b: seq<nat>)
    requires |b| == 10
    ensures BytesValue(b, 1) == b[0]
    ensures BytesValue(b, 3) == (BytesValue(b, 1) * 256 + b[1]) * 256 + b[2]
    ensures BytesValue(b, 5) == (BytesValue(b, 3) * 256 + b[3]) * 256 + b[4]
    ensures BytesValue(b, 7) == (BytesValue(b, 5) * 256 + b[5]) * 256 + b[6]
    ensures BytesValue(b, 8) == BytesValue(b, 7) * 256 + b[7]
    ensures BytesValue(b, 10) == (BytesValue(b, 8) * 256 + b[8]) * 256 + b[9]
  {
  }

  /** The frame is the 80-bit number whose fields, in the order of Table 8 and most significant bit
      first, are the parameters. */
  lemma FrameLayout(p: seq<nat>)
    requires InWidth(p)
    ensures BytesValue(Pack(p), 10) == FieldsValue(p, 15)
  {
    hide FieldsValue, BytesValue, Byte0, Byte1, Byte2, Byte3, Byte4, Byte5, Byte6, Byte7, Byte8, Byte9;
    FieldsUnfolded(p);
    BytesUnfolded(Pack(p));
    LayoutBytes0To4(p);
    LayoutBytes5And6(p);
    LayoutBytes7To9(p);
  }

  lemma LayoutBytes0To4(p: seq<nat>)
    requires InWidth(p)
    ensures (((Byte0(p[0], p[1]) * 256 + Byte1(p[2], p[3])) * 256 + Byte2(p[3], p[4])) * 256 + Byte3(p[4], p[5], p[6])) * 256 + Byte4(p[6])
         == ((((((p[0] * 128 + p[1]) * 32 + p[2]) * 32 + p[3]) * 256 + p[4]) * 2) + p[5]) * 8192 + p[6]
  {
    assert p[0] < Bound(0) && p[1] < Bound(1) && p[2] < Bound(2) && p[3] < Bound(3) && p[4] < Bound(4) && p[5] < Bound(5) && p[6] < Bound(6);
    hide InWidth;
    FirstBytes(p[0], p[1], p[2], p[3], p[4], p[5], p[6]);
    hide Byte0, Byte1, Byte2, Byte3, Byte4;
  }

  lemma FirstBytes(l0: nat, l1: nat, l2: nat, l3: nat, p1: nat, p0: nat, c1: nat)
    requires l0 < 2 && l1 < 128 && l2 < 32 && l3 < 32 && p1 < 256 && p0 < 2 && c1 < 8192
    ensures Byte0(l0, l1) == l0 * 128 + l1
    ensures 4 * Byte1(l2, l3) == l2 * 32 + l3 - l3 % 4
    ensures 4 * Byte2(l3, p1) == l3 % 4 * 256 + p1 - p1 % 4
    ensures 256 * Byte3(p1, p0, c1) == p1 % 4 * 16384 + p0 * 8192 + c1 - Byte4(c1)
  {
    Quarters(l3, 8);
    Quarters(p1, 64);
    assert c1 == c1 / 256 * 256 + c1 % 256 && c1 / 256 < 32;
    Small(c1 / 256, 32);
    Small(l0, 2);
    Small(l1, 128);
    Small(l2, 32);
    Small(p0, 2);
  }

  lemma Quarters(x: nat, m: nat)
    requires m > 0 && x < 4 * m
    ensures x / 4 % m == x / 4 && 4 * (x / 4) == x - x % 4
  {
    Small(x / 4, m);
  }

  lemma Small(x: nat, m: nat)
    requires x < m
    ensures x % m == x
  {
    Digits(0, x, m);
  }

  lemma LayoutBytes5And6(p: seq<nat>)
    requires InWidth(p)
    ensures Byte5(p[7], p[8], p[9]) * 256 + Byte6(p[9], p[10]) == ((p[7] * 8 + p[8]) * 16 + p[9]) * 32 + p[10]
  {
    assert p[7] < Bound(7) && p[8] < Bound(8) && p[9] < Bound(9) && p[10] < Bound(10);
    hide InWidth;
    Small(p[7], 16);
    Small(p[8], 8);
    Small(p[10], 32);
    assert p[9] == p[9] / 8 * 8 + p[9] % 8 && p[9] / 8 < 2;
    Small(p[9] / 8, 2);
  }

  lemma LayoutBytes7To9(p: seq<nat>)
    requires InWidth(p)
    ensures (Byte7(p[11]) * 256 + Byte8(p[11], p[12])) * 256 + Byte9(p[12], p[13], p[14])
         == ((p[11] * 16 + p[12]) * 8 + p[13]) * 16 + p[14]
  {
    assert p[11] < Bound(11) && p[12] < Bound(12) && p[13] < Bound(13) && p[14] < Bound(14);
    hide InWidth;
    assert p[11] == p[11] / 32 * 32 + p[11] % 32 && p[11] / 32 < 256;
    Small(p[11] / 32, 256);
    assert p[12] == p[12] / 2 * 2 + p[12] % 2 && p[12] / 2 < 8;
    Small(p[12] / 2, 8);
    Small(p[13], 8);
    Small(p[14], 16);
  }
}
