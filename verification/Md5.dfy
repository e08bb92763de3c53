/** The streaming MD5 of md5_utils.c against the whole-message definition of RFC 1321. Bytes and the
    two length words are integers; the mixing works on 32-bit vectors. Little-endian machines only:
    there byteSwap does nothing. */
module Md5 {
  type Byte = x: int | 0 <= x < 256

  const WORD: nat := 0x1_0000_0000

  // ----- RFC 1321, section 3.4: the four rounds as tables ---------------------------------------

  /** A machine word, kept whole so that the mixing proofs never look at its bits. */
  datatype Word = Word(bits: bv32)

  datatype State = State(a: Word, b: Word, c: Word, d: Word)

  const START: State := State(Word(0x67452301), Word(0xefcdab89), Word(0x98badcfe), Word(0x10325476))

  function Rotl(w: bv32, s: nat): bv32
    requires s < 32
  {
    (w << s) | (w >> (32 - s))
  }

  /** Bits of y where x is set, of z where it is not. */
  function Choose(x: bv32, y: bv32, z: bv32): bv32 {
    (x & y) | (!x & z)
  }

  /** The auxiliary functions F, G, H and I. */
  function Mix(round: nat, X: Word, Y: Word, Z: Word): Word {
    var x, y, z := X.bits, Y.bits, Z.bits;
    if round == 0 then Word(Choose(x, y, z))
    else if round == 1 then Word(Choose(z, x, y))
    else if round == 2 then Word(x ^ y ^ z)
    else Word(y ^ (x | !z))
  }

  /** Bit by bit, F takes y where x is set and z elsewhere. */
  lemma MixChoosesByX(X: Word, Y: Word, Z: Word)
    ensures Mix(0, X, Y, Z).bits & X.bits == Y.bits & X.bits
    ensures Mix(0, X, Y, Z).bits & !X.bits == Z.bits & !X.bits
  {
    ChoiceWhere(X.bits, Y.bits, Z.bits);
    hide Choose;
  }

  lemma ChoiceWhere(x: bv32, y: bv32, z: bv32)
    ensures Choose(x, y, z) & x == y & x
    ensures Choose(x, y, z) & !x == z & !x
  {
  }

  /** G takes x where z is set and y elsewhere. */
  lemma MixChoosesByZ(X: Word, Y: Word, Z: Word)
    ensures Mix(1, X, Y, Z).bits & Z.bits == X.bits & Z.bits
    ensures Mix(1, X, Y, Z).bits & !Z.bits == Y.bits & !Z.bits
  {
    ChoiceWhere(Z.bits, X.bits, Y.bits);
    hide Choose;
  }

  /** H is the difference of x and y where z is clear and its inverse where z is set. */
  lemma MixDiffers(X: Word, Y: Word, Z: Word)
    ensures Mix(2, X, Y, Z).bits & !Z.bits == (X.bits ^ Y.bits) & !Z.bits
    ensures Mix(2, X, Y, Z).bits & Z.bits == !(X.bits ^ Y.bits) & Z.bits
  {
    Differs(X.bits, Y.bits, Z.bits);
  }

  lemma Differs(x: bv32, y: bv32, z: bv32)
    ensures (x ^ y ^ z) & !z == (x ^ y) & !z
    ensures (x ^ y ^ z) & z == !(x ^ y) & z
  {
  }

  /** I is the difference of x and y where z is set and the inverse of y elsewhere. */
  lemma MixInverts(X: Word, Y: Word, Z: Word)
    ensures Mix(3, X, Y, Z).bits & Z.bits == (X.bits ^ Y.bits) & Z.bits
    ensures Mix(3, X, Y, Z).bits & !Z.bits == !Y.bits & !Z.bits
  {
    Inverted(X.bits, Y.bits, Z.bits);
  }

  lemma Inverted(x: bv32, y: bv32, z: bv32)
    ensures (y ^ (x | !z)) & z == (x ^ y) & z
    ensures (y ^ (x | !z)) & !z == !y & !z
  {
  }

  /** The word of the block that step i of a round uses: every word in order, every fifth from 1, every
      third from 5, every seventh from 0, modulo 16. */
  function WordIndex(round: nat, i: nat): (k: nat)
    requires i < 16
    ensures k < 16
  {
    if round == 0 then i else if round == 1 then Fifths(i) else if round == 2 then Thirds(i) else Sevenths(i)
  }

  function Fifths(i: nat): (k: nat)
    requires i < 16
    ensures k < 16
  {
    match i
    case 0 => 1 case 1 => 6 case 2 => 11 case 3 => 0 case 4 => 5 case 5 => 10 case 6 => 15 case 7 => 4
    case 8 => 9 case 9 => 14 case 10 => 3 case 11 => 8 case 12 => 13 case 13 => 2 case 14 => 7 case _ => 12
  }

  function Thirds(i: nat): (k: nat)
    requires i < 16
    ensures k < 16
  {
    match i
    case 0 => 5 case 1 => 8 case 2 => 11 case 3 => 14 case 4 => 1 case 5 => 4 case 6 => 7 case 7 => 10
    case 8 => 13 case 9 => 0 case 10 => 3 case 11 => 6 case 12 => 9 case 13 => 12 case 14 => 15 case _ => 2
  }

  function Sevenths(i: nat): (k: nat)
    requires i < 16
    ensures k < 16
  {
    match i
    case 0 => 0 case 1 => 7 case 2 => 14 case 3 => 5 case 4 => 12 case 5 => 3 case 6 => 10 case 7 => 1
    case 8 => 8 case 9 => 15 case 10 => 6 case 11 => 13 case 12 => 4 case 13 => 11 case 14 => 2 case _ => 9
  }

  lemma WordSchedule(i: nat)
    requires i < 16
    ensures WordIndex(1, i) == (1 + 5 * i) % 16 && WordIndex(2, i) == (5 + 3 * i) % 16 && WordIndex(3, i) == 7 * i % 16
  {
    FifthsFromOne(i);
    ThirdsFromFive(i);
    SeventhsFromZero(i);
    hide Fifths, Thirds, Sevenths;
  }

  lemma FifthsFromOne(i: nat)
    requires i < 16
    ensures Fifths(i) == (1 + 5 * i) % 16
  {
  }

  lemma ThirdsFromFive(i: nat)
    requires i < 16
    ensures Thirds(i) == (5 + 3 * i) % 16
  {
  }

  lemma SeventhsFromZero(i: nat)
    requires i < 16
    ensures Sevenths(i) == 7 * i % 16
  {
  }

  function Rotation(round: nat, i: nat): (s: nat)
    ensures 0 < s < 32
  {
    match i % 4
    case 0 => if round == 0 then 7 else if round == 1 then 5 else if round == 2 then 4 else 6
    case 1 => if round == 0 then 12 else if round == 1 then 9 else if round == 2 then 11 else 10
    case 2 => if round == 0 then 17 else if round == 1 then 14 else if round == 2 then 16 else 15
    case _ => if round == 0 then 22 else if round == 1 then 20 else if round == 2 then 23 else 21
  }

  /** Rotation is to the left: by the first amount, the bits of w move up by seven places, and the top seven
      come back below. */
  lemma RotatesBySeven(w: bv32)
    ensures Rotl(w, Rotation(0, 0)) >> 7 == (w << 7) >> 7
    ensures Rotl(w, Rotation(0, 0)) << 25 == (w >> 25) << 25
  {
    assert Rotation(0, 0) == 7;
  }

  function Table1(i: nat): bv32
    requires i < 16
  {
    match i
    case 0 => 0xd76aa478
    case 1 => 0xe8c7b756
    case 2 => 0x242070db
    case 3 => 0xc1bdceee
    case 4 => 0xf57c0faf
    case 5 => 0x4787c62a
    case 6 => 0xa8304613
    case 7 => 0xfd469501
    case 8 => 0x698098d8
    case 9 => 0x8b44f7af
    case 10 => 0xffff5bb1
    case 11 => 0x895cd7be
    case 12 => 0x6b901122
    case 13 => 0xfd987193
    case 14 => 0xa679438e
    case _ => 0x49b40821
  }

  function Table2(i: nat): bv32
    requires i < 16
  {
    match i
    case 0 => 0xf61e2562
    case 1 => 0xc040b340
    case 2 => 0x265e5a51
    case 3 => 0xe9b6c7aa
    case 4 => 0xd62f105d
    case 5 => 0x02441453
    case 6 => 0xd8a1e681
    case 7 => 0xe7d3fbc8
    case 8 => 0x21e1cde6
    case 9 => 0xc33707d6
    case 10 => 0xf4d50d87
    case 11 => 0x455a14ed
    case 12 => 0xa9e3e905
    case 13 => 0xfcefa3f8
    case 14 => 0x676f02d9
    case _ => 0x8d2a4c8a
  }

  function Table3(i: nat): bv32
    requires i < 16
  {
    match i
    case 0 => 0xfffa3942
    case 1 => 0x8771f681
    case 2 => 0x6d9d6122
    case 3 => 0xfde5380c
    case 4 => 0xa4beea44
    case 5 => 0x4bdecfa9
    case 6 => 0xf6bb4b60
    case 7 => 0xbebfbc70
    case 8 => 0x289b7ec6
    case 9 => 0xeaa127fa
    case 10 => 0xd4ef3085
    case 11 => 0x04881d05
    case 12 => 0xd9d4d039
    case 13 => 0xe6db99e5
    case 14 => 0x1fa27cf8
    case _ => 0xc4ac5665
  }

  function Table4(i: nat): bv32
    requires i < 16
  {
    match i
    case 0 => 0xf4292244
    case 1 => 0x432aff97
    case 2 => 0xab9423a7
    case 3 => 0xfc93a039
    case 4 => 0x655b59c3
    case 5 => 0x8f0ccc92
    case 6 => 0xffeff47d
    case 7 => 0x85845dd1
    case 8 => 0x6fa87e4f
    case 9 => 0xfe2ce6e0
    case 10 => 0xa3014314
    case 11 => 0x4e0811a1
    case 12 => 0xf7537e82
    case 13 => 0xbd3af235
    case 14 => 0x2ad7d2bb
    case _ => 0xeb86d391
  }

  /** The table T of RFC 1321. */
  function Table(round: nat, i: nat): bv32
    requires i < 16
  {
    if round == 0 then Table1(i) else if round == 1 then Table2(i) else if round == 2 then Table3(i) else Table4(i)
  }

  /** The new register of a step: x plus the rotated sum of the old one, the auxiliary function's value f,
      a word of the block and a constant. */
  function Turned(x: Word, w: Word, f: Word, word: Word, constant: bv32, s: nat): Word
    requires s < 32
  {
    Word(x.bits + Rotl(w.bits + f.bits + word.bits + constant, s))
  }

  /** One step; the registers move one place round. */
  function Step(s: State, x: seq<Word>, round: nat, i: nat): State
    requires |x| == 16 && i < 16
  {
    State(s.d, Turned(s.b, s.a, Mix(round, s.b, s.c, s.d), x[WordIndex(round, i)], Table(round, i), Rotation(round, i)), s.b, s.c)
  }

  /** The first n steps of a round. */
  function RoundSteps(s: State, x: seq<Word>, round: nat, n: nat): State
    requires |x| == 16 && n <= 16
    decreases n
  {
    if n == 0 then s else Step(RoundSteps(s, x, round, n - 1), x, round, n - 1)
  }

  function Rounds(s: State, x: seq<Word>, n: nat): State
    requires |x| == 16
  {
    if n == 0 then s else RoundSteps(Rounds(s, x, n - 1), x, n - 1, 16)
  }

  function Compress(s: State, x: seq<Word>): State
    requires |x| == 16
  {
    var t := Rounds(s, x, 4);
    State(Plus(s.a, t.a), Plus(s.b, t.b), Plus(s.c, t.c), Plus(s.d, t.d))
  }

  function Plus(x: Word, y: Word): Word {
    Word(x.bits + y.bits)
  }

  // ----- the unrolled transform -----------------------------------------------------------------

  lemma Chosen(x: bv32, y: bv32, z: bv32)
    ensures z ^ (x & (y ^ z)) == (x & y) | (!x & z)
  {
  }

  /** The optimised form of the choice. */
  function FastChoose(x: bv32, y: bv32, z: bv32): (r: bv32)
    ensures r == Choose(x, y, z)
  {
    Chosen(x, y, z);
    z ^ (x & (y ^ z))
  }

  function F1(x: Word, y: Word, z: Word): (r: Word)
    ensures r == Mix(0, x, y, z)
  {
    Word(FastChoose(x.bits, y.bits, z.bits))
  }

  function F2(x: Word, y: Word, z: Word): (r: Word)
    ensures r == Mix(1, x, y, z)
  {
    F1(z, x, y)
  }

  function F3(x: Word, y: Word, z: Word): (r: Word)
    ensures r == Mix(2, x, y, z)
  {
    Word(x.bits ^ y.bits ^ z.bits)
  }

  function F4(x: Word, y: Word, z: Word): (r: Word)
    ensures r == Mix(3, x, y, z)
  {
    Word(y.bits ^ (x.bits | !z.bits))
  }

  lemma SumOfFour(w: bv32, f: bv32, word: bv32, constant: bv32)
    ensures w + (f + (word + constant)) == w + f + word + constant
  {
  }

  lemma SumOfTwo(w: bv32, x: bv32)
    ensures w + x == x + w
  {
  }

  /** The step macro. */
  function Stirred(f: Word, w: Word, x: Word, word: Word, constant: bv32, s: nat): (r: Word)
    requires s < 32
    ensures r == Turned(x, w, f, word, constant, s)
  {
    SumOfFour(w.bits, f.bits, word.bits, constant);
    SumOfTwo(Rotl(w.bits + (f.bits + (word.bits + constant)), s), x.bits);
    Word(Rotl(w.bits + (f.bits + (word.bits + constant)), s) + x.bits)
  }

  lemma NoSteps(s: State, x: seq<Word>, round: nat)
    requires |x| == 16
    ensures RoundSteps(s, x, round, 0) == s
  {
  }

  /** Four steps bring the registers back to their places. */
  lemma FourSteps(s: State, x: seq<Word>, round: nat, n: nat)
    requires |x| == 16 && n + 4 <= 16
    ensures
      var t := RoundSteps(s, x, round, n);
      var a := Turned(t.b, t.a, Mix(round, t.b, t.c, t.d), x[WordIndex(round, n)], Table(round, n), Rotation(round, n));
      var d := Turned(a, t.d, Mix(round, a, t.b, t.c), x[WordIndex(round, n + 1)], Table(round, n + 1), Rotation(round, n + 1));
      var c := Turned(d, t.c, Mix(round, d, a, t.b), x[WordIndex(round, n + 2)], Table(round, n + 2), Rotation(round, n + 2));
      var b := Turned(c, t.b, Mix(round, c, d, a), x[WordIndex(round, n + 3)], Table(round, n + 3), Rotation(round, n + 3));
      RoundSteps(s, x, round, n + 4) == State(a, b, c, d)
  {
    hide Turned, Mix, Table, WordIndex, Rotation;
    var t := RoundSteps(s, x, round, n);
    assert RoundSteps(s, x, round, n + 2) == Step(Step(t, x, round, n), x, round, n + 1);
    assert RoundSteps(s, x, round, n + 4) == Step(Step(RoundSteps(s, x, round, n + 2), x, round, n + 2), x, round, n + 3);
  }

  method Round1First(s: State, x: seq<Word>) returns (t: State)
    requires |x| == 16
    ensures t == RoundSteps(s, x, 0, 8)
  {
    hide Turned, Mix, F1, F2, F3, F4, Stirred, RoundSteps, Step;
    NoSteps(s, x, 0);
    var a, b, c, d := s.a, s.b, s.c, s.d;
    a := Stirred(F1(b, c, d), a, b, x[0], 0xd76aa478, 7);
    d := Stirred(F1(a, b, c), d, a, x[1], 0xe8c7b756, 12);
    c := Stirred(F1(d, a, b), c, d, x[2], 0x242070db, 17);
    b := Stirred(F1(c, d, a), b, c, x[3], 0xc1bdceee, 22);
    FourSteps(s, x, 0, 0);
    assert State(a, b, c, d) == RoundSteps(s, x, 0, 4);
    a := Stirred(F1(b, c, d), a, b, x[4], 0xf57c0faf, 7);
    d := Stirred(F1(a, b, c), d, a, x[5], 0x4787c62a, 12);
    c := Stirred(F1(d, a, b), c, d, x[6], 0xa8304613, 17);
    b := Stirred(F1(c, d, a), b, c, x[7], 0xfd469501, 22);
    FourSteps(s, x, 0, 4);
    t := State(a, b, c, d);
  }

  method Round1Second(s: State, x: seq<Word>, ghost start: State) returns (t: State)
    requires |x| == 16 && s == RoundSteps(start, x, 0, 8)
    ensures t == RoundSteps(start, x, 0, 16)
  {
    hide Turned, Mix, F1, F2, F3, F4, Stirred, RoundSteps, Step;
    var a, b, c, d := s.a, s.b, s.c, s.d;
    a := Stirred(F1(b, c, d), a, b, x[8], 0x698098d8, 7);
    d := Stirred(F1(a, b, c), d, a, x[9], 0x8b44f7af, 12);
    c := Stirred(F1(d, a, b), c, d, x[10], 0xffff5bb1, 17);
    b := Stirred(F1(c, d, a), b, c, x[11], 0x895cd7be, 22);
    FourSteps(start, x, 0, 8);
    assert State(a, b, c, d) == RoundSteps(start, x, 0, 12);
    a := Stirred(F1(b, c, d), a, b, x[12], 0x6b901122, 7);
    d := Stirred(F1(a, b, c), d, a, x[13], 0xfd987193, 12);
    c := Stirred(F1(d, a, b), c, d, x[14], 0xa679438e, 17);
    b := Stirred(F1(c, d, a), b, c, x[15], 0x49b40821, 22);
    FourSteps(start, x, 0, 12);
    t := State(a, b, c, d);
  }

  method Round2First(s: State, x: seq<Word>) returns (t: State)
    requires |x| == 16
    ensures t == RoundSteps(s, x, 1, 8)
  {
    hide Turned, Mix, F1, F2, F3, F4, Stirred, RoundSteps, Step;
    NoSteps(s, x, 1);
    var a, b, c, d := s.a, s.b, s.c, s.d;
    a := Stirred(F2(b, c, d), a, b, x[1], 0xf61e2562, 5);
    d := Stirred(F2(a, b, c), d, a, x[6], 0xc040b340, 9);
    c := Stirred(F2(d, a, b), c, d, x[11], 0x265e5a51, 14);
    b := Stirred(F2(c, d, a), b, c, x[0], 0xe9b6c7aa, 20);
    FourSteps(s, x, 1, 0);
    assert State(a, b, c, d) == RoundSteps(s, x, 1, 4);
    a := Stirred(F2(b, c, d), a, b, x[5], 0xd62f105d, 5);
    d := Stirred(F2(a, b, c), d, a, x[10], 0x02441453, 9);
    c := Stirred(F2(d, a, b), c, d, x[15], 0xd8a1e681, 14);
    b := Stirred(F2(c, d, a), b, c, x[4], 0xe7d3fbc8, 20);
    FourSteps(s, x, 1, 4);
    t := State(a, b, c, d);
  }

  method Round2Second(s: State, x: seq<Word>, ghost start: State) returns (t: State)
    requires |x| == 16 && s == RoundSteps(start, x, 1, 8)
    ensures t == RoundSteps(start, x, 1, 16)
  {
    hide Turned, Mix, F1, F2, F3, F4, Stirred, RoundSteps, Step;
    var a, b, c, d := s.a, s.b, s.c, s.d;
    a := Stirred(F2(b, c, d), a, b, x[9], 0x21e1cde6, 5);
    d := Stirred(F2(a, b, c), d, a, x[14], 0xc33707d6, 9);
    c := Stirred(F2(d, a, b), c, d, x[3], 0xf4d50d87, 14);
    b := Stirred(F2(c, d, a), b, c, x[8], 0x455a14ed, 20);
    FourSteps(start, x, 1, 8);
    assert State(a, b, c, d) == RoundSteps(start, x, 1, 12);
    a := Stirred(F2(b, c, d), a, b, x[13], 0xa9e3e905, 5);
    d := Stirred(F2(a, b, c), d, a, x[2], 0xfcefa3f8, 9);
    c := Stirred(F2(d, a, b), c, d, x[7], 0x676f02d9, 14);
    b := Stirred(F2(c, d, a), b, c, x[12], 0x8d2a4c8a, 20);
    FourSteps(start, x, 1, 12);
    t := State(a, b, c, d);
  }

  method Round3First(s: State, x: seq<Word>) returns (t: State)
    requires |x| == 16
    ensures t == RoundSteps(s, x, 2, 8)
  {
    hide Turned, Mix, F1, F2, F3, F4, Stirred, RoundSteps, Step;
    NoSteps(s, x, 2);
    var a, b, c, d := s.a, s.b, s.c, s.d;
    a := Stirred(F3(b, c, d), a, b, x[5], 0xfffa3942, 4);
    d := Stirred(F3(a, b, c), d, a, x[8], 0x8771f681, 11);
    c := Stirred(F3(d, a, b), c, d, x[11], 0x6d9d6122, 16);
    b := Stirred(F3(c, d, a), b, c, x[14], 0xfde5380c, 23);
    FourSteps(s, x, 2, 0);
    assert State(a, b, c, d) == RoundSteps(s, x, 2, 4);
    a := Stirred(F3(b, c, d), a, b, x[1], 0xa4beea44, 4);
    d := Stirred(F3(a, b, c), d, a, x[4], 0x4bdecfa9, 11);
    c := Stirred(F3(d, a, b), c, d, x[7], 0xf6bb4b60, 16);
    b := Stirred(F3(c, d, a), b, c, x[10], 0xbebfbc70, 23);
    FourSteps(s, x, 2, 4);
    t := State(a, b, c, d);
  }

  method Round3Second(s: State, x: seq<Word>, ghost start: State) returns (t: State)
    requires |x| == 16 && s == RoundSteps(start, x, 2, 8)
    ensures t == RoundSteps(start, x, 2, 16)
  {
    hide Turned, Mix, F1, F2, F3, F4, Stirred, RoundSteps, Step;
    var a, b, c, d := s.a, s.b, s.c, s.d;
    a := Stirred(F3(b, c, d), a, b, x[13], 0x289b7ec6, 4);
    d := Stirred(F3(a, b, c), d, a, x[0], 0xeaa127fa, 11);
    c := Stirred(F3(d, a, b), c, d, x[3], 0xd4ef3085, 16);
    b := Stirred(F3(c, d, a), b, c, x[6], 0x04881d05, 23);
    FourSteps(start, x, 2, 8);
    assert State(a, b, c, d) == RoundSteps(start, x, 2, 12);
    a := Stirred(F3(b, c, d), a, b, x[9], 0xd9d4d039, 4);
    d := Stirred(F3(a, b, c), d, a, x[12], 0xe6db99e5, 11);
    c := Stirred(F3(d, a, b), c, d, x[15], 0x1fa27cf8, 16);
    b := Stirred(F3(c, d, a), b, c, x[2], 0xc4ac5665, 23);
    FourSteps(start, x, 2, 12);
    t := State(a, b, c, d);
  }

  method Round4First(s: State, x: seq<Word>) returns (t: State)
    requires |x| == 16
    ensures t == RoundSteps(s, x, 3, 8)
  {
    hide Turned, Mix, F1, F2, F3, F4, Stirred, RoundSteps, Step;
    NoSteps(s, x, 3);
    var a, b, c, d := s.a, s.b, s.c, s.d;
    a := Stirred(F4(b, c, d), a, b, x[0], 0xf4292244, 6);
    d := Stirred(F4(a, b, c), d, a, x[7], 0x432aff97, 10);
    c := Stirred(F4(d, a, b), c, d, x[14], 0xab9423a7, 15);
    b := Stirred(F4(c, d, a), b, c, x[5], 0xfc93a039, 21);
    FourSteps(s, x, 3, 0);
    assert State(a, b, c, d) == RoundSteps(s, x, 3, 4);
    a := Stirred(F4(b, c, d), a, b, x[12], 0x655b59c3, 6);
    d := Stirred(F4(a, b, c), d, a, x[3], 0x8f0ccc92, 10);
    c := Stirred(F4(d, a, b), c, d, x[10], 0xffeff47d, 15);
    b := Stirred(F4(c, d, a), b, c, x[1], 0x85845dd1, 21);
    FourSteps(s, x, 3, 4);
    t := State(a, b, c, d);
  }

  method Round4Second(s: State, x: seq<Word>, ghost start: State) returns (t: State)
    requires |x| == 16 && s == RoundSteps(start, x, 3, 8)
    ensures t == RoundSteps(start, x, 3, 16)
  {
    hide Turned, Mix, F1, F2, F3, F4, Stirred, RoundSteps, Step;
    var a, b, c, d := s.a, s.b, s.c, s.d;
    a := Stirred(F4(b, c, d), a, b, x[8], 0x6fa87e4f, 6);
    d := Stirred(F4(a, b, c), d, a, x[15], 0xfe2ce6e0, 10);
    c := Stirred(F4(d, a, b), c, d, x[6], 0xa3014314, 15);
    b := Stirred(F4(c, d, a), b, c, x[13], 0x4e0811a1, 21);
    FourSteps(start, x, 3, 8);
    assert State(a, b, c, d) == RoundSteps(start, x, 3, 12);
    a := Stirred(F4(b, c, d), a, b, x[4], 0xf7537e82, 6);
    d := Stirred(F4(a, b, c), d, a, x[11], 0xbd3af235, 10);
    c := Stirred(F4(d, a, b), c, d, x[2], 0x2ad7d2bb, 15);
    b := Stirred(F4(c, d, a), b, c, x[9], 0xeb86d391, 21);
    FourSteps(start, x, 3, 12);
    t := State(a, b, c, d);
  }


  /** The unrolled transform is the table-driven compression. */
  method Transform(buf: array<Word>, x: seq<Word>)
    requires buf.Length == 4 && |x| == 16
    modifies buf
    ensures Registers(buf) == Compress(old(Registers(buf)), x)
  {
    hide Rotl, Mix, Turned, Step, Compress, RoundSteps, Rounds, Plus;
    var s := State(buf[0], buf[1], buf[2], buf[3]);
    var t := Round1First(s, x);
    t := Round1Second(t, x, s);
    ghost var s1 := t;
    t := Round2First(t, x);
    t := Round2Second(t, x, s1);
    ghost var s2 := t;
    t := Round3First(t, x);
    t := Round3Second(t, x, s2);
    ghost var s3 := t;
    t := Round4First(t, x);
    t := Round4Second(t, x, s3);
    FourRounds(s, x);
    CompressIs(s, x);
    buf[0] := Plus(buf[0], t.a);
    buf[1] := Plus(buf[1], t.b);
    buf[2] := Plus(buf[2], t.c);
    buf[3] := Plus(buf[3], t.d);
  }

  lemma CompressIs(s: State, x: seq<Word>)
    requires |x| == 16
    ensures var t := Rounds(s, x, 4); Compress(s, x) == State(Plus(s.a, t.a), Plus(s.b, t.b), Plus(s.c, t.c), Plus(s.d, t.d))
  {
  }

  lemma FourRounds(s: State, x: seq<Word>)
    requires |x| == 16
    ensures Rounds(s, x, 4) == RoundSteps(RoundSteps(RoundSteps(RoundSteps(s, x, 0, 16), x, 1, 16), x, 2, 16), x, 3, 16)
  {
    hide RoundSteps;
    assert Rounds(s, x, 0) == s;
    assert Rounds(s, x, 2) == RoundSteps(RoundSteps(s, x, 0, 16), x, 1, 16);
  }

  function Registers(buf: array<Word>): State
    requires buf.Length == 4
    reads buf
  {
    State(buf[0], buf[1], buf[2], buf[3])
  }

  // ----- RFC 1321, sections 3.1 to 3.5: the whole message ----------------------------------------

  /** The number whose digits to base 256 the bytes are, lowest first. */
  function LowFirst(b: seq<Byte>): (n: nat) {
    if b == [] then 0 else b[0] + 256 * LowFirst(b[1..])
  }

  /** The four bytes of a word, low-order byte first. */
  function Bytes(n: int): (s: seq<Byte>)
    ensures |s| == 4
  {
    [n % 256, n / 256 % 256, n / 65536 % 256, n / 16777216 % 256]
  }

  function WordOf(b: seq<Byte>): Word
    requires |b| == 4
  {
    var n: int := b[0];
    Word((n + 256 * (b[1] as int) + 65536 * (b[2] as int) + 16777216 * (b[3] as int)) as bv32)
  }

  lemma FourDigits(b: seq<Byte>)
    requires |b| == 4
    ensures LowFirst(b) == b[0] + 256 * b[1] + 65536 * b[2] + 16777216 * b[3] < WORD
  {
    assert LowFirst(b[3..]) == b[3] + 256 * LowFirst([]);
    assert LowFirst(b[2..]) == b[2] + 256 * LowFirst(b[3..]);
    assert LowFirst(b[1..]) == b[1] + 256 * LowFirst(b[2..]);
    assert b[0..] == b;
  }

  /** Bytes writes a number to base 256, lowest byte first, and WordOf reads it back. */
  lemma BytesReadBack(n: nat)
    requires n < WORD
    ensures LowFirst(Bytes(n)) == n && WordOf(Bytes(n)).bits as int == n
  {
    FourDigits(Bytes(n));
    TopDigits(n);
    WordIsLowFirst(Bytes(n));
  }

  lemma TopDigits(n: nat)
    requires n < WORD
    ensures n % 256 + 256 * (n / 256 % 256) + 65536 * (n / 65536 % 256) + 16777216 * (n / 16777216 % 256) == n
  {
    assert n / 256 == n / 256 % 256 + 256 * (n / 65536);
    assert n / 65536 == n / 65536 % 256 + 256 * (n / 16777216);
  }

  lemma WordIsLowFirst(b: seq<Byte>)
    requires |b| == 4
    ensures WordOf(b).bits as int == LowFirst(b)
  {
    hide LowFirst, WordOf;
    FourDigits(b);
    WordOfDigits(b, LowFirst(b));
    SameBits(LowFirst(b));
  }

  lemma WordOfDigits(b: seq<Byte>, n: int)
    requires |b| == 4 && n == b[0] + 256 * b[1] + 65536 * b[2] + 16777216 * b[3] < WORD
    ensures WordOf(b) == Word(n as bv32)
  {
  }

  lemma SameBits(n: nat)
    requires n < WORD
    ensures (n as bv32) as int == n
  {
    var w := BitByBit(n);
    BackToBits(w);
  }

  lemma BackToBits(w: bv32)
    ensures (w as int) as bv32 == w
  {
  }

  lemma {:induction false} BitByBit(n: nat) returns (w: bv32)
    requires n < WORD
    ensures w as int == n
  {
    if n == 0 {
      w := 0;
    } else {
      var v := BitByBit(n / 2);
      NextBit(v);
      w := if n % 2 == 0 then v << 1 else (v << 1) | 1;
    }
  }

  lemma NextBit(v: bv32)
    requires v as int < 0x8000_0000
    ensures (v << 1) as int == 2 * (v as int) && ((v << 1) | 1) as int == 2 * (v as int) + 1
  {
  }

  lemma LowFirstOfJoin(a: seq<Byte>, b: seq<Byte>)
    requires |a| == 4
    ensures LowFirst(a + b) == LowFirst(a) + WORD * LowFirst(b)
  {
    var c := a + b;
    FourDigits(a);
    assert c[1..][1..][1..][1..] == b;
    assert LowFirst(c) == c[0] + 256 * LowFirst(c[1..]);
    assert LowFirst(c[1..]) == c[1] + 256 * LowFirst(c[1..][1..]);
    assert LowFirst(c[1..][1..]) == c[2] + 256 * LowFirst(c[1..][1..][1..]);
    assert LowFirst(c[1..][1..][1..]) == c[3] + 256 * LowFirst(b);
    hide LowFirst;
  }

  /** The 16 words of a 64-byte block. */
  function Words(block: seq<Byte>): (x: seq<Word>)
    requires |block| == 64
    ensures |x| == 16
  {
    seq(16, k requires 0 <= k < 16 => WordOf(block[4 * k..4 * k + 4]))
  }

  /** Word k is what the bytes 4k to 4k + 3 of the block read, lowest first. */
  lemma WordsRead(block: seq<Byte>, k: nat)
    requires |block| == 64 && k < 16
    ensures Words(block)[k].bits as int == LowFirst(block[4 * k..4 * k + 4])
  {
    hide WordOf, LowFirst;
    WordIsLowFirst(block[4 * k..4 * k + 4]);
  }

  function Zeros(n: nat): (z: seq<Byte>)
    ensures |z| == n && forall k :: 0 <= k < n ==> z[k] == 0
  {
    seq(n, k => 0)
  }

  /** The message, a 0x80 byte, zeros up to 56 modulo 64, and the 64-bit count of its bits, low word
      first, modulo 2^64. */
  function Padded(msg: seq<Byte>): seq<Byte> {
    var bits := 8 * |msg|;
    msg + [0x80] + Zeros((55 - |msg|) % 64) + Bytes(bits % WORD) + Bytes(bits / WORD % WORD)
  }

  /** Padding reaches the least multiple of 64 with room for the 0x80 byte and the count. */
  lemma PaddedLength(msg: seq<Byte>)
    ensures |Padded(msg)| % 64 == 0 && |msg| + 9 <= |Padded(msg)| < |msg| + 9 + 64
  {
    hide Bytes, Zeros;
    assert |Padded(msg)| == |msg| + 1 + (55 - |msg|) % 64 + 8;
    ZeroCount(|msg|);
  }

  /** The message, one bit set, zeros, and the length in bits modulo 2^64 in the last eight bytes, lowest byte
      first. */
  lemma PaddedLayout(msg: seq<Byte>)
    ensures var p := Padded(msg); var k := |p| - 8;
      && |msg| + 1 <= k && p[..|msg|] == msg && p[|msg|] == 0x80 && (forall i :: |msg| < i < k ==> p[i] == 0)
      && LowFirst(p[k..]) == 8 * |msg| % (WORD * WORD)
  {
    hide Bytes, LowFirst, Padded;
    var bits := 8 * |msg|;
    var low, high := bits % WORD, bits / WORD % WORD;
    BytesReadBack(low);
    BytesReadBack(high);
    LowFirstOfJoin(Bytes(low), Bytes(high));
    PaddedParts(msg);
    TwoWords(bits);
  }

  lemma PaddedParts(msg: seq<Byte>)
    ensures var p, bits := Padded(msg), 8 * |msg|; var k := |p| - 8;
      && |msg| + 1 <= k && p[..|msg|] == msg && p[|msg|] == 0x80 && (forall i :: |msg| < i < k ==> p[i] == 0)
      && p[k..] == Bytes(bits % WORD) + Bytes(bits / WORD % WORD)
  {
    hide Bytes;
  }

  lemma TwoWords(n: nat)
    ensures n % WORD + WORD * (n / WORD % WORD) == n % (WORD * WORD)
  {
    assert n / WORD / WORD == n / (WORD * WORD);
  }

  lemma ZeroCount(n: nat)
    ensures (55 - n) % 64 == if n % 64 <= 55 then 55 - n % 64 else 119 - n % 64
    ensures (n + 1 + (55 - n) % 64 + 8) % 64 == 0
  {
    var q := n / 64;
    assert 55 - n == -64 * q + (55 - n % 64);
  }

  /** The registers after the first k blocks. */
  function Chained(data: seq<Byte>, k: nat): State
    requires 64 * k <= |data|
    decreases k
  {
    if k == 0 then START else Compress(Chained(data, k - 1), Words(data[64 * (k - 1)..64 * k]))
  }

  function Output(s: State): (digest: seq<Byte>)
    ensures |digest| == 16
  {
    Bytes(s.a.bits as int) + Bytes(s.b.bits as int) + Bytes(s.c.bits as int) + Bytes(s.d.bits as int)
  }

  /** The digest holds the four registers, lowest byte first. */
  lemma OutputReads(s: State)
    ensures var d := Output(s);
      && LowFirst(d[..4]) == s.a.bits as int && LowFirst(d[4..8]) == s.b.bits as int
      && LowFirst(d[8..12]) == s.c.bits as int && LowFirst(d[12..]) == s.d.bits as int
  {
    hide Bytes, LowFirst, Output;
    BytesReadBack(s.a.bits as int);
    BytesReadBack(s.b.bits as int);
    BytesReadBack(s.c.bits as int);
    BytesReadBack(s.d.bits as int);
    OutputParts(s);
  }

  lemma OutputParts(s: State)
    ensures var d := Output(s);
      && d[..4] == Bytes(s.a.bits as int) && d[4..8] == Bytes(s.b.bits as int)
      && d[8..12] == Bytes(s.c.bits as int) && d[12..] == Bytes(s.d.bits as int)
  {
    hide Bytes;
  }

  /** The registers start as the bytes 01 23 45 ... ef and their reverse. */
  lemma StartBytes()
    ensures Output(START) == [0x01, 0x23, 0x45, 0x67, 0x89, 0xab, 0xcd, 0xef, 0xfe, 0xdc, 0xba, 0x98, 0x76, 0x54, 0x32, 0x10]
  {
    StartNumbers();
    assert Bytes(0x67452301) == [0x01, 0x23, 0x45, 0x67] && Bytes(0xefcdab89) == [0x89, 0xab, 0xcd, 0xef];
    assert Bytes(0x98badcfe) == [0xfe, 0xdc, 0xba, 0x98] && Bytes(0x10325476) == [0x76, 0x54, 0x32, 0x10];
    hide Bytes;
  }

  lemma StartNumbers()
    ensures START.a.bits as int == 0x67452301 && START.b.bits as int == 0xefcdab89
    ensures START.c.bits as int == 0x98badcfe && START.d.bits as int == 0x10325476
  {
  }

  /** The digest of a whole message. */
  function Digest(msg: seq<Byte>): (digest: seq<Byte>)
    ensures |digest| == 16
  {
    PaddedLength(msg);
    var data := Padded(msg);
    Output(Chained(data, |data| / 64))
  }

  /** The registers after k blocks do not depend on what follows them. */
  lemma {:induction false} ChainedPrefix(data: seq<Byte>, more: seq<Byte>, k: nat)
    requires 64 * k <= |data|
    ensures Chained(data + more, k) == Chained(data, k)
    decreases k
  {
    hide Compress, Words;
    if k > 0 {
      ChainedPrefix(data, more, k - 1);
      assert (data + more)[64 * (k - 1)..64 * k] == data[64 * (k - 1)..64 * k];
    }
  }

  // ----- the streaming context ------------------------------------------------------------------

  /** The context, with the message it has taken in so far. */
  class MD5Context {
    const buf: array<Word>
    const bytes: array<int>
    const input: array<Byte>
    ghost var message: seq<Byte>

    /** The three arrays are distinct and of the right sizes. */
    ghost predicate Shape() {
      buf.Length == 4 && bytes.Length == 2 && input.Length == 64
    }

    ghost predicate Valid()
      reads this, buf, bytes, input
    {
      && Shape()
      && Counted(bytes[0], bytes[1], |message|)
      && Registers(buf) == Chained(message, |message| / 64)
      && input[..|message| % 64] == message[|message| / 64 * 64..]
    }

    constructor ()
      ensures Valid() && message == [] && fresh(buf) && fresh(bytes) && fresh(input)
    {
      var b, c, i := new Word[4](k => Word(0)), new int[2], new Byte[64];
      b[0], b[1], b[2], b[3] := Word(0x67452301), Word(0xefcdab89), Word(0x98badcfe), Word(0x10325476);
      c[0], c[1] := 0, 0;
      buf, bytes, input, message := b, c, i, [];
    }

    /** memcpy into the block buffer. */
    method CopyIn(at: nat, source: seq<Byte>)
      requires Shape() && at + |source| <= 64
      modifies input
      ensures input[..] == old(input[..at]) + source + old(input[at + |source|..])
    {
      forall k | 0 <= k < |source| {
        input[at + k] := source[k];
      }
    }

    method TransformInput()
      requires Shape()
      modifies buf
      ensures Registers(buf) == Compress(old(Registers(buf)), Words(input[..]))
    {
      hide Compress;
      Transform(buf, Words(input[..]));
    }

    /** Take in one more chunk. */
    method Update(chunk: seq<Byte>)
      requires Valid() && |chunk| < WORD
      modifies this, buf, bytes, input
      ensures Valid() && message == old(message) + chunk
    {
      hide Compress, Words, Chained, Counted;
      var t := bytes[0];
      bytes[0] := (t + |chunk|) % WORD;
      if bytes[0] < t {
        bytes[1] := (bytes[1] + 1) % WORD;
      }
      CountAdds(t, old(bytes[1]), |message|, |chunk|);
      ghost var before := message;
      message := message + chunk;
      t := 64 - t % 64;
      if t > |chunk| {
        CopyIn(64 - t, chunk);
        ShortChunk(before, chunk);
        return;
      }
      FillFirst(before, chunk, t);
      var off;
      ghost var k;
      off, k := WholeBlocks(before, chunk, t, |before| / 64 + 1);
      CopyIn(0, chunk[off..]);
      LastPart(before, chunk, off, k);
    }

    /** Complete the block in the buffer and compress it. */
    method FillFirst(ghost before: seq<Byte>, chunk: seq<Byte>, t: nat)
      requires Shape() && t == 64 - |before| % 64 && t <= |chunk| && message == before + chunk
      requires Registers(buf) == Chained(before, |before| / 64)
      requires input[..|before| % 64] == before[|before| / 64 * 64..]
      modifies buf, input
      ensures Registers(buf) == Chained(message, |before| / 64 + 1)
    {
      hide Compress, Words, Chained;
      CopyIn(64 - t, chunk[..t]);
      FirstBlock(before, chunk, t);
      assert input[..] == before[|before| / 64 * 64..] + chunk[..t];
      TransformInput();
    }

    /** Compress the chunk in 64-byte blocks from start on. */
    method WholeBlocks(ghost before: seq<Byte>, chunk: seq<Byte>, start: nat, ghost k0: nat) returns (off: nat, ghost k: nat)
      requires Shape() && message == before + chunk && start <= |chunk| && 64 * k0 == |before| + start
      requires Registers(buf) == Chained(message, k0)
      modifies buf, input
      ensures start <= off <= |chunk| < off + 64 && 64 * k == |before| + off && Registers(buf) == Chained(message, k)
    {
      hide Compress, Words, Chained;
      off, k := start, k0;
      var len := |chunk| - start;
      while len >= 64
        invariant start <= off && 0 <= len && off + len == |chunk| && 64 * k == |before| + off
        invariant Registers(buf) == Chained(message, k)
      {
        CopyIn(0, chunk[off..off + 64]);
        NextBlock(before, chunk, off, k);
        assert input[..] == chunk[off..off + 64];
        TransformInput();
        off, len, k := off + 64, len - 64, k + 1;
      }
    }

    /** The bit count in the last two words of the block. */
    method PutCount()
      requires Shape() && 0 <= bytes[0] < WORD && 0 <= bytes[1] < WORD
      modifies input
      ensures input[..56] == old(input[..56])
      ensures input[56..] == Bytes(bytes[0] * 8 % WORD) + Bytes(bytes[1] * 8 % WORD + bytes[0] / 0x2000_0000)
    {
      hide Bytes;
      CopyIn(56, Bytes(bytes[0] * 8 % WORD));
      CopyIn(60, Bytes(bytes[1] * 8 % WORD + bytes[0] / 0x2000_0000));
    }

    /** The 0x80 byte and zeros up to the count, with one block compressed on the way if they do not fit. */
    method PutPadding() returns (ghost k: nat)
      requires Valid()
      modifies buf, input
      ensures Counted(bytes[0], bytes[1], |message|) && 0 <= bytes[0] < WORD && 0 <= bytes[1] < WORD
      ensures if |message| % 64 > 55 then k == |message| / 64 + 1 && input[..56] == Zeros(56)
              else k == |message| / 64 && input[..56] == message[|message| / 64 * 64..] + [0x80] + Zeros(55 - |message| % 64)
      ensures 64 * k <= |Padded(message)| && Registers(buf) == Chained(Padded(message), k)
    {
      hide Compress, Words, Chained, Padded, Counted, Zeros;
      var count := bytes[0] % 64;
      CountMod(bytes[0], bytes[1], |message|);
      CopyIn(count, [0x80]);
      var p, room := count + 1, 55 - count;
      k := |message| / 64;
      PaddedPrefix(message, k);
      if room < 0 {
        CopyIn(p, Zeros(room + 8));
        ExtraBlock(message, input[..]);
        TransformInput();
        p, room, k := 0, 56, k + 1;
      }
      CopyIn(p, Zeros(room));
    }

    /** Pad, compress the last one or two blocks, give out the digest and wipe the context. */
    method Final() returns (digest: seq<Byte>)
      requires Valid()
      modifies this, buf, bytes, input
      ensures digest == Digest(old(message))
      ensures message == [] && (forall k :: 0 <= k < 4 ==> buf[k] == Word(0)) && bytes[0] == bytes[1] == 0
      ensures forall k :: 0 <= k < 64 ==> input[k] == 0
    {
      hide Compress, Words, Chained, Digest, Output, Bytes, Padded, Counted, Zeros;
      ghost var msg := message;
      ghost var k := PutPadding();
      PutCount();
      FinalBlock(msg, bytes[0], bytes[1], input[..], k);
      TransformInput();
      digest := Output(Registers(buf));
      Wipe();
    }

    method Wipe()
      requires Shape()
      modifies this, buf, bytes, input
      ensures message == [] && (forall k :: 0 <= k < 4 ==> buf[k] == Word(0)) && bytes[0] == bytes[1] == 0
      ensures forall k :: 0 <= k < 64 ==> input[k] == 0
    {
      buf[0], buf[1], buf[2], buf[3] := Word(0), Word(0), Word(0), Word(0);
      bytes[0], bytes[1] := 0, 0;
      forall k | 0 <= k < 64 {
        input[k] := 0;
      }
      message := [];
    }
  }

  /** The byte count, low and high word, modulo 2^64. */
  predicate Counted(low: int, high: int, n: nat) {
    low == n % WORD && high == n / WORD % WORD
  }

  /** The carry from the low to the high word of the count. */
  lemma CountAdds(low: int, high: int, n: nat, len: nat)
    requires Counted(low, high, n) && len < WORD
    ensures var low' := (low + len) % WORD; Counted(low', if low' < low then (high + 1) % WORD else high, n + len)
    ensures low % 64 == n % 64
  {
    CountMod(low, high, n);
    assert n == WORD * (n / WORD) + low;
    if low + len >= WORD {
      QuotientOf(n + len, n / WORD + 1, low + len - WORD);
    } else {
      QuotientOf(n + len, n / WORD, low + len);
    }
  }

  lemma QuotientOf(n: nat, q: nat, r: nat)
    requires n == WORD * q + r && r < WORD
    ensures n / WORD == q && n % WORD == r
  {
  }

  lemma CountMod(low: int, high: int, n: nat)
    requires Counted(low, high, n)
    ensures low % 64 == n % 64 && 0 <= low < WORD && 0 <= high < WORD
  {
  }

  /** The count of bits from the count of bytes. */
  lemma BitCount(low: int, high: int, n: nat)
    requires Counted(low, high, n)
    ensures low * 8 % WORD == 8 * n % WORD
    ensures high * 8 % WORD + low / 0x2000_0000 == 8 * n / WORD % WORD
  {
    var q := n / WORD;
    var top, rest := low / 0x2000_0000, low % 0x2000_0000;
    assert n == WORD * q + low && low == 0x2000_0000 * top + rest && 0 <= top < 8;
    QuotientOf(8 * n, 8 * q + top, 8 * rest);
    QuotientOf(8 * low, top, 8 * rest);
    HighBits(q, high, top);
  }

  lemma HighBits(q: nat, high: int, top: int)
    requires high == q % WORD && 0 <= top < 8
    ensures high * 8 % WORD + top == (8 * q + top) % WORD
  {
    var e := high / 0x2000_0000;
    var f := high % 0x2000_0000;
    assert q == WORD * (q / WORD) + high;
    QuotientOf(8 * high, e, 8 * f);
    QuotientOf(8 * q + top, 8 * (q / WORD) + e, 8 * f + top);
  }

  lemma ShortChunk(before: seq<Byte>, chunk: seq<Byte>)
    requires |before| % 64 + |chunk| < 64
    ensures var total := before + chunk;
      && |total| / 64 == |before| / 64 && |total| % 64 == |before| % 64 + |chunk|
      && total[|total| / 64 * 64..] == before[|before| / 64 * 64..] + chunk
      && Chained(total, |total| / 64) == Chained(before, |before| / 64)
  {
    hide Compress, Words;
    ChainedPrefix(before, chunk, |before| / 64);
  }

  lemma FirstBlock(before: seq<Byte>, chunk: seq<Byte>, t: nat)
    requires t == 64 - |before| % 64 && t <= |chunk|
    ensures var total, k := before + chunk, |before| / 64 + 1;
      && |before[|before| / 64 * 64..] + chunk[..t]| == 64 && 64 * k <= |total|
      && Chained(total, k) == Compress(Chained(before, k - 1), Words(before[|before| / 64 * 64..] + chunk[..t]))
  {
    hide Compress, Words;
    var total, q, m := before + chunk, |before| / 64, |before| % 64;
    assert |before| == 64 * q + m;
    ChainedPrefix(before, chunk, q);
    assert total[64 * q..64 * (q + 1)] == before[q * 64..] + chunk[..t];
  }

  lemma NextBlock(before: seq<Byte>, chunk: seq<Byte>, off: nat, k: nat)
    requires off + 64 <= |chunk| && 64 * k == |before| + off
    ensures Chained(before + chunk, k + 1) == Compress(Chained(before + chunk, k), Words(chunk[off..off + 64]))
  {
    hide Compress, Words;
    assert (before + chunk)[64 * k..64 * (k + 1)] == chunk[off..off + 64];
  }

  lemma LastPart(before: seq<Byte>, chunk: seq<Byte>, off: nat, k: nat)
    requires off <= |chunk| < off + 64 && 64 * k == |before| + off
    ensures var total := before + chunk; |total| / 64 == k && |total| % 64 == |chunk| - off && total[64 * k..] == chunk[off..]
  {
  }

  lemma ExtraSlice(msg: seq<Byte>)
    requires |msg| % 64 > 55
    ensures var k := |msg| / 64 + 1;
      64 * k <= |Padded(msg)| && Padded(msg)[64 * (k - 1)..64 * k] == msg[|msg| / 64 * 64..] + [0x80] + Zeros(63 - |msg| % 64)
  {
    hide Bytes;
    var m := |msg| % 64;
    ZeroCount(|msg|);
    var zeros := Zeros((55 - |msg|) % 64);
    assert zeros[..63 - m] == Zeros(63 - m);
    hide Zeros;
    var head := msg + [0x80] + zeros;
    assert head <= Padded(msg);
    assert head[..|msg| - m + 64] == msg + [0x80] + zeros[..63 - m];
  }

  /** When fewer than nine bytes are free, the 0x80 byte and zeros fill the block. */
  lemma ExtraBlock(msg: seq<Byte>, block: seq<Byte>)
    requires |msg| % 64 > 55
    requires block == msg[|msg| / 64 * 64..] + [0x80] + Zeros(63 - |msg| % 64)
    ensures var k := |msg| / 64 + 1;
      64 * k <= |Padded(msg)| && Chained(Padded(msg), k) == Compress(Chained(msg, k - 1), Words(block))
  {
    hide Compress, Words, Padded;
    PaddedPrefix(msg, |msg| / 64);
    ExtraSlice(msg);
  }

  lemma PaddedPrefix(msg: seq<Byte>, k: nat)
    requires 64 * k <= |msg|
    ensures 64 * k <= |Padded(msg)| && Chained(Padded(msg), k) == Chained(msg, k)
  {
    hide Compress, Words, Chained;
    ChainedPrefix(msg, Padded(msg)[|msg|..], k);
    assert Padded(msg) == msg + Padded(msg)[|msg|..];
  }

  /** The block that holds the count is the last one. */
  lemma FinalBlock(msg: seq<Byte>, low: int, high: int, block: seq<Byte>, k: nat)
    requires Counted(low, high, |msg|)
    requires |block| == 64 && block[56..] == Bytes(low * 8 % WORD) + Bytes(high * 8 % WORD + low / 0x2000_0000)
    requires if |msg| % 64 > 55 then k == |msg| / 64 + 1 && block[..56] == Zeros(56)
             else k == |msg| / 64 && block[..56] == msg[|msg| / 64 * 64..] + [0x80] + Zeros(55 - |msg| % 64)
    ensures 64 * (k + 1) == |Padded(msg)| && Digest(msg) == Output(Compress(Chained(Padded(msg), k), Words(block)))
  {
    hide Compress, Words, Bytes, Output, Chained;
    BitCount(low, high, |msg|);
    PaddedLength(msg);
    LastOfPadded(msg, block, k);
  }

  lemma AfterPrefix(head: seq<Byte>, tail: seq<Byte>)
    ensures (head + tail)[|head|..] == tail
  {
  }

  lemma TailAfterExtra(msg: seq<Byte>)
    requires |msg| % 64 > 55
    ensures var bits := 8 * |msg|; var k := |msg| / 64 + 1;
      64 * k <= |Padded(msg)| && Padded(msg)[64 * k..] == Zeros(56) + (Bytes(bits % WORD) + Bytes(bits / WORD % WORD))
  {
    hide Bytes, Zeros;
    var m, count := |msg| % 64, Bytes(8 * |msg| % WORD) + Bytes(8 * |msg| / WORD % WORD);
    ZeroCount(|msg|);
    assert Zeros(119 - m) == Zeros(63 - m) + Zeros(56);
    var head := msg + [0x80] + Zeros(63 - m);
    assert |head| == 64 * (|msg| / 64 + 1);
    assert Padded(msg) == head + (Zeros(56) + count);
    AfterPrefix(head, Zeros(56) + count);
  }

  lemma TailInBlock(msg: seq<Byte>)
    requires |msg| % 64 <= 55
    ensures var bits := 8 * |msg|; var k := |msg| / 64;
      64 * k <= |Padded(msg)|
      && Padded(msg)[64 * k..] == msg[64 * k..] + [0x80] + Zeros(55 - |msg| % 64) + (Bytes(bits % WORD) + Bytes(bits / WORD % WORD))
  {
    hide Bytes, Zeros;
    var q, count := |msg| / 64, Bytes(8 * |msg| % WORD) + Bytes(8 * |msg| / WORD % WORD);
    ZeroCount(|msg|);
    var rest := msg[64 * q..] + [0x80] + Zeros(55 - |msg| % 64) + count;
    assert msg == msg[..64 * q] + msg[64 * q..];
    assert Padded(msg) == msg[..64 * q] + rest;
    AfterPrefix(msg[..64 * q], rest);
  }

  lemma LastOfPadded(msg: seq<Byte>, block: seq<Byte>, k: nat)
    requires |block| == 64
    requires var bits := 8 * |msg|; block[56..] == Bytes(bits % WORD) + Bytes(bits / WORD % WORD)
    requires if |msg| % 64 > 55 then k == |msg| / 64 + 1 && block[..56] == Zeros(56)
             else k == |msg| / 64 && block[..56] == msg[|msg| / 64 * 64..] + [0x80] + Zeros(55 - |msg| % 64)
    ensures 64 * (k + 1) == |Padded(msg)| && Padded(msg)[64 * k..64 * (k + 1)] == block
    ensures Chained(Padded(msg), k + 1) == Compress(Chained(Padded(msg), k), Words(block))
  {
    hide Compress, Words, Bytes, Padded, Zeros;
    PaddedLength(msg);
    assert block == block[..56] + block[56..];
    if |msg| % 64 > 55 {
      TailAfterExtra(msg);
    } else {
      TailInBlock(msg);
    }
    assert Padded(msg)[64 * k..] == block;
    assert Padded(msg)[64 * k..64 * (k + 1)] == Padded(msg)[64 * k..];
  }

  // ----- the stream -----------------------------------------------------------------------------

  function Joined(chunks: seq<seq<Byte>>): seq<Byte> {
    if chunks == [] then [] else Joined(chunks[..|chunks| - 1]) + chunks[|chunks| - 1]
  }

  lemma NothingJoined()
    ensures Joined([]) == []
  {
  }

  lemma JoinedNext(chunks: seq<seq<Byte>>, k: nat)
    requires k < |chunks|
    ensures Joined(chunks[..k + 1]) == Joined(chunks[..k]) + chunks[k]
  {
    assert chunks[..k + 1][..k] == chunks[..k];
  }

  /** However a message is cut into calls of Update, the digest is that of the whole message. */
  method DigestInChunks(chunks: seq<seq<Byte>>) returns (digest: seq<Byte>)
    requires forall k :: 0 <= k < |chunks| ==> |chunks[k]| < WORD
    ensures digest == Digest(Joined(chunks))
  {
    hide Digest, Joined, Chained, Padded;
    NothingJoined();
    var context := new MD5Context();
    for k := 0 to |chunks|
      invariant context.Valid() && context.message == Joined(chunks[..k])
      invariant fresh(context) && fresh(context.buf) && fresh(context.bytes) && fresh(context.input)
    {
      context.Update(chunks[k]);
      JoinedNext(chunks, k);
    }
    assert chunks[..|chunks|] == chunks;
    digest := context.Final();
  }
}
