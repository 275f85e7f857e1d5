/** Two values of the test suite of section A.5 of RFC 1321 for dev/algorithmic/src/crypt-md5.cpp, worked
    out step by step, and what the four auxiliary functions do to each bit. Together they fix the
    functions, the constants, the rotations and the byte orders as values.

    Four steps at a time take every register once, so the registers are known after each four of the 64
    steps of a block, and a lemma evaluates each of these moves. The words and the constants used by a move
    are those of Words, WordIndex and Sine, told by the lemmas named Sines. */
module Md5Answers {

  import opened Md5Block
  import opened Md5Stream

  // ---------- the auxiliary functions, section 3.4 of RFC 1321 ----------

  /** F takes c where b is set and d elsewhere. */
  lemma FSelects(b: bv32, c: bv32, d: bv32, m: bv32)
    ensures b & m == m ==> F(b, c, d) & m == c & m
    ensures b & m == 0 ==> F(b, c, d) & m == d & m
  {
  }

  /** G takes b where d is set and c elsewhere. */
  lemma GSelects(b: bv32, c: bv32, d: bv32, m: bv32)
    ensures d & m == m ==> G(b, c, d) & m == b & m
    ensures d & m == 0 ==> G(b, c, d) & m == c & m
  {
  }

  predicate OneBit(m: bv32) {
    m != 0 && m & (m - 1) == 0
  }

  /** H is set where an odd number of the three is. */
  lemma HIsParity(b: bv32, c: bv32, d: bv32, m: bv32)
    requires OneBit(m)
    ensures H(b, c, d) & m != 0 <==> (((b & m != 0) != (c & m != 0)) != (d & m != 0))
  {
    assert b & m == 0 || b & m == m;
    assert c & m == 0 || c & m == m;
    assert d & m == 0 || d & m == m;
  }

  /** I takes the other value than c where b is set or d is not, and c elsewhere. */
  lemma ISelects(b: bv32, c: bv32, d: bv32, m: bv32)
    ensures b & m == m || d & m == 0 ==> I(b, c, d) & m == !c & m
    ensures b & m == 0 && d & m == m ==> I(b, c, d) & m == c & m
  {
  }

  // ---------- four steps at a time ----------

  /** The words or the constants of four consecutive steps. */
  datatype Quad = Quad(q0: bv32, q1: bv32, q2: bv32, q3: bv32)

  function WordsOf(x: seq<bv32>, i: nat): Quad
    requires i + 4 <= 64 && |x| == 16
  {
    Quad(x[WordIndex(i)], x[WordIndex(i + 1)], x[WordIndex(i + 2)], x[WordIndex(i + 3)])
  }

  function Sines(i: nat): Quad
    requires i + 4 <= 64
  {
    Quad(Sine(i), Sine(i + 1), Sine(i + 2), Sine(i + 3))
  }

  function QuadF(r: Registers, w: Quad, t: Quad): Registers {
    var a := SetF(r.a, r.b, r.c, r.d, w.q0, 7, t.q0);
    var d := SetF(r.d, a, r.b, r.c, w.q1, 12, t.q1);
    var c := SetF(r.c, d, a, r.b, w.q2, 17, t.q2);
    Registers(a, SetF(r.b, c, d, a, w.q3, 22, t.q3), c, d)
  }

  function QuadG(r: Registers, w: Quad, t: Quad): Registers {
    var a := SetG(r.a, r.b, r.c, r.d, w.q0, 5, t.q0);
    var d := SetG(r.d, a, r.b, r.c, w.q1, 9, t.q1);
    var c := SetG(r.c, d, a, r.b, w.q2, 14, t.q2);
    Registers(a, SetG(r.b, c, d, a, w.q3, 20, t.q3), c, d)
  }

  function QuadH(r: Registers, w: Quad, t: Quad): Registers {
    var a := SetH(r.a, r.b, r.c, r.d, w.q0, 4, t.q0);
    var d := SetH(r.d, a, r.b, r.c, w.q1, 11, t.q1);
    var c := SetH(r.c, d, a, r.b, w.q2, 16, t.q2);
    Registers(a, SetH(r.b, c, d, a, w.q3, 23, t.q3), c, d)
  }

  function QuadI(r: Registers, w: Quad, t: Quad): Registers {
    var a := SetI(r.a, r.b, r.c, r.d, w.q0, 6, t.q0);
    var d := SetI(r.d, a, r.b, r.c, w.q1, 10, t.q1);
    var c := SetI(r.c, d, a, r.b, w.q2, 15, t.q2);
    Registers(a, SetI(r.b, c, d, a, w.q3, 21, t.q3), c, d)
  }

  lemma MoreF(h: Registers, x: seq<bv32>, i: nat)
    requires 0 <= i < 16 && i % 4 == 0 && |x| == 16
    ensures Steps(h, x, i + 4) == QuadF(Steps(h, x, i), WordsOf(x, i), Sines(i))
  {
    hide SetF, WordIndex, Sine, Steps;
    TurnA(h, x, i, WordIndex(i), 7, Sine(i));
    TurnD(h, x, i + 1, WordIndex(i + 1), 12, Sine(i + 1));
    TurnC(h, x, i + 2, WordIndex(i + 2), 17, Sine(i + 2));
    TurnB(h, x, i + 3, WordIndex(i + 3), 22, Sine(i + 3));
  }

  lemma MoreG(h: Registers, x: seq<bv32>, i: nat)
    requires 16 <= i < 32 && i % 4 == 0 && |x| == 16
    ensures Steps(h, x, i + 4) == QuadG(Steps(h, x, i), WordsOf(x, i), Sines(i))
  {
    hide SetG, WordIndex, Sine, Steps;
    TurnA(h, x, i, WordIndex(i), 5, Sine(i));
    TurnD(h, x, i + 1, WordIndex(i + 1), 9, Sine(i + 1));
    TurnC(h, x, i + 2, WordIndex(i + 2), 14, Sine(i + 2));
    TurnB(h, x, i + 3, WordIndex(i + 3), 20, Sine(i + 3));
  }

  lemma MoreH(h: Registers, x: seq<bv32>, i: nat)
    requires 32 <= i < 48 && i % 4 == 0 && |x| == 16
    ensures Steps(h, x, i + 4) == QuadH(Steps(h, x, i), WordsOf(x, i), Sines(i))
  {
    hide SetH, WordIndex, Sine, Steps;
    TurnA(h, x, i, WordIndex(i), 4, Sine(i));
    TurnD(h, x, i + 1, WordIndex(i + 1), 11, Sine(i + 1));
    TurnC(h, x, i + 2, WordIndex(i + 2), 16, Sine(i + 2));
    TurnB(h, x, i + 3, WordIndex(i + 3), 23, Sine(i + 3));
  }

  lemma MoreI(h: Registers, x: seq<bv32>, i: nat)
    requires 48 <= i < 64 && i % 4 == 0 && |x| == 16
    ensures Steps(h, x, i + 4) == QuadI(Steps(h, x, i), WordsOf(x, i), Sines(i))
  {
    hide SetI, WordIndex, Sine, Steps;
    TurnA(h, x, i, WordIndex(i), 6, Sine(i));
    TurnD(h, x, i + 1, WordIndex(i + 1), 10, Sine(i + 1));
    TurnC(h, x, i + 2, WordIndex(i + 2), 15, Sine(i + 2));
    TurnB(h, x, i + 3, WordIndex(i + 3), 21, Sine(i + 3));
  }

  lemma FromBytesAnswers()
    ensures FromBytes(0x80, 0, 0, 0) == 0x80 && FromBytes(0x18, 0, 0, 0) == 0x18 && FromBytes(0, 0, 0, 0) == 0
    ensures FromBytes(0x61, 0x62, 0x63, 0x80) == 0x80636261
  {
  }

  /** The length bytes of a message of less than 32 bytes. */
  lemma LengthOf(n: nat, low: bv8)
    requires n < 32 && low == ByteOf(8 * n, 0)
    ensures LengthBytes(n) == [low] + seq(7, _ => 0)
  {
    hide ByteOf;
    SmallLength(n);
    forall i | 0 <= i < 8
      ensures LengthBytes(n)[i] == if i == 0 then low else 0
    {
      if i > 0 {
        HighByte(8 * n, i);
      }
    }
  }

  lemma SmallLength(n: nat)
    requires n < 32
    ensures 8 * n % (WORD * WORD) == 8 * n
  {
  }

  lemma HighByte(v: nat, i: nat)
    requires v < 256 && i > 0
    ensures ByteOf(v, i) == 0
  {
    ByteOfZero(i - 1);
  }

  lemma {:induction false} ByteOfZero(i: nat)
    ensures ByteOf(0, i) == 0
    decreases i
  {
    if i > 0 {
      ByteOfZero(i - 1);
    }
  }

  /** A register, least significant byte first. */
  function BytesOf(v: bv32): seq<bv8> {
    [ByteAt(v, 0), ByteAt(v, 8), ByteAt(v, 16), ByteAt(v, 24)]
  }

  lemma RegisterBytes(h: Registers, k: nat)
    requires k < 4
    ensures DigestByte(h, 4 * k) == ByteAt(RegisterAt(h, k), 0) && DigestByte(h, 4 * k + 1) == ByteAt(RegisterAt(h, k), 8)
    ensures DigestByte(h, 4 * k + 2) == ByteAt(RegisterAt(h, k), 16) && DigestByte(h, 4 * k + 3) == ByteAt(RegisterAt(h, k), 24)
  {
    hide RegisterAt, ByteAt;
  }

  lemma OutputIs(h: Registers)
    ensures Output(h) == BytesOf(h.a) + BytesOf(h.b) + BytesOf(h.c) + BytesOf(h.d)
  {
    hide Output, BytesOf;
    QuarterIs(h, 0);
    QuarterIs(h, 1);
    QuarterIs(h, 2);
    QuarterIs(h, 3);
    assert Output(h) == Output(h)[0..4] + Output(h)[4..8] + Output(h)[8..12] + Output(h)[12..16];
  }

  lemma QuarterIs(h: Registers, k: nat)
    requires k < 4
    ensures |Output(h)| == 16 && Output(h)[4 * k..4 * k + 4] == BytesOf(RegisterAt(h, k))
  {
    hide Output, DigestByte, ByteAt, RegisterAt;
    var v := RegisterAt(h, k);
    RegisterBytes(h, k);
    OutputAt(h, 4 * k);
    OutputAt(h, 4 * k + 1);
    OutputAt(h, 4 * k + 2);
    OutputAt(h, 4 * k + 3);
    FourOf(Output(h), 4 * k, ByteAt(v, 0), ByteAt(v, 8), ByteAt(v, 16), ByteAt(v, 24));
  }

  lemma OutputAt(h: Registers, i: nat)
    requires i < 16
    ensures |Output(h)| == 16 && Output(h)[i] == DigestByte(h, i)
  {
    hide DigestByte;
  }

  lemma FourOf(s: seq<bv8>, m: nat, w: bv8, x: bv8, y: bv8, z: bv8)
    requires m + 4 <= |s| && s[m] == w && s[m + 1] == x && s[m + 2] == y && s[m + 3] == z
    ensures s[m..m + 4] == [w, x, y, z]
  {
  }

  lemma SingleBlock(msg: seq<bv8>, block: seq<bv8>, x: seq<bv32>, r: Registers)
    requires block == Padded(msg) && |block| == 64 && x == Words(block) && r == Steps(INIT, x, 64)
    ensures Digest(msg) == Output(Plus(INIT, r))
  {
    hide Steps, Words, Output, Plus, Padded;
    OneBlock(INIT, block);
    assert block[..64] == block && block[64..] == [];
    FewBytes(Compress(INIT, block), []);
  }

  lemma Sines0()
    ensures Sines(0) == Quad(0xd76aa478, 0xe8c7b756, 0x242070db, 0xc1bdceee)
    ensures WordIndex(0) == 0 && WordIndex(1) == 1 && WordIndex(2) == 2 && WordIndex(3) == 3
  {
  }

  lemma Sines4()
    ensures Sines(4) == Quad(0xf57c0faf, 0x4787c62a, 0xa8304613, 0xfd469501)
    ensures WordIndex(4) == 4 && WordIndex(5) == 5 && WordIndex(6) == 6 && WordIndex(7) == 7
  {
  }

  lemma Sines8()
    ensures Sines(8) == Quad(0x698098d8, 0x8b44f7af, 0xffff5bb1, 0x895cd7be)
    ensures WordIndex(8) == 8 && WordIndex(9) == 9 && WordIndex(10) == 10 && WordIndex(11) == 11
  {
  }

  lemma Sines12()
    ensures Sines(12) == Quad(0x6b901122, 0xfd987193, 0xa679438e, 0x49b40821)
    ensures WordIndex(12) == 12 && WordIndex(13) == 13 && WordIndex(14) == 14 && WordIndex(15) == 15
  {
  }

  lemma Sines16()
    ensures Sines(16) == Quad(0xf61e2562, 0xc040b340, 0x265e5a51, 0xe9b6c7aa)
    ensures WordIndex(16) == 1 && WordIndex(17) == 6 && WordIndex(18) == 11 && WordIndex(19) == 0
  {
  }

  lemma Sines20()
    ensures Sines(20) == Quad(0xd62f105d, 0x02441453, 0xd8a1e681, 0xe7d3fbc8)
    ensures WordIndex(20) == 5 && WordIndex(21) == 10 && WordIndex(22) == 15 && WordIndex(23) == 4
  {
  }

  lemma Sines24()
    ensures Sines(24) == Quad(0x21e1cde6, 0xc33707d6, 0xf4d50d87, 0x455a14ed)
    ensures WordIndex(24) == 9 && WordIndex(25) == 14 && WordIndex(26) == 3 && WordIndex(27) == 8
  {
  }

  lemma Sines28()
    ensures Sines(28) == Quad(0xa9e3e905, 0xfcefa3f8, 0x676f02d9, 0x8d2a4c8a)
    ensures WordIndex(28) == 13 && WordIndex(29) == 2 && WordIndex(30) == 7 && WordIndex(31) == 12
  {
  }

  lemma Sines32()
    ensures Sines(32) == Quad(0xfffa3942, 0x8771f681, 0x6d9d6122, 0xfde5380c)
    ensures WordIndex(32) == 5 && WordIndex(33) == 8 && WordIndex(34) == 11 && WordIndex(35) == 14
  {
  }

  lemma Sines36()
    ensures Sines(36) == Quad(0xa4beea44, 0x4bdecfa9, 0xf6bb4b60, 0xbebfbc70)
    ensures WordIndex(36) == 1 && WordIndex(37) == 4 && WordIndex(38) == 7 && WordIndex(39) == 10
  {
  }

  lemma Sines40()
    ensures Sines(40) == Quad(0x289b7ec6, 0xeaa127fa, 0xd4ef3085, 0x04881d05)
    ensures WordIndex(40) == 13 && WordIndex(41) == 0 && WordIndex(42) == 3 && WordIndex(43) == 6
  {
  }

  lemma Sines44()
    ensures Sines(44) == Quad(0xd9d4d039, 0xe6db99e5, 0x1fa27cf8, 0xc4ac5665)
    ensures WordIndex(44) == 9 && WordIndex(45) == 12 && WordIndex(46) == 15 && WordIndex(47) == 2
  {
  }

  lemma Sines48()
    ensures Sines(48) == Quad(0xf4292244, 0x432aff97, 0xab9423a7, 0xfc93a039)
    ensures WordIndex(48) == 0 && WordIndex(49) == 7 && WordIndex(50) == 14 && WordIndex(51) == 5
  {
  }

  lemma Sines52()
    ensures Sines(52) == Quad(0x655b59c3, 0x8f0ccc92, 0xffeff47d, 0x85845dd1)
    ensures WordIndex(52) == 12 && WordIndex(53) == 3 && WordIndex(54) == 10 && WordIndex(55) == 1
  {
  }

  lemma Sines56()
    ensures Sines(56) == Quad(0x6fa87e4f, 0xfe2ce6e0, 0xa3014314, 0x4e0811a1)
    ensures WordIndex(56) == 8 && WordIndex(57) == 15 && WordIndex(58) == 6 && WordIndex(59) == 13
  {
  }

  lemma Sines60()
    ensures Sines(60) == Quad(0xf7537e82, 0xbd3af235, 0x2ad7d2bb, 0xeb86d391)
    ensures WordIndex(60) == 4 && WordIndex(61) == 11 && WordIndex(62) == 2 && WordIndex(63) == 9
  {
  }

  // ---------- the empty message ----------

  const EMPTY_BLOCK: seq<bv8> := [0x80] + seq(63, _ => 0)

  const EMPTY_WORDS: seq<bv32> := [0x80, 0x0, 0x0, 0x0, 0x0, 0x0, 0x0, 0x0, 0x0, 0x0, 0x0, 0x0, 0x0, 0x0, 0x0, 0x0]

  lemma EmptyWords()
    ensures Words(EMPTY_BLOCK) == EMPTY_WORDS
  {
    FromBytesAnswers();
    forall k | 0 <= k < 16
      ensures Words(EMPTY_BLOCK)[k] == EMPTY_WORDS[k]
    {
      hide FromBytes;
      assert k > 0 ==> EMPTY_BLOCK[4 * k] == EMPTY_BLOCK[4 * k + 1] == EMPTY_BLOCK[4 * k + 2] == EMPTY_BLOCK[4 * k + 3] == 0;
    }
  }

  lemma EmptyPadded()
    ensures Padded([]) == EMPTY_BLOCK
  {
    LengthOf(0, 0);
  }

  const EMPTY0 := INIT
  const EMPTY4 := Registers(0xa5202774, 0x1b163203, 0xe7f06b23, 0xf59592dd)
  const EMPTY8 := Registers(0x32033344, 0x9bc13ce9, 0xf5b158db, 0x2f35d494)
  const EMPTY12 := Registers(0x3893b991, 0x70768a29, 0xe1ef0576, 0xfce4a312)
  const EMPTY16 := Registers(0xf56c7cf1, 0xd6819c6a, 0x5aa53f75, 0x374943a7)
  const EMPTY20 := Registers(0x1c7d7513, 0xbd782e17, 0xc095f13a, 0x7bd57a3a)
  const EMPTY24 := Registers(0x3d1e3e6c, 0xe422531a, 0xeb41643e, 0x68b7b3e3)
  const EMPTY28 := Registers(0x306ec122, 0xa0572807, 0xa3c663da, 0xd28c77c2)
  const EMPTY32 := Registers(0x13707036, 0xa2205f1f, 0x1c31c384, 0xae7813db)
  const EMPTY36 := Registers(0xdf63eaa1, 0x004b6669, 0x12f3e755, 0xc3689f5b)
  const EMPTY40 := Registers(0x5f7a9b2e, 0xc5dc8c15, 0x91ca4cb7, 0xabc34e16)
  const EMPTY44 := Registers(0x4497169d, 0x0fe32453, 0xfd95f243, 0x76fd93d4)
  const EMPTY48 := Registers(0x3f55edfd, 0xca7d2dbd, 0x68d84ea2, 0x22a31f54)
  const EMPTY52 := Registers(0x93aa2577, 0x561e0689, 0xcd85b8cb, 0x1688dc85)
  const EMPTY56 := Registers(0x5625a114, 0x1e77fa61, 0x392ad0d0, 0x3450f42b)
  const EMPTY60 := Registers(0x474a9c8c, 0x30130182, 0x36594b14, 0xdfce00bc)
  const EMPTY64 := Registers(0x7246fad3, 0x14e45506, 0xff4ea3eb, 0x6e10a476)

  lemma EmptyTurn0()
    ensures QuadF(EMPTY0, Quad(0x80, 0x0, 0x0, 0x0), Quad(0xd76aa478, 0xe8c7b756, 0x242070db, 0xc1bdceee)) == EMPTY4
  {
  }

  lemma EmptyTurn4()
    ensures QuadF(EMPTY4, Quad(0x0, 0x0, 0x0, 0x0), Quad(0xf57c0faf, 0x4787c62a, 0xa8304613, 0xfd469501)) == EMPTY8
  {
  }

  lemma EmptyTurn8()
    ensures QuadF(EMPTY8, Quad(0x0, 0x0, 0x0, 0x0), Quad(0x698098d8, 0x8b44f7af, 0xffff5bb1, 0x895cd7be)) == EMPTY12
  {
  }

  lemma EmptyTurn12()
    ensures QuadF(EMPTY12, Quad(0x0, 0x0, 0x0, 0x0), Quad(0x6b901122, 0xfd987193, 0xa679438e, 0x49b40821)) == EMPTY16
  {
  }

  lemma EmptyTurn16()
    ensures QuadG(EMPTY16, Quad(0x0, 0x0, 0x0, 0x80), Quad(0xf61e2562, 0xc040b340, 0x265e5a51, 0xe9b6c7aa)) == EMPTY20
  {
  }

  lemma EmptyTurn20()
    ensures QuadG(EMPTY20, Quad(0x0, 0x0, 0x0, 0x0), Quad(0xd62f105d, 0x02441453, 0xd8a1e681, 0xe7d3fbc8)) == EMPTY24
  {
  }

  lemma EmptyTurn24()
    ensures QuadG(EMPTY24, Quad(0x0, 0x0, 0x0, 0x0), Quad(0x21e1cde6, 0xc33707d6, 0xf4d50d87, 0x455a14ed)) == EMPTY28
  {
  }

  lemma EmptyTurn28()
    ensures QuadG(EMPTY28, Quad(0x0, 0x0, 0x0, 0x0), Quad(0xa9e3e905, 0xfcefa3f8, 0x676f02d9, 0x8d2a4c8a)) == EMPTY32
  {
  }

  lemma EmptyTurn32()
    ensures QuadH(EMPTY32, Quad(0x0, 0x0, 0x0, 0x0), Quad(0xfffa3942, 0x8771f681, 0x6d9d6122, 0xfde5380c)) == EMPTY36
  {
  }

  lemma EmptyTurn36()
    ensures QuadH(EMPTY36, Quad(0x0, 0x0, 0x0, 0x0), Quad(0xa4beea44, 0x4bdecfa9, 0xf6bb4b60, 0xbebfbc70)) == EMPTY40
  {
  }

  lemma EmptyTurn40()
    ensures QuadH(EMPTY40, Quad(0x0, 0x80, 0x0, 0x0), Quad(0x289b7ec6, 0xeaa127fa, 0xd4ef3085, 0x04881d05)) == EMPTY44
  {
  }

  lemma EmptyTurn44()
    ensures QuadH(EMPTY44, Quad(0x0, 0x0, 0x0, 0x0), Quad(0xd9d4d039, 0xe6db99e5, 0x1fa27cf8, 0xc4ac5665)) == EMPTY48
  {
  }

  lemma EmptyTurn48()
    ensures QuadI(EMPTY48, Quad(0x80, 0x0, 0x0, 0x0), Quad(0xf4292244, 0x432aff97, 0xab9423a7, 0xfc93a039)) == EMPTY52
  {
  }

  lemma EmptyTurn52()
    ensures QuadI(EMPTY52, Quad(0x0, 0x0, 0x0, 0x0), Quad(0x655b59c3, 0x8f0ccc92, 0xffeff47d, 0x85845dd1)) == EMPTY56
  {
  }

  lemma EmptyTurn56()
    ensures QuadI(EMPTY56, Quad(0x0, 0x0, 0x0, 0x0), Quad(0x6fa87e4f, 0xfe2ce6e0, 0xa3014314, 0x4e0811a1)) == EMPTY60
  {
  }

  lemma EmptyTurn60()
    ensures QuadI(EMPTY60, Quad(0x0, 0x0, 0x0, 0x0), Quad(0xf7537e82, 0xbd3af235, 0x2ad7d2bb, 0xeb86d391)) == EMPTY64
  {
  }

  lemma EmptyRound1(x: seq<bv32>)
    requires x == EMPTY_WORDS && Steps(INIT, x, 0) == EMPTY0
    ensures Steps(INIT, x, 16) == EMPTY16
  {
    hide Steps, QuadF;
    MoreF(INIT, x, 0);
    Sines0();
    EmptyTurn0();
    MoreF(INIT, x, 4);
    Sines4();
    EmptyTurn4();
    MoreF(INIT, x, 8);
    Sines8();
    EmptyTurn8();
    MoreF(INIT, x, 12);
    Sines12();
    EmptyTurn12();
  }

  lemma EmptyRound2(x: seq<bv32>)
    requires x == EMPTY_WORDS && Steps(INIT, x, 16) == EMPTY16
    ensures Steps(INIT, x, 32) == EMPTY32
  {
    hide Steps, QuadG;
    MoreG(INIT, x, 16);
    Sines16();
    EmptyTurn16();
    MoreG(INIT, x, 20);
    Sines20();
    EmptyTurn20();
    MoreG(INIT, x, 24);
    Sines24();
    EmptyTurn24();
    MoreG(INIT, x, 28);
    Sines28();
    EmptyTurn28();
  }

  lemma EmptyRound3(x: seq<bv32>)
    requires x == EMPTY_WORDS && Steps(INIT, x, 32) == EMPTY32
    ensures Steps(INIT, x, 48) == EMPTY48
  {
    hide Steps, QuadH;
    MoreH(INIT, x, 32);
    Sines32();
    EmptyTurn32();
    MoreH(INIT, x, 36);
    Sines36();
    EmptyTurn36();
    MoreH(INIT, x, 40);
    Sines40();
    EmptyTurn40();
    MoreH(INIT, x, 44);
    Sines44();
    EmptyTurn44();
  }

  lemma EmptyRound4(x: seq<bv32>)
    requires x == EMPTY_WORDS && Steps(INIT, x, 48) == EMPTY48
    ensures Steps(INIT, x, 64) == EMPTY64
  {
    hide Steps, QuadI;
    MoreI(INIT, x, 48);
    Sines48();
    EmptyTurn48();
    MoreI(INIT, x, 52);
    Sines52();
    EmptyTurn52();
    MoreI(INIT, x, 56);
    Sines56();
    EmptyTurn56();
    MoreI(INIT, x, 60);
    Sines60();
    EmptyTurn60();
  }

  /** The empty message. */
  lemma EmptyAnswer()
    ensures Digest([]) ==
            [0xd4, 0x1d, 0x8c, 0xd9, 0x8f, 0x00, 0xb2, 0x04, 0xe9, 0x80, 0x09, 0x98, 0xec, 0xf8, 0x42, 0x7e]
  {
    hide Steps, Words, Output, Plus, Padded, Digest;
    EmptyWords();
    EmptyPadded();
    NoSteps(INIT, EMPTY_WORDS);
    EmptyRound1(EMPTY_WORDS);
    EmptyRound2(EMPTY_WORDS);
    EmptyRound3(EMPTY_WORDS);
    EmptyRound4(EMPTY_WORDS);
    SingleBlock([], EMPTY_BLOCK, EMPTY_WORDS, EMPTY64);
    EmptyOutput();
  }

  lemma EmptyOutput()
    ensures Output(Plus(INIT, EMPTY64)) ==
            [0xd4, 0x1d, 0x8c, 0xd9, 0x8f, 0x00, 0xb2, 0x04, 0xe9, 0x80, 0x09, 0x98, 0xec, 0xf8, 0x42, 0x7e]
  {
    OutputIs(Plus(INIT, EMPTY64));
    EmptyBytes();
  }

  lemma EmptyBytes()
    ensures var h := Plus(INIT, EMPTY64);
            && BytesOf(h.a) == [0xd4, 0x1d, 0x8c, 0xd9] && BytesOf(h.b) == [0x8f, 0x00, 0xb2, 0x04]
            && BytesOf(h.c) == [0xe9, 0x80, 0x09, 0x98] && BytesOf(h.d) == [0xec, 0xf8, 0x42, 0x7e]
  {
  }

  // ---------- "abc" ----------

  const ABC_BLOCK: seq<bv8> := [0x61, 0x62, 0x63, 0x80] + seq(52, _ => 0) + [0x18] + seq(7, _ => 0)

  const ABC_WORDS: seq<bv32> := [0x80636261, 0x0, 0x0, 0x0, 0x0, 0x0, 0x0, 0x0, 0x0, 0x0, 0x0, 0x0, 0x0, 0x0, 0x18, 0x0]

  lemma AbcWords()
    ensures Words(ABC_BLOCK) == ABC_WORDS
  {
    FromBytesAnswers();
    forall k | 0 <= k < 16
      ensures Words(ABC_BLOCK)[k] == ABC_WORDS[k]
    {
      hide FromBytes;
      assert k != 0 && k != 14 ==>
               ABC_BLOCK[4 * k] == ABC_BLOCK[4 * k + 1] == ABC_BLOCK[4 * k + 2] == ABC_BLOCK[4 * k + 3] == 0;
    }
  }

  lemma AbcPadded()
    ensures Padded([0x61, 0x62, 0x63]) == ABC_BLOCK
  {
    LowByte();
    hide ByteOf, LengthBytes;
    LengthOf(3, 0x18);
    assert Padding(3) == [0x80] + seq(52, _ => 0);
  }

  lemma LowByte()
    ensures ByteOf(24, 0) == 0x18
  {
  }

  const ABC0 := INIT
  const ABC4 := Registers(0xd6d117b4, 0x7ad956f2, 0x2f6fbd72, 0x344a8432)
  const ABC8 := Registers(0xc73741ef, 0x928d99f6, 0x207dc67b, 0x8bac3051)
  const ABC12 := Registers(0x854b3712, 0x5ed49596, 0x3020401c, 0x74e2f284)
  const ABC16 := Registers(0xdda9b9a6, 0x72aff2e0, 0xe396856b, 0xa1051895)
  const ABC20 := Registers(0x3e9e9126, 0xb5b204e4, 0xe25e1652, 0x4a1d804e)
  const ABC24 := Registers(0x59a8ffda, 0x47092c07, 0xabfc7920, 0x6d002f1e)
  const ABC28 := Registers(0xb7f268cf, 0x786acb8f, 0xfe1623b1, 0x09388eff)
  const ABC32 := Registers(0x790a77fb, 0x726342d3, 0xa62884aa, 0x9f47e4f8)
  const ABC36 := Registers(0xb3707ebf, 0x3b0875c7, 0x8d212ff5, 0x60127b2e)
  const ABC40 := Registers(0x21b117b9, 0x5a2f5ea5, 0x3575227e, 0x6e7429d5)
  const ABC44 := Registers(0x11de1779, 0x4c6124f4, 0x31c465ca, 0xfadcaa38)
  const ABC48 := Registers(0x7f2e507b, 0x7beb9700, 0x8fae6399, 0x99d9679d)
  const ABC52 := Registers(0x7b201df8, 0x8bf025c4, 0xb298cefd, 0xf4e8e96e)
  const ABC56 := Registers(0x06cc5e8a, 0x3bfa2c27, 0x7d632dd0, 0x5b0d97aa)
  const ABC60 := Registers(0x7f81cc35, 0x7327d604, 0x4f9dbe3f, 0x094454ab)
  const ABC64 := Registers(0x310ade8f, 0xc08226b3, 0xe484b9d8, 0x624d8cb2)

  lemma AbcTurn0()
    ensures QuadF(ABC0, Quad(0x80636261, 0x0, 0x0, 0x0), Quad(0xd76aa478, 0xe8c7b756, 0x242070db, 0xc1bdceee)) == ABC4
  {
  }

  lemma AbcTurn4()
    ensures QuadF(ABC4, Quad(0x0, 0x0, 0x0, 0x0), Quad(0xf57c0faf, 0x4787c62a, 0xa8304613, 0xfd469501)) == ABC8
  {
  }

  lemma AbcTurn8()
    ensures QuadF(ABC8, Quad(0x0, 0x0, 0x0, 0x0), Quad(0x698098d8, 0x8b44f7af, 0xffff5bb1, 0x895cd7be)) == ABC12
  {
  }

  lemma AbcTurn12()
    ensures QuadF(ABC12, Quad(0x0, 0x0, 0x18, 0x0), Quad(0x6b901122, 0xfd987193, 0xa679438e, 0x49b40821)) == ABC16
  {
  }

  lemma AbcTurn16()
    ensures QuadG(ABC16, Quad(0x0, 0x0, 0x0, 0x80636261), Quad(0xf61e2562, 0xc040b340, 0x265e5a51, 0xe9b6c7aa)) == ABC20
  {
  }

  lemma AbcTurn20()
    ensures QuadG(ABC20, Quad(0x0, 0x0, 0x0, 0x0), Quad(0xd62f105d, 0x02441453, 0xd8a1e681, 0xe7d3fbc8)) == ABC24
  {
  }

  lemma AbcTurn24()
    ensures QuadG(ABC24, Quad(0x0, 0x18, 0x0, 0x0), Quad(0x21e1cde6, 0xc33707d6, 0xf4d50d87, 0x455a14ed)) == ABC28
  {
  }

  lemma AbcTurn28()
    ensures QuadG(ABC28, Quad(0x0, 0x0, 0x0, 0x0), Quad(0xa9e3e905, 0xfcefa3f8, 0x676f02d9, 0x8d2a4c8a)) == ABC32
  {
  }

  lemma AbcTurn32()
    ensures QuadH(ABC32, Quad(0x0, 0x0, 0x0, 0x18), Quad(0xfffa3942, 0x8771f681, 0x6d9d6122, 0xfde5380c)) == ABC36
  {
  }

  lemma AbcTurn36()
    ensures QuadH(ABC36, Quad(0x0, 0x0, 0x0, 0x0), Quad(0xa4beea44, 0x4bdecfa9, 0xf6bb4b60, 0xbebfbc70)) == ABC40
  {
  }

  lemma AbcTurn40()
    ensures QuadH(ABC40, Quad(0x0, 0x80636261, 0x0, 0x0), Quad(0x289b7ec6, 0xeaa127fa, 0xd4ef3085, 0x04881d05)) == ABC44
  {
  }

  lemma AbcTurn44()
    ensures QuadH(ABC44, Quad(0x0, 0x0, 0x0, 0x0), Quad(0xd9d4d039, 0xe6db99e5, 0x1fa27cf8, 0xc4ac5665)) == ABC48
  {
  }

  lemma AbcTurn48()
    ensures QuadI(ABC48, Quad(0x80636261, 0x0, 0x18, 0x0), Quad(0xf4292244, 0x432aff97, 0xab9423a7, 0xfc93a039)) == ABC52
  {
  }

  lemma AbcTurn52()
    ensures QuadI(ABC52, Quad(0x0, 0x0, 0x0, 0x0), Quad(0x655b59c3, 0x8f0ccc92, 0xffeff47d, 0x85845dd1)) == ABC56
  {
  }

  lemma AbcTurn56()
    ensures QuadI(ABC56, Quad(0x0, 0x0, 0x0, 0x0), Quad(0x6fa87e4f, 0xfe2ce6e0, 0xa3014314, 0x4e0811a1)) == ABC60
  {
  }

  lemma AbcTurn60()
    ensures QuadI(ABC60, Quad(0x0, 0x0, 0x0, 0x0), Quad(0xf7537e82, 0xbd3af235, 0x2ad7d2bb, 0xeb86d391)) == ABC64
  {
  }

  lemma AbcRound1(x: seq<bv32>)
    requires x == ABC_WORDS && Steps(INIT, x, 0) == ABC0
    ensures Steps(INIT, x, 16) == ABC16
  {
    hide Steps, QuadF;
    MoreF(INIT, x, 0);
    Sines0();
    AbcTurn0();
    MoreF(INIT, x, 4);
    Sines4();
    AbcTurn4();
    MoreF(INIT, x, 8);
    Sines8();
    AbcTurn8();
    MoreF(INIT, x, 12);
    Sines12();
    AbcTurn12();
  }

  lemma AbcRound2(x: seq<bv32>)
    requires x == ABC_WORDS && Steps(INIT, x, 16) == ABC16
    ensures Steps(INIT, x, 32) == ABC32
  {
    hide Steps, QuadG;
    MoreG(INIT, x, 16);
    Sines16();
    AbcTurn16();
    MoreG(INIT, x, 20);
    Sines20();
    AbcTurn20();
    MoreG(INIT, x, 24);
    Sines24();
    AbcTurn24();
    MoreG(INIT, x, 28);
    Sines28();
    AbcTurn28();
  }

  lemma AbcRound3(x: seq<bv32>)
    requires x == ABC_WORDS && Steps(INIT, x, 32) == ABC32
    ensures Steps(INIT, x, 48) == ABC48
  {
    hide Steps, QuadH;
    MoreH(INIT, x, 32);
    Sines32();
    AbcTurn32();
    MoreH(INIT, x, 36);
    Sines36();
    AbcTurn36();
    MoreH(INIT, x, 40);
    Sines40();
    AbcTurn40();
    MoreH(INIT, x, 44);
    Sines44();
    AbcTurn44();
  }

  lemma AbcRound4(x: seq<bv32>)
    requires x == ABC_WORDS && Steps(INIT, x, 48) == ABC48
    ensures Steps(INIT, x, 64) == ABC64
  {
    hide Steps, QuadI;
    MoreI(INIT, x, 48);
    Sines48();
    AbcTurn48();
    MoreI(INIT, x, 52);
    Sines52();
    AbcTurn52();
    MoreI(INIT, x, 56);
    Sines56();
    AbcTurn56();
    MoreI(INIT, x, 60);
    Sines60();
    AbcTurn60();
  }

  /** "abc". */
  lemma AbcAnswer()
    ensures Digest([0x61, 0x62, 0x63]) ==
            [0x90, 0x01, 0x50, 0x98, 0x3c, 0xd2, 0x4f, 0xb0, 0xd6, 0x96, 0x3f, 0x7d, 0x28, 0xe1, 0x7f, 0x72]
  {
    hide Steps, Words, Output, Plus, Padded, Digest;
    AbcWords();
    AbcPadded();
    NoSteps(INIT, ABC_WORDS);
    AbcRound1(ABC_WORDS);
    AbcRound2(ABC_WORDS);
    AbcRound3(ABC_WORDS);
    AbcRound4(ABC_WORDS);
    SingleBlock([0x61, 0x62, 0x63], ABC_BLOCK, ABC_WORDS, ABC64);
    AbcOutput();
  }

  lemma AbcOutput()
    ensures Output(Plus(INIT, ABC64)) ==
            [0x90, 0x01, 0x50, 0x98, 0x3c, 0xd2, 0x4f, 0xb0, 0xd6, 0x96, 0x3f, 0x7d, 0x28, 0xe1, 0x7f, 0x72]
  {
    OutputIs(Plus(INIT, ABC64));
    AbcBytes();
  }

  lemma AbcBytes()
    ensures var h := Plus(INIT, ABC64);
            && BytesOf(h.a) == [0x90, 0x01, 0x50, 0x98] && BytesOf(h.b) == [0x3c, 0xd2, 0x4f, 0xb0]
            && BytesOf(h.c) == [0xd6, 0x96, 0x3f, 0x7d] && BytesOf(h.d) == [0x28, 0xe1, 0x7f, 0x72]
  {
  }

  /** The same through the code, in two pieces. */
  method ChunksAnswer() returns (digest: seq<bv8>)
    ensures digest == [0x90, 0x01, 0x50, 0x98, 0x3c, 0xd2, 0x4f, 0xb0, 0xd6, 0x96, 0x3f, 0x7d, 0x28, 0xe1, 0x7f, 0x72]
  {
    hide Digest;
    AbcAnswer();
    var chunks: seq<seq<bv8>> := [[0x61], [0x62, 0x63]];
    assert Flatten(chunks) == [0x61, 0x62, 0x63] by {
      assert chunks[..1] == [[0x61]] && chunks[..1][..0] == [];
    }
    digest := DigestOfChunks(chunks);
  }
}
