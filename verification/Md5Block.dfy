/** md5_process of dev/algorithmic/src/crypt-md5.cpp: sixty-four unrolled steps, against the step
    schedule of section 3.4 of RFC 1321 written as formulas. */
module Md5Block {

  datatype Registers = Registers(a: bv32, b: bv32, c: bv32, d: bv32)

  // ---------- the steps ----------

  function RotateLeft(x: bv32, n: nat): bv32
    requires n < 32
  {
    (x << n) | (x >> (32 - n))
  }

  function F(b: bv32, c: bv32, d: bv32): bv32 {
    (b & c) | (!b & d)
  }

  function G(b: bv32, c: bv32, d: bv32): bv32 {
    (b & d) | (c & !d)
  }

  function H(b: bv32, c: bv32, d: bv32): bv32 {
    b ^ c ^ d
  }

  function I(b: bv32, c: bv32, d: bv32): bv32 {
    c ^ (b | !d)
  }

  function SetF(a: bv32, b: bv32, c: bv32, d: bv32, x: bv32, s: nat, t: bv32): bv32
    requires s < 32
  {
    RotateLeft(a + F(b, c, d) + x + t, s) + b
  }

  function SetG(a: bv32, b: bv32, c: bv32, d: bv32, x: bv32, s: nat, t: bv32): bv32
    requires s < 32
  {
    RotateLeft(a + G(b, c, d) + x + t, s) + b
  }

  function SetH(a: bv32, b: bv32, c: bv32, d: bv32, x: bv32, s: nat, t: bv32): bv32
    requires s < 32
  {
    RotateLeft(a + H(b, c, d) + x + t, s) + b
  }

  function SetI(a: bv32, b: bv32, c: bv32, d: bv32, x: bv32, s: nat, t: bv32): bv32
    requires s < 32
  {
    RotateLeft(a + I(b, c, d) + x + t, s) + b
  }

  /** T[i + 1] of RFC 1321. */
  function Sine(i: nat): bv32
    requires i < 64
  {
    if i < 32 then
      if i < 16 then
        if i < 8 then
          if i < 4 then
            if i < 2 then (if i < 1 then 0xd76aa478 else 0xe8c7b756) else if i < 3 then 0x242070db else 0xc1bdceee
          else
            if i < 6 then (if i < 5 then 0xf57c0faf else 0x4787c62a) else if i < 7 then 0xa8304613 else 0xfd469501
        else
          if i < 12 then
            if i < 10 then (if i < 9 then 0x698098d8 else 0x8b44f7af) else if i < 11 then 0xffff5bb1 else 0x895cd7be
          else
            if i < 14 then (if i < 13 then 0x6b901122 else 0xfd987193) else if i < 15 then 0xa679438e else 0x49b40821
      else
        if i < 24 then
          if i < 20 then
            if i < 18 then (if i < 17 then 0xf61e2562 else 0xc040b340) else if i < 19 then 0x265e5a51 else 0xe9b6c7aa
          else
            if i < 22 then (if i < 21 then 0xd62f105d else 0x02441453) else if i < 23 then 0xd8a1e681 else 0xe7d3fbc8
        else
          if i < 28 then
            if i < 26 then (if i < 25 then 0x21e1cde6 else 0xc33707d6) else if i < 27 then 0xf4d50d87 else 0x455a14ed
          else
            if i < 30 then (if i < 29 then 0xa9e3e905 else 0xfcefa3f8) else if i < 31 then 0x676f02d9 else 0x8d2a4c8a
    else
      if i < 48 then
        if i < 40 then
          if i < 36 then
            if i < 34 then (if i < 33 then 0xfffa3942 else 0x8771f681) else if i < 35 then 0x6d9d6122 else 0xfde5380c
          else
            if i < 38 then (if i < 37 then 0xa4beea44 else 0x4bdecfa9) else if i < 39 then 0xf6bb4b60 else 0xbebfbc70
        else
          if i < 44 then
            if i < 42 then (if i < 41 then 0x289b7ec6 else 0xeaa127fa) else if i < 43 then 0xd4ef3085 else 0x04881d05
          else
            if i < 46 then (if i < 45 then 0xd9d4d039 else 0xe6db99e5) else if i < 47 then 0x1fa27cf8 else 0xc4ac5665
      else
        if i < 56 then
          if i < 52 then
            if i < 50 then (if i < 49 then 0xf4292244 else 0x432aff97) else if i < 51 then 0xab9423a7 else 0xfc93a039
          else
            if i < 54 then (if i < 53 then 0x655b59c3 else 0x8f0ccc92) else if i < 55 then 0xffeff47d else 0x85845dd1
        else
          if i < 60 then
            if i < 58 then (if i < 57 then 0x6fa87e4f else 0xfe2ce6e0) else if i < 59 then 0xa3014314 else 0x4e0811a1
          else
            if i < 62 then (if i < 61 then 0xf7537e82 else 0xbd3af235) else if i < 63 then 0x2ad7d2bb else 0xeb86d391
  }

  /** Which word of the block step i reads. */
  function WordIndex(i: nat): (k: nat)
    requires i < 64
    ensures k < 16
  {
    if i < 16 then i
    else if i < 32 then (5 * i + 1) % 16
    else if i < 48 then (3 * i + 5) % 16
    else (7 * i) % 16
  }

  /** By how much step i rotates. */
  function Rotation(i: nat): (s: nat)
    requires i < 64
    ensures s < 32
  {
    var j := i % 4;
    if i < 16 then 7 + 5 * j
    else if i < 32 then (if j == 0 then 5 else if j == 1 then 9 else if j == 2 then 14 else 20)
    else if i < 48 then (if j == 0 then 4 else if j == 1 then 11 else if j == 2 then 16 else 23)
    else (if j == 0 then 6 else if j == 1 then 10 else if j == 2 then 15 else 21)
  }

  function SetAt(i: nat, r: Registers, x: bv32, s: nat, t: bv32): bv32
    requires i < 64 && s < 32
  {
    if i < 16 then SetF(r.a, r.b, r.c, r.d, x, s, t)
    else if i < 32 then SetG(r.a, r.b, r.c, r.d, x, s, t)
    else if i < 48 then SetH(r.a, r.b, r.c, r.d, x, s, t)
    else SetI(r.a, r.b, r.c, r.d, x, s, t)
  }

  /** Step i computes a new value for the register whose turn it is, where turn 0 is a, 1 is d, 2 is c, 3 is b. */
  function Step(i: nat, r: Registers, x: seq<bv32>): Registers
    requires i < 64 && |x| == 16
  {
    var w, s, t := x[WordIndex(i)], Rotation(i), Sine(i);
    match i % 4
    case 0 => r.(a := SetAt(i, r, w, s, t))
    case 1 => r.(d := SetAt(i, Registers(r.d, r.a, r.b, r.c), w, s, t))
    case 2 => r.(c := SetAt(i, Registers(r.c, r.d, r.a, r.b), w, s, t))
    case _ => r.(b := SetAt(i, Registers(r.b, r.c, r.d, r.a), w, s, t))
  }

  /** The registers after the first n steps. */
  function Steps(r: Registers, x: seq<bv32>, n: nat): Registers
    requires n <= 64 && |x| == 16
    decreases n
  {
    if n == 0 then r else Step(n - 1, Steps(r, x, n - 1), x)
  }

  /** Step 4n changes register a. */
  lemma TurnA(start: Registers, x: seq<bv32>, i: nat, k: nat, s: nat, t: bv32)
    requires i < 64 && |x| == 16 && i % 4 == 0 && k == WordIndex(i) && s == Rotation(i) && t == Sine(i)
    ensures var r := Steps(start, x, i);
            Steps(start, x, i + 1) == r.(a := SetAt(i, Registers(r.a, r.b, r.c, r.d), x[k], s, t))
  {
    hide SetAt, WordIndex, Rotation, Sine;
  }

  /** Step 4n + 1 changes register d. */
  lemma TurnD(start: Registers, x: seq<bv32>, i: nat, k: nat, s: nat, t: bv32)
    requires i < 64 && |x| == 16 && i % 4 == 1 && k == WordIndex(i) && s == Rotation(i) && t == Sine(i)
    ensures var r := Steps(start, x, i);
            Steps(start, x, i + 1) == r.(d := SetAt(i, Registers(r.d, r.a, r.b, r.c), x[k], s, t))
  {
    hide SetAt, WordIndex, Rotation, Sine;
  }

  /** Step 4n + 2 changes register c. */
  lemma TurnC(start: Registers, x: seq<bv32>, i: nat, k: nat, s: nat, t: bv32)
    requires i < 64 && |x| == 16 && i % 4 == 2 && k == WordIndex(i) && s == Rotation(i) && t == Sine(i)
    ensures var r := Steps(start, x, i);
            Steps(start, x, i + 1) == r.(c := SetAt(i, Registers(r.c, r.d, r.a, r.b), x[k], s, t))
  {
    hide SetAt, WordIndex, Rotation, Sine;
  }

  /** Step 4n + 3 changes register b. */
  lemma TurnB(start: Registers, x: seq<bv32>, i: nat, k: nat, s: nat, t: bv32)
    requires i < 64 && |x| == 16 && i % 4 == 3 && k == WordIndex(i) && s == Rotation(i) && t == Sine(i)
    ensures var r := Steps(start, x, i);
            Steps(start, x, i + 1) == r.(b := SetAt(i, Registers(r.b, r.c, r.d, r.a), x[k], s, t))
  {
    hide SetAt, WordIndex, Rotation, Sine;
  }

  function FromBytes(b0: bv8, b1: bv8, b2: bv8, b3: bv8): bv32 {
    (b0 as bv32) + ((b1 as bv32) << 8) + ((b2 as bv32) << 16) + ((b3 as bv32) << 24)
  }

  /** Word k of a block, least significant byte first. */
  function LittleEndian(block: seq<bv8>, k: nat): bv32
    requires 4 * k + 4 <= |block|
  {
    FromBytes(block[4 * k], block[4 * k + 1], block[4 * k + 2], block[4 * k + 3])
  }

  function Words(block: seq<bv8>): (x: seq<bv32>)
    requires |block| == 64
    ensures |x| == 16
  {
    seq(16, k requires 0 <= k < 16 => LittleEndian(block, k))
  }

  function Plus(h: Registers, r: Registers): Registers {
    Registers(h.a + r.a, h.b + r.b, h.c + r.c, h.d + r.d)
  }

  /** The compression of one block. */
  function Compress(h: Registers, block: seq<bv8>): Registers
    requires |block| == 64
  {
    Plus(h, Steps(h, Words(block), 64))
  }

  // ---------- the unrolled rounds ----------

  /** Four consecutive steps of round 1, the registers taking turns. */
  method FourF(x: array<bv32>, a0: bv32, b0: bv32, c0: bv32, d0: bv32, k0: nat, k1: nat, k2: nat, k3: nat,
               t0: bv32, t1: bv32, t2: bv32, t3: bv32, ghost start: Registers, ghost i: nat)
    returns (a: bv32, b: bv32, c: bv32, d: bv32)
    requires x.Length == 16 && 0 <= i < 16 && i % 4 == 0
    requires k0 == WordIndex(i) && k1 == WordIndex(i + 1) && k2 == WordIndex(i + 2) && k3 == WordIndex(i + 3)
    requires t0 == Sine(i) && t1 == Sine(i + 1) && t2 == Sine(i + 2) && t3 == Sine(i + 3)
    requires Registers(a0, b0, c0, d0) == Steps(start, x[..], i)
    ensures Registers(a, b, c, d) == Steps(start, x[..], i + 4)
  {
    hide SetF, Steps, WordIndex, Sine;
    a, b, c, d := a0, b0, c0, d0;
    a := SetF(a, b, c, d, x[k0], 7, t0);
    TurnA(start, x[..], i, k0, 7, t0);
    d := SetF(d, a, b, c, x[k1], 12, t1);
    TurnD(start, x[..], i + 1, k1, 12, t1);
    c := SetF(c, d, a, b, x[k2], 17, t2);
    TurnC(start, x[..], i + 2, k2, 17, t2);
    b := SetF(b, c, d, a, x[k3], 22, t3);
    TurnB(start, x[..], i + 3, k3, 22, t3);
  }

  method Round1(x: array<bv32>, a0: bv32, b0: bv32, c0: bv32, d0: bv32, ghost start: Registers)
    returns (a: bv32, b: bv32, c: bv32, d: bv32)
    requires x.Length == 16 && Registers(a0, b0, c0, d0) == Steps(start, x[..], 0)
    ensures Registers(a, b, c, d) == Steps(start, x[..], 16)
  {
    hide Steps;
    a, b, c, d := a0, b0, c0, d0;
    a, b, c, d := FourF(x, a, b, c, d, 0, 1, 2, 3, 0xd76aa478, 0xe8c7b756, 0x242070db, 0xc1bdceee, start, 0);
    a, b, c, d := FourF(x, a, b, c, d, 4, 5, 6, 7, 0xf57c0faf, 0x4787c62a, 0xa8304613, 0xfd469501, start, 4);
    a, b, c, d := FourF(x, a, b, c, d, 8, 9, 10, 11, 0x698098d8, 0x8b44f7af, 0xffff5bb1, 0x895cd7be, start, 8);
    a, b, c, d := FourF(x, a, b, c, d, 12, 13, 14, 15, 0x6b901122, 0xfd987193, 0xa679438e, 0x49b40821, start, 12);
  }

  /** Four consecutive steps of round 2, the registers taking turns. */
  method FourG(x: array<bv32>, a0: bv32, b0: bv32, c0: bv32, d0: bv32, k0: nat, k1: nat, k2: nat, k3: nat,
               t0: bv32, t1: bv32, t2: bv32, t3: bv32, ghost start: Registers, ghost i: nat)
    returns (a: bv32, b: bv32, c: bv32, d: bv32)
    requires x.Length == 16 && 16 <= i < 32 && i % 4 == 0
    requires k0 == WordIndex(i) && k1 == WordIndex(i + 1) && k2 == WordIndex(i + 2) && k3 == WordIndex(i + 3)
    requires t0 == Sine(i) && t1 == Sine(i + 1) && t2 == Sine(i + 2) && t3 == Sine(i + 3)
    requires Registers(a0, b0, c0, d0) == Steps(start, x[..], i)
    ensures Registers(a, b, c, d) == Steps(start, x[..], i + 4)
  {
    hide SetG, Steps, WordIndex, Sine;
    a, b, c, d := a0, b0, c0, d0;
    a := SetG(a, b, c, d, x[k0], 5, t0);
    TurnA(start, x[..], i, k0, 5, t0);
    d := SetG(d, a, b, c, x[k1], 9, t1);
    TurnD(start, x[..], i + 1, k1, 9, t1);
    c := SetG(c, d, a, b, x[k2], 14, t2);
    TurnC(start, x[..], i + 2, k2, 14, t2);
    b := SetG(b, c, d, a, x[k3], 20, t3);
    TurnB(start, x[..], i + 3, k3, 20, t3);
  }

  method Round2(x: array<bv32>, a0: bv32, b0: bv32, c0: bv32, d0: bv32, ghost start: Registers)
    returns (a: bv32, b: bv32, c: bv32, d: bv32)
    requires x.Length == 16 && Registers(a0, b0, c0, d0) == Steps(start, x[..], 16)
    ensures Registers(a, b, c, d) == Steps(start, x[..], 32)
  {
    hide Steps;
    a, b, c, d := a0, b0, c0, d0;
    a, b, c, d := FourG(x, a, b, c, d, 1, 6, 11, 0, 0xf61e2562, 0xc040b340, 0x265e5a51, 0xe9b6c7aa, start, 16);
    a, b, c, d := FourG(x, a, b, c, d, 5, 10, 15, 4, 0xd62f105d, 0x02441453, 0xd8a1e681, 0xe7d3fbc8, start, 20);
    a, b, c, d := FourG(x, a, b, c, d, 9, 14, 3, 8, 0x21e1cde6, 0xc33707d6, 0xf4d50d87, 0x455a14ed, start, 24);
    a, b, c, d := FourG(x, a, b, c, d, 13, 2, 7, 12, 0xa9e3e905, 0xfcefa3f8, 0x676f02d9, 0x8d2a4c8a, start, 28);
  }

  /** Four consecutive steps of round 3, the registers taking turns. */
  method FourH(x: array<bv32>, a0: bv32, b0: bv32, c0: bv32, d0: bv32, k0: nat, k1: nat, k2: nat, k3: nat,
               t0: bv32, t1: bv32, t2: bv32, t3: bv32, ghost start: Registers, ghost i: nat)
    returns (a: bv32, b: bv32, c: bv32, d: bv32)
    requires x.Length == 16 && 32 <= i < 48 && i % 4 == 0
    requires k0 == WordIndex(i) && k1 == WordIndex(i + 1) && k2 == WordIndex(i + 2) && k3 == WordIndex(i + 3)
    requires t0 == Sine(i) && t1 == Sine(i + 1) && t2 == Sine(i + 2) && t3 == Sine(i + 3)
    requires Registers(a0, b0, c0, d0) == Steps(start, x[..], i)
    ensures Registers(a, b, c, d) == Steps(start, x[..], i + 4)
  {
    hide SetH, Steps, WordIndex, Sine;
    a, b, c, d := a0, b0, c0, d0;
    a := SetH(a, b, c, d, x[k0], 4, t0);
    TurnA(start, x[..], i, k0, 4, t0);
    d := SetH(d, a, b, c, x[k1], 11, t1);
    TurnD(start, x[..], i + 1, k1, 11, t1);
    c := SetH(c, d, a, b, x[k2], 16, t2);
    TurnC(start, x[..], i + 2, k2, 16, t2);
    b := SetH(b, c, d, a, x[k3], 23, t3);
    TurnB(start, x[..], i + 3, k3, 23, t3);
  }

  method Round3(x: array<bv32>, a0: bv32, b0: bv32, c0: bv32, d0: bv32, ghost start: Registers)
    returns (a: bv32, b: bv32, c: bv32, d: bv32)
    requires x.Length == 16 && Registers(a0, b0, c0, d0) == Steps(start, x[..], 32)
    ensures Registers(a, b, c, d) == Steps(start, x[..], 48)
  {
    hide Steps;
    a, b, c, d := a0, b0, c0, d0;
    a, b, c, d := FourH(x, a, b, c, d, 5, 8, 11, 14, 0xfffa3942, 0x8771f681, 0x6d9d6122, 0xfde5380c, start, 32);
    a, b, c, d := FourH(x, a, b, c, d, 1, 4, 7, 10, 0xa4beea44, 0x4bdecfa9, 0xf6bb4b60, 0xbebfbc70, start, 36);
    a, b, c, d := FourH(x, a, b, c, d, 13, 0, 3, 6, 0x289b7ec6, 0xeaa127fa, 0xd4ef3085, 0x04881d05, start, 40);
    a, b, c, d := FourH(x, a, b, c, d, 9, 12, 15, 2, 0xd9d4d039, 0xe6db99e5, 0x1fa27cf8, 0xc4ac5665, start, 44);
  }

  /** Four consecutive steps of round 4, the registers taking turns. */
  method FourI(x: array<bv32>, a0: bv32, b0: bv32, c0: bv32, d0: bv32, k0: nat, k1: nat, k2: nat, k3: nat,
               t0: bv32, t1: bv32, t2: bv32, t3: bv32, ghost start: Registers, ghost i: nat)
    returns (a: bv32, b: bv32, c: bv32, d: bv32)
    requires x.Length == 16 && 48 <= i < 64 && i % 4 == 0
    requires k0 == WordIndex(i) && k1 == WordIndex(i + 1) && k2 == WordIndex(i + 2) && k3 == WordIndex(i + 3)
    requires t0 == Sine(i) && t1 == Sine(i + 1) && t2 == Sine(i + 2) && t3 == Sine(i + 3)
    requires Registers(a0, b0, c0, d0) == Steps(start, x[..], i)
    ensures Registers(a, b, c, d) == Steps(start, x[..], i + 4)
  {
    hide SetI, Steps, WordIndex, Sine;
    a, b, c, d := a0, b0, c0, d0;
    a := SetI(a, b, c, d, x[k0], 6, t0);
    TurnA(start, x[..], i, k0, 6, t0);
    d := SetI(d, a, b, c, x[k1], 10, t1);
    TurnD(start, x[..], i + 1, k1, 10, t1);
    c := SetI(c, d, a, b, x[k2], 15, t2);
    TurnC(start, x[..], i + 2, k2, 15, t2);
    b := SetI(b, c, d, a, x[k3], 21, t3);
    TurnB(start, x[..], i + 3, k3, 21, t3);
  }

  method Round4(x: array<bv32>, a0: bv32, b0: bv32, c0: bv32, d0: bv32, ghost start: Registers)
    returns (a: bv32, b: bv32, c: bv32, d: bv32)
    requires x.Length == 16 && Registers(a0, b0, c0, d0) == Steps(start, x[..], 48)
    ensures Registers(a, b, c, d) == Steps(start, x[..], 64)
  {
    hide Steps;
    a, b, c, d := a0, b0, c0, d0;
    a, b, c, d := FourI(x, a, b, c, d, 0, 7, 14, 5, 0xf4292244, 0x432aff97, 0xab9423a7, 0xfc93a039, start, 48);
    a, b, c, d := FourI(x, a, b, c, d, 12, 3, 10, 1, 0x655b59c3, 0x8f0ccc92, 0xffeff47d, 0x85845dd1, start, 52);
    a, b, c, d := FourI(x, a, b, c, d, 8, 15, 6, 13, 0x6fa87e4f, 0xfe2ce6e0, 0xa3014314, 0x4e0811a1, start, 56);
    a, b, c, d := FourI(x, a, b, c, d, 4, 11, 2, 9, 0xf7537e82, 0xbd3af235, 0x2ad7d2bb, 0xeb86d391, start, 60);
  }


  /** The words of the block that starts at p. */
  method Decode(data: array<bv8>, p: nat) returns (x: array<bv32>)
    requires p + 64 <= data.Length
    ensures fresh(x) && x.Length == 16 && x[..] == Words(data[p..p + 64])
  {
    hide FromBytes;
    ghost var block := data[p..p + 64];
    x := new bv32[16];
    var xp := p;
    for i := 0 to 16
      invariant xp == p + 4 * i
      invariant forall k :: 0 <= k < i ==> x[k] == LittleEndian(block, k)
    {
      x[i] := FromBytes(data[xp], data[xp + 1], data[xp + 2], data[xp + 3]);
      xp := xp + 4;
    }
  }

  method Process(h: Registers, data: array<bv8>, p: nat) returns (r: Registers)
    requires p + 64 <= data.Length
    ensures r == Compress(h, data[p..p + 64])
  {
    hide Steps, Words, Plus;
    var x := Decode(data, p);
    NoSteps(h, x[..]);
    var a, b, c, d := Round1(x, h.a, h.b, h.c, h.d, h);
    a, b, c, d := Round2(x, a, b, c, d, h);
    a, b, c, d := Round3(x, a, b, c, d, h);
    a, b, c, d := Round4(x, a, b, c, d, h);
    r := Plus(h, Registers(a, b, c, d));
  }

  lemma NoSteps(r: Registers, x: seq<bv32>)
    requires |x| == 16
    ensures Steps(r, x, 0) == r
  {
  }
}
