/** The check values of the two checksums of dev/algorithmic/src: what they give on the nine digits from 1
    to 9, as catalogues of checksums list them.

    They fix as values the polynomials, the order of the bits, and the inversions before and after the
    loop, which only the shorter of the two checksums makes. The register after each digit is written
    down, one table step is evaluated for each of the nine digits, and the steps are then put together in
    the order of the message. */
module CrcAnswers {

  import Crc32
  import Crc64

  const DIGITS: seq<bv8> := [0x31, 0x32, 0x33, 0x34, 0x35, 0x36, 0x37, 0x38, 0x39]

  // ---------- Crc32 ----------

  lemma FoldOne32(c: bv32, msg: seq<bv8>, i: nat)
    requires i < |msg|
    ensures Crc32.Fold(c, msg[i..]) == Crc32.Fold(Crc32.Step(c, msg[i]), msg[i + 1..])
  {
    hide Crc32.Step;
    assert msg[i..][1..] == msg[i + 1..];
  }

  lemma FoldNone32(c: bv32, msg: seq<bv8>, i: nat)
    requires i == |msg|
    ensures Crc32.Fold(c, msg[i..]) == c && msg[0..] == msg
  {
  }

  lemma Steps32From0()
    ensures Crc32.Step(0xffffffff, 0x31) == 0x7c231048
    ensures Crc32.Step(0x7c231048, 0x32) == 0xb0acbb32
    ensures Crc32.Step(0xb0acbb32, 0x33) == 0x77b79c2d
  {
  }

  lemma Steps32From3()
    ensures Crc32.Step(0x77b79c2d, 0x34) == 0x641c1f5c
    ensures Crc32.Step(0x641c1f5c, 0x35) == 0x340ac5e3
    ensures Crc32.Step(0x340ac5e3, 0x36) == 0xf68d2c9e
  {
  }

  lemma Steps32From6()
    ensures Crc32.Step(0xf68d2c9e, 0x37) == 0xaffc9660
    ensures Crc32.Step(0xaffc9660, 0x38) == 0x651f2550
    ensures Crc32.Step(0x651f2550, 0x39) == 0x340bc6d9
  {
  }

  /** The check value of Crc32. */
  lemma Check32()
    ensures Crc32.Checksum(0, DIGITS) == 0xcbf43926
  {
    hide Crc32.Fold, Crc32.Step;
    Steps32From0();
    Steps32From3();
    Steps32From6();
    FoldOne32(0xffffffff, DIGITS, 0);
    FoldOne32(0x7c231048, DIGITS, 1);
    FoldOne32(0xb0acbb32, DIGITS, 2);
    FoldOne32(0x77b79c2d, DIGITS, 3);
    FoldOne32(0x641c1f5c, DIGITS, 4);
    FoldOne32(0x340ac5e3, DIGITS, 5);
    FoldOne32(0xf68d2c9e, DIGITS, 6);
    FoldOne32(0xaffc9660, DIGITS, 7);
    FoldOne32(0x651f2550, DIGITS, 8);
    FoldNone32(0x340bc6d9, DIGITS, 9);
    Inversions();
    hide Crc32.Xor;
  }

  lemma Inversions()
    ensures Crc32.Xor(0, Crc32.ONES) == 0xffffffff && Crc32.Xor(0x340bc6d9, Crc32.ONES) == 0xcbf43926
  {
  }

  // ---------- Crc64 ----------

  lemma FoldOne64(c: bv64, msg: seq<bv8>, i: nat)
    requires i < |msg|
    ensures Crc64.Fold(c, msg[i..]) == Crc64.Fold(Crc64.Step(c, msg[i]), msg[i + 1..])
  {
    hide Crc64.Step;
    assert msg[i..][1..] == msg[i + 1..];
  }

  lemma FoldNone64(c: bv64, msg: seq<bv8>, i: nat)
    requires i == |msg|
    ensures Crc64.Fold(c, msg[i..]) == c && msg[0..] == msg
  {
  }

  lemma Steps64From0()
    ensures Crc64.Step(0x0000000000000000, 0x31) == 0xe8b768eb18c8b8a2
    ensures Crc64.Step(0xe8b768eb18c8b8a2, 0x32) == 0xea2d7b6f8056c695
    ensures Crc64.Step(0xea2d7b6f8056c695, 0x33) == 0xb72fddcbe416aa20
  {
  }

  lemma Steps64From3()
    ensures Crc64.Step(0xb72fddcbe416aa20, 0x34) == 0x1e360c1891a60f78
    ensures Crc64.Step(0x1e360c1891a60f78, 0x35) == 0xaf0107d86177f1d5
    ensures Crc64.Step(0xaf0107d86177f1d5, 0x36) == 0x4156683f2f4dcb0f
  {
  }

  lemma Steps64From6()
    ensures Crc64.Step(0x4156683f2f4dcb0f, 0x37) == 0xeaf811a84b1321e7
    ensures Crc64.Step(0xeaf811a84b1321e7, 0x38) == 0x3732f4b6474a5a2b
    ensures Crc64.Step(0x3732f4b6474a5a2b, 0x39) == 0x6c40df5f0b497347
  {
  }

  /** The check value of Crc64. */
  lemma Check64()
    ensures Crc64.Checksum(0, DIGITS) == 0x6c40df5f0b497347
  {
    hide Crc64.Fold, Crc64.Step;
    Steps64From0();
    Steps64From3();
    Steps64From6();
    FoldOne64(0x0000000000000000, DIGITS, 0);
    FoldOne64(0xe8b768eb18c8b8a2, DIGITS, 1);
    FoldOne64(0xea2d7b6f8056c695, DIGITS, 2);
    FoldOne64(0xb72fddcbe416aa20, DIGITS, 3);
    FoldOne64(0x1e360c1891a60f78, DIGITS, 4);
    FoldOne64(0xaf0107d86177f1d5, DIGITS, 5);
    FoldOne64(0x4156683f2f4dcb0f, DIGITS, 6);
    FoldOne64(0xeaf811a84b1321e7, DIGITS, 7);
    FoldOne64(0x3732f4b6474a5a2b, DIGITS, 8);
    FoldNone64(0x6c40df5f0b497347, DIGITS, 9);
  }
}
