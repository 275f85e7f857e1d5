/** The alphabets of the two codecs, character by character, the '@' of the record address, and test
    vectors of section 10 of RFC 4648. They fix as values what the round trips leave open.

    The round trips of the codecs hold for any alphabet without repetitions, and the record address comes
    apart at any delimiter that is in neither name. The vectors are evaluated group by group: first the
    five or six bits of each character, then the character, and then the padding, which is the equals
    sign in both codecs. */
module CodecAnswers {

  import opened OctetBits
  import Base32
  import Base64
  import RecordAddress

  function Code(c: char): bv8
    requires c < 128 as char
  {
    (c as int) as bv8
  }

  // ---------- the alphabets ----------

  /** Table 3 of RFC 4648, from this position on. */
  lemma Alphabet32From0()
    ensures Base32.EncodeChar(0) == Code('A') && Base32.EncodeChar(1) == Code('B') && Base32.EncodeChar(2) == Code('C') && Base32.EncodeChar(3) == Code('D')
    ensures Base32.EncodeChar(4) == Code('E') && Base32.EncodeChar(5) == Code('F') && Base32.EncodeChar(6) == Code('G') && Base32.EncodeChar(7) == Code('H')
  {
  }

  lemma Alphabet32From8()
    ensures Base32.EncodeChar(8) == Code('I') && Base32.EncodeChar(9) == Code('J') && Base32.EncodeChar(10) == Code('K') && Base32.EncodeChar(11) == Code('L')
    ensures Base32.EncodeChar(12) == Code('M') && Base32.EncodeChar(13) == Code('N') && Base32.EncodeChar(14) == Code('O') && Base32.EncodeChar(15) == Code('P')
  {
  }

  lemma Alphabet32From16()
    ensures Base32.EncodeChar(16) == Code('Q') && Base32.EncodeChar(17) == Code('R') && Base32.EncodeChar(18) == Code('S') && Base32.EncodeChar(19) == Code('T')
    ensures Base32.EncodeChar(20) == Code('U') && Base32.EncodeChar(21) == Code('V') && Base32.EncodeChar(22) == Code('W') && Base32.EncodeChar(23) == Code('X')
  {
  }

  lemma Alphabet32From24()
    ensures Base32.EncodeChar(24) == Code('Y') && Base32.EncodeChar(25) == Code('Z') && Base32.EncodeChar(26) == Code('2') && Base32.EncodeChar(27) == Code('3')
    ensures Base32.EncodeChar(28) == Code('4') && Base32.EncodeChar(29) == Code('5') && Base32.EncodeChar(30) == Code('6') && Base32.EncodeChar(31) == Code('7')
  {
  }

  /** Table 1 of RFC 4648, from this position on. */
  lemma Alphabet64From0()
    ensures Base64.CharOf(0) == Code('A') && Base64.CharOf(1) == Code('B') && Base64.CharOf(2) == Code('C') && Base64.CharOf(3) == Code('D')
    ensures Base64.CharOf(4) == Code('E') && Base64.CharOf(5) == Code('F') && Base64.CharOf(6) == Code('G') && Base64.CharOf(7) == Code('H')
  {
  }

  lemma Alphabet64From8()
    ensures Base64.CharOf(8) == Code('I') && Base64.CharOf(9) == Code('J') && Base64.CharOf(10) == Code('K') && Base64.CharOf(11) == Code('L')
    ensures Base64.CharOf(12) == Code('M') && Base64.CharOf(13) == Code('N') && Base64.CharOf(14) == Code('O') && Base64.CharOf(15) == Code('P')
  {
  }

  lemma Alphabet64From16()
    ensures Base64.CharOf(16) == Code('Q') && Base64.CharOf(17) == Code('R') && Base64.CharOf(18) == Code('S') && Base64.CharOf(19) == Code('T')
    ensures Base64.CharOf(20) == Code('U') && Base64.CharOf(21) == Code('V') && Base64.CharOf(22) == Code('W') && Base64.CharOf(23) == Code('X')
  {
  }

  lemma Alphabet64From24()
    ensures Base64.CharOf(24) == Code('Y') && Base64.CharOf(25) == Code('Z') && Base64.CharOf(26) == Code('a') && Base64.CharOf(27) == Code('b')
    ensures Base64.CharOf(28) == Code('c') && Base64.CharOf(29) == Code('d') && Base64.CharOf(30) == Code('e') && Base64.CharOf(31) == Code('f')
  {
  }

  lemma Alphabet64From32()
    ensures Base64.CharOf(32) == Code('g') && Base64.CharOf(33) == Code('h') && Base64.CharOf(34) == Code('i') && Base64.CharOf(35) == Code('j')
    ensures Base64.CharOf(36) == Code('k') && Base64.CharOf(37) == Code('l') && Base64.CharOf(38) == Code('m') && Base64.CharOf(39) == Code('n')
  {
  }

  lemma Alphabet64From40()
    ensures Base64.CharOf(40) == Code('o') && Base64.CharOf(41) == Code('p') && Base64.CharOf(42) == Code('q') && Base64.CharOf(43) == Code('r')
    ensures Base64.CharOf(44) == Code('s') && Base64.CharOf(45) == Code('t') && Base64.CharOf(46) == Code('u') && Base64.CharOf(47) == Code('v')
  {
  }

  lemma Alphabet64From48()
    ensures Base64.CharOf(48) == Code('w') && Base64.CharOf(49) == Code('x') && Base64.CharOf(50) == Code('y') && Base64.CharOf(51) == Code('z')
    ensures Base64.CharOf(52) == Code('0') && Base64.CharOf(53) == Code('1') && Base64.CharOf(54) == Code('2') && Base64.CharOf(55) == Code('3')
  {
  }

  lemma Alphabet64From56()
    ensures Base64.CharOf(56) == Code('4') && Base64.CharOf(57) == Code('5') && Base64.CharOf(58) == Code('6') && Base64.CharOf(59) == Code('7')
    ensures Base64.CharOf(60) == Code('8') && Base64.CharOf(61) == Code('9') && Base64.CharOf(62) == Code('+') && Base64.CharOf(63) == Code('/')
  {
  }

  lemma PaddingSign()
    ensures PAD == Code('=')
  {
  }

  // ---------- test vectors of base64 ----------

  lemma Char64(p: seq<bv8>, k: nat, v: bv8, c: bv8)
    requires k < Base64.CarryingSix(|p|) && Base64.SextetAt(p, k) == v < 64 && c == Base64.CharOf(v)
    ensures Base64.EncodedChar(p, k) == c
  {
    hide Base64.SextetAt, Base64.CharOf;
    Base64.SextetIsIn(p, k);
  }

  lemma OneGroup64(p: seq<bv8>, x: bv8, y: bv8, z: bv8)
    requires 1 <= |p| <= 3 && p[0] == x
    requires y == (if |p| > 1 then p[1] else 0) && z == (if |p| > 2 then p[2] else 0)
    ensures Base64.SextetAt(p, 0) == Base64.Four0(x) && Base64.SextetAt(p, 1) == Base64.Four1(x, y)
    ensures Base64.SextetAt(p, 2) == Base64.Four2(y, z) && Base64.SextetAt(p, 3) == Base64.Four3(z)
  {
    hide Base64.SextetAt, Base64.Four0, Base64.Four1, Base64.Four2, Base64.Four3;
    Base64.GroupOfFour(p, 0);
  }

  lemma Padding64(p: seq<bv8>)
    ensures forall k: nat :: k >= Base64.CarryingSix(|p|) ==> Base64.EncodedChar(p, k) == PAD
  {
  }

  /** "foo" is "Zm9v". */
  lemma Foo64()
    ensures Base64.Encoded64([0x66, 0x6f, 0x6f]) == [0x5a, 0x6d, 0x39, 0x76]
  {
    var p: seq<bv8> := [0x66, 0x6f, 0x6f];
    FooValues();
    hide Base64.EncodedChar, Base64.SextetAt, Base64.Four0, Base64.Four1, Base64.Four2, Base64.Four3, Base64.CharOf;
    OneGroup64(p, 0x66, 0x6f, 0x6f);
    Char64(p, 0, 0x19, 0x5a);
    Char64(p, 1, 0x26, 0x6d);
    Char64(p, 2, 0x3d, 0x39);
    Char64(p, 3, 0x2f, 0x76);
  }

  lemma FooValues()
    ensures Base64.Four0(0x66) == 0x19 && Base64.Four1(0x66, 0x6f) == 0x26
    ensures Base64.Four2(0x6f, 0x6f) == 0x3d && Base64.Four3(0x6f) == 0x2f
    ensures Base64.CharOf(0x19) == 0x5a && Base64.CharOf(0x26) == 0x6d && Base64.CharOf(0x3d) == 0x39 && Base64.CharOf(0x2f) == 0x76
  {
  }

  /** "fo" is "Zm8=". */
  lemma Fo64()
    ensures Base64.Encoded64([0x66, 0x6f]) == [0x5a, 0x6d, 0x38, 0x3d]
  {
    var p: seq<bv8> := [0x66, 0x6f];
    FoValues();
    hide Base64.EncodedChar, Base64.SextetAt, Base64.Four0, Base64.Four1, Base64.Four2, Base64.Four3, Base64.CharOf;
    OneGroup64(p, 0x66, 0x6f, 0x00);
    Char64(p, 0, 0x19, 0x5a);
    Char64(p, 1, 0x26, 0x6d);
    Char64(p, 2, 0x3c, 0x38);
    Padding64(p);
  }

  lemma FoValues()
    ensures Base64.Four0(0x66) == 0x19 && Base64.Four1(0x66, 0x6f) == 0x26
    ensures Base64.Four2(0x6f, 0x00) == 0x3c && Base64.Four3(0x00) == 0x00
    ensures Base64.CharOf(0x19) == 0x5a && Base64.CharOf(0x26) == 0x6d && Base64.CharOf(0x3c) == 0x38
  {
  }

  /** "f" is "Zg==". */
  lemma F64()
    ensures Base64.Encoded64([0x66]) == [0x5a, 0x67, 0x3d, 0x3d]
  {
    var p: seq<bv8> := [0x66];
    FValues();
    hide Base64.EncodedChar, Base64.SextetAt, Base64.Four0, Base64.Four1, Base64.Four2, Base64.Four3, Base64.CharOf;
    OneGroup64(p, 0x66, 0x00, 0x00);
    Char64(p, 0, 0x19, 0x5a);
    Char64(p, 1, 0x20, 0x67);
    Padding64(p);
  }

  lemma FValues()
    ensures Base64.Four0(0x66) == 0x19 && Base64.Four1(0x66, 0x00) == 0x20
    ensures Base64.Four2(0x00, 0x00) == 0x00 && Base64.Four3(0x00) == 0x00
    ensures Base64.CharOf(0x19) == 0x5a && Base64.CharOf(0x20) == 0x67
  {
  }

  // ---------- test vectors of base32 ----------

  lemma Char32(p: seq<bv8>, k: nat, x: bv8, c: bv8)
    requires 0 < |p| <= 5 && k < 8 && Base32.GetOctet(k) < |p| && k < Base32.Carrying(|p|)
    requires Base32.BlockOf(p, k) == x && Base32.EncodeChar(x) == c
    ensures k < |Base32.Encoded(p)| && Base32.Encoded(p)[k] == c
  {
    Base32.BlockIsQuintet(p, k);
    Base32.FiveBits(x);
    hide Base32.QuintetAt, Base32.EncodeChar, Base32.BlockOf;
  }

  /** "fooba" is "MZXW6YTB". */
  lemma Fooba32()
    ensures Base32.Encoded([0x66, 0x6f, 0x6f, 0x62, 0x61]) == [0x4d, 0x5a, 0x58, 0x57, 0x36, 0x59, 0x54, 0x42]
  {
    var p: seq<bv8> := [0x66, 0x6f, 0x6f, 0x62, 0x61];
    FoobaBlocks0();
    FoobaBlocks4();
    hide Base32.BlockOf, Base32.EncodeChar, Base32.QuintetAt;
    Char32(p, 0, 0x0c, 0x4d);
    Char32(p, 1, 0x99, 0x5a);
    Char32(p, 2, 0x37, 0x58);
    Char32(p, 3, 0xf6, 0x57);
    Char32(p, 4, 0xde, 0x36);
    Char32(p, 5, 0x18, 0x59);
    Char32(p, 6, 0x13, 0x54);
    Char32(p, 7, 0x61, 0x42);
  }

  lemma FoobaBlocks0()
    ensures Base32.BlockOf([0x66, 0x6f, 0x6f, 0x62, 0x61], 0) == 0x0c && Base32.EncodeChar(0x0c) == 0x4d
    ensures Base32.BlockOf([0x66, 0x6f, 0x6f, 0x62, 0x61], 1) == 0x99 && Base32.EncodeChar(0x99) == 0x5a
    ensures Base32.BlockOf([0x66, 0x6f, 0x6f, 0x62, 0x61], 2) == 0x37 && Base32.EncodeChar(0x37) == 0x58
    ensures Base32.BlockOf([0x66, 0x6f, 0x6f, 0x62, 0x61], 3) == 0xf6 && Base32.EncodeChar(0xf6) == 0x57
  {
  }

  lemma FoobaBlocks4()
    ensures Base32.BlockOf([0x66, 0x6f, 0x6f, 0x62, 0x61], 4) == 0xde && Base32.EncodeChar(0xde) == 0x36
    ensures Base32.BlockOf([0x66, 0x6f, 0x6f, 0x62, 0x61], 5) == 0x18 && Base32.EncodeChar(0x18) == 0x59
    ensures Base32.BlockOf([0x66, 0x6f, 0x6f, 0x62, 0x61], 6) == 0x13 && Base32.EncodeChar(0x13) == 0x54
    ensures Base32.BlockOf([0x66, 0x6f, 0x6f, 0x62, 0x61], 7) == 0x61 && Base32.EncodeChar(0x61) == 0x42
  {
  }

  /** "f" is "MY======". */
  lemma F32()
    ensures Base32.Encoded([0x66]) == [0x4d, 0x59, 0x3d, 0x3d, 0x3d, 0x3d, 0x3d, 0x3d]
  {
    var p: seq<bv8> := [0x66];
    FBlocks0();
    hide Base32.BlockOf, Base32.EncodeChar, Base32.QuintetAt;
    Char32(p, 0, 0x0c, 0x4d);
    Char32(p, 1, 0x98, 0x59);
  }

  lemma FBlocks0()
    ensures Base32.BlockOf([0x66], 0) == 0x0c && Base32.EncodeChar(0x0c) == 0x4d
    ensures Base32.BlockOf([0x66], 1) == 0x98 && Base32.EncodeChar(0x98) == 0x59
  {
  }

  // ---------- the record address ----------

  /** The names are joined by an '@'. */
  lemma AddressForm(tbname: seq<bv8>, uid: seq<bv8>)
    ensures RecordAddress.Make(RecordAddress.Names(tbname, uid)) == Base32.Encoded(uid + [Code('@')] + tbname)
  {
    AtSign();
    hide Base32.Encoded, Code;
  }

  lemma AtSign()
    ensures RecordAddress.AT == Code('@')
  {
  }
}
