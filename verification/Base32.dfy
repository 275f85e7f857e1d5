/** base32 of dev/algorithmic/src/crypt-base32.cpp against section 6 of RFC 4648, read as bits: the
    octets of the input, most significant bit first, are cut into groups of five. */
module Base32 {

  import opened OctetBits

  // ---------- bits ----------

  /** Bit j of a string of five-bit values; false past the end. */
  predicate QuintetBit(v: seq<bv8>, j: nat) {
    j / 5 < |v| && v[j / 5] & (0x10 >> (j % 5)) != 0
  }

  function Quintet(b0: bool, b1: bool, b2: bool, b3: bool, b4: bool): bv8 {
    (if b0 then 0x10 else 0) | (if b1 then 0x08 else 0) | (if b2 then 0x04 else 0) | (if b3 then 0x02 else 0) |
    (if b4 then 0x01 else 0)
  }

  /** The five bits of p from bit 5k on. */
  function QuintetAt(p: seq<bv8>, k: nat): bv8 {
    Quintet(OctetBit(p, 5 * k), OctetBit(p, 5 * k + 1), OctetBit(p, 5 * k + 2), OctetBit(p, 5 * k + 3), OctetBit(p, 5 * k + 4))
  }

  /** The eight bits of v from bit 8t on. */
  function OctetAt(v: seq<bv8>, t: nat): bv8 {
    Octet(QuintetBit(v, 8 * t), QuintetBit(v, 8 * t + 1), QuintetBit(v, 8 * t + 2), QuintetBit(v, 8 * t + 3),
          QuintetBit(v, 8 * t + 4), QuintetBit(v, 8 * t + 5), QuintetBit(v, 8 * t + 6), QuintetBit(v, 8 * t + 7))
  }

  // ---------- the code, section 6 of RFC 4648 ----------

  /** encode_char: A to Z, then 2 to 7. */
  function EncodeChar(c: bv8): bv8 {
    var v := c & 0x1F;
    if v < 26 then 65 + v else 24 + v
  }

  /** decode_char accepts exactly the thirty-two characters of the alphabet. */
  predicate IsChar(c: bv8) {
    65 <= c <= 90 || 50 <= c <= 55
  }

  function DecodeChar(c: bv8): bv8
    requires IsChar(c)
  {
    if c >= 65 then c - 65 else c - 24
  }

  /** How many characters carry bits: enough for all 8n bits. */
  function Carrying(n: nat): nat {
    (8 * n + 4) / 5
  }

  /** The encoding: the characters that carry bits, padded to a multiple of eight. */
  function Encoded(p: seq<bv8>): seq<bv8> {
    seq((|p| + 4) / 5 * 8, k requires 0 <= k => if k < Carrying(|p|) then EncodeChar(QuintetAt(p, k)) else PAD)
  }

  /** The values of the characters before the first one outside the alphabet. */
  function Values(s: seq<bv8>): (v: seq<bv8>)
    ensures |v| <= |s|
  {
    if s == [] || !IsChar(s[0]) then [] else [DecodeChar(s[0])] + Values(s[1..])
  }

  /** What Decode returns: as many octets as s has room for, zero where no character gives a bit. */
  function Decoded(s: seq<bv8>): seq<bv8> {
    var v := Values(s);
    seq(|s| / 8 * 5, t requires 0 <= t => OctetAt(v, t))
  }

  // ---------- round trip ----------

  lemma CharInverse(c: bv8)
    ensures IsChar(EncodeChar(c)) && DecodeChar(EncodeChar(c)) == c & 0x1F
    ensures !IsChar(PAD) && !IsChar(0)
  {
  }

  lemma QuintetBits(b0: bool, b1: bool, b2: bool, b3: bool, b4: bool)
    ensures var q := Quintet(b0, b1, b2, b3, b4);
            && q & 0x1F == q
            && (q & 0x10 != 0) == b0 && (q & 0x08 != 0) == b1 && (q & 0x04 != 0) == b2
            && (q & 0x02 != 0) == b3 && (q & 0x01 != 0) == b4
  {
  }

  lemma QuintetMasks()
    ensures 0x10 as bv8 >> 0 == 0x10 && 0x10 as bv8 >> 1 == 0x08 && 0x10 as bv8 >> 2 == 0x04
    ensures 0x10 as bv8 >> 3 == 0x02 && 0x10 as bv8 >> 4 == 0x01
  {
  }

  /** Bit r of quintet k is bit 5k + r of the octets. */
  lemma QuintetAtBit(p: seq<bv8>, k: nat, r: nat)
    requires r < 5
    ensures (QuintetAt(p, k) & (0x10 >> r) != 0) == OctetBit(p, 5 * k + r)
    ensures QuintetAt(p, k) & 0x1F == QuintetAt(p, k)
  {
    hide OctetBit, Quintet;
    QuintetBits(OctetBit(p, 5 * k), OctetBit(p, 5 * k + 1), OctetBit(p, 5 * k + 2), OctetBit(p, 5 * k + 3), OctetBit(p, 5 * k + 4));
    QuintetMasks();
  }

  /** The five-bit values of p, in order. */
  function Quintets(p: seq<bv8>): seq<bv8> {
    seq(Carrying(|p|), k requires 0 <= k => QuintetAt(p, k))
  }

  /** Cutting the bits into fives loses none of them and adds only zeros. */
  lemma SameBits(p: seq<bv8>, j: nat)
    ensures QuintetBit(Quintets(p), j) == OctetBit(p, j)
  {
    hide QuintetAt;
    if j / 5 < Carrying(|p|) {
      QuintetAtBit(p, j / 5, j % 5);
    } else {
      assert j / 8 >= |p|;
    }
  }

  lemma OctetAtIs(p: seq<bv8>, t: nat)
    ensures OctetAt(Quintets(p), t) == if t < |p| then p[t] else 0
  {
    hide Quintets, QuintetBit, OctetBit, Octet;
    SameBits(p, 8 * t);
    SameBits(p, 8 * t + 1);
    SameBits(p, 8 * t + 2);
    SameBits(p, 8 * t + 3);
    SameBits(p, 8 * t + 4);
    SameBits(p, 8 * t + 5);
    SameBits(p, 8 * t + 6);
    SameBits(p, 8 * t + 7);
    BitsOfOctet(p, t);
  }

  lemma {:induction false} ValuesOfEncoding(s: seq<bv8>, q: seq<bv8>)
    requires |q| <= |s|
    requires forall k :: 0 <= k < |q| ==> s[k] == EncodeChar(q[k]) && q[k] & 0x1F == q[k]
    requires |q| < |s| ==> s[|q|] == PAD
    ensures Values(s) == q
    decreases |s|
  {
    hide EncodeChar, IsChar, DecodeChar;
    CharInverse(0);
    if q != [] {
      CharInverse(q[0]);
      ValuesOfEncoding(s[1..], q[1..]);
      assert q == [q[0]] + q[1..];
    }
  }

  /** Decoding an encoding gives the octets back, followed by zeros up to a multiple of five. */
  lemma RoundTrip(p: seq<bv8>)
    ensures Values(Encoded(p)) == Quintets(p)
    ensures Decoded(Encoded(p)) == p + seq((|p| + 4) / 5 * 5 - |p|, _ => 0 as bv8)
  {
    hide QuintetAt, OctetAt, EncodeChar, Values;
    var s, q := Encoded(p), Quintets(p);
    forall k: nat | k < |q|
      ensures s[k] == EncodeChar(q[k]) && q[k] & 0x1F == q[k]
    {
      QuintetAtBit(p, k, 0);
    }
    ValuesOfEncoding(s, q);
    forall t: nat
      ensures OctetAt(q, t) == if t < |p| then p[t] else 0
    {
      OctetAtIs(p, t);
    }
  }

  /** The octets completely given by m characters: for an encoding of n octets, n of them. */
  function Written(s: seq<bv8>): nat {
    |Values(s)| * 5 / 8
  }

  lemma WritesAll(p: seq<bv8>)
    ensures Written(Encoded(p)) == |p|
  {
    RoundTrip(p);
  }

  /** Different octet strings have different encodings. */
  lemma EncodingInjective(p: seq<bv8>, q: seq<bv8>)
    requires Encoded(p) == Encoded(q)
    ensures p == q
  {
    hide Encoded, Decoded, Written;
    WritesAll(p);
    WritesAll(q);
    RoundTrip(p);
    RoundTrip(q);
    assert p == Decoded(Encoded(p))[..|p|] && q == Decoded(Encoded(q))[..|q|];
  }

  // ---------- the helpers of the source ----------

  function GetOctet(block: nat): nat {
    block * 5 / 8
  }

  function GetOffset(block: nat): int {
    8 - 5 - (5 * block) % 8
  }

  function ShiftRight(b: bv8, offset: int): bv8
    requires -8 <= offset <= 8
  {
    if offset > 0 then b >> offset else b << -offset
  }

  function ShiftLeft(b: bv8, offset: int): bv8
    requires -8 <= offset <= 8
  {
    ShiftRight(b, -offset)
  }

  function Or(x: bv8, y: bv8): bv8 {
    x | y
  }

  /** The character value encode_sequence computes for a block of a group. */
  function BlockOf(group: seq<bv8>, block: nat): bv8
    requires block < 8 && GetOctet(block) < |group| <= 5
  {
    var octet, junk := GetOctet(block), GetOffset(block);
    var c := ShiftRight(group[octet], junk);
    if junk < 0 && octet + 1 < |group| then Or(c, ShiftRight(group[octet + 1], 8 + junk)) else c
  }

  lemma Block0(x: bv8)
    ensures (x >> 3) & 0x1F == Quintet(x & 0x80 != 0, x & 0x40 != 0, x & 0x20 != 0, x & 0x10 != 0, x & 0x08 != 0)
  {
  }

  lemma Block1(x: bv8, y: bv8)
    ensures ((x << 2) | (y >> 6)) & 0x1F == Quintet(x & 0x04 != 0, x & 0x02 != 0, x & 0x01 != 0, y & 0x80 != 0, y & 0x40 != 0)
  {
  }

  lemma Block2(x: bv8)
    ensures (x >> 1) & 0x1F == Quintet(x & 0x20 != 0, x & 0x10 != 0, x & 0x08 != 0, x & 0x04 != 0, x & 0x02 != 0)
  {
  }

  lemma Block3(x: bv8, y: bv8)
    ensures ((x << 4) | (y >> 4)) & 0x1F == Quintet(x & 0x01 != 0, y & 0x80 != 0, y & 0x40 != 0, y & 0x20 != 0, y & 0x10 != 0)
  {
  }

  lemma Block4(x: bv8, y: bv8)
    ensures ((x << 1) | (y >> 7)) & 0x1F == Quintet(x & 0x08 != 0, x & 0x04 != 0, x & 0x02 != 0, x & 0x01 != 0, y & 0x80 != 0)
  {
  }

  lemma Block5(x: bv8)
    ensures (x >> 2) & 0x1F == Quintet(x & 0x40 != 0, x & 0x20 != 0, x & 0x10 != 0, x & 0x08 != 0, x & 0x04 != 0)
  {
  }

  lemma Block6(x: bv8, y: bv8)
    ensures ((x << 3) | (y >> 5)) & 0x1F == Quintet(x & 0x02 != 0, x & 0x01 != 0, y & 0x80 != 0, y & 0x40 != 0, y & 0x20 != 0)
  {
  }

  lemma Block7(x: bv8)
    ensures (x << 0) & 0x1F == Quintet(x & 0x10 != 0, x & 0x08 != 0, x & 0x04 != 0, x & 0x02 != 0, x & 0x01 != 0)
  {
  }

  lemma OrZero(x: bv8)
    ensures x | 0 == x && 0 as bv8 >> 1 == 0 && 0 as bv8 >> 2 == 0 && 0 as bv8 >> 3 == 0 && 0 as bv8 >> 4 == 0
    ensures 0 as bv8 >> 5 == 0 && 0 as bv8 >> 6 == 0 && 0 as bv8 >> 7 == 0
  {
  }

  lemma BlockIsQuintet0(group: seq<bv8>)
    requires 0 < |group| <= 5
    ensures BlockOf(group, 0) & 0x1F == QuintetAt(group, 0)
  {
    hide OctetBit, Quintet;
    BitsOf(group, 0);
    Block0(group[0]);
  }

  lemma BlockIsQuintet1(group: seq<bv8>)
    requires 0 < |group| <= 5
    ensures BlockOf(group, 1) & 0x1F == QuintetAt(group, 1)
  {
    hide OctetBit, Quintet;
    BitsOf(group, 0);
    BitsOf(group, 1);
    Block1(OctetOrZero(group, 0), OctetOrZero(group, 1));
    OrZero(ShiftRight(group[0], -2));
  }

  lemma BlockIsQuintet2(group: seq<bv8>)
    requires 1 < |group| <= 5
    ensures BlockOf(group, 2) & 0x1F == QuintetAt(group, 2)
  {
    hide OctetBit, Quintet;
    BitsOf(group, 1);
    Block2(group[1]);
  }

  lemma BlockIsQuintet3(group: seq<bv8>)
    requires 1 < |group| <= 5
    ensures BlockOf(group, 3) & 0x1F == QuintetAt(group, 3)
  {
    hide OctetBit, Quintet;
    BitsOf(group, 1);
    BitsOf(group, 2);
    Block3(OctetOrZero(group, 1), OctetOrZero(group, 2));
    OrZero(ShiftRight(group[1], -4));
  }

  lemma BlockIsQuintet4(group: seq<bv8>)
    requires 2 < |group| <= 5
    ensures BlockOf(group, 4) & 0x1F == QuintetAt(group, 4)
  {
    hide OctetBit, Quintet;
    BitsOf(group, 2);
    BitsOf(group, 3);
    Block4(OctetOrZero(group, 2), OctetOrZero(group, 3));
    OrZero(ShiftRight(group[2], -1));
  }

  lemma BlockIsQuintet5(group: seq<bv8>)
    requires 3 < |group| <= 5
    ensures BlockOf(group, 5) & 0x1F == QuintetAt(group, 5)
  {
    hide OctetBit, Quintet;
    BitsOf(group, 3);
    Block5(group[3]);
  }

  lemma BlockIsQuintet6(group: seq<bv8>)
    requires 3 < |group| <= 5
    ensures BlockOf(group, 6) & 0x1F == QuintetAt(group, 6)
  {
    hide OctetBit, Quintet;
    BitsOf(group, 3);
    BitsOf(group, 4);
    Block6(OctetOrZero(group, 3), OctetOrZero(group, 4));
    OrZero(ShiftRight(group[3], -3));
  }

  lemma BlockIsQuintet7(group: seq<bv8>)
    requires 4 < |group| <= 5
    ensures BlockOf(group, 7) & 0x1F == QuintetAt(group, 7)
  {
    hide OctetBit, Quintet;
    BitsOf(group, 4);
    Block7(group[4]);
  }

  /** The shifts of encode_sequence pick out five consecutive bits. */
  lemma BlockIsQuintet(group: seq<bv8>, block: nat)
    requires block < 8 && GetOctet(block) < |group| <= 5
    ensures BlockOf(group, block) & 0x1F == QuintetAt(group, block)
  {
    hide BlockOf, QuintetAt;
    match block
    case 0 => BlockIsQuintet0(group);
    case 1 => BlockIsQuintet1(group);
    case 2 => BlockIsQuintet2(group);
    case 3 => BlockIsQuintet3(group);
    case 4 => BlockIsQuintet4(group);
    case 5 => BlockIsQuintet5(group);
    case 6 => BlockIsQuintet6(group);
    case _ => BlockIsQuintet7(group);
  }

  // ---------- encoding in place ----------

  /** Character b of the encoding of one group of at most five octets. */
  function GroupChar(group: seq<bv8>, b: nat): bv8 {
    if GetOctet(b) >= |group| then PAD else EncodeChar(QuintetAt(group, b))
  }

  method Pad(buf: array<bv8>, at: nat, len: nat)
    requires at + len <= buf.Length
    modifies buf
    ensures forall m :: 0 <= m < buf.Length ==> buf[m] == if at <= m < at + len then PAD else old(buf[m])
  {
    for i := 0 to len
      invariant forall m :: 0 <= m < buf.Length ==> buf[m] == if at <= m < at + i then PAD else old(buf[m])
    {
      buf[at + i] := PAD;
    }
  }

  method EncodeSequence(plain: array<bv8>, p: nat, len: nat, coded: array<bv8>, q: nat)
    requires p + len <= plain.Length && len <= 5 && q + 8 <= coded.Length && plain != coded
    modifies coded
    ensures forall m :: 0 <= m < coded.Length ==>
              coded[m] == if q <= m < q + 8 then GroupChar(plain[p..p + len], m - q) else old(coded[m])
  {
    hide QuintetAt, EncodeChar, ShiftRight, Or;
    ghost var group := plain[p..p + len];
    for block := 0 to 8
      invariant plain[p..p + len] == group
      invariant forall m :: 0 <= m < coded.Length ==>
                  coded[m] == if q <= m < q + block then GroupChar(group, m - q) else old(coded[m])
    {
      var octet := GetOctet(block);
      var junk := GetOffset(block);
      if octet >= len {
        Pad(coded, q + block, 8 - block);
        return;
      }
      assert plain[p + octet] == group[octet];
      var c := ShiftRight(plain[p + octet], junk);
      if junk < 0 && octet + 1 < len {
        assert plain[p + octet + 1] == group[octet + 1];
        c := Or(c, ShiftRight(plain[p + octet + 1], 8 + junk));
      }
      assert c == BlockOf(group, block);
      BlockIsQuintet(group, block);
      FiveBits(c);
      FiveBits(QuintetAt(group, block));
      QuintetAtBit(group, block, 0);
      coded[q + block] := EncodeChar(c);
    }
  }

  lemma FiveBits(c: bv8)
    ensures EncodeChar(c) == EncodeChar(c & 0x1F)
  {
    assert (c & 0x1F) & 0x1F == c & 0x1F;
  }

  /** The characters of a group are the characters of the whole at its place. */
  lemma GroupCharIs(p: seq<bv8>, g: nat, b: nat)
    requires 5 * g < |p| && b < 8
    ensures var end := if 5 * g + 5 <= |p| then 5 * g + 5 else |p|;
            8 * g + b < |Encoded(p)| && Encoded(p)[8 * g + b] == GroupChar(p[5 * g..end], b)
  {
    hide OctetBit, Quintet, EncodeChar;
    var k := 8 * g + b;
    GroupBit(p, g, 5 * b);
    GroupBit(p, g, 5 * b + 1);
    GroupBit(p, g, 5 * b + 2);
    GroupBit(p, g, 5 * b + 3);
    GroupBit(p, g, 5 * b + 4);
    GroupRoom(|p|, g, b);
  }

  lemma GroupBit(p: seq<bv8>, g: nat, x: nat)
    requires 5 * g < |p| && x < 40
    ensures var end := if 5 * g + 5 <= |p| then 5 * g + 5 else |p|;
            OctetBit(p, 40 * g + x) == OctetBit(p[5 * g..end], x)
  {
  }

  lemma GroupRoom(n: nat, g: nat, b: nat)
    requires 5 * g < n && b < 8
    ensures var len := if 5 * g + 5 <= n then 5 else n - 5 * g;
            (8 * g + b < Carrying(n) <==> GetOctet(b) < len) && 8 * g + b < (n + 4) / 5 * 8
  {
  }

  lemma GroupChars(p: seq<bv8>, g: nat)
    requires 5 * g < |p|
    ensures 8 * g + 8 <= |Encoded(p)|
    ensures var end := if 5 * g + 5 <= |p| then 5 * g + 5 else |p|;
            forall m :: 8 * g <= m < 8 * g + 8 ==> Encoded(p)[m] == GroupChar(p[5 * g..end], m - 8 * g)
  {
    hide GroupChar, Encoded;
    GroupCharIs(p, g, 7);
    var end := if 5 * g + 5 <= |p| then 5 * g + 5 else |p|;
    forall m | 8 * g <= m < 8 * g + 8
      ensures Encoded(p)[m] == GroupChar(p[5 * g..end], m - 8 * g)
    {
      GroupCharIs(p, g, m - 8 * g);
    }
  }

  /** How many characters base32::Encode reserves. */
  function EncodeLength(len: nat): nat {
    len / 5 * 8 + if len % 5 != 0 then 8 else 0
  }

  lemma EncodeLengthIs(p: seq<bv8>)
    ensures EncodeLength(|p|) == |Encoded(p)|
    ensures forall g: nat :: 5 * g >= |p| ==> 8 * g >= |Encoded(p)|
  {
  }

  lemma SliceOfPrefix(s: seq<bv8>, len: nat, i: nat, n: nat)
    requires i + n <= len <= |s|
    ensures s[i..i + n] == s[..len][i..i + n]
  {
  }

  /** base32::Encode. */
  method Encode(plain: array<bv8>, len: nat) returns (coded: array<bv8>)
    requires len <= plain.Length
    ensures fresh(coded) && coded[..] == Encoded(plain[..len])
  {
    hide GroupChar, Encoded, EncodeLength;
    ghost var p, g := plain[..len], 0;
    EncodeLengthIs(p);
    coded := new bv8[EncodeLength(len)];
    var i, j := 0, 0;
    while i < len
      invariant 0 <= g && i == 5 * g && j == 8 * g && plain[..len] == p
      invariant forall k :: 0 <= k < j && k < coded.Length ==> coded[k] == Encoded(p)[k]
      decreases len - i
    {
      var n := if len - i < 5 then len - i else 5;
      SliceOfPrefix(plain[..], len, i, n);
      GroupChars(p, g);
      EncodeSequence(plain, i, n, coded, j);
      i, j, g := i + 5, j + 8, g + 1;
    }
  }

  // ---------- decoding in place ----------

  lemma Part0(c: bv8)
    requires c & 0x1F == c
    ensures Octet(c & 0x10 != 0, c & 0x08 != 0, c & 0x04 != 0, c & 0x02 != 0, c & 0x01 != 0, false, false, false) == c << 3
  {
  }

  lemma Part1(c: bv8)
    requires c & 0x1F == c
    ensures Octet(false, false, false, false, false, c & 0x10 != 0, c & 0x08 != 0, c & 0x04 != 0) == c >> 2
    ensures Octet(c & 0x02 != 0, c & 0x01 != 0, false, false, false, false, false, false) == c << 6
  {
  }

  lemma Part2(c: bv8)
    requires c & 0x1F == c
    ensures Octet(false, false, c & 0x10 != 0, c & 0x08 != 0, c & 0x04 != 0, c & 0x02 != 0, c & 0x01 != 0, false) == c << 1
  {
  }

  lemma Part3(c: bv8)
    requires c & 0x1F == c
    ensures Octet(false, false, false, false, false, false, false, c & 0x10 != 0) == c >> 4
    ensures Octet(c & 0x08 != 0, c & 0x04 != 0, c & 0x02 != 0, c & 0x01 != 0, false, false, false, false) == c << 4
  {
  }

  lemma Part4(c: bv8)
    requires c & 0x1F == c
    ensures Octet(false, false, false, false, c & 0x10 != 0, c & 0x08 != 0, c & 0x04 != 0, c & 0x02 != 0) == c >> 1
    ensures Octet(c & 0x01 != 0, false, false, false, false, false, false, false) == c << 7
  {
  }

  lemma Part5(c: bv8)
    requires c & 0x1F == c
    ensures Octet(false, c & 0x10 != 0, c & 0x08 != 0, c & 0x04 != 0, c & 0x02 != 0, c & 0x01 != 0, false, false) == c << 2
  {
  }

  lemma Part6(c: bv8)
    requires c & 0x1F == c
    ensures Octet(false, false, false, false, false, false, c & 0x10 != 0, c & 0x08 != 0) == c >> 3
    ensures Octet(c & 0x04 != 0, c & 0x02 != 0, c & 0x01 != 0, false, false, false, false, false) == c << 5
  {
  }

  lemma Part7(c: bv8)
    requires c & 0x1F == c
    ensures Octet(false, false, false, c & 0x10 != 0, c & 0x08 != 0, c & 0x04 != 0, c & 0x02 != 0, c & 0x01 != 0) == c << 0
  {
  }

  /** Bit j of the five bits of c at place b. */
  predicate PartBit(b: nat, c: bv8, j: nat) {
    j / 5 == b && c & (0x10 >> (j % 5)) != 0
  }

  lemma OctetOr(x0: bool, x1: bool, x2: bool, x3: bool, x4: bool, x5: bool, x6: bool, x7: bool,
                y0: bool, y1: bool, y2: bool, y3: bool, y4: bool, y5: bool, y6: bool, y7: bool)
    ensures Octet(x0 || y0, x1 || y1, x2 || y2, x3 || y3, x4 || y4, x5 || y5, x6 || y6, x7 || y7) ==
            Or(Octet(x0, x1, x2, x3, x4, x5, x6, x7), Octet(y0, y1, y2, y3, y4, y5, y6, y7))
  {
  }

  lemma OrNothing(x: bv8)
    ensures Or(x, 0) == x && Or(0, x) == x
  {
  }

  lemma BitAdded(v: seq<bv8>, c: bv8, j: nat)
    ensures QuintetBit(v + [c], j) == (QuintetBit(v, j) || PartBit(|v|, c, j))
  {
  }

  function PartOctet(b: nat, c: bv8, u: nat): bv8 {
    Octet(PartBit(b, c, 8 * u), PartBit(b, c, 8 * u + 1), PartBit(b, c, 8 * u + 2), PartBit(b, c, 8 * u + 3),
          PartBit(b, c, 8 * u + 4), PartBit(b, c, 8 * u + 5), PartBit(b, c, 8 * u + 6), PartBit(b, c, 8 * u + 7))
  }

  lemma OneMoreOctet(v: seq<bv8>, c: bv8, u: nat)
    ensures OctetAt(v + [c], u) == Or(OctetAt(v, u), PartOctet(|v|, c, u))
  {
    hide QuintetBit, PartBit, Octet, Or;
    BitAdded(v, c, 8 * u);
    BitAdded(v, c, 8 * u + 1);
    BitAdded(v, c, 8 * u + 2);
    BitAdded(v, c, 8 * u + 3);
    BitAdded(v, c, 8 * u + 4);
    BitAdded(v, c, 8 * u + 5);
    BitAdded(v, c, 8 * u + 6);
    BitAdded(v, c, 8 * u + 7);
    OctetOr(QuintetBit(v, 8 * u), QuintetBit(v, 8 * u + 1), QuintetBit(v, 8 * u + 2), QuintetBit(v, 8 * u + 3),
            QuintetBit(v, 8 * u + 4), QuintetBit(v, 8 * u + 5), QuintetBit(v, 8 * u + 6), QuintetBit(v, 8 * u + 7),
            PartBit(|v|, c, 8 * u), PartBit(|v|, c, 8 * u + 1), PartBit(|v|, c, 8 * u + 2), PartBit(|v|, c, 8 * u + 3),
            PartBit(|v|, c, 8 * u + 4), PartBit(|v|, c, 8 * u + 5), PartBit(|v|, c, 8 * u + 6), PartBit(|v|, c, 8 * u + 7));
  }

  lemma NoBits()
    ensures Octet(false, false, false, false, false, false, false, false) == 0
  {
  }

  lemma NoPart(b: nat, c: bv8, u: nat)
    requires 8 * u + 8 <= 5 * b || 5 * b + 5 <= 8 * u
    ensures PartOctet(b, c, u) == 0
  {
    hide Octet;
    NoBits();
  }

  lemma NothingYet(v: seq<bv8>, u: nat)
    requires 5 * |v| <= 8 * u
    ensures OctetAt(v, u) == 0
  {
    hide Octet;
    NoBits();
  }

  lemma PartOf0(c: bv8)
    requires c & 0x1F == c
    ensures PartOctet(0, c, 0) == ShiftLeft(c, 3)
  {
    hide Octet;
    QuintetMasks();
    Part0(c);
  }

  lemma StartOf1(c: bv8)
    requires c & 0x1F == c
    ensures PartOctet(1, c, 0) == ShiftLeft(c, -2)
  {
    hide Octet;
    QuintetMasks();
    Part1(c);
  }

  lemma RestOf1(c: bv8)
    requires c & 0x1F == c
    ensures PartOctet(1, c, 1) == ShiftLeft(c, 6)
  {
    hide Octet;
    QuintetMasks();
    Part1(c);
  }

  lemma PartOf1(c: bv8)
    requires c & 0x1F == c
    ensures PartOctet(1, c, 0) == ShiftLeft(c, -2) && PartOctet(1, c, 1) == ShiftLeft(c, 6)
  {
    hide PartOctet, ShiftLeft;
    StartOf1(c);
    RestOf1(c);
  }

  lemma PartOf2(c: bv8)
    requires c & 0x1F == c
    ensures PartOctet(2, c, 1) == ShiftLeft(c, 1)
  {
    hide Octet;
    QuintetMasks();
    Part2(c);
  }

  lemma StartOf3(c: bv8)
    requires c & 0x1F == c
    ensures PartOctet(3, c, 1) == ShiftLeft(c, -4)
  {
    hide Octet;
    QuintetMasks();
    Part3(c);
  }

  lemma RestOf3(c: bv8)
    requires c & 0x1F == c
    ensures PartOctet(3, c, 2) == ShiftLeft(c, 4)
  {
    hide Octet;
    QuintetMasks();
    Part3(c);
  }

  lemma PartOf3(c: bv8)
    requires c & 0x1F == c
    ensures PartOctet(3, c, 1) == ShiftLeft(c, -4) && PartOctet(3, c, 2) == ShiftLeft(c, 4)
  {
    hide PartOctet, ShiftLeft;
    StartOf3(c);
    RestOf3(c);
  }

  lemma StartOf4(c: bv8)
    requires c & 0x1F == c
    ensures PartOctet(4, c, 2) == ShiftLeft(c, -1)
  {
    hide Octet;
    QuintetMasks();
    Part4(c);
  }

  lemma RestOf4(c: bv8)
    requires c & 0x1F == c
    ensures PartOctet(4, c, 3) == ShiftLeft(c, 7)
  {
    hide Octet;
    QuintetMasks();
    Part4(c);
  }

  lemma PartOf4(c: bv8)
    requires c & 0x1F == c
    ensures PartOctet(4, c, 2) == ShiftLeft(c, -1) && PartOctet(4, c, 3) == ShiftLeft(c, 7)
  {
    hide PartOctet, ShiftLeft;
    StartOf4(c);
    RestOf4(c);
  }

  lemma PartOf5(c: bv8)
    requires c & 0x1F == c
    ensures PartOctet(5, c, 3) == ShiftLeft(c, 2)
  {
    hide Octet;
    QuintetMasks();
    Part5(c);
  }

  lemma StartOf6(c: bv8)
    requires c & 0x1F == c
    ensures PartOctet(6, c, 3) == ShiftLeft(c, -3)
  {
    hide Octet;
    QuintetMasks();
    Part6(c);
  }

  lemma RestOf6(c: bv8)
    requires c & 0x1F == c
    ensures PartOctet(6, c, 4) == ShiftLeft(c, 5)
  {
    hide Octet;
    QuintetMasks();
    Part6(c);
  }

  lemma PartOf6(c: bv8)
    requires c & 0x1F == c
    ensures PartOctet(6, c, 3) == ShiftLeft(c, -3) && PartOctet(6, c, 4) == ShiftLeft(c, 5)
  {
    hide PartOctet, ShiftLeft;
    StartOf6(c);
    RestOf6(c);
  }

  lemma PartOf7(c: bv8)
    requires c & 0x1F == c
    ensures PartOctet(7, c, 4) == ShiftLeft(c, 0)
  {
    hide Octet;
    QuintetMasks();
    Part7(c);
  }

  /** Where decode_sequence puts the five bits of a character. */
  lemma PartsOf(b: nat, c: bv8, u: nat)
    requires b < 8 && c & 0x1F == c && u < 5
    ensures PartOctet(b, c, u) ==
            if u == GetOctet(b) then ShiftLeft(c, GetOffset(b))
            else if u == GetOctet(b) + 1 && GetOffset(b) < 0 then ShiftLeft(c, 8 + GetOffset(b))
            else 0
  {
    hide PartOctet, ShiftLeft;
    if u != GetOctet(b) && (u != GetOctet(b) + 1 || GetOffset(b) >= 0) {
      NoPart(b, c, u);
    } else {
      match b
      case 0 => PartOf0(c);
      case 1 => PartOf1(c);
      case 2 => PartOf2(c);
      case 3 => PartOf3(c);
      case 4 => PartOf4(c);
      case 5 => PartOf5(c);
      case 6 => PartOf6(c);
      case _ => PartOf7(c);
    }
  }

  /** The assignments decode_sequence makes for one more character. */
  lemma OneMore(v: seq<bv8>, c: bv8, u: nat)
    requires |v| < 8 && c & 0x1F == c && u < 5
    ensures var octet, offset := GetOctet(|v|), GetOffset(|v|);
            OctetAt(v + [c], u) ==
            if u == octet then Or(OctetAt(v, u), ShiftLeft(c, offset))
            else if u == octet + 1 && offset < 0 then ShiftLeft(c, 8 + offset)
            else OctetAt(v, u)
  {
    hide OctetAt, ShiftLeft, Or, PartOctet;
    OneMoreOctet(v, c, u);
    PartsOf(|v|, c, u);
    OrNothing(OctetAt(v, u));
    OrNothing(PartOctet(|v|, c, u));
    if u == GetOctet(|v|) + 1 {
      NothingYet(v, u);
    }
  }

  /** The character at i; a terminating zero follows the last one. */
  function CharAt(s: seq<bv8>, i: nat): bv8
    requires i <= |s|
  {
    if i < |s| then s[i] else 0
  }

  /** After a run of good characters, the next one is good exactly when the run goes on. */
  lemma {:induction false} ValidAt(s: seq<bv8>, k: nat)
    requires k <= |Values(s)|
    ensures k < |s| && IsChar(s[k]) <==> k < |Values(s)|
    ensures k < |Values(s)| ==> Values(s)[k] == DecodeChar(s[k])
    decreases k
  {
    hide IsChar, DecodeChar;
    if k > 0 {
      assert s != [] && IsChar(s[0]);
      ValidAt(s[1..], k - 1);
    }
  }

  lemma DecodeCharFits(c: bv8)
    requires IsChar(c)
    ensures DecodeChar(c) & 0x1F == DecodeChar(c)
  {
    if c >= 65 {
      assert c - 65 <= 25;
    } else {
      assert c - 24 <= 31;
    }
  }

  /** The octets from j on hold the bits of v and nothing else. */
  predicate Holds(now: seq<bv8>, j: nat, v: seq<bv8>) {
    forall m :: j <= m < j + 5 && m < |now| ==> now[m] == OctetAt(v, m - j)
  }

  /** The assignments of decode_sequence for one good character. */
  method Place(plain: array<bv8>, j: nat, block: nat, c: bv8)
    requires block < 8 && j + 5 <= plain.Length
    modifies plain
    ensures forall m :: 0 <= m < plain.Length ==>
              plain[m] == if m == j + GetOctet(block) then Or(old(plain[m]), ShiftLeft(c, GetOffset(block)))
                          else if m == j + GetOctet(block) + 1 && GetOffset(block) < 0 then ShiftLeft(c, 8 + GetOffset(block))
                          else old(plain[m])
  {
    hide ShiftLeft, Or;
    var offset := GetOffset(block);
    var octet := GetOctet(block);
    plain[j + octet] := Or(plain[j + octet], ShiftLeft(c, offset));
    if offset < 0 {
      plain[j + octet + 1] := ShiftLeft(c, 8 + offset);
    }
  }

  lemma OneLonger(v: seq<bv8>, i: nat, k: nat)
    requires i <= k < |v|
    ensures v[i..k + 1] == v[i..k] + [v[k]]
  {
  }

  /** decode_sequence: eight characters from i into five octets from j. */
  method DecodeSequence(s: seq<bv8>, i: nat, plain: array<bv8>, j: nat) returns (n: nat)
    requires i <= |Values(s)|
    requires j < plain.Length && (i < |Values(s)| ==> j + 5 <= plain.Length)
    requires forall m :: j <= m < plain.Length ==> plain[m] == 0
    modifies plain
    ensures forall m :: 0 <= m < plain.Length && !(j <= m < j + 5) ==> plain[m] == old(plain[m])
    ensures var end := if i + 8 <= |Values(s)| then i + 8 else |Values(s)|;
            Holds(plain[..], j, Values(s)[i..end]) && n == if i + 8 <= |Values(s)| then 5 else GetOctet(end - i)
  {
    hide Values, OctetAt, IsChar, DecodeChar, ShiftLeft, Or, Holds;
    ghost var values := Values(s);
    plain[j] := 0;
    NothingHeld(plain[..], j);
    assert values[i..i] == [];
    for block := 0 to 8
      invariant i + block <= |values|
      invariant Holds(plain[..], j, values[i..i + block])
      invariant forall m :: 0 <= m < plain.Length && !(j <= m < j + 5) ==> plain[m] == old(plain[m])
    {
      var octet := GetOctet(block);
      ValidAt(s, i + block);
      CharInverse(0);
      if !IsChar(CharAt(s, i + block)) {
        return octet;
      }
      var c := DecodeChar(s[i + block]);
      ghost var was, v := plain[..], values[i..i + block];
      OneLonger(values, i, i + block);
      Place(plain, j, block, c);
      DecodeCharFits(s[i + block]);
      OneMoreHeld(was, plain[..], j, v, c);
    }
    return 5;
  }

  lemma NothingHeld(now: seq<bv8>, j: nat)
    requires forall m :: j <= m < |now| ==> now[m] == 0
    ensures Holds(now, j, [])
  {
    hide OctetAt;
    forall m | j <= m < j + 5 && m < |now|
      ensures now[m] == OctetAt([], m - j)
    {
      NothingYet([], m - j);
    }
  }

  lemma OneMoreHeld(was: seq<bv8>, now: seq<bv8>, j: nat, v: seq<bv8>, c: bv8)
    requires |v| < 8 && c & 0x1F == c && j + 5 <= |was| == |now| && Holds(was, j, v)
    requires var octet, offset := GetOctet(|v|), GetOffset(|v|);
             forall m :: j <= m < j + 5 ==>
               now[m] == if m - j == octet then Or(was[m], ShiftLeft(c, offset))
                         else if m - j == octet + 1 && offset < 0 then ShiftLeft(c, 8 + offset)
                         else was[m]
    ensures Holds(now, j, v + [c])
  {
    hide OctetAt, ShiftLeft, Or;
    forall m | j <= m < j + 5
      ensures now[m] == OctetAt(v + [c], m - j)
    {
      OneMore(v, c, m - j);
    }
  }

  /** The octets of a group are the octets of the whole at its place. */
  lemma OctetOfGroup(v: seq<bv8>, g: nat, end: nat, u: nat)
    requires 8 * g <= end <= |v| && u < 5 && (end == |v| || end == 8 * g + 8)
    ensures OctetAt(v[8 * g..end], u) == OctetAt(v, 5 * g + u)
  {
    hide Octet, QuintetBit;
    BitOfGroup(v, g, end, 8 * u);
    BitOfGroup(v, g, end, 8 * u + 1);
    BitOfGroup(v, g, end, 8 * u + 2);
    BitOfGroup(v, g, end, 8 * u + 3);
    BitOfGroup(v, g, end, 8 * u + 4);
    BitOfGroup(v, g, end, 8 * u + 5);
    BitOfGroup(v, g, end, 8 * u + 6);
    BitOfGroup(v, g, end, 8 * u + 7);
  }

  lemma BitOfGroup(v: seq<bv8>, g: nat, end: nat, x: nat)
    requires 8 * g <= end <= |v| && x < 40 && (end == |v| || end == 8 * g + 8)
    ensures QuintetBit(v[8 * g..end], x) == QuintetBit(v, 40 * g + x)
  {
  }

  /** The good characters end within the whole groups of eight, as they do in any string of a length
      divisible by eight. Where they go further, the source writes over the end of the string it made. */
  predicate Fits(s: seq<bv8>) {
    |Values(s)| <= |s| / 8 * 8
  }

  lemma GroupFits(n: nat, v: nat, g: nat)
    requires v <= n / 8 * 8 && 8 * g <= v
    ensures 5 * g < n / 8 * 5 + 1
    ensures 8 * g < v ==> 5 * g + 5 <= n / 8 * 5
  {
  }

  lemma GroupDecoded(now: seq<bv8>, v: seq<bv8>, g: nat, end: nat)
    requires 8 * g <= end <= |v| && (end == |v| || end == 8 * g + 8) && Holds(now, 5 * g, v[8 * g..end])
    ensures forall m :: 5 * g <= m < 5 * g + 5 && m < |now| ==> now[m] == OctetAt(v, m)
  {
    hide OctetAt;
    forall m | 5 * g <= m < 5 * g + 5 && m < |now|
      ensures now[m] == OctetAt(v, m)
    {
      OctetOfGroup(v, g, end, m - 5 * g);
    }
  }

  /** No character reaches beyond the group it stops in. */
  lemma RestIsZero(v: seq<bv8>, g: nat)
    requires 8 * g <= |v| < 8 * g + 8
    ensures forall m :: 5 * g + 5 <= m ==> OctetAt(v, m) == 0
    ensures |v| * 5 / 8 == 5 * g + GetOctet(|v| - 8 * g)
  {
    hide OctetAt;
    forall m | 5 * g + 5 <= m
      ensures OctetAt(v, m) == 0
    {
      NothingYet(v, m);
    }
  }

  /** base32::Decode, with the count it keeps of the octets written. */
  method Decode(s: seq<bv8>) returns (plain: array<bv8>, written: nat)
    requires Fits(s)
    ensures plain[..] == Decoded(s)
    ensures written == Written(s)
  {
    hide Values, Holds, OctetAt;
    ghost var v, g := Values(s), 0;
    // The extra octet is the string's own terminator.
    var buffer := new bv8[|s| / 8 * 5 + 1](_ => 0);
    written := 0;
    var i, j := 0, 0;
    while true
      invariant 0 <= g && i == 8 * g <= |v| && j == 5 * g == written
      invariant forall m :: 0 <= m < j ==> buffer[m] == OctetAt(v, m)
      invariant forall m :: j <= m < buffer.Length ==> buffer[m] == 0
      decreases |s| - i
    {
      GroupFits(|s|, |v|, g);
      var n := DecodeSequence(s, i, buffer, j);
      written := written + n;
      ghost var end := if i + 8 <= |v| then i + 8 else |v|;
      GroupDecoded(buffer[..], v, g, end);
      if n < 5 {
        RestIsZero(v, g);
        break;
      }
      i, j, g := i + 8, j + 5, g + 1;
    }
    assert forall m :: 0 <= m < |s| / 8 * 5 ==> buffer[m] == OctetAt(v, m);
    plain := new bv8[|s| / 8 * 5](k requires 0 <= k < |s| / 8 * 5 reads buffer => buffer[k]);
  }
}
