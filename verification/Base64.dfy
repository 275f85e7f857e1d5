/** base64 of dev/algorithmic/src/crypt-base64.cpp against section 4 of RFC 4648, read as bits: the
    octets of the input, most significant bit first, are cut into groups of six. */
module Base64 {

  import opened OctetBits

  // ---------- bits ----------

  /** Bit j of a string of six-bit values; false past the end. */
  predicate SextetBit(v: seq<bv8>, j: nat) {
    j / 6 < |v| && v[j / 6] & (0x20 >> (j % 6)) != 0
  }

  function Sextet(b0: bool, b1: bool, b2: bool, b3: bool, b4: bool, b5: bool): bv8 {
    (if b0 then 0x20 else 0) | (if b1 then 0x10 else 0) | (if b2 then 0x08 else 0) | (if b3 then 0x04 else 0) |
    (if b4 then 0x02 else 0) | (if b5 then 0x01 else 0)
  }

  /** The six bits of p from bit 6k on. */
  function SextetAt(p: seq<bv8>, k: nat): bv8 {
    Sextet(OctetBit(p, 6 * k), OctetBit(p, 6 * k + 1), OctetBit(p, 6 * k + 2), OctetBit(p, 6 * k + 3),
           OctetBit(p, 6 * k + 4), OctetBit(p, 6 * k + 5))
  }

  /** The eight bits of v from bit 8t on. */
  function OctetIn(v: seq<bv8>, t: nat): bv8 {
    Octet(SextetBit(v, 8 * t), SextetBit(v, 8 * t + 1), SextetBit(v, 8 * t + 2), SextetBit(v, 8 * t + 3),
          SextetBit(v, 8 * t + 4), SextetBit(v, 8 * t + 5), SextetBit(v, 8 * t + 6), SextetBit(v, 8 * t + 7))
  }

  // ---------- the code, section 4 of RFC 4648 ----------

  /** The alphabet: A to Z, a to z, 0 to 9, plus and slash. */
  function CharOf(v: bv8): bv8
    requires v < 64
  {
    if v < 26 then 65 + v else if v < 52 then 71 + v else if v < 62 then v - 4 else if v == 62 then 43 else 47
  }

  /** is_base64. */
  predicate IsBase64(c: bv8) {
    65 <= c <= 90 || 97 <= c <= 122 || 48 <= c <= 57 || c == 43 || c == 47
  }

  /** The position of a character in the alphabet; 255, the truncated npos, when it is not there. */
  function Find(c: bv8): bv8 {
    if 65 <= c <= 90 then c - 65
    else if 97 <= c <= 122 then c - 71
    else if 48 <= c <= 57 then c + 4
    else if c == 43 then 62
    else if c == 47 then 63
    else 255
  }

  function CarryingSix(n: nat): nat {
    (8 * n + 5) / 6
  }

  function EncodedChar(p: seq<bv8>, k: nat): bv8 {
    if k < CarryingSix(|p|) then CharOf(SextetIn(p, k)) else PAD
  }

  /** The encoding: four characters for every three octets or part of them. */
  function Encoded64(p: seq<bv8>): seq<bv8> {
    seq((|p| + 2) / 3 * 4, k requires 0 <= k => EncodedChar(p, k))
  }

  function SextetIn(p: seq<bv8>, k: nat): (v: bv8)
    ensures v < 64
  {
    SextetFits(OctetBit(p, 6 * k), OctetBit(p, 6 * k + 1), OctetBit(p, 6 * k + 2), OctetBit(p, 6 * k + 3),
               OctetBit(p, 6 * k + 4), OctetBit(p, 6 * k + 5));
    SextetAt(p, k)
  }

  lemma SextetFits(b0: bool, b1: bool, b2: bool, b3: bool, b4: bool, b5: bool)
    ensures Sextet(b0, b1, b2, b3, b4, b5) < 64
  {
  }

  /** The values of the characters before the first one outside the alphabet. */
  function Values64(s: seq<bv8>): (v: seq<bv8>)
    ensures |v| <= |s|
  {
    if s == [] || !IsBase64(s[0]) then [] else [Find(s[0])] + Values64(s[1..])
  }

  /** The octets completely given by the characters before the first one outside the alphabet. */
  function Decoded64(s: seq<bv8>): seq<bv8> {
    var v := Values64(s);
    seq(|v| * 6 / 8, t requires 0 <= t => OctetIn(v, t))
  }

  // ---------- round trip ----------

  lemma CharFound(v: bv8)
    requires v < 64
    ensures IsBase64(CharOf(v)) && Find(CharOf(v)) == v && !IsBase64(PAD)
  {
  }

  lemma FoundFits(c: bv8)
    requires IsBase64(c)
    ensures Find(c) < 64 && CharOf(Find(c)) == c
  {
  }

  lemma SextetBits(b0: bool, b1: bool, b2: bool, b3: bool, b4: bool, b5: bool)
    ensures var q := Sextet(b0, b1, b2, b3, b4, b5);
            && (q & 0x20 != 0) == b0 && (q & 0x10 != 0) == b1 && (q & 0x08 != 0) == b2
            && (q & 0x04 != 0) == b3 && (q & 0x02 != 0) == b4 && (q & 0x01 != 0) == b5
  {
  }

  lemma SextetMasks()
    ensures 0x20 as bv8 >> 0 == 0x20 && 0x20 as bv8 >> 1 == 0x10 && 0x20 as bv8 >> 2 == 0x08
    ensures 0x20 as bv8 >> 3 == 0x04 && 0x20 as bv8 >> 4 == 0x02 && 0x20 as bv8 >> 5 == 0x01
  {
  }

  lemma SextetAtBit(p: seq<bv8>, k: nat, r: nat)
    requires r < 6
    ensures (SextetAt(p, k) & (0x20 >> r) != 0) == OctetBit(p, 6 * k + r)
  {
    hide OctetBit, Sextet;
    SextetBits(OctetBit(p, 6 * k), OctetBit(p, 6 * k + 1), OctetBit(p, 6 * k + 2), OctetBit(p, 6 * k + 3),
               OctetBit(p, 6 * k + 4), OctetBit(p, 6 * k + 5));
    SextetMasks();
  }

  /** The six-bit values of p, in order. */
  function Sextets(p: seq<bv8>): seq<bv8> {
    seq(CarryingSix(|p|), k requires 0 <= k => SextetIn(p, k))
  }

  /** Cutting the bits into sixes loses none of them and adds only zeros. */
  lemma SameSixBits(p: seq<bv8>, j: nat)
    ensures SextetBit(Sextets(p), j) == OctetBit(p, j)
  {
    hide SextetAt;
    if j / 6 < CarryingSix(|p|) {
      SextetAtBit(p, j / 6, j % 6);
    } else {
      assert j / 8 >= |p|;
    }
  }

  lemma OctetInIs(p: seq<bv8>, t: nat)
    ensures OctetIn(Sextets(p), t) == OctetOrZero(p, t)
  {
    hide Sextets, SextetBit, OctetBit, Octet, OctetOrZero;
    SameSixBits(p, 8 * t);
    SameSixBits(p, 8 * t + 1);
    SameSixBits(p, 8 * t + 2);
    SameSixBits(p, 8 * t + 3);
    SameSixBits(p, 8 * t + 4);
    SameSixBits(p, 8 * t + 5);
    SameSixBits(p, 8 * t + 6);
    SameSixBits(p, 8 * t + 7);
    BitsOfOctet(p, t);
  }

  lemma {:induction false} ValuesOfEncoding64(s: seq<bv8>, q: seq<bv8>)
    requires |q| <= |s|
    requires forall k :: 0 <= k < |q| ==> q[k] < 64 && s[k] == CharOf(q[k])
    requires |q| < |s| ==> s[|q|] == PAD
    ensures Values64(s) == q
    decreases |s|
  {
    hide CharOf, IsBase64, Find;
    CharFound(0);
    if q != [] {
      CharFound(q[0]);
      ValuesOfEncoding64(s[1..], q[1..]);
      assert q == [q[0]] + q[1..];
    }
  }

  lemma Lengths64(n: nat)
    ensures CarryingSix(n) <= (n + 2) / 3 * 4 && CarryingSix(n) * 6 / 8 == n
  {
  }

  /** Decoding an encoding gives back exactly the octets that were encoded. */
  lemma RoundTrip64(p: seq<bv8>)
    ensures Decoded64(Encoded64(p)) == p
  {
    hide SextetIn, OctetIn, CharOf, Values64;
    var s, q := Encoded64(p), Sextets(p);
    Lengths64(|p|);
    ValuesOfEncoding64(s, q);
    forall t: nat
      ensures OctetIn(q, t) == OctetOrZero(p, t)
    {
      OctetInIs(p, t);
    }
  }

  /** Four characters for every three octets or part of them; the last group ends in two padding
      characters after one octet, in one after two, and in none after three. */
  lemma Shape64(p: seq<bv8>)
    ensures |Encoded64(p)| == 4 * ((|p| + 2) / 3)
    ensures forall k :: 0 <= k < |Encoded64(p)| ==>
              (Encoded64(p)[k] == PAD <==> k >= |Encoded64(p)| - (if |p| % 3 == 0 then 0 else 3 - |p| % 3))
  {
    hide SextetIn, CharOf, IsBase64;
    forall k | 0 <= k < |Encoded64(p)|
      ensures Encoded64(p)[k] == PAD <==> k >= CarryingSix(|p|)
    {
      CharFound(SextetIn(p, k));
    }
  }

  // ---------- the arithmetic of the source ----------

  function Four0(x: bv8): bv8 {
    (x & 0xfc) >> 2
  }

  function Four1(x: bv8, y: bv8): bv8 {
    ((x & 0x03) << 4) + ((y & 0xf0) >> 4)
  }

  function Four2(y: bv8, z: bv8): bv8 {
    ((y & 0x0f) << 2) + ((z & 0xc0) >> 6)
  }

  function Four3(z: bv8): bv8 {
    z & 0x3f
  }

  function Three0(x: bv8, y: bv8): bv8 {
    (x << 2) + ((y & 0x30) >> 4)
  }

  function Three1(y: bv8, z: bv8): bv8 {
    ((y & 0xf) << 4) + ((z & 0x3c) >> 2)
  }

  function Three2(z: bv8, w: bv8): bv8 {
    ((z & 0x3) << 6) + w
  }

  lemma Four0Is(x: bv8)
    ensures Four0(x) == Sextet(x & 0x80 != 0, x & 0x40 != 0, x & 0x20 != 0, x & 0x10 != 0, x & 0x08 != 0, x & 0x04 != 0)
  {
  }

  lemma Four1Is(x: bv8, y: bv8)
    ensures Four1(x, y) == Sextet(x & 0x02 != 0, x & 0x01 != 0, y & 0x80 != 0, y & 0x40 != 0, y & 0x20 != 0, y & 0x10 != 0)
  {
  }

  lemma Four2Is(y: bv8, z: bv8)
    ensures Four2(y, z) == Sextet(y & 0x08 != 0, y & 0x04 != 0, y & 0x02 != 0, y & 0x01 != 0, z & 0x80 != 0, z & 0x40 != 0)
  {
  }

  lemma Four3Is(z: bv8)
    ensures Four3(z) == Sextet(z & 0x20 != 0, z & 0x10 != 0, z & 0x08 != 0, z & 0x04 != 0, z & 0x02 != 0, z & 0x01 != 0)
  {
  }

  lemma Three0Is(x: bv8, y: bv8)
    requires x < 64 && y < 64
    ensures Three0(x, y) == Octet(x & 0x20 != 0, x & 0x10 != 0, x & 0x08 != 0, x & 0x04 != 0, x & 0x02 != 0, x & 0x01 != 0, y & 0x20 != 0, y & 0x10 != 0)
  {
  }

  lemma Three1Is(y: bv8, z: bv8)
    requires y < 64 && z < 64
    ensures Three1(y, z) == Octet(y & 0x08 != 0, y & 0x04 != 0, y & 0x02 != 0, y & 0x01 != 0, z & 0x20 != 0, z & 0x10 != 0, z & 0x08 != 0, z & 0x04 != 0)
  {
  }

  lemma Three2Is(z: bv8, w: bv8)
    requires z < 64 && w < 64
    ensures Three2(z, w) == Octet(z & 0x02 != 0, z & 0x01 != 0, w & 0x20 != 0, w & 0x10 != 0, w & 0x08 != 0, w & 0x04 != 0, w & 0x02 != 0, w & 0x01 != 0)
  {
  }

  /** The source's shifts pick out six consecutive bits, in a whole group and in a zero-filled one. */
  lemma GroupOfFour(p: seq<bv8>, g: nat)
    ensures var x, y, z := OctetOrZero(p, 3 * g), OctetOrZero(p, 3 * g + 1), OctetOrZero(p, 3 * g + 2);
            && SextetAt(p, 4 * g) == Four0(x) && SextetAt(p, 4 * g + 1) == Four1(x, y)
            && SextetAt(p, 4 * g + 2) == Four2(y, z) && SextetAt(p, 4 * g + 3) == Four3(z)
  {
    hide OctetBit, OctetOrZero, Sextet, Four0, Four1, Four2, Four3;
    var x, y, z := OctetOrZero(p, 3 * g), OctetOrZero(p, 3 * g + 1), OctetOrZero(p, 3 * g + 2);
    BitsOf(p, 3 * g);
    BitsOf(p, 3 * g + 1);
    BitsOf(p, 3 * g + 2);
    Four0Is(x);
    Four1Is(x, y);
    Four2Is(y, z);
    Four3Is(z);
  }

  function SextetOrZero(v: seq<bv8>, k: nat): bv8 {
    if k < |v| then v[k] else 0
  }

  lemma SixBitsOf(v: seq<bv8>, k: nat)
    ensures var x := SextetOrZero(v, k);
            && SextetBit(v, 6 * k) == (x & 0x20 != 0) && SextetBit(v, 6 * k + 1) == (x & 0x10 != 0)
            && SextetBit(v, 6 * k + 2) == (x & 0x08 != 0) && SextetBit(v, 6 * k + 3) == (x & 0x04 != 0)
            && SextetBit(v, 6 * k + 4) == (x & 0x02 != 0) && SextetBit(v, 6 * k + 5) == (x & 0x01 != 0)
  {
    SextetMasks();
    ZeroBits();
  }

  lemma GroupOfThree(v: seq<bv8>, g: nat)
    requires forall k :: 0 <= k < |v| ==> v[k] < 64
    ensures var x, y, z, w := SextetOrZero(v, 4 * g), SextetOrZero(v, 4 * g + 1), SextetOrZero(v, 4 * g + 2), SextetOrZero(v, 4 * g + 3);
            && OctetIn(v, 3 * g) == Three0(x, y) && OctetIn(v, 3 * g + 1) == Three1(y, z)
            && OctetIn(v, 3 * g + 2) == Three2(z, w)
  {
    hide SextetBit, Octet, Three0, Three1, Three2;
    var x, y, z, w := SextetOrZero(v, 4 * g), SextetOrZero(v, 4 * g + 1), SextetOrZero(v, 4 * g + 2), SextetOrZero(v, 4 * g + 3);
    SixBitsOf(v, 4 * g);
    SixBitsOf(v, 4 * g + 1);
    SixBitsOf(v, 4 * g + 2);
    SixBitsOf(v, 4 * g + 3);
    Three0Is(x, y);
    Three1Is(y, z);
    Three2Is(z, w);
  }

  // ---------- the loops ----------

  method ToFour(three: array<bv8>, four: array<bv8>)
    requires three.Length == 3 && four.Length == 4
    modifies four
    ensures four[0] == Four0(three[0]) && four[1] == Four1(three[0], three[1])
    ensures four[2] == Four2(three[1], three[2]) && four[3] == Four3(three[2])
  {
    hide Four0, Four1, Four2, Four3;
    four[0] := Four0(three[0]);
    four[1] := Four1(three[0], three[1]);
    four[2] := Four2(three[1], three[2]);
    four[3] := Four3(three[2]);
  }

  method ToThree(four: array<bv8>, three: array<bv8>)
    requires three.Length == 3 && four.Length == 4
    modifies three
    ensures three[0] == Three0(four[0], four[1]) && three[1] == Three1(four[1], four[2])
    ensures three[2] == Three2(four[2], four[3])
  {
    hide Three0, Three1, Three2;
    three[0] := Three0(four[0], four[1]);
    three[1] := Three1(four[1], four[2]);
    three[2] := Three2(four[2], four[3]);
  }

  /** The first n values of a group of four, as characters at the end of the string. */
  method AppendChars(ret0: seq<bv8>, four: array<bv8>, n: nat) returns (ret: seq<bv8>)
    requires n <= 4 == four.Length && forall k :: 0 <= k < n ==> four[k] < 64
    ensures |ret| == |ret0| + n && ret[..|ret0|] == ret0
    ensures forall k :: |ret0| <= k < |ret0| + n ==> ret[k] == CharOf(four[k - |ret0|])
  {
    hide CharOf;
    ret := ret0;
    for i := 0 to n
      invariant |ret| == |ret0| + i && ret[..|ret0|] == ret0
      invariant forall k :: |ret0| <= k < |ret0| + i ==> ret[k] == CharOf(four[k - |ret0|])
    {
      ret := ret + [CharOf(four[i])];
    }
  }

  /** The string holds the first n characters of the encoding. */
  predicate Front(ret: seq<bv8>, p: seq<bv8>, n: nat) {
    |ret| == n && forall k :: 0 <= k < n ==> ret[k] == EncodedChar(p, k)
  }

  lemma FourFit(p: seq<bv8>, g: nat)
    ensures var x, y, z := OctetOrZero(p, 3 * g), OctetOrZero(p, 3 * g + 1), OctetOrZero(p, 3 * g + 2);
            && SextetIn(p, 4 * g) == Four0(x) < 64 && SextetIn(p, 4 * g + 1) == Four1(x, y) < 64
            && SextetIn(p, 4 * g + 2) == Four2(y, z) < 64 && SextetIn(p, 4 * g + 3) == Four3(z) < 64
  {
    hide SextetAt, Four0, Four1, Four2, Four3, OctetOrZero;
    GroupOfFour(p, g);
    SextetIsIn(p, 4 * g);
    SextetIsIn(p, 4 * g + 1);
    SextetIsIn(p, 4 * g + 2);
    SextetIsIn(p, 4 * g + 3);
  }

  /** Appending a group's characters, whole or cut short by the end of the input. */
  lemma FrontGrows(ret: seq<bv8>, next: seq<bv8>, p: seq<bv8>, g: nat, n: nat)
    requires Front(ret, p, 4 * g) && n <= 4 && 4 * g + n <= CarryingSix(|p|)
    requires |next| == 4 * g + n && next[..4 * g] == ret
    requires forall k :: 4 * g <= k < 4 * g + n ==> next[k] == CharOf(SextetIn(p, k))
    ensures Front(next, p, 4 * g + n)
  {
    hide SextetIn, CharOf;
    forall k | 0 <= k < 4 * g
      ensures next[k] == EncodedChar(p, k)
    {
      assert next[k] == next[..4 * g][k];
    }
  }

  /** One group: three octets to four characters, of which n are appended. */
  method EncodeGroup(ret: seq<bv8>, three: array<bv8>, four: array<bv8>, n: nat, ghost p: seq<bv8>, ghost g: nat)
    returns (next: seq<bv8>)
    requires three.Length == 3 && four.Length == 4 && three != four
    requires Front(ret, p, 4 * g) && n <= 4 && 4 * g + n <= CarryingSix(|p|)
    requires three[0] == OctetOrZero(p, 3 * g) && three[1] == OctetOrZero(p, 3 * g + 1) && three[2] == OctetOrZero(p, 3 * g + 2)
    modifies four
    ensures Front(next, p, 4 * g + n)
  {
    hide SextetIn, CharOf, Four0, Four1, Four2, Four3, OctetOrZero;
    ToFour(three, four);
    FourFit(p, g);
    next := AppendChars(ret, four, n);
    FrontGrows(ret, next, p, g, n);
  }

  lemma SextetIsIn(p: seq<bv8>, k: nat)
    ensures SextetIn(p, k) == SextetAt(p, k)
  {
  }

  lemma FrontPadded(ret: seq<bv8>, p: seq<bv8>, n: nat)
    requires Front(ret, p, n) && CarryingSix(|p|) <= n
    ensures Front(ret + [PAD], p, n + 1)
  {
    hide SextetIn, CharOf;
  }

  lemma FrontWhole(ret: seq<bv8>, p: seq<bv8>)
    requires Front(ret, p, (|p| + 2) / 3 * 4)
    ensures ret == Encoded64(p)
  {
    hide EncodedChar;
  }

  /** base64::Encode. */
  method Encode(bytes: array<bv8>, inLen: nat) returns (ret: seq<bv8>)
    requires inLen <= bytes.Length
    ensures ret == Encoded64(bytes[..inLen])
  {
    hide Encoded64, EncodedChar, Front, CharOf, Four0, Four1, Four2, Four3;
    ghost var data, g := bytes[..inLen], 0;
    ret := [];
    NoFront(data);
    var three, four := new bv8[3], new bv8[4];
    var i, p := 0, 0;
    while p < inLen
      invariant 0 <= i < 3 && 0 <= g && p == 3 * g + i <= inLen
      invariant forall k :: 0 <= k < i ==> three[k] == data[3 * g + k]
      invariant Front(ret, data, 4 * g)
    {
      three[i] := bytes[p];
      i, p := i + 1, p + 1;
      if i == 3 {
        ret := EncodeGroup(ret, three, four, 4, data, g);
        i, g := 0, g + 1;
      }
    }
    if i != 0 {
      for j := i to 3
        invariant forall k :: 0 <= k < i ==> three[k] == data[3 * g + k]
        invariant forall k :: i <= k < j ==> three[k] == 0
      {
        three[j] := 0;
      }
      ret := EncodeGroup(ret, three, four, i + 1, data, g);
      ghost var tail := i;
      while i < 3
        invariant tail <= i <= 3 && Front(ret, data, 4 * g + i + 1)
      {
        FrontPadded(ret, data, 4 * g + i + 1);
        ret := ret + [PAD];
        i := i + 1;
      }
    }
    FrontWhole(ret, data);
  }

  lemma NoFront(p: seq<bv8>)
    ensures Front([], p, 0)
  {
  }

  /** After a run of good characters, the next one is good exactly when the run goes on. */
  lemma {:induction false} ValidAt64(s: seq<bv8>, k: nat)
    requires k <= |Values64(s)|
    ensures k < |s| && s[k] != PAD && IsBase64(s[k]) <==> k < |Values64(s)|
    ensures k < |Values64(s)| ==> Values64(s)[k] == Find(s[k]) < 64
    decreases k
  {
    hide IsBase64, Find;
    CharFound(0);
    if k > 0 {
      ValidAt64(s[1..], k - 1);
    } else if s != [] && IsBase64(s[0]) {
      FoundFits(s[0]);
    }
  }

  lemma ValuesFit(s: seq<bv8>)
    ensures forall k :: 0 <= k < |Values64(s)| ==> Values64(s)[k] < 64
  {
    hide Values64;
    forall k | 0 <= k < |Values64(s)|
      ensures Values64(s)[k] < 64
    {
      ValidAt64(s, k);
    }
  }

  /** The string holds the first n octets the values give. */
  predicate Behind(ret: seq<bv8>, v: seq<bv8>, n: nat) {
    |ret| == n && forall t :: 0 <= t < n ==> ret[t] == OctetIn(v, t)
  }

  /** Appending the octets of a group; past its end the values x, y, z, w are not looked at. */
  lemma BehindGrows(ret: seq<bv8>, next: seq<bv8>, v: seq<bv8>, g: nat, n: nat, x: bv8, y: bv8, z: bv8, w: bv8)
    requires Behind(ret, v, 3 * g) && n <= 3 && (n > 0 ==> 4 * g + n < |v|)
    requires forall k :: 0 <= k < |v| ==> v[k] < 64
    requires n > 0 ==> x == v[4 * g] && y == v[4 * g + 1]
    requires n > 1 ==> z == v[4 * g + 2]
    requires n > 2 ==> w == v[4 * g + 3]
    requires |next| == |ret| + n && next[..|ret|] == ret
    requires n > 0 ==> next[|ret|] == Three0(x, y)
    requires n > 1 ==> next[|ret| + 1] == Three1(y, z)
    requires n > 2 ==> next[|ret| + 2] == Three2(z, w)
    ensures Behind(next, v, 3 * g + n)
  {
    hide OctetIn, Three0, Three1, Three2;
    GroupOfThree(v, g);
    forall t | 0 <= t < 3 * g
      ensures next[t] == OctetIn(v, t)
    {
      assert next[t] == next[..3 * g][t];
    }
  }

  lemma NoneBehind(v: seq<bv8>)
    ensures Behind([], v, 0)
  {
  }

  lemma BehindWhole(ret: seq<bv8>, s: seq<bv8>, g: nat, i: nat)
    requires i < 4 && |Values64(s)| == 4 * g + i && Behind(ret, Values64(s), 3 * g + if i == 0 then 0 else i - 1)
    ensures ret == Decoded64(s)
  {
    hide OctetIn, Values64;
  }

  method AppendOctets(ret0: seq<bv8>, three: array<bv8>, n: nat) returns (ret: seq<bv8>)
    requires n <= 3 == three.Length
    ensures |ret| == |ret0| + n && ret[..|ret0|] == ret0
    ensures forall k :: |ret0| <= k < |ret0| + n ==> ret[k] == three[k - |ret0|]
  {
    ret := ret0;
    for j := 0 to n
      invariant |ret| == |ret0| + j && ret[..|ret0|] == ret0
      invariant forall k :: |ret0| <= k < |ret0| + j ==> ret[k] == three[k - |ret0|]
    {
      ret := ret + [three[j]];
    }
  }

  /** The characters of a group, looked up in place. */
  method Lookup(four: array<bv8>)
    requires four.Length == 4
    modifies four
    ensures forall k :: 0 <= k < 4 ==> four[k] == Find(old(four[k]))
  {
    hide Find;
    for i := 0 to 4
      invariant forall k :: 0 <= k < 4 ==> four[k] == if k < i then Find(old(four[k])) else old(four[k])
    {
      four[i] := Find(four[i]);
    }
  }

  /** base64::Decode. */
  method Decode(s: seq<bv8>) returns (ret: seq<bv8>)
    ensures ret == Decoded64(s)
  {
    hide Values64, Decoded64, Behind, Find, IsBase64, Three0, Three1, Three2;
    ghost var v, g := Values64(s), 0;
    ValuesFit(s);
    ret := [];
    NoneBehind(v);
    var four, three := new bv8[4], new bv8[3];
    var i, at := 0, 0;
    ValidAt64(s, 0);
    while at < |s| && s[at] != PAD && IsBase64(s[at])
      invariant 0 <= i < 4 && 0 <= g && at == 4 * g + i <= |v|
      invariant at < |s| && s[at] != PAD && IsBase64(s[at]) <==> at < |v|
      invariant forall k :: 0 <= k < i ==> Find(four[k]) == v[4 * g + k]
      invariant Behind(ret, v, 3 * g)
      decreases |s| - at
    {
      ValidAt64(s, at);
      four[i] := s[at];
      i, at := i + 1, at + 1;
      ValidAt64(s, at);
      if i == 4 {
        Lookup(four);
        ToThree(four, three);
        var next := AppendOctets(ret, three, 3);
        BehindGrows(ret, next, v, g, 3, four[0], four[1], four[2], four[3]);
        ret := next;
        i, g := 0, g + 1;
      }
    }
    if i != 0 {
      for j := i to 4
        invariant forall k :: 0 <= k < i ==> Find(four[k]) == v[4 * g + k]
      {
        four[j] := 0;
      }
      Lookup(four);
      ToThree(four, three);
      var next := AppendOctets(ret, three, i - 1);
      BehindGrows(ret, next, v, g, i - 1, four[0], four[1], four[2], four[3]);
      ret := next;
    }
    BehindWhole(ret, s, g, i);
  }
}
