/** Octets read as bits, most significant bit first: what the two encodings of RFC 4648 share. */
module OctetBits {

  /** The padding character. */
  const PAD: bv8 := 61

  /** Bit j of a string of octets; false past the end. */
  predicate OctetBit(p: seq<bv8>, j: nat) {
    j / 8 < |p| && p[j / 8] & (0x80 >> (j % 8)) != 0
  }

  function Octet(b0: bool, b1: bool, b2: bool, b3: bool, b4: bool, b5: bool, b6: bool, b7: bool): bv8 {
    (if b0 then 0x80 else 0) | (if b1 then 0x40 else 0) | (if b2 then 0x20 else 0) | (if b3 then 0x10 else 0) |
    (if b4 then 0x08 else 0) | (if b5 then 0x04 else 0) | (if b6 then 0x02 else 0) | (if b7 then 0x01 else 0)
  }

  lemma OctetMasks()
    ensures 0x80 as bv8 >> 0 == 0x80 && 0x80 as bv8 >> 1 == 0x40 && 0x80 as bv8 >> 2 == 0x20 && 0x80 as bv8 >> 3 == 0x10
    ensures 0x80 as bv8 >> 4 == 0x08 && 0x80 as bv8 >> 5 == 0x04 && 0x80 as bv8 >> 6 == 0x02 && 0x80 as bv8 >> 7 == 0x01
  {
  }

  lemma OctetParts(x: bv8)
    ensures x == Octet(x & 0x80 != 0, x & 0x40 != 0, x & 0x20 != 0, x & 0x10 != 0,
                       x & 0x08 != 0, x & 0x04 != 0, x & 0x02 != 0, x & 0x01 != 0)
  {
  }

  /** Octet t, or 0 past the end. */
  function OctetOrZero(p: seq<bv8>, t: nat): bv8 {
    if t < |p| then p[t] else 0
  }

  lemma BitsOf(p: seq<bv8>, t: nat)
    ensures var x := OctetOrZero(p, t);
            && OctetBit(p, 8 * t) == (x & 0x80 != 0) && OctetBit(p, 8 * t + 1) == (x & 0x40 != 0)
            && OctetBit(p, 8 * t + 2) == (x & 0x20 != 0) && OctetBit(p, 8 * t + 3) == (x & 0x10 != 0)
            && OctetBit(p, 8 * t + 4) == (x & 0x08 != 0) && OctetBit(p, 8 * t + 5) == (x & 0x04 != 0)
            && OctetBit(p, 8 * t + 6) == (x & 0x02 != 0) && OctetBit(p, 8 * t + 7) == (x & 0x01 != 0)
  {
    OctetMasks();
    ZeroBits();
  }

  lemma ZeroBits()
    ensures 0 as bv8 & 0x80 == 0 && 0 as bv8 & 0x40 == 0 && 0 as bv8 & 0x20 == 0 && 0 as bv8 & 0x10 == 0
    ensures 0 as bv8 & 0x08 == 0 && 0 as bv8 & 0x04 == 0 && 0 as bv8 & 0x02 == 0 && 0 as bv8 & 0x01 == 0
  {
  }

  lemma BitsOfOctet(p: seq<bv8>, t: nat)
    ensures Octet(OctetBit(p, 8 * t), OctetBit(p, 8 * t + 1), OctetBit(p, 8 * t + 2), OctetBit(p, 8 * t + 3),
                  OctetBit(p, 8 * t + 4), OctetBit(p, 8 * t + 5), OctetBit(p, 8 * t + 6), OctetBit(p, 8 * t + 7)) ==
            OctetOrZero(p, t)
  {
    hide Octet, OctetBit, OctetOrZero;
    BitsOf(p, t);
    OctetParts(OctetOrZero(p, t));
  }
}
