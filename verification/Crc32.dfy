/** CRC-32 of dev/algorithmic/src/crypt-crc32.cpp (table driven) against the bit-at-a-time division by
    0xEDB88320 that dev/algorithmic/src/crc32dynamic.cpp builds its table from.

    Facts about single bits are proved once, in small lemmas over bit-vectors; everything else treats
    Xor, Low, Half and Double as opaque operations with those laws. */
module Crc32 {

  const POLY: bv32 := 0xEDB88320

  // ---------- the register, one bit at a time ----------

  function Xor(a: bv32, b: bv32): bv32 {
    a ^ b
  }

  function Low(c: bv32): bool {
    c & 1 == 1
  }

  function Half(c: bv32): bv32 {
    c >> 1
  }

  /** One division step: the lowest bit leaves, and the polynomial is subtracted when it was set. */
  function Shift(c: bv32): bv32 {
    if Low(c) then Xor(Half(c), POLY) else Half(c)
  }

  /** n division steps. */
  function ShiftN(c: bv32, n: nat): bv32
    decreases n
  {
    if n == 0 then c else ShiftN(Shift(c), n - 1)
  }

  function Bit(b: bool): bv32 {
    if b then 1 else 0
  }

  /** Divides a bit string, first bit first, starting from register c. */
  function Divide(c: bv32, bits: seq<bool>): bv32
    decreases |bits|
  {
    if bits == [] then c else Divide(Shift(Xor(c, Bit(bits[0]))), bits[1..])
  }

  /** The bits of a byte in the order the reflected algorithm consumes them. */
  function ByteBits(b: bv8): seq<bool> {
    [b & 0x01 != 0, b & 0x02 != 0, b & 0x04 != 0, b & 0x08 != 0,
     b & 0x10 != 0, b & 0x20 != 0, b & 0x40 != 0, b & 0x80 != 0]
  }

  function Bits(msg: seq<bv8>): seq<bool>
    decreases |msg|
  {
    if msg == [] then [] else ByteBits(msg[0]) + Bits(msg[1..])
  }

  // ---------- the table ----------

  /** crc_table, entries 0x00 to 0xFF in order, four to a line; the comparisons only halve the index. */
  function Table(x: bv8): bv32 {
    if x < 0x80 then
      if x < 0x40 then
        if x < 0x20 then
          if x < 0x10 then
            if x < 0x08 then
              if x < 0x04 then
                if x < 0x02 then (if x < 0x01 then 0x00000000 else 0x77073096) else if x < 0x03 then 0xEE0E612C else 0x990951BA
              else
                if x < 0x06 then (if x < 0x05 then 0x076DC419 else 0x706AF48F) else if x < 0x07 then 0xE963A535 else 0x9E6495A3
            else
              if x < 0x0C then
                if x < 0x0A then (if x < 0x09 then 0x0EDB8832 else 0x79DCB8A4) else if x < 0x0B then 0xE0D5E91E else 0x97D2D988
              else
                if x < 0x0E then (if x < 0x0D then 0x09B64C2B else 0x7EB17CBD) else if x < 0x0F then 0xE7B82D07 else 0x90BF1D91
          else
            if x < 0x18 then
              if x < 0x14 then
                if x < 0x12 then (if x < 0x11 then 0x1DB71064 else 0x6AB020F2) else if x < 0x13 then 0xF3B97148 else 0x84BE41DE
              else
                if x < 0x16 then (if x < 0x15 then 0x1ADAD47D else 0x6DDDE4EB) else if x < 0x17 then 0xF4D4B551 else 0x83D385C7
            else
              if x < 0x1C then
                if x < 0x1A then (if x < 0x19 then 0x136C9856 else 0x646BA8C0) else if x < 0x1B then 0xFD62F97A else 0x8A65C9EC
              else
                if x < 0x1E then (if x < 0x1D then 0x14015C4F else 0x63066CD9) else if x < 0x1F then 0xFA0F3D63 else 0x8D080DF5
        else
          if x < 0x30 then
            if x < 0x28 then
              if x < 0x24 then
                if x < 0x22 then (if x < 0x21 then 0x3B6E20C8 else 0x4C69105E) else if x < 0x23 then 0xD56041E4 else 0xA2677172
              else
                if x < 0x26 then (if x < 0x25 then 0x3C03E4D1 else 0x4B04D447) else if x < 0x27 then 0xD20D85FD else 0xA50AB56B
            else
              if x < 0x2C then
                if x < 0x2A then (if x < 0x29 then 0x35B5A8FA else 0x42B2986C) else if x < 0x2B then 0xDBBBC9D6 else 0xACBCF940
              else
                if x < 0x2E then (if x < 0x2D then 0x32D86CE3 else 0x45DF5C75) else if x < 0x2F then 0xDCD60DCF else 0xABD13D59
          else
            if x < 0x38 then
              if x < 0x34 then
                if x < 0x32 then (if x < 0x31 then 0x26D930AC else 0x51DE003A) else if x < 0x33 then 0xC8D75180 else 0xBFD06116
              else
                if x < 0x36 then (if x < 0x35 then 0x21B4F4B5 else 0x56B3C423) else if x < 0x37 then 0xCFBA9599 else 0xB8BDA50F
            else
              if x < 0x3C then
                if x < 0x3A then (if x < 0x39 then 0x2802B89E else 0x5F058808) else if x < 0x3B then 0xC60CD9B2 else 0xB10BE924
              else
                if x < 0x3E then (if x < 0x3D then 0x2F6F7C87 else 0x58684C11) else if x < 0x3F then 0xC1611DAB else 0xB6662D3D
      else
        if x < 0x60 then
          if x < 0x50 then
            if x < 0x48 then
              if x < 0x44 then
                if x < 0x42 then (if x < 0x41 then 0x76DC4190 else 0x01DB7106) else if x < 0x43 then 0x98D220BC else 0xEFD5102A
              else
                if x < 0x46 then (if x < 0x45 then 0x71B18589 else 0x06B6B51F) else if x < 0x47 then 0x9FBFE4A5 else 0xE8B8D433
            else
              if x < 0x4C then
                if x < 0x4A then (if x < 0x49 then 0x7807C9A2 else 0x0F00F934) else if x < 0x4B then 0x9609A88E else 0xE10E9818
              else
                if x < 0x4E then (if x < 0x4D then 0x7F6A0DBB else 0x086D3D2D) else if x < 0x4F then 0x91646C97 else 0xE6635C01
          else
            if x < 0x58 then
              if x < 0x54 then
                if x < 0x52 then (if x < 0x51 then 0x6B6B51F4 else 0x1C6C6162) else if x < 0x53 then 0x856530D8 else 0xF262004E
              else
                if x < 0x56 then (if x < 0x55 then 0x6C0695ED else 0x1B01A57B) else if x < 0x57 then 0x8208F4C1 else 0xF50FC457
            else
              if x < 0x5C then
                if x < 0x5A then (if x < 0x59 then 0x65B0D9C6 else 0x12B7E950) else if x < 0x5B then 0x8BBEB8EA else 0xFCB9887C
              else
                if x < 0x5E then (if x < 0x5D then 0x62DD1DDF else 0x15DA2D49) else if x < 0x5F then 0x8CD37CF3 else 0xFBD44C65
        else
          if x < 0x70 then
            if x < 0x68 then
              if x < 0x64 then
                if x < 0x62 then (if x < 0x61 then 0x4DB26158 else 0x3AB551CE) else if x < 0x63 then 0xA3BC0074 else 0xD4BB30E2
              else
                if x < 0x66 then (if x < 0x65 then 0x4ADFA541 else 0x3DD895D7) else if x < 0x67 then 0xA4D1C46D else 0xD3D6F4FB
            else
              if x < 0x6C then
                if x < 0x6A then (if x < 0x69 then 0x4369E96A else 0x346ED9FC) else if x < 0x6B then 0xAD678846 else 0xDA60B8D0
              else
                if x < 0x6E then (if x < 0x6D then 0x44042D73 else 0x33031DE5) else if x < 0x6F then 0xAA0A4C5F else 0xDD0D7CC9
          else
            if x < 0x78 then
              if x < 0x74 then
                if x < 0x72 then (if x < 0x71 then 0x5005713C else 0x270241AA) else if x < 0x73 then 0xBE0B1010 else 0xC90C2086
              else
                if x < 0x76 then (if x < 0x75 then 0x5768B525 else 0x206F85B3) else if x < 0x77 then 0xB966D409 else 0xCE61E49F
            else
              if x < 0x7C then
                if x < 0x7A then (if x < 0x79 then 0x5EDEF90E else 0x29D9C998) else if x < 0x7B then 0xB0D09822 else 0xC7D7A8B4
              else
                if x < 0x7E then (if x < 0x7D then 0x59B33D17 else 0x2EB40D81) else if x < 0x7F then 0xB7BD5C3B else 0xC0BA6CAD
    else
      if x < 0xC0 then
        if x < 0xA0 then
          if x < 0x90 then
            if x < 0x88 then
              if x < 0x84 then
                if x < 0x82 then (if x < 0x81 then 0xEDB88320 else 0x9ABFB3B6) else if x < 0x83 then 0x03B6E20C else 0x74B1D29A
              else
                if x < 0x86 then (if x < 0x85 then 0xEAD54739 else 0x9DD277AF) else if x < 0x87 then 0x04DB2615 else 0x73DC1683
            else
              if x < 0x8C then
                if x < 0x8A then (if x < 0x89 then 0xE3630B12 else 0x94643B84) else if x < 0x8B then 0x0D6D6A3E else 0x7A6A5AA8
              else
                if x < 0x8E then (if x < 0x8D then 0xE40ECF0B else 0x9309FF9D) else if x < 0x8F then 0x0A00AE27 else 0x7D079EB1
          else
            if x < 0x98 then
              if x < 0x94 then
                if x < 0x92 then (if x < 0x91 then 0xF00F9344 else 0x8708A3D2) else if x < 0x93 then 0x1E01F268 else 0x6906C2FE
              else
                if x < 0x96 then (if x < 0x95 then 0xF762575D else 0x806567CB) else if x < 0x97 then 0x196C3671 else 0x6E6B06E7
            else
              if x < 0x9C then
                if x < 0x9A then (if x < 0x99 then 0xFED41B76 else 0x89D32BE0) else if x < 0x9B then 0x10DA7A5A else 0x67DD4ACC
              else
                if x < 0x9E then (if x < 0x9D then 0xF9B9DF6F else 0x8EBEEFF9) else if x < 0x9F then 0x17B7BE43 else 0x60B08ED5
        else
          if x < 0xB0 then
            if x < 0xA8 then
              if x < 0xA4 then
                if x < 0xA2 then (if x < 0xA1 then 0xD6D6A3E8 else 0xA1D1937E) else if x < 0xA3 then 0x38D8C2C4 else 0x4FDFF252
              else
                if x < 0xA6 then (if x < 0xA5 then 0xD1BB67F1 else 0xA6BC5767) else if x < 0xA7 then 0x3FB506DD else 0x48B2364B
            else
              if x < 0xAC then
                if x < 0xAA then (if x < 0xA9 then 0xD80D2BDA else 0xAF0A1B4C) else if x < 0xAB then 0x36034AF6 else 0x41047A60
              else
                if x < 0xAE then (if x < 0xAD then 0xDF60EFC3 else 0xA867DF55) else if x < 0xAF then 0x316E8EEF else 0x4669BE79
          else
            if x < 0xB8 then
              if x < 0xB4 then
                if x < 0xB2 then (if x < 0xB1 then 0xCB61B38C else 0xBC66831A) else if x < 0xB3 then 0x256FD2A0 else 0x5268E236
              else
                if x < 0xB6 then (if x < 0xB5 then 0xCC0C7795 else 0xBB0B4703) else if x < 0xB7 then 0x220216B9 else 0x5505262F
            else
              if x < 0xBC then
                if x < 0xBA then (if x < 0xB9 then 0xC5BA3BBE else 0xB2BD0B28) else if x < 0xBB then 0x2BB45A92 else 0x5CB36A04
              else
                if x < 0xBE then (if x < 0xBD then 0xC2D7FFA7 else 0xB5D0CF31) else if x < 0xBF then 0x2CD99E8B else 0x5BDEAE1D
      else
        if x < 0xE0 then
          if x < 0xD0 then
            if x < 0xC8 then
              if x < 0xC4 then
                if x < 0xC2 then (if x < 0xC1 then 0x9B64C2B0 else 0xEC63F226) else if x < 0xC3 then 0x756AA39C else 0x026D930A
              else
                if x < 0xC6 then (if x < 0xC5 then 0x9C0906A9 else 0xEB0E363F) else if x < 0xC7 then 0x72076785 else 0x05005713
            else
              if x < 0xCC then
                if x < 0xCA then (if x < 0xC9 then 0x95BF4A82 else 0xE2B87A14) else if x < 0xCB then 0x7BB12BAE else 0x0CB61B38
              else
                if x < 0xCE then (if x < 0xCD then 0x92D28E9B else 0xE5D5BE0D) else if x < 0xCF then 0x7CDCEFB7 else 0x0BDBDF21
          else
            if x < 0xD8 then
              if x < 0xD4 then
                if x < 0xD2 then (if x < 0xD1 then 0x86D3D2D4 else 0xF1D4E242) else if x < 0xD3 then 0x68DDB3F8 else 0x1FDA836E
              else
                if x < 0xD6 then (if x < 0xD5 then 0x81BE16CD else 0xF6B9265B) else if x < 0xD7 then 0x6FB077E1 else 0x18B74777
            else
              if x < 0xDC then
                if x < 0xDA then (if x < 0xD9 then 0x88085AE6 else 0xFF0F6A70) else if x < 0xDB then 0x66063BCA else 0x11010B5C
              else
                if x < 0xDE then (if x < 0xDD then 0x8F659EFF else 0xF862AE69) else if x < 0xDF then 0x616BFFD3 else 0x166CCF45
        else
          if x < 0xF0 then
            if x < 0xE8 then
              if x < 0xE4 then
                if x < 0xE2 then (if x < 0xE1 then 0xA00AE278 else 0xD70DD2EE) else if x < 0xE3 then 0x4E048354 else 0x3903B3C2
              else
                if x < 0xE6 then (if x < 0xE5 then 0xA7672661 else 0xD06016F7) else if x < 0xE7 then 0x4969474D else 0x3E6E77DB
            else
              if x < 0xEC then
                if x < 0xEA then (if x < 0xE9 then 0xAED16A4A else 0xD9D65ADC) else if x < 0xEB then 0x40DF0B66 else 0x37D83BF0
              else
                if x < 0xEE then (if x < 0xED then 0xA9BCAE53 else 0xDEBB9EC5) else if x < 0xEF then 0x47B2CF7F else 0x30B5FFE9
          else
            if x < 0xF8 then
              if x < 0xF4 then
                if x < 0xF2 then (if x < 0xF1 then 0xBDBDF21C else 0xCABAC28A) else if x < 0xF3 then 0x53B39330 else 0x24B4A3A6
              else
                if x < 0xF6 then (if x < 0xF5 then 0xBAD03605 else 0xCDD70693) else if x < 0xF7 then 0x54DE5729 else 0x23D967BF
            else
              if x < 0xFC then
                if x < 0xFA then (if x < 0xF9 then 0xB3667A2E else 0xC4614AB8) else if x < 0xFB then 0x5D681B02 else 0x2A6F2B94
              else
                if x < 0xFE then (if x < 0xFD then 0xB40BBE37 else 0xC30C8EA1) else if x < 0xFF then 0x5A05DF1B else 0x2D02EF8D
  }

  function Shift8(c: bv32): bv32 {
    Shift(Shift(Shift(Shift(Shift(Shift(Shift(Shift(c))))))))
  }

  /** Every table entry is its index divided bit by bit, eight steps. */
  lemma TableIsDivision(x: bv8)
    ensures Table(x) == Shift8(x as bv32)
  {
    if x & 1 == 0 {
      if x & 2 == 0 {} else {}
    } else {
      if x & 2 == 0 {} else {}
    }
  }

  /** One byte of the table-driven algorithm. */
  function Step(c: bv32, b: bv8): bv32 {
    Xor(c >> 8, Table(b ^ ((c & 0xFF) as bv8)))
  }

  function Fold(c: bv32, msg: seq<bv8>): bv32
    decreases |msg|
  {
    if msg == [] then c else Fold(Step(c, msg[0]), msg[1..])
  }

  // ---------- single-bit facts ----------

  function Double(c: bv32): bv32 {
    c << 1
  }

  predicate TopClear(c: bv32) {
    c & 0x80000000 == 0
  }

  lemma XorCommutes(a: bv32, b: bv32)
    ensures Xor(a, b) == Xor(b, a)
  {
  }

  lemma XorAssociates(a: bv32, b: bv32, c: bv32)
    ensures Xor(Xor(a, b), c) == Xor(a, Xor(b, c))
  {
    assert (a ^ b) ^ c == a ^ (b ^ c);
  }

  lemma XorUndoes(a: bv32, b: bv32)
    ensures Xor(Xor(a, b), b) == a
  {
    assert (a ^ b) ^ b == a;
  }

  lemma XorZero(a: bv32)
    ensures Xor(a, 0) == a
  {
  }

  lemma XorLaws(a: bv32, b: bv32, c: bv32)
    ensures Xor(a, b) == Xor(b, a)
    ensures Xor(Xor(a, b), c) == Xor(a, Xor(b, c))
    ensures Xor(Xor(a, b), b) == a && Xor(a, 0) == a
  {
    hide Xor;
    XorCommutes(a, b);
    XorAssociates(a, b, c);
    XorUndoes(a, b);
    XorZero(a);
  }

  lemma XorCancel(a: bv32, b: bv32, t: bv32)
    requires Xor(a, t) == Xor(b, t)
    ensures a == b
  {
    hide Xor;
    XorLaws(a, t, t);
    XorLaws(b, t, t);
  }

  lemma LowXor(a: bv32, b: bv32)
    ensures Low(Xor(a, b)) <==> Low(a) != Low(b)
  {
  }

  lemma HalfXor(a: bv32, b: bv32)
    ensures Half(Xor(a, b)) == Xor(Half(a), Half(b))
  {
  }

  lemma HalfTop(c: bv32)
    ensures TopClear(Half(c)) && !TopClear(Xor(Half(c), POLY))
  {
  }

  lemma LowAndHalf(a: bv32, b: bv32)
    requires Low(a) == Low(b) && Half(a) == Half(b)
    ensures a == b
  {
  }

  lemma HalfDouble(p: bv32)
    requires TopClear(p)
    ensures Half(Double(p)) == p && !Low(Double(p))
  {
  }

  lemma BitFacts(b: bool)
    ensures (Low(Bit(b)) <==> b) && Half(Bit(b)) == 0
  {
  }

  // ---------- algebra of the register ----------

  lemma ShiftLinear(a: bv32, b: bv32)
    ensures Shift(Xor(a, b)) == Xor(Shift(a), Shift(b))
  {
    hide Xor, Low, Half;
    LowXor(a, b);
    HalfXor(a, b);
    var x, y := Half(a), Half(b);
    XorPairs(x, y);
  }

  lemma XorPairs(x: bv32, y: bv32)
    ensures Xor(Xor(x, POLY), Xor(y, POLY)) == Xor(x, y)
    ensures Xor(Xor(x, POLY), y) == Xor(Xor(x, y), POLY) == Xor(x, Xor(y, POLY))
  {
    hide Xor;
    XorAssociates(x, y, POLY);
    XorAssociates(x, POLY, y);
    XorCommutes(POLY, y);
    XorAssociates(Xor(x, POLY), y, POLY);
    XorUndoes(Xor(x, y), POLY);
  }

  /** The polynomial's top bit is set, so a division step can be undone. */
  lemma ShiftInjective(a: bv32, b: bv32)
    requires Shift(a) == Shift(b)
    ensures a == b
  {
    hide Xor, Low, Half, TopClear;
    HalfTop(a);
    HalfTop(b);
    assert Low(a) == Low(b);
    if Low(a) {
      XorCancel(Half(a), Half(b), POLY);
    }
    LowAndHalf(a, b);
  }

  lemma {:induction false} ShiftNInjective(a: bv32, b: bv32, n: nat)
    requires ShiftN(a, n) == ShiftN(b, n)
    ensures a == b
    decreases n
  {
    hide Shift;
    if n > 0 {
      ShiftNInjective(Shift(a), Shift(b), n - 1);
      ShiftInjective(a, b);
    }
  }

  lemma {:induction false} ShiftNLinear(a: bv32, b: bv32, n: nat)
    ensures ShiftN(Xor(a, b), n) == Xor(ShiftN(a, n), ShiftN(b, n))
    decreases n
  {
    hide Shift, Xor;
    if n > 0 {
      ShiftLinear(a, b);
      ShiftNLinear(Shift(a), Shift(b), n - 1);
    }
  }

  // ---------- bit strings as register contents ----------

  /** Up to 32 bits, first bit lowest. */
  function Pack(w: seq<bool>): bv32
    decreases |w|
  {
    if w == [] then 0 else Xor(Bit(w[0]), Double(Pack(w[1..])))
  }

  /** p can be doubled k times without losing a bit. */
  predicate Room(p: bv32, k: nat)
    decreases k
  {
    k == 0 || (TopClear(p) && Room(Double(p), k - 1))
  }

  lemma DoubleXor(a: bv32, b: bv32)
    ensures Double(Xor(a, b)) == Xor(Double(a), Double(b))
  {
  }

  lemma TopClearXor(a: bv32, b: bv32)
    requires TopClear(a) && TopClear(b)
    ensures TopClear(Xor(a, b))
  {
  }

  lemma {:induction false} RoomXor(a: bv32, b: bv32, k: nat)
    requires Room(a, k) && Room(b, k)
    ensures Room(Xor(a, b), k)
    decreases k
  {
    hide TopClear, Double, Xor;
    if k > 0 {
      TopClearXor(a, b);
      DoubleXor(a, b);
      RoomXor(Double(a), Double(b), k - 1);
    }
  }

  lemma {:induction false} RoomFewer(p: bv32, j: nat, k: nat)
    requires j <= k && Room(p, k)
    ensures Room(p, j)
    decreases j
  {
    hide TopClear, Double;
    if j > 0 {
      RoomFewer(Double(p), j - 1, k - 1);
    }
  }

  lemma ZeroStays()
    ensures TopClear(0) && Double(0) == 0
  {
  }

  lemma {:induction false} RoomZero(k: nat)
    ensures Room(0, k)
    decreases k
  {
    hide TopClear, Double;
    ZeroStays();
    if k > 0 {
      RoomZero(k - 1);
    }
  }

  lemma Room4(p: bv32, k: nat)
    requires TopClear(p) && TopClear(Double(p)) && TopClear(Double(Double(p))) && TopClear(Double(Double(Double(p))))
    requires Room(Double(Double(Double(Double(p)))), k)
    ensures Room(p, k + 4)
  {
    hide TopClear, Double;
    assert Room(Double(Double(Double(p))), k + 1);
    assert Room(Double(Double(p)), k + 2);
    assert Room(Double(p), k + 3);
  }

  lemma Room4Of(p: bv32, q: bv32, k: nat)
    requires p & 0xF0000000 == 0 && q == p << 4
    requires Room(q, k)
    ensures Room(p, k + 4)
  {
    hide Room;
    Nibble(p);
    Room4(p, k);
  }

  lemma Nibble(p: bv32)
    requires p & 0xF0000000 == 0
    ensures TopClear(p) && TopClear(Double(p)) && TopClear(Double(Double(p))) && TopClear(Double(Double(Double(p))))
    ensures Double(Double(Double(Double(p)))) == p << 4
  {
  }

  lemma RoomLast()
    ensures Room(0x10000000, 3)
  {
    assert Room(Double(Double(Double(0x10000000))), 0);
    assert Room(Double(Double(0x10000000)), 1);
    assert Room(Double(0x10000000), 2);
  }

  /** A single bit can be doubled 31 times. */
  lemma RoomBit(b: bool, k: nat)
    requires k <= 31
    ensures Room(Bit(b), k)
  {
    hide Room;
    if b {
      RoomLast();
      Room4Of(0x01000000, 0x10000000, 3);
      Room4Of(0x00100000, 0x01000000, 7);
      Room4Of(0x00010000, 0x00100000, 11);
      Room4Of(0x00001000, 0x00010000, 15);
      Room4Of(0x00000100, 0x00001000, 19);
      Room4Of(0x00000010, 0x00000100, 23);
      Room4Of(0x00000001, 0x00000010, 27);
      RoomFewer(1, k, 31);
    } else {
      RoomZero(k);
    }
  }

  lemma {:induction false} PackRoom(w: seq<bool>, k: nat)
    requires |w| + k <= 32
    ensures Room(Pack(w), k)
    decreases |w|
  {
    hide Xor, Double, Bit, TopClear;
    if w == [] {
      RoomZero(k);
    } else {
      PackRoom(w[1..], k + 1);
      RoomBit(w[0], k);
      RoomXor(Bit(w[0]), Double(Pack(w[1..])), k);
    }
  }

  /** Fewer than 32 bits leave the top bit clear. */
  lemma PackTopClear(w: seq<bool>)
    requires |w| < 32
    ensures TopClear(Pack(w))
  {
    hide TopClear, Pack;
    PackRoom(w, 1);
  }

  lemma {:induction false} PackInjective(u: seq<bool>, w: seq<bool>)
    requires |u| == |w| <= 32 && Pack(u) == Pack(w)
    ensures u == w
    decreases |u|
  {
    hide TopClear, Xor, Double, Bit;
    if u != [] {
      PackTopClear(u[1..]);
      PackTopClear(w[1..]);
      PackParts(u[0], Pack(u[1..]));
      PackParts(w[0], Pack(w[1..]));
      PackInjective(u[1..], w[1..]);
      assert u == [u[0]] + u[1..] && w == [w[0]] + w[1..];
    }
  }

  lemma PackParts(b: bool, p: bv32)
    requires TopClear(p)
    ensures Low(Xor(Bit(b), Double(p))) == b && Half(Xor(Bit(b), Double(p))) == p
  {
    hide TopClear, Xor, Double, Bit, Low, Half;
    BitFacts(b);
    HalfDouble(p);
    LowXor(Bit(b), Double(p));
    HalfXor(Bit(b), Double(p));
    XorLaws(p, 0, 0);
    XorLaws(0, p, 0);
  }

  lemma ShiftPeelsBit(c: bv32, b: bool, p: bv32)
    requires TopClear(p)
    ensures Shift(Xor(c, Xor(Bit(b), Double(p)))) == Xor(Shift(Xor(c, Bit(b))), p)
  {
    hide TopClear, Xor, Double, Bit, Shift;
    XorLaws(c, Bit(b), Double(p));
    ShiftLinear(Xor(c, Bit(b)), Double(p));
    ShiftDouble(p);
  }

  /** Dividing up to 32 bits is adding them to the register all at once and then shifting. */
  lemma {:induction false} DivideIsShiftN(c: bv32, w: seq<bool>)
    requires |w| <= 32
    ensures Divide(c, w) == ShiftN(Xor(c, Pack(w)), |w|)
    decreases |w|
  {
    hide Xor, Shift, Double, Bit, TopClear;
    if w == [] {
      XorLaws(c, 0, 0);
    } else {
      PackTopClear(w[1..]);
      DivideIsShiftN(Shift(Xor(c, Bit(w[0]))), w[1..]);
      ShiftPeelsBit(c, w[0], Pack(w[1..]));
    }
  }

  // ---------- table steps are division ----------

  lemma ShiftNEight(c: bv32)
    ensures ShiftN(c, 8) == Shift8(c)
  {
    hide Shift;
    var c1 := Shift(c);
    var c2 := Shift(c1);
    var c3 := Shift(c2);
    var c4 := Shift(c3);
    assert ShiftN(c, 8) == ShiftN(c1, 7) == ShiftN(c2, 6) == ShiftN(c3, 5) == ShiftN(c4, 4);
  }

  function High(c: bv32): bv32 {
    c & 0xFFFFFF00
  }

  lemma ShiftDouble(p: bv32)
    requires TopClear(p)
    ensures Shift(Double(p)) == p
  {
    hide TopClear, Double, Low, Half, Xor;
    HalfDouble(p);
  }

  /** Eight steps take eight doublings back. */
  lemma Shift8Doubles(p: bv32)
    requires TopClear(p) && TopClear(Double(p)) && TopClear(Double(Double(p))) && TopClear(Double(Double(Double(p))))
    requires var q := Double(Double(Double(Double(p))));
             TopClear(q) && TopClear(Double(q)) && TopClear(Double(Double(q))) && TopClear(Double(Double(Double(q))))
    ensures var q := Double(Double(Double(Double(p))));
            Shift8(Double(Double(Double(Double(q))))) == p
  {
    hide Shift, Double, TopClear;
    var q := Double(Double(Double(Double(p))));
    ShiftDouble(p);
    ShiftDouble(Double(p));
    ShiftDouble(Double(Double(p)));
    ShiftDouble(Double(Double(Double(p))));
    ShiftDouble(q);
    ShiftDouble(Double(q));
    ShiftDouble(Double(Double(q)));
    ShiftDouble(Double(Double(Double(q))));
  }

  lemma HighDoubles(c: bv32)
    ensures var p := c >> 8;
            var q := Double(Double(Double(Double(p))));
            && TopClear(p) && TopClear(Double(p)) && TopClear(Double(Double(p))) && TopClear(Double(Double(Double(p))))
            && TopClear(q) && TopClear(Double(q)) && TopClear(Double(Double(q))) && TopClear(Double(Double(Double(q))))
            && High(c) == Double(Double(Double(Double(q))))
  {
  }

  /** The upper 24 bits just move down while the low byte is empty. */
  lemma HighPart(c: bv32)
    ensures Shift8(High(c)) == c >> 8
  {
    hide Shift8, High, Double, TopClear;
    HighDoubles(c);
    Shift8Doubles(c >> 8);
  }

  lemma SplitRegister(c: bv32, b: bv8)
    ensures Xor(High(c), (b ^ ((c & 0xFF) as bv8)) as bv32) == Xor(c, b as bv32)
  {
  }

  /** A table step is eight division steps on the register with the byte added in. */
  lemma StepIsShift8(c: bv32, b: bv8)
    ensures Step(c, b) == ShiftN(Xor(c, b as bv32), 8)
  {
    hide Shift8, Table, Xor, High;
    var low := b ^ ((c & 0xFF) as bv8);
    TableIsDivision(low);
    HighPart(c);
    ShiftNEight(High(c));
    ShiftNEight(low as bv32);
    ShiftNLinear(High(c), low as bv32, 8);
    SplitRegister(c, b);
  }

  lemma {:induction false} PackByte(b: bv8)
    ensures |ByteBits(b)| == 8 && Pack(ByteBits(b)) == b as bv32
  {
    hide Xor, Bit, Double;
    var s := ByteBits(b);
    PackEight(s);
    ByteFromBits(b);
  }

  lemma PackSuffix(s: seq<bool>, k: nat)
    requires k < |s|
    ensures Pack(s[k..]) == Xor(Bit(s[k]), Double(Pack(s[k + 1..])))
  {
    hide Xor, Bit, Double;
    assert s[k..][1..] == s[k + 1..];
  }

  lemma PackNothing(s: seq<bool>)
    ensures Pack(s[|s|..]) == 0
  {
  }

  lemma PackFour(s: seq<bool>, k: nat)
    requires k + 4 <= |s|
    ensures Pack(s[k..]) == Xor(Bit(s[k]), Double(Xor(Bit(s[k + 1]), Double(Xor(Bit(s[k + 2]), Double(
                            Xor(Bit(s[k + 3]), Double(Pack(s[k + 4..])))))))))
  {
    hide Xor, Bit, Double, Pack;
    PackSuffix(s, k);
    PackSuffix(s, k + 1);
    PackSuffix(s, k + 2);
    PackSuffix(s, k + 3);
  }

  lemma PackEight(s: seq<bool>)
    requires |s| == 8
    ensures Pack(s) == Xor(Bit(s[0]), Double(Xor(Bit(s[1]), Double(Xor(Bit(s[2]), Double(Xor(Bit(s[3]), Double(
                       Xor(Bit(s[4]), Double(Xor(Bit(s[5]), Double(Xor(Bit(s[6]), Double(Xor(Bit(s[7]), Double(0))))))))))))))))
  {
    hide Xor, Bit, Double, Pack;
    assert s[0..] == s;
    PackFour(s, 0);
    PackFour(s, 4);
    PackNothing(s);
  }

  function Word(b: bv8): bv32 {
    b as bv32
  }

  lemma HighNibble(b: bv8)
    ensures Xor(Bit(b & 0x10 != 0), Double(Xor(Bit(b & 0x20 != 0), Double(Xor(Bit(b & 0x40 != 0), Double(
            Xor(Bit(b & 0x80 != 0), Double(0)))))))) == Word(b >> 4)
  {
  }

  lemma LowNibble(b: bv8)
    ensures Xor(Bit(b & 0x01 != 0), Double(Xor(Bit(b & 0x02 != 0), Double(Xor(Bit(b & 0x04 != 0), Double(
            Xor(Bit(b & 0x08 != 0), Double(Word(b >> 4))))))))) == Word(b)
  {
  }

  lemma ByteFromBits(b: bv8)
    ensures var s := ByteBits(b);
            Word(b) == Xor(Bit(s[0]), Double(Xor(Bit(s[1]), Double(Xor(Bit(s[2]), Double(Xor(Bit(s[3]), Double(
                         Xor(Bit(s[4]), Double(Xor(Bit(s[5]), Double(Xor(Bit(s[6]), Double(Xor(Bit(s[7]), Double(0))))))))))))))))
  {
    hide Xor, Bit, Double, Word;
    LowNibble(b);
    HighNibble(b);
  }

  lemma DivideByte(c: bv32, b: bv8)
    ensures Divide(c, ByteBits(b)) == Step(c, b)
  {
    hide Shift, Pack, ByteBits, Table, Step, Xor, Divide;
    PackByte(b);
    DivideIsShiftN(c, ByteBits(b));
    StepIsShift8(c, b);
  }

  lemma {:induction false} DivideAppend(c: bv32, u: seq<bool>, w: seq<bool>)
    ensures Divide(c, u + w) == Divide(Divide(c, u), w)
    decreases |u|
  {
    hide Shift, Xor, Bit;
    if u == [] {
      assert u + w == w;
    } else {
      assert (u + w)[1..] == u[1..] + w;
      DivideAppend(Shift(Xor(c, Bit(u[0]))), u[1..], w);
    }
  }

  /** The table-driven loop is bit-by-bit division of the whole message. */
  lemma {:induction false} FoldIsDivision(c: bv32, msg: seq<bv8>)
    ensures Fold(c, msg) == Divide(c, Bits(msg))
    decreases |msg|
  {
    hide Step, ByteBits, Shift, Xor, Bit;
    if msg != [] {
      DivideByte(c, msg[0]);
      DivideAppend(c, ByteBits(msg[0]), Bits(msg[1..]));
      FoldIsDivision(Step(c, msg[0]), msg[1..]);
    }
  }

  lemma {:induction false} FoldAppend(c: bv32, a: seq<bv8>, b: seq<bv8>)
    ensures Fold(c, a + b) == Fold(Fold(c, a), b)
    decreases |a|
  {
    hide Step;
    if a == [] {
      assert a + b == b;
    } else {
      assert (a + b)[1..] == a[1..] + b;
      FoldAppend(Step(c, a[0]), a[1..], b);
    }
  }

  // ---------- error detection ----------

  lemma {:induction false} DivideInjective(a: bv32, b: bv32, bits: seq<bool>)
    requires Divide(a, bits) == Divide(b, bits)
    ensures a == b
    decreases |bits|
  {
    hide Shift, Xor, Bit;
    if bits != [] {
      var t := Bit(bits[0]);
      DivideInjective(Shift(Xor(a, t)), Shift(Xor(b, t)), bits[1..]);
      ShiftInjective(Xor(a, t), Xor(b, t));
      XorCancel(a, b, t);
    }
  }

  /** Equal remainders after a common head, a window of at most 32 bits and a common tail mean equal
      windows: a burst of up to 32 wrong bits always changes the remainder. */
  lemma WindowDetermined(c: bv32, head: seq<bool>, u: seq<bool>, w: seq<bool>, tail: seq<bool>)
    requires |u| == |w| <= 32
    requires Divide(c, head + u + tail) == Divide(c, head + w + tail)
    ensures u == w
  {
    hide Divide, Xor, Pack, ShiftN;
    var d := Divide(c, head);
    DivideAppend(c, head + u, tail);
    DivideAppend(c, head + w, tail);
    DivideInjective(Divide(c, head + u), Divide(c, head + w), tail);
    DivideAppend(c, head, u);
    DivideAppend(c, head, w);
    DivideIsShiftN(d, u);
    DivideIsShiftN(d, w);
    ShiftNInjective(Xor(d, Pack(u)), Xor(d, Pack(w)), |u|);
    XorLaws(d, Pack(u), 0);
    XorLaws(d, Pack(w), 0);
    XorCancel(Pack(u), Pack(w), d);
    PackInjective(u, w);
  }

  // ---------- Encode ----------

  const ONES: bv32 := 0xFFFFFFFF

  /** crc32::Encode with a seed, as a function of the buffer's contents. */
  function Checksum(seed: bv32, msg: seq<bv8>): bv32 {
    if msg == [] then 0 else Xor(Fold(Xor(seed, ONES), msg), ONES)
  }

  /** CalcCrc32: updates the register with one byte. */
  method CalcCrc32(byte: bv8, crc0: bv32) returns (crc: bv32)
    ensures crc == Divide(crc0, ByteBits(byte))
  {
    hide Table, Divide;
    DivideByte(crc0, byte);
    crc := (crc0 >> 8) ^ Table(byte ^ ((crc0 & 0x000000FF) as bv8));
  }

  lemma IndexForms(c: bv32, b: bv8)
    ensures ((c ^ (b as bv32)) & 0xFF) as bv8 == b ^ ((c & 0xFF) as bv8)
  {
  }

  lemma StepForms(c: bv32, b: bv8)
    ensures Table(((c ^ (b as bv32)) & 0xFF) as bv8) ^ (c >> 8) == Step(c, b)
  {
    hide Table;
    IndexForms(c, b);
    XorLaws(c >> 8, Table(b ^ ((c & 0xFF) as bv8)), 0);
  }

  /** The seeded Encode. */
  method EncodeSeeded(seed: bv32, buffer: array?<bv8>, buflen: nat) returns (crc: bv32)
    requires buffer != null ==> buflen <= buffer.Length
    ensures buffer == null || buflen == 0 ==> crc == 0
    ensures buffer != null && buflen > 0 ==>
              && crc == Xor(Divide(Xor(seed, ONES), Bits(buffer[..buflen])), ONES)
              && crc == Checksum(seed, buffer[..buflen])
  {
    hide Table, Divide, Bits, Step;
    if buffer == null || buflen == 0 {
      return 0;
    }
    ghost var msg := buffer[..buflen];
    crc := seed ^ 0xFFFFFFFF;
    var p := 0;
    assert msg[0..] == msg;
    while p < buflen
      invariant 0 <= p <= buflen
      invariant Fold(crc, msg[p..]) == Fold(Xor(seed, ONES), msg)
    {
      assert msg[p..][0] == buffer[p] && msg[p..][1..] == msg[p + 1..];
      var b := buffer[p];
      StepForms(crc, b);
      crc := Table(((crc ^ (b as bv32)) & 0xFF) as bv8) ^ (crc >> 8);
      p := p + 1;
    }
    assert msg[p..] == [];
    FoldIsDivision(Xor(seed, ONES), msg);
    crc := crc ^ 0xFFFFFFFF;
  }

  /** The one-argument Encode, through CalcCrc32: the same value as the seeded form with seed 0. */
  method Encode(buffer: array?<bv8>, buflen: nat) returns (crc: bv32)
    requires buffer != null ==> buflen <= buffer.Length
    ensures crc == if buffer == null then 0 else Checksum(0, buffer[..buflen])
  {
    hide Table, Divide, Bits, Step, Xor;
    if buffer == null || buflen == 0 {
      return 0;
    }
    ghost var msg := buffer[..buflen];
    crc := 0xFFFFFFFF;
    XorLaws(ONES, 0, 0);
    XorLaws(0, ONES, 0);
    assert msg[..0] == [];
    for i := 0 to buflen
      invariant crc == Fold(ONES, msg[..i])
    {
      assert msg[..i + 1] == msg[..i] + [buffer[i]];
      FoldAppend(ONES, msg[..i], [buffer[i]]);
      FoldOne(crc, buffer[i]);
      DivideByte(crc, buffer[i]);
      crc := CalcCrc32(buffer[i], crc);
    }
    assert msg[..buflen] == msg;
    Complement(crc);
    crc := !crc;
  }

  lemma FoldOne(c: bv32, b: bv8)
    ensures Fold(c, [b]) == Step(c, b)
  {
    hide Step;
    assert Fold(Step(c, b), []) == Step(c, b);
  }

  lemma Complement(c: bv32)
    ensures !c == Xor(c, ONES)
  {
  }

  /** The inner loop of Init in crc32dynamic.cpp: one table entry, bit by bit. */
  method Generate(i: int) returns (crc: bv32)
    requires 0 <= i < 256
    ensures crc == Entry(i)
  {
    hide Entry, ShiftN;
    crc := i as bv32;
    var j := 8;
    while j > 0
      invariant 0 <= j <= 8
      invariant ShiftN(crc, j) == ShiftN(i as bv32, 8)
    {
      ShiftNStep(crc, j);
      if crc & 1 == 1 {
        crc := (crc >> 1) ^ POLY;
      } else {
        crc := crc >> 1;
      }
      j := j - 1;
    }
    ShiftNZero(crc);
    EntryIsDivision(i);
  }

  /** Init of crc32dynamic.cpp: the generated table is the static one. */
  method Init() returns (table: array<bv32>)
    ensures table.Length == 256
    ensures forall i :: 0 <= i < 256 ==> table[i] == Entry(i)
  {
    hide Entry;
    table := new bv32[256];
    for i := 0 to 256
      invariant forall k :: 0 <= k < i ==> table[k] == Entry(k)
    {
      var crc := Generate(i);
      table[i] := crc;
    }
  }

  lemma ShiftNStep(c: bv32, n: nat)
    requires n > 0
    ensures ShiftN(c, n) == ShiftN(if c & 1 == 1 then (c >> 1) ^ POLY else c >> 1, n - 1)
  {
  }

  lemma ShiftNZero(c: bv32)
    ensures ShiftN(c, 0) == c
  {
  }

  /** The static table entry at an index. */
  function Entry(i: int): bv32
    requires 0 <= i < 256
  {
    Table(i as bv8)
  }

  lemma EntryIsDivision(i: int)
    requires 0 <= i < 256
    ensures Entry(i) == ShiftN(i as bv32, 8)
  {
    hide Table, ShiftN, Shift8;
    TableIsDivision(i as bv8);
    ShiftNEight(i as bv32);
    ByteWidens(i);
  }

  lemma ByteWidens(i: int)
    requires 0 <= i < 256
    ensures (i as bv8) as bv32 == i as bv32
  {
  }

  /** Checksumming a and then b from a's checksum gives the checksum of a followed by b exactly when
      both are non-empty, or the empty buffer's 0 happens to be the right seed or result. */
  lemma Composition(seed: bv32, a: seq<bv8>, b: seq<bv8>)
    ensures Checksum(Checksum(seed, a), b) == Checksum(seed, a + b) <==>
              || (a != [] && b != [])
              || (a == [] && (b == [] || seed == 0))
              || (b == [] && Checksum(seed, a) == 0)
  {
    hide Fold, Xor;
    if a == [] {
      assert a + b == b;
      if b != [] {
        SeedMatters(0, seed, b);
      }
    } else if b == [] {
      assert a + b == a;
    } else {
      FoldAppend(Xor(seed, ONES), a, b);
      XorLaws(Fold(Xor(seed, ONES), a), ONES, ONES);
    }
  }

  /** On the same message, different seeds give different checksums. */
  lemma SeedMatters(seed: bv32, other: bv32, b: seq<bv8>)
    requires b != []
    ensures Checksum(seed, b) == Checksum(other, b) <==> seed == other
  {
    hide Fold, Xor, Divide;
    if Checksum(seed, b) == Checksum(other, b) {
      FoldIsDivision(Xor(seed, ONES), b);
      FoldIsDivision(Xor(other, ONES), b);
      XorCancel(Fold(Xor(seed, ONES), b), Fold(Xor(other, ONES), b), ONES);
      DivideInjective(Xor(seed, ONES), Xor(other, ONES), Bits(b));
      XorCancel(seed, other, ONES);
    }
  }

  /** Two messages whose bit strings differ only inside a window of at most 32 consecutive bits share
      a checksum only if they agree there too. */
  lemma BurstDetected(seed: bv32, m: seq<bv8>, n: seq<bv8>, head: seq<bool>, u: seq<bool>, w: seq<bool>, tail: seq<bool>)
    requires Bits(m) == head + u + tail && Bits(n) == head + w + tail && |u| == |w| <= 32
    ensures Checksum(seed, m) == Checksum(seed, n) <==> m == n
  {
    hide Divide, Xor, Bits;
    BitsLength(m);
    BitsLength(n);
    if m != [] && Checksum(seed, m) == Checksum(seed, n) {
      var c := Xor(seed, ONES);
      FoldIsDivision(c, m);
      FoldIsDivision(c, n);
      XorCancel(Fold(c, m), Fold(c, n), ONES);
      WindowDetermined(c, head, u, w, tail);
      BitsInjective(m, n);
    }
  }

  lemma {:induction false} BitsLength(a: seq<bv8>)
    ensures |Bits(a)| == 8 * |a|
    decreases |a|
  {
    hide ByteBits;
    if a != [] {
      PackByte(a[0]);
      BitsLength(a[1..]);
    }
  }

  lemma {:induction false} BitsAppend(a: seq<bv8>, b: seq<bv8>)
    ensures Bits(a + b) == Bits(a) + Bits(b)
    decreases |a|
  {
    hide ByteBits;
    if a == [] {
      assert a + b == b;
    } else {
      assert (a + b)[1..] == a[1..] + b;
      BitsAppend(a[1..], b);
    }
  }

  lemma {:induction false} BitsInjective(a: seq<bv8>, b: seq<bv8>)
    requires |a| == |b| && Bits(a) == Bits(b)
    ensures a == b
    decreases |a|
  {
    hide ByteBits, Pack;
    if a != [] {
      PackByte(a[0]);
      PackByte(b[0]);
      assert ByteBits(a[0]) == Bits(a)[..8] && ByteBits(b[0]) == Bits(b)[..8];
      assert Bits(a[1..]) == Bits(a)[8..] && Bits(b[1..]) == Bits(b)[8..];
      SameByte(a[0], b[0]);
      BitsInjective(a[1..], b[1..]);
      assert a == [a[0]] + a[1..] && b == [b[0]] + b[1..];
    }
  }

  lemma SameByte(a: bv8, b: bv8)
    requires a as bv32 == b as bv32
    ensures a == b
  {
  }

  /** Two messages that differ only inside a window of four consecutive bytes never share a checksum. */
  lemma WindowDetected(seed: bv32, head: seq<bv8>, u: seq<bv8>, w: seq<bv8>, tail: seq<bv8>)
    requires |u| == |w| <= 4 && u != w
    ensures Checksum(seed, head + u + tail) != Checksum(seed, head + w + tail)
  {
    hide Checksum, Bits;
    BitsAppend(head + u, tail);
    BitsAppend(head, u);
    BitsAppend(head + w, tail);
    BitsAppend(head, w);
    BitsLength(u);
    BitsLength(w);
    BurstDetected(seed, head + u + tail, head + w + tail, Bits(head), Bits(u), Bits(w), Bits(tail));
    assert (head + u + tail)[|head|..|head| + |u|] == u && (head + w + tail)[|head|..|head| + |w|] == w;
  }
}
