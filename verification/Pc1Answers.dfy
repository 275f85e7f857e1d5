/** What the byte added by PC1 of dev/algorithmic/src/pc1cipher.cpp is made of, and worked examples of the
    cipher, step by step. They fix the coder and its key as values, where InStep and its companions hold
    for any pair of coders that run in step.

    One update makes eight code steps, on the eight words of the key. A Line holds what a code step hands
    to the next one, and every move from line to line is a lemma. The key is fed with each byte of the
    message, so the second byte is enciphered under another key than the first. */
module Pc1Answers {

  import opened Pc1

  // ---------- the mask ----------

  lemma MaskXors(v: bv16, w: bv16)
    ensures Mask(v ^ w) == Mask(v) ^ Mask(w)
  {
  }

  lemma XorsAre(v: bv16, w: bv16, x: bv8, y: bv8)
    ensures Xor(v, w) == v ^ w && Add(x, y) == x ^ y
  {
  }

  /** The mask of a sum is the sum of the masks; */
  lemma MaskAdds(v: bv16, w: bv16)
    ensures Mask(Xor(v, w)) == Add(Mask(v), Mask(w))
  {
    hide Mask, Xor, Add;
    MaskXors(v, w);
    XorsAre(v, w, Mask(v), Mask(w));
  }

  /** and bit k of the register shows as bit k % 8 of the mask, so flipping one flips the other. */
  lemma MaskOfBit(k: nat)
    requires k < 16
    ensures Mask(WordBit(k)) == ByteBit(k % 8)
  {
    hide WordBit, ByteBit;
    WordBits();
    ByteBits();
    MaskOfBits();
  }

  function WordBit(k: nat): bv16
    requires k < 16
  {
    1 << k
  }

  function ByteBit(k: nat): bv8
    requires k < 8
  {
    1 << k
  }

  lemma WordBits()
    ensures WordBit(0) == 0x0001 && WordBit(1) == 0x0002 && WordBit(2) == 0x0004 && WordBit(3) == 0x0008
    ensures WordBit(4) == 0x0010 && WordBit(5) == 0x0020 && WordBit(6) == 0x0040 && WordBit(7) == 0x0080
    ensures WordBit(8) == 0x0100 && WordBit(9) == 0x0200 && WordBit(10) == 0x0400 && WordBit(11) == 0x0800
    ensures WordBit(12) == 0x1000 && WordBit(13) == 0x2000 && WordBit(14) == 0x4000 && WordBit(15) == 0x8000
  {
  }

  lemma ByteBits()
    ensures ByteBit(0) == 0x01 && ByteBit(1) == 0x02 && ByteBit(2) == 0x04 && ByteBit(3) == 0x08
    ensures ByteBit(4) == 0x10 && ByteBit(5) == 0x20 && ByteBit(6) == 0x40 && ByteBit(7) == 0x80
  {
  }

  lemma MaskOfBits()
    ensures Mask(0x0001) == 0x01 && Mask(0x0002) == 0x02 && Mask(0x0004) == 0x04 && Mask(0x0008) == 0x08
    ensures Mask(0x0010) == 0x10 && Mask(0x0020) == 0x20 && Mask(0x0040) == 0x40 && Mask(0x0080) == 0x80
    ensures Mask(0x0100) == 0x01 && Mask(0x0200) == 0x02 && Mask(0x0400) == 0x04 && Mask(0x0800) == 0x08
    ensures Mask(0x1000) == 0x10 && Mask(0x2000) == 0x20 && Mask(0x4000) == 0x40 && Mask(0x8000) == 0x80
  {
  }

  /** Flipping bit k of the register flips exactly bit k % 8 of the mask, and nothing gives nothing. */
  lemma MaskFlips(v: bv16, k: nat)
    requires k < 16
    ensures Mask(0) == 0 && Mask(Xor(v, WordBit(k))) == Add(Mask(v), ByteBit(k % 8))
  {
    MaskOfNothing();
    hide Mask, WordBit, ByteBit, Xor, Add;
    MaskAdds(v, WordBit(k));
    MaskOfBit(k);
  }

  lemma MaskOfNothing()
    ensures Mask(0) == 0
  {
  }

  // ---------- one code step at a time ----------

  /** The coder, the key register and the sum of the results so far. */
  datatype Line = Line(x1a2: bv16, si: bv16, a: bv16, inter: bv16)

  /** A code step on key word w. */
  function Moved(l: Line, w: bv16, i: bv16): Line {
    var x := Xor(l.a, w);
    var next := NextCoder(Coder(l.x1a2, l.si), x, i);
    Line(next.x1a2, next.si, NextKey(x), Xor(l.inter, Xor(NextKey(x), next.x1a2)))
  }

  function From(key16: seq<bv8>, i: nat, l: Line): Coded
    requires |key16| == 16 && i <= 8
  {
    Steps(Coder(l.x1a2, l.si), key16, i, l.a, l.inter)
  }

  lemma MoveOn(key16: seq<bv8>, i: nat, l: Line)
    requires |key16| == 16 && i < 8
    ensures From(key16, i, l) == From(key16, i + 1, Moved(l, KeyWord(key16, i), Number(i)))
  {
    hide KeyWord, Number, Xor, NextCoder, NextKey;
  }

  lemma MoveEnds(key16: seq<bv8>, i: nat, l: Line)
    requires |key16| == 16 && i == 8
    ensures From(key16, i, l) == Coded(Coder(l.x1a2, l.si), l.inter)
  {
  }

  lemma MoveStarts(key16: seq<bv8>, c: Coder)
    requires |key16| == 16
    ensures Updated(c, key16) == From(key16, 0, Line(c.x1a2, c.si, 0, 0))
  {
    hide Steps;
  }

  lemma Numbers()
    ensures Number(0) == 0 && Number(1) == 1 && Number(2) == 2 && Number(3) == 3
    ensures Number(4) == 4 && Number(5) == 5 && Number(6) == 6 && Number(7) == 7
  {
  }

  /** Key word i from its two bytes. */
  lemma KeyWordIs(key16: seq<bv8>, i: nat, high: bv8, low: bv8)
    requires |key16| == 16 && i < 8 && key16[2 * i] == high && key16[2 * i + 1] == low
    ensures KeyWord(key16, i) == Joined(high, low)
  {
    hide Wide, Plus, Times;
  }

  function Joined(high: bv8, low: bv8): bv16 {
    Plus(Times(Wide(high), 256), Wide(low))
  }

  lemma EncOneByte(c: Coder, key16: seq<bv8>, b: bv8)
    requires |key16| == 16
    ensures Enc(c, key16, [b]) == [Add(b, Mask(Updated(c, key16).inter))]
  {
    hide Updated, Mask, Fed, Add;
    assert [b][1..] == [];
  }

  lemma EncTwoBytes(c: Coder, key16: seq<bv8>, b: bv8, d: bv8)
    requires |key16| == 16
    ensures var u := Updated(c, key16);
            Enc(c, key16, [b, d]) == [Add(b, Mask(u.inter))] + Enc(u.coder, Fed(key16, b), [d])
  {
    hide Updated, Mask, Fed, Add;
    assert [b, d][1..] == [d];
  }

  // ---------- the empty key, its first update ----------

  lemma Empty0()
    ensures Moved(Line(0x0000, 0x0000, 0x0000, 0x0000), 0x0000, 0) == Line(0x0000, 0x0000, 0x0001, 0x0001)
  {
  }

  lemma Empty1()
    ensures Moved(Line(0x0000, 0x0000, 0x0001, 0x0001), 0x0000, 1) == Line(0x4f8f, 0x015a, 0x4e36, 0x01b8)
  {
  }

  lemma Empty2()
    ensures Moved(Line(0x4f8f, 0x015a, 0x4e36, 0x01b8), 0x0000, 2) == Line(0x5d5b, 0xb4fc, 0xa52f, 0xf9cc)
  {
  }

  lemma Empty3()
    ensures Moved(Line(0x5d5b, 0xb4fc, 0xa52f, 0xf9cc), 0x0000, 3) == Line(0xeef8, 0x4186, 0x84bc, 0x9388)
  {
  }

  lemma Empty4()
    ensures Moved(Line(0xeef8, 0x4186, 0x84bc, 0x9388), 0x0000, 4) == Line(0xe9ca, 0x6618, 0xc2ed, 0xb8af)
  {
  }

  lemma Empty5()
    ensures Moved(Line(0xe9ca, 0x6618, 0xc2ed, 0xb8af), 0x0000, 5) == Line(0x5445, 0x7452, 0x9112, 0x7df8)
  {
  }

  lemma Empty6()
    ensures Moved(Line(0x5445, 0x7452, 0x9112, 0x7df8), 0x0000, 6) == Line(0xd42d, 0x1254, 0x84bb, 0x2d6e)
  {
  }

  lemma Empty7()
    ensures Moved(Line(0xd42d, 0x1254, 0x84bb, 0x2d6e), 0x0000, 7) == Line(0x3dd6, 0x64be, 0x74b8, 0x6400)
  {
  }

  lemma EmptyWords(key16: seq<bv8>)
    requires |key16| == 16
    requires forall k :: 0 <= k < 16 ==> key16[k] == 0x00
    ensures KeyWord(key16, 0) == 0x0000 && KeyWord(key16, 1) == 0x0000 && KeyWord(key16, 2) == 0x0000 && KeyWord(key16, 3) == 0x0000
    ensures KeyWord(key16, 4) == 0x0000 && KeyWord(key16, 5) == 0x0000 && KeyWord(key16, 6) == 0x0000 && KeyWord(key16, 7) == 0x0000
  {
    hide KeyWord, Joined;
    JoinedBytes();
    KeyWordIs(key16, 0, 0x00, 0x00);
    KeyWordIs(key16, 1, 0x00, 0x00);
    KeyWordIs(key16, 2, 0x00, 0x00);
    KeyWordIs(key16, 3, 0x00, 0x00);
    KeyWordIs(key16, 4, 0x00, 0x00);
    KeyWordIs(key16, 5, 0x00, 0x00);
    KeyWordIs(key16, 6, 0x00, 0x00);
    KeyWordIs(key16, 7, 0x00, 0x00);
  }

  lemma EmptyUpdate(key16: seq<bv8>)
    requires |key16| == 16
    requires forall k :: 0 <= k < 16 ==> key16[k] == 0x00
    ensures Updated(Coder(0x0000, 0x0000), key16) == Coded(Coder(0x3dd6, 0x64be), 0x6400)
  {
    hide From, Moved, KeyWord, Number, Updated;
    EmptyWords(key16);
    Numbers();
    MoveStarts(key16, Coder(0x0000, 0x0000));
    MoveOn(key16, 0, Line(0x0000, 0x0000, 0x0000, 0x0000));
    Empty0();
    MoveOn(key16, 1, Line(0x0000, 0x0000, 0x0001, 0x0001));
    Empty1();
    MoveOn(key16, 2, Line(0x4f8f, 0x015a, 0x4e36, 0x01b8));
    Empty2();
    MoveOn(key16, 3, Line(0x5d5b, 0xb4fc, 0xa52f, 0xf9cc));
    Empty3();
    MoveOn(key16, 4, Line(0xeef8, 0x4186, 0x84bc, 0x9388));
    Empty4();
    MoveOn(key16, 5, Line(0xe9ca, 0x6618, 0xc2ed, 0xb8af));
    Empty5();
    MoveOn(key16, 6, Line(0x5445, 0x7452, 0x9112, 0x7df8));
    Empty6();
    MoveOn(key16, 7, Line(0xd42d, 0x1254, 0x84bb, 0x2d6e));
    Empty7();
    MoveEnds(key16, 8, Line(0x3dd6, 0x64be, 0x74b8, 0x6400));
  }

  // ---------- the key "key", its first update ----------

  lemma First0()
    ensures Moved(Line(0x0000, 0x0000, 0x0000, 0x0000), 0x6b65, 0) == Line(0x2682, 0x2682, 0x01ea, 0x2768)
  {
  }

  lemma First1()
    ensures Moved(Line(0x2682, 0x2682, 0x01ea, 0x2768), 0x7900, 1) == Line(0x75e5, 0x6c44, 0x5473, 0x06fe)
  {
  }

  lemma First2()
    ensures Moved(Line(0x75e5, 0x6c44, 0x5473, 0x06fe), 0x0000, 2) == Line(0x5a85, 0x236e, 0x85d0, 0xd9ab)
  {
  }

  lemma First3()
    ensures Moved(Line(0x5a85, 0x236e, 0x85d0, 0xd9ab), 0x0000, 3) == Line(0x2cb6, 0xdb20, 0x1411, 0xe10c)
  {
  }

  lemma First4()
    ensures Moved(Line(0x2cb6, 0xdb20, 0x1411, 0xe10c), 0x0000, 4) == Line(0xe89c, 0x1efa, 0x5586, 0x5c16)
  {
  }

  lemma First5()
    ensures Moved(Line(0xe89c, 0x1efa, 0x5586, 0x5c16), 0x0000, 5) == Line(0xed6b, 0x971c, 0x88bf, 0x39c2)
  {
  }

  lemma First6()
    ensures Moved(Line(0xed6b, 0x971c, 0x88bf, 0x39c2), 0x0000, 6) == Line(0xffa7, 0xd226, 0x818c, 0x47e9)
  {
  }

  lemma First7()
    ensures Moved(Line(0xffa7, 0xd226, 0x818c, 0x47e9), 0x0000, 7) == Line(0xdc64, 0x1738, 0x79fd, 0xe270)
  {
  }

  lemma FirstWords(key16: seq<bv8>)
    requires |key16| == 16 && key16[0] == 0x6b && key16[1] == 0x65 && key16[2] == 0x79
    requires forall k :: 3 <= k < 16 ==> key16[k] == 0x00
    ensures KeyWord(key16, 0) == 0x6b65 && KeyWord(key16, 1) == 0x7900 && KeyWord(key16, 2) == 0x0000 && KeyWord(key16, 3) == 0x0000
    ensures KeyWord(key16, 4) == 0x0000 && KeyWord(key16, 5) == 0x0000 && KeyWord(key16, 6) == 0x0000 && KeyWord(key16, 7) == 0x0000
  {
    hide KeyWord, Joined;
    JoinedBytes();
    KeyWordIs(key16, 0, 0x6b, 0x65);
    KeyWordIs(key16, 1, 0x79, 0x00);
    KeyWordIs(key16, 2, 0x00, 0x00);
    KeyWordIs(key16, 3, 0x00, 0x00);
    KeyWordIs(key16, 4, 0x00, 0x00);
    KeyWordIs(key16, 5, 0x00, 0x00);
    KeyWordIs(key16, 6, 0x00, 0x00);
    KeyWordIs(key16, 7, 0x00, 0x00);
  }

  lemma FirstUpdate(key16: seq<bv8>)
    requires |key16| == 16 && key16[0] == 0x6b && key16[1] == 0x65 && key16[2] == 0x79
    requires forall k :: 3 <= k < 16 ==> key16[k] == 0x00
    ensures Updated(Coder(0x0000, 0x0000), key16) == Coded(Coder(0xdc64, 0x1738), 0xe270)
  {
    hide From, Moved, KeyWord, Number, Updated;
    FirstWords(key16);
    Numbers();
    MoveStarts(key16, Coder(0x0000, 0x0000));
    MoveOn(key16, 0, Line(0x0000, 0x0000, 0x0000, 0x0000));
    First0();
    MoveOn(key16, 1, Line(0x2682, 0x2682, 0x01ea, 0x2768));
    First1();
    MoveOn(key16, 2, Line(0x75e5, 0x6c44, 0x5473, 0x06fe));
    First2();
    MoveOn(key16, 3, Line(0x5a85, 0x236e, 0x85d0, 0xd9ab));
    First3();
    MoveOn(key16, 4, Line(0x2cb6, 0xdb20, 0x1411, 0xe10c));
    First4();
    MoveOn(key16, 5, Line(0xe89c, 0x1efa, 0x5586, 0x5c16));
    First5();
    MoveOn(key16, 6, Line(0xed6b, 0x971c, 0x88bf, 0x39c2));
    First6();
    MoveOn(key16, 7, Line(0xffa7, 0xd226, 0x818c, 0x47e9));
    First7();
    MoveEnds(key16, 8, Line(0xdc64, 0x1738, 0x79fd, 0xe270));
  }

  // ---------- the same key once "a" was fed to it, the second update ----------

  lemma Second0()
    ensures Moved(Line(0xdc64, 0x1738, 0x0000, 0x0000), 0x0a04, 0) == Line(0xb954, 0x8968, 0x4ad5, 0xf381)
  {
  }

  lemma Second1()
    ensures Moved(Line(0xb954, 0x8968, 0x4ad5, 0xf381), 0x1861, 1) == Line(0x9549, 0xc748, 0xf745, 0x918d)
  {
  }

  lemma Second2()
    ensures Moved(Line(0x9549, 0xc748, 0xf745, 0x918d), 0x6161, 2) == Line(0x7677, 0xeca8, 0x0d75, 0xea8f)
  {
  }

  lemma Second3()
    ensures Moved(Line(0x7677, 0xeca8, 0x0d75, 0xea8f), 0x6161, 3) == Line(0xb2f2, 0x1308, 0x7825, 0x2058)
  {
  }

  lemma Second4()
    ensures Moved(Line(0xb2f2, 0x1308, 0x7825, 0x2058), 0x6161, 4) == Line(0x39de, 0x25e8, 0xf315, 0xea93)
  {
  }

  lemma Second5()
    ensures Moved(Line(0x39de, 0x25e8, 0xf315, 0xea93), 0x6161, 5) == Line(0x3caf, 0xf0c8, 0xaa05, 0x7c39)
  {
  }

  lemma Second6()
    ensures Moved(Line(0x3caf, 0xf0c8, 0xaa05, 0x7c39), 0x6161, 6) == Line(0x8d69, 0xe528, 0x93b5, 0x62e5)
  {
  }

  lemma Second7()
    ensures Moved(Line(0x8d69, 0xe528, 0x93b5, 0x62e5), 0x6161, 7) == Line(0x7fe0, 0x3288, 0xdde5, 0xc0e0)
  {
  }

  lemma SecondWords(key16: seq<bv8>)
    requires |key16| == 16 && key16[0] == 0x0a && key16[1] == 0x04 && key16[2] == 0x18
    requires forall k :: 3 <= k < 16 ==> key16[k] == 0x61
    ensures KeyWord(key16, 0) == 0x0a04 && KeyWord(key16, 1) == 0x1861 && KeyWord(key16, 2) == 0x6161 && KeyWord(key16, 3) == 0x6161
    ensures KeyWord(key16, 4) == 0x6161 && KeyWord(key16, 5) == 0x6161 && KeyWord(key16, 6) == 0x6161 && KeyWord(key16, 7) == 0x6161
  {
    hide KeyWord, Joined;
    JoinedBytes();
    KeyWordIs(key16, 0, 0x0a, 0x04);
    KeyWordIs(key16, 1, 0x18, 0x61);
    KeyWordIs(key16, 2, 0x61, 0x61);
    KeyWordIs(key16, 3, 0x61, 0x61);
    KeyWordIs(key16, 4, 0x61, 0x61);
    KeyWordIs(key16, 5, 0x61, 0x61);
    KeyWordIs(key16, 6, 0x61, 0x61);
    KeyWordIs(key16, 7, 0x61, 0x61);
  }

  lemma SecondUpdate(key16: seq<bv8>)
    requires |key16| == 16 && key16[0] == 0x0a && key16[1] == 0x04 && key16[2] == 0x18
    requires forall k :: 3 <= k < 16 ==> key16[k] == 0x61
    ensures Updated(Coder(0xdc64, 0x1738), key16) == Coded(Coder(0x7fe0, 0x3288), 0xc0e0)
  {
    hide From, Moved, KeyWord, Number, Updated;
    SecondWords(key16);
    Numbers();
    MoveStarts(key16, Coder(0xdc64, 0x1738));
    MoveOn(key16, 0, Line(0xdc64, 0x1738, 0x0000, 0x0000));
    Second0();
    MoveOn(key16, 1, Line(0xb954, 0x8968, 0x4ad5, 0xf381));
    Second1();
    MoveOn(key16, 2, Line(0x9549, 0xc748, 0xf745, 0x918d));
    Second2();
    MoveOn(key16, 3, Line(0x7677, 0xeca8, 0x0d75, 0xea8f));
    Second3();
    MoveOn(key16, 4, Line(0xb2f2, 0x1308, 0x7825, 0x2058));
    Second4();
    MoveOn(key16, 5, Line(0x39de, 0x25e8, 0xf315, 0xea93));
    Second5();
    MoveOn(key16, 6, Line(0x3caf, 0xf0c8, 0xaa05, 0x7c39));
    Second6();
    MoveOn(key16, 7, Line(0x8d69, 0xe528, 0x93b5, 0x62e5));
    Second7();
    MoveEnds(key16, 8, Line(0x7fe0, 0x3288, 0xdde5, 0xc0e0));
  }

  lemma JoinedBytes()
    ensures Joined(0x00, 0x00) == 0x0000 && Joined(0x0a, 0x04) == 0x0a04 && Joined(0x18, 0x61) == 0x1861
    ensures Joined(0x61, 0x61) == 0x6161 && Joined(0x6b, 0x65) == 0x6b65 && Joined(0x79, 0x00) == 0x7900
  {
  }

  lemma Masks()
    ensures Add(0x61, Mask(0x6400)) == 0x05
    ensures Add(0x61, Mask(0xe270)) == 0xf3 && Add(0x74, Mask(0xc0e0)) == 0x54
  {
  }

  // ---------- the examples ----------

  /** "a" under the empty key. */
  lemma EmptyKeyAnswer()
    ensures Encrypted([], [0x61]) == [0x05]
  {
    hide Updated, Mask, Add, Enc;
    EncOneByte(START, Key16([]), 0x61);
    EmptyUpdate(Key16([]));
    Masks();
  }

  lemma FedBytes(key16: seq<bv8>)
    requires |key16| == 16 && key16[0] == 0x6b && key16[1] == 0x65 && key16[2] == 0x79
    requires forall k :: 3 <= k < 16 ==> key16[k] == 0
    ensures var fed := Fed(key16, 0x61);
            && fed[0] == 0x0a && fed[1] == 0x04 && fed[2] == 0x18
            && forall k :: 3 <= k < 16 ==> fed[k] == 0x61
  {
    FeedingBytes();
    hide Add;
  }

  lemma FeedingBytes()
    ensures Add(0x6b, 0x61) == 0x0a && Add(0x65, 0x61) == 0x04 && Add(0x79, 0x61) == 0x18 && Add(0, 0x61) == 0x61
  {
  }

  /** "at" under the key "key": the second byte depends on the first through coder and key. */
  lemma KeyAnswer()
    ensures Encrypted([0x6b, 0x65, 0x79], [0x61, 0x74]) == [0xf3, 0x54]
  {
    hide Updated, Mask, Add, Enc, Fed;
    var key16 := Key16([0x6b, 0x65, 0x79]);
    var u := Coder(0xdc64, 0x1738);
    EncTwoBytes(START, key16, 0x61, 0x74);
    FirstUpdate(key16);
    FedBytes(key16);
    SecondUpdate(Fed(key16, 0x61));
    EncOneByte(u, Fed(key16, 0x61), 0x74);
    Masks();
  }

  lemma LettersAnswer()
    ensures Letter(Low(0xf3), 0x61) == 0x64 && Letter(High(0xf3), 0x61) == 0x70
    ensures Letter(Low(0x54), 0x61) == 0x65 && Letter(High(0x54), 0x61) == 0x66
  {
  }

  /** In letters from 'a' on, low nibble first: "dpef". */
  lemma TextAnswer()
    ensures EncT([0x6b, 0x65, 0x79], [0x61, 0x74], 0x61) == [0x64, 0x70, 0x65, 0x66]
  {
    KeyAnswer();
    LettersAnswer();
    hide Encrypted, Letter, Low, High;
  }

  /** The same through the code, in place. */
  method EncryptAnswer() returns (output: array<bv8>)
    ensures output[..] == [0xf3, 0x54]
  {
    hide Enc, Key16;
    output := new bv8[] [0x61, 0x74];
    assert output[..2] == [0x61, 0x74];
    KeyAnswer();
    var n := PC1Enc([0x6b, 0x65, 0x79], output, 2, output);
    assert output[..2] == output[..];
  }
}
