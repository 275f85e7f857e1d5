/** CRC-64 of dev/algorithmic/src/crypt-crc64.cpp (table driven, most significant bit first) against
    bit-at-a-time division by 0x42F0E1EBA9EA3693.

    The layout mirrors Crc32: facts about single bits first, then the algebra of the register, with
    the shifts running the other way and no inversion of the register at either end. */
module Crc64 {

  const POLY: bv64 := 0x42F0E1EBA9EA3693
  const TOP: bv64 := 0x8000_0000_0000_0000

  // ---------- the register, one bit at a time ----------

  function Xor(a: bv64, b: bv64): bv64 {
    a ^ b
  }

  function Top(c: bv64): bool {
    c & TOP != 0
  }

  function Double(c: bv64): bv64 {
    c << 1
  }

  /** One division step: the highest bit leaves, and the polynomial is subtracted when it was set. */
  function Shift(c: bv64): bv64 {
    if c & TOP != 0 then (c << 1) ^ POLY else c << 1
  }

  /** n division steps. */
  function ShiftN(c: bv64, n: nat): bv64
    decreases n
  {
    if n == 0 then c else ShiftN(Shift(c), n - 1)
  }

  function Bit(b: bool): bv64 {
    if b then TOP else 0
  }

  /** Divides a bit string, first bit first, starting from register c. */
  function Divide(c: bv64, bits: seq<bool>): bv64
    decreases |bits|
  {
    if bits == [] then c else Divide(Shift(Xor(c, Bit(bits[0]))), bits[1..])
  }

  /** The bits of a byte most significant first. */
  function ByteBits(b: bv8): seq<bool> {
    [b & 0x80 != 0, b & 0x40 != 0, b & 0x20 != 0, b & 0x10 != 0,
     b & 0x08 != 0, b & 0x04 != 0, b & 0x02 != 0, b & 0x01 != 0]
  }

  function Bits(msg: seq<bv8>): seq<bool>
    decreases |msg|
  {
    if msg == [] then [] else ByteBits(msg[0]) + Bits(msg[1..])
  }

  // ---------- the table ----------

  /** crc_table, entries 0x00 to 0xFF in order, four to a line; the comparisons only halve the index. */
  function Table(x: bv8): bv64 {
    if x < 0x80 then
      if x < 0x40 then
        if x < 0x20 then
          if x < 0x10 then
            if x < 0x08 then
              if x < 0x04 then
                if x < 0x02 then (if x < 0x01 then 0x0000000000000000 else 0x42F0E1EBA9EA3693) else if x < 0x03 then 0x85E1C3D753D46D26 else 0xC711223CFA3E5BB5
              else
                if x < 0x06 then (if x < 0x05 then 0x493366450E42ECDF else 0x0BC387AEA7A8DA4C) else if x < 0x07 then 0xCCD2A5925D9681F9 else 0x8E224479F47CB76A
            else
              if x < 0x0C then
                if x < 0x0A then (if x < 0x09 then 0x9266CC8A1C85D9BE else 0xD0962D61B56FEF2D) else if x < 0x0B then 0x17870F5D4F51B498 else 0x5577EEB6E6BB820B
              else
                if x < 0x0E then (if x < 0x0D then 0xDB55AACF12C73561 else 0x99A54B24BB2D03F2) else if x < 0x0F then 0x5EB4691841135847 else 0x1C4488F3E8F96ED4
          else
            if x < 0x18 then
              if x < 0x14 then
                if x < 0x12 then (if x < 0x11 then 0x663D78FF90E185EF else 0x24CD9914390BB37C) else if x < 0x13 then 0xE3DCBB28C335E8C9 else 0xA12C5AC36ADFDE5A
              else
                if x < 0x16 then (if x < 0x15 then 0x2F0E1EBA9EA36930 else 0x6DFEFF5137495FA3) else if x < 0x17 then 0xAAEFDD6DCD770416 else 0xE81F3C86649D3285
            else
              if x < 0x1C then
                if x < 0x1A then (if x < 0x19 then 0xF45BB4758C645C51 else 0xB6AB559E258E6AC2) else if x < 0x1B then 0x71BA77A2DFB03177 else 0x334A9649765A07E4
              else
                if x < 0x1E then (if x < 0x1D then 0xBD68D2308226B08E else 0xFF9833DB2BCC861D) else if x < 0x1F then 0x388911E7D1F2DDA8 else 0x7A79F00C7818EB3B
        else
          if x < 0x30 then
            if x < 0x28 then
              if x < 0x24 then
                if x < 0x22 then (if x < 0x21 then 0xCC7AF1FF21C30BDE else 0x8E8A101488293D4D) else if x < 0x23 then 0x499B3228721766F8 else 0x0B6BD3C3DBFD506B
              else
                if x < 0x26 then (if x < 0x25 then 0x854997BA2F81E701 else 0xC7B97651866BD192) else if x < 0x27 then 0x00A8546D7C558A27 else 0x4258B586D5BFBCB4
            else
              if x < 0x2C then
                if x < 0x2A then (if x < 0x29 then 0x5E1C3D753D46D260 else 0x1CECDC9E94ACE4F3) else if x < 0x2B then 0xDBFDFEA26E92BF46 else 0x990D1F49C77889D5
              else
                if x < 0x2E then (if x < 0x2D then 0x172F5B3033043EBF else 0x55DFBADB9AEE082C) else if x < 0x2F then 0x92CE98E760D05399 else 0xD03E790CC93A650A
          else
            if x < 0x38 then
              if x < 0x34 then
                if x < 0x32 then (if x < 0x31 then 0xAA478900B1228E31 else 0xE8B768EB18C8B8A2) else if x < 0x33 then 0x2FA64AD7E2F6E317 else 0x6D56AB3C4B1CD584
              else
                if x < 0x36 then (if x < 0x35 then 0xE374EF45BF6062EE else 0xA1840EAE168A547D) else if x < 0x37 then 0x66952C92ECB40FC8 else 0x2465CD79455E395B
            else
              if x < 0x3C then
                if x < 0x3A then (if x < 0x39 then 0x3821458AADA7578F else 0x7AD1A461044D611C) else if x < 0x3B then 0xBDC0865DFE733AA9 else 0xFF3067B657990C3A
              else
                if x < 0x3E then (if x < 0x3D then 0x711223CFA3E5BB50 else 0x33E2C2240A0F8DC3) else if x < 0x3F then 0xF4F3E018F031D676 else 0xB60301F359DBE0E5
      else
        if x < 0x60 then
          if x < 0x50 then
            if x < 0x48 then
              if x < 0x44 then
                if x < 0x42 then (if x < 0x41 then 0xDA050215EA6C212F else 0x98F5E3FE438617BC) else if x < 0x43 then 0x5FE4C1C2B9B84C09 else 0x1D14202910527A9A
              else
                if x < 0x46 then (if x < 0x45 then 0x93366450E42ECDF0 else 0xD1C685BB4DC4FB63) else if x < 0x47 then 0x16D7A787B7FAA0D6 else 0x5427466C1E109645
            else
              if x < 0x4C then
                if x < 0x4A then (if x < 0x49 then 0x4863CE9FF6E9F891 else 0x0A932F745F03CE02) else if x < 0x4B then 0xCD820D48A53D95B7 else 0x8F72ECA30CD7A324
              else
                if x < 0x4E then (if x < 0x4D then 0x0150A8DAF8AB144E else 0x43A04931514122DD) else if x < 0x4F then 0x84B16B0DAB7F7968 else 0xC6418AE602954FFB
          else
            if x < 0x58 then
              if x < 0x54 then
                if x < 0x52 then (if x < 0x51 then 0xBC387AEA7A8DA4C0 else 0xFEC89B01D3679253) else if x < 0x53 then 0x39D9B93D2959C9E6 else 0x7B2958D680B3FF75
              else
                if x < 0x56 then (if x < 0x55 then 0xF50B1CAF74CF481F else 0xB7FBFD44DD257E8C) else if x < 0x57 then 0x70EADF78271B2539 else 0x321A3E938EF113AA
            else
              if x < 0x5C then
                if x < 0x5A then (if x < 0x59 then 0x2E5EB66066087D7E else 0x6CAE578BCFE24BED) else if x < 0x5B then 0xABBF75B735DC1058 else 0xE94F945C9C3626CB
              else
                if x < 0x5E then (if x < 0x5D then 0x676DD025684A91A1 else 0x259D31CEC1A0A732) else if x < 0x5F then 0xE28C13F23B9EFC87 else 0xA07CF2199274CA14
        else
          if x < 0x70 then
            if x < 0x68 then
              if x < 0x64 then
                if x < 0x62 then (if x < 0x61 then 0x167FF3EACBAF2AF1 else 0x548F120162451C62) else if x < 0x63 then 0x939E303D987B47D7 else 0xD16ED1D631917144
              else
                if x < 0x66 then (if x < 0x65 then 0x5F4C95AFC5EDC62E else 0x1DBC74446C07F0BD) else if x < 0x67 then 0xDAAD56789639AB08 else 0x985DB7933FD39D9B
            else
              if x < 0x6C then
                if x < 0x6A then (if x < 0x69 then 0x84193F60D72AF34F else 0xC6E9DE8B7EC0C5DC) else if x < 0x6B then 0x01F8FCB784FE9E69 else 0x43081D5C2D14A8FA
              else
                if x < 0x6E then (if x < 0x6D then 0xCD2A5925D9681F90 else 0x8FDAB8CE70822903) else if x < 0x6F then 0x48CB9AF28ABC72B6 else 0x0A3B7B1923564425
          else
            if x < 0x78 then
              if x < 0x74 then
                if x < 0x72 then (if x < 0x71 then 0x70428B155B4EAF1E else 0x32B26AFEF2A4998D) else if x < 0x73 then 0xF5A348C2089AC238 else 0xB753A929A170F4AB
              else
                if x < 0x76 then (if x < 0x75 then 0x3971ED50550C43C1 else 0x7B810CBBFCE67552) else if x < 0x77 then 0xBC902E8706D82EE7 else 0xFE60CF6CAF321874
            else
              if x < 0x7C then
                if x < 0x7A then (if x < 0x79 then 0xE224479F47CB76A0 else 0xA0D4A674EE214033) else if x < 0x7B then 0x67C58448141F1B86 else 0x253565A3BDF52D15
              else
                if x < 0x7E then (if x < 0x7D then 0xAB1721DA49899A7F else 0xE9E7C031E063ACEC) else if x < 0x7F then 0x2EF6E20D1A5DF759 else 0x6C0603E6B3B7C1CA
    else
      if x < 0xC0 then
        if x < 0xA0 then
          if x < 0x90 then
            if x < 0x88 then
              if x < 0x84 then
                if x < 0x82 then (if x < 0x81 then 0xF6FAE5C07D3274CD else 0xB40A042BD4D8425E) else if x < 0x83 then 0x731B26172EE619EB else 0x31EBC7FC870C2F78
              else
                if x < 0x86 then (if x < 0x85 then 0xBFC9838573709812 else 0xFD39626EDA9AAE81) else if x < 0x87 then 0x3A28405220A4F534 else 0x78D8A1B9894EC3A7
            else
              if x < 0x8C then
                if x < 0x8A then (if x < 0x89 then 0x649C294A61B7AD73 else 0x266CC8A1C85D9BE0) else if x < 0x8B then 0xE17DEA9D3263C055 else 0xA38D0B769B89F6C6
              else
                if x < 0x8E then (if x < 0x8D then 0x2DAF4F0F6FF541AC else 0x6F5FAEE4C61F773F) else if x < 0x8F then 0xA84E8CD83C212C8A else 0xEABE6D3395CB1A19
          else
            if x < 0x98 then
              if x < 0x94 then
                if x < 0x92 then (if x < 0x91 then 0x90C79D3FEDD3F122 else 0xD2377CD44439C7B1) else if x < 0x93 then 0x15265EE8BE079C04 else 0x57D6BF0317EDAA97
              else
                if x < 0x96 then (if x < 0x95 then 0xD9F4FB7AE3911DFD else 0x9B041A914A7B2B6E) else if x < 0x97 then 0x5C1538ADB04570DB else 0x1EE5D94619AF4648
            else
              if x < 0x9C then
                if x < 0x9A then (if x < 0x99 then 0x02A151B5F156289C else 0x4051B05E58BC1E0F) else if x < 0x9B then 0x87409262A28245BA else 0xC5B073890B687329
              else
                if x < 0x9E then (if x < 0x9D then 0x4B9237F0FF14C443 else 0x0962D61B56FEF2D0) else if x < 0x9F then 0xCE73F427ACC0A965 else 0x8C8315CC052A9FF6
        else
          if x < 0xB0 then
            if x < 0xA8 then
              if x < 0xA4 then
                if x < 0xA2 then (if x < 0xA1 then 0x3A80143F5CF17F13 else 0x7870F5D4F51B4980) else if x < 0xA3 then 0xBF61D7E80F251235 else 0xFD913603A6CF24A6
              else
                if x < 0xA6 then (if x < 0xA5 then 0x73B3727A52B393CC else 0x31439391FB59A55F) else if x < 0xA7 then 0xF652B1AD0167FEEA else 0xB4A25046A88DC879
            else
              if x < 0xAC then
                if x < 0xAA then (if x < 0xA9 then 0xA8E6D8B54074A6AD else 0xEA16395EE99E903E) else if x < 0xAB then 0x2D071B6213A0CB8B else 0x6FF7FA89BA4AFD18
              else
                if x < 0xAE then (if x < 0xAD then 0xE1D5BEF04E364A72 else 0xA3255F1BE7DC7CE1) else if x < 0xAF then 0x64347D271DE22754 else 0x26C49CCCB40811C7
          else
            if x < 0xB8 then
              if x < 0xB4 then
                if x < 0xB2 then (if x < 0xB1 then 0x5CBD6CC0CC10FAFC else 0x1E4D8D2B65FACC6F) else if x < 0xB3 then 0xD95CAF179FC497DA else 0x9BAC4EFC362EA149
              else
                if x < 0xB6 then (if x < 0xB5 then 0x158E0A85C2521623 else 0x577EEB6E6BB820B0) else if x < 0xB7 then 0x906FC95291867B05 else 0xD29F28B9386C4D96
            else
              if x < 0xBC then
                if x < 0xBA then (if x < 0xB9 then 0xCEDBA04AD0952342 else 0x8C2B41A1797F15D1) else if x < 0xBB then 0x4B3A639D83414E64 else 0x09CA82762AAB78F7
              else
                if x < 0xBE then (if x < 0xBD then 0x87E8C60FDED7CF9D else 0xC51827E4773DF90E) else if x < 0xBF then 0x020905D88D03A2BB else 0x40F9E43324E99428
      else
        if x < 0xE0 then
          if x < 0xD0 then
            if x < 0xC8 then
              if x < 0xC4 then
                if x < 0xC2 then (if x < 0xC1 then 0x2CFFE7D5975E55E2 else 0x6E0F063E3EB46371) else if x < 0xC3 then 0xA91E2402C48A38C4 else 0xEBEEC5E96D600E57
              else
                if x < 0xC6 then (if x < 0xC5 then 0x65CC8190991CB93D else 0x273C607B30F68FAE) else if x < 0xC7 then 0xE02D4247CAC8D41B else 0xA2DDA3AC6322E288
            else
              if x < 0xCC then
                if x < 0xCA then (if x < 0xC9 then 0xBE992B5F8BDB8C5C else 0xFC69CAB42231BACF) else if x < 0xCB then 0x3B78E888D80FE17A else 0x7988096371E5D7E9
              else
                if x < 0xCE then (if x < 0xCD then 0xF7AA4D1A85996083 else 0xB55AACF12C735610) else if x < 0xCF then 0x724B8ECDD64D0DA5 else 0x30BB6F267FA73B36
          else
            if x < 0xD8 then
              if x < 0xD4 then
                if x < 0xD2 then (if x < 0xD1 then 0x4AC29F2A07BFD00D else 0x08327EC1AE55E69E) else if x < 0xD3 then 0xCF235CFD546BBD2B else 0x8DD3BD16FD818BB8
              else
                if x < 0xD6 then (if x < 0xD5 then 0x03F1F96F09FD3CD2 else 0x41011884A0170A41) else if x < 0xD7 then 0x86103AB85A2951F4 else 0xC4E0DB53F3C36767
            else
              if x < 0xDC then
                if x < 0xDA then (if x < 0xD9 then 0xD8A453A01B3A09B3 else 0x9A54B24BB2D03F20) else if x < 0xDB then 0x5D45907748EE6495 else 0x1FB5719CE1045206
              else
                if x < 0xDE then (if x < 0xDD then 0x919735E51578E56C else 0xD367D40EBC92D3FF) else if x < 0xDF then 0x1476F63246AC884A else 0x568617D9EF46BED9
        else
          if x < 0xF0 then
            if x < 0xE8 then
              if x < 0xE4 then
                if x < 0xE2 then (if x < 0xE1 then 0xE085162AB69D5E3C else 0xA275F7C11F7768AF) else if x < 0xE3 then 0x6564D5FDE549331A else 0x279434164CA30589
              else
                if x < 0xE6 then (if x < 0xE5 then 0xA9B6706FB8DFB2E3 else 0xEB46918411358470) else if x < 0xE7 then 0x2C57B3B8EB0BDFC5 else 0x6EA7525342E1E956
            else
              if x < 0xEC then
                if x < 0xEA then (if x < 0xE9 then 0x72E3DAA0AA188782 else 0x30133B4B03F2B111) else if x < 0xEB then 0xF7021977F9CCEAA4 else 0xB5F2F89C5026DC37
              else
                if x < 0xEE then (if x < 0xED then 0x3BD0BCE5A45A6B5D else 0x79205D0E0DB05DCE) else if x < 0xEF then 0xBE317F32F78E067B else 0xFCC19ED95E6430E8
          else
            if x < 0xF8 then
              if x < 0xF4 then
                if x < 0xF2 then (if x < 0xF1 then 0x86B86ED5267CDBD3 else 0xC4488F3E8F96ED40) else if x < 0xF3 then 0x0359AD0275A8B6F5 else 0x41A94CE9DC428066
              else
                if x < 0xF6 then (if x < 0xF5 then 0xCF8B0890283E370C else 0x8D7BE97B81D4019F) else if x < 0xF7 then 0x4A6ACB477BEA5A2A else 0x089A2AACD2006CB9
            else
              if x < 0xFC then
                if x < 0xFA then (if x < 0xF9 then 0x14DEA25F3AF9026D else 0x562E43B4931334FE) else if x < 0xFB then 0x913F6188692D6F4B else 0xD3CF8063C0C759D8
              else
                if x < 0xFE then (if x < 0xFD then 0x5DEDC41A34BBEEB2 else 0x1F1D25F19D51D821) else if x < 0xFF then 0xD80C07CD676F8394 else 0x9AFCE626CE85B507
  }

  function Shift8(c: bv64): bv64 {
    Shift(Shift(Shift(Shift(Shift(Shift(Shift(Shift(c))))))))
  }

  /** A byte at the top of the register. */
  function Byte(b: bv8): bv64 {
    (b as bv64) << 56
  }

  lemma TableRow0(x: bv8)
    requires x & 3 == 0
    ensures Table(x) == Shift8(Byte(x))
  {
  }

  lemma TableRow1(x: bv8)
    requires x & 3 == 1
    ensures Table(x) == Shift8(Byte(x))
  {
  }

  lemma TableRow2(x: bv8)
    requires x & 3 == 2
    ensures Table(x) == Shift8(Byte(x))
  {
  }

  lemma TableRow3(x: bv8)
    requires x & 3 == 3
    ensures Table(x) == Shift8(Byte(x))
  {
  }

  /** Every table entry is its index divided bit by bit, eight steps. */
  lemma TableIsDivision(x: bv8)
    ensures Table(x) == Shift8(Byte(x))
  {
    hide Table, Shift8, Byte;
    LastTwoBits(x);
    if x & 3 == 0 {
      TableRow0(x);
    } else if x & 3 == 1 {
      TableRow1(x);
    } else if x & 3 == 2 {
      TableRow2(x);
    } else {
      TableRow3(x);
    }
  }

  lemma LastTwoBits(x: bv8)
    ensures x & 3 == 0 || x & 3 == 1 || x & 3 == 2 || x & 3 == 3
  {
  }

  /** One byte of the table-driven algorithm. */
  function Step(c: bv64, b: bv8): bv64 {
    Xor(c << 8, Table(((c >> 56) as bv8) ^ b))
  }

  function Fold(c: bv64, msg: seq<bv8>): bv64
    decreases |msg|
  {
    if msg == [] then c else Fold(Step(c, msg[0]), msg[1..])
  }

  // ---------- single-bit facts ----------

  function Half(c: bv64): bv64 {
    c >> 1
  }

  predicate LowClear(c: bv64) {
    c & 1 == 0
  }

  lemma XorCommutes(a: bv64, b: bv64)
    ensures Xor(a, b) == Xor(b, a)
  {
  }

  lemma XorAssociates(a: bv64, b: bv64, c: bv64)
    ensures Xor(Xor(a, b), c) == Xor(a, Xor(b, c))
  {
    assert (a ^ b) ^ c == a ^ (b ^ c);
  }

  lemma XorUndoes(a: bv64, b: bv64)
    ensures Xor(Xor(a, b), b) == a
  {
    assert (a ^ b) ^ b == a;
  }

  lemma XorZero(a: bv64)
    ensures Xor(a, 0) == a
  {
  }

  lemma XorLaws(a: bv64, b: bv64, c: bv64)
    ensures Xor(a, b) == Xor(b, a)
    ensures Xor(Xor(a, b), c) == Xor(a, Xor(b, c))
    ensures Xor(Xor(a, b), b) == a && Xor(a, 0) == a
  {
    hide Xor;
    XorCommutes(a, b);
    XorAssociates(a, b, c);
    XorUndoes(a, b);
    XorZero(a);
  }

  lemma XorCancel(a: bv64, b: bv64, t: bv64)
    requires Xor(a, t) == Xor(b, t)
    ensures a == b
  {
    hide Xor;
    XorLaws(a, t, t);
    XorLaws(b, t, t);
  }

  lemma TopXor(a: bv64, b: bv64)
    ensures Top(Xor(a, b)) <==> Top(a) != Top(b)
  {
  }

  lemma DoubleXor(a: bv64, b: bv64)
    ensures Double(Xor(a, b)) == Xor(Double(a), Double(b))
  {
  }

  lemma DoubleTop(c: bv64)
    ensures LowClear(Double(c)) && !LowClear(Xor(Double(c), POLY))
  {
  }

  lemma TopAndDouble(a: bv64, b: bv64)
    requires Top(a) == Top(b) && Double(a) == Double(b)
    ensures a == b
  {
  }

  lemma DoubleHalf(p: bv64)
    requires LowClear(p)
    ensures Double(Half(p)) == p && !Top(Half(p))
  {
  }

  lemma BitFacts(b: bool)
    ensures (Top(Bit(b)) <==> b) && Double(Bit(b)) == 0
  {
  }

  // ---------- algebra of the register ----------

  lemma ShiftForm(c: bv64)
    ensures Shift(c) == if Top(c) then Xor(Double(c), POLY) else Double(c)
  {
  }

  lemma ShiftLinear(a: bv64, b: bv64)
    ensures Shift(Xor(a, b)) == Xor(Shift(a), Shift(b))
  {
    hide Xor, Top, Double, Shift;
    ShiftForm(a);
    ShiftForm(b);
    ShiftForm(Xor(a, b));
    TopXor(a, b);
    DoubleXor(a, b);
    var x, y := Double(a), Double(b);
    XorPairs(x, y);
  }

  lemma XorPairs(x: bv64, y: bv64)
    ensures Xor(Xor(x, POLY), Xor(y, POLY)) == Xor(x, y)
    ensures Xor(Xor(x, POLY), y) == Xor(Xor(x, y), POLY) == Xor(x, Xor(y, POLY))
  {
    hide Xor;
    XorAssociates(x, y, POLY);
    XorAssociates(x, POLY, y);
    XorCommutes(POLY, y);
    XorAssociates(Xor(x, POLY), y, POLY);
    XorUndoes(Xor(x, y), POLY);
  }

  /** The polynomial's lowest bit is set, so a division step can be undone. */
  lemma ShiftInjective(a: bv64, b: bv64)
    requires Shift(a) == Shift(b)
    ensures a == b
  {
    hide Xor, Top, Double, LowClear, Shift;
    ShiftForm(a);
    ShiftForm(b);
    DoubleTop(a);
    DoubleTop(b);
    assert Top(a) == Top(b);
    if Top(a) {
      XorCancel(Double(a), Double(b), POLY);
    }
    TopAndDouble(a, b);
  }

  lemma {:induction false} ShiftNInjective(a: bv64, b: bv64, n: nat)
    requires ShiftN(a, n) == ShiftN(b, n)
    ensures a == b
    decreases n
  {
    hide Shift;
    if n > 0 {
      ShiftNInjective(Shift(a), Shift(b), n - 1);
      ShiftInjective(a, b);
    }
  }

  lemma {:induction false} ShiftNLinear(a: bv64, b: bv64, n: nat)
    ensures ShiftN(Xor(a, b), n) == Xor(ShiftN(a, n), ShiftN(b, n))
    decreases n
  {
    hide Shift, Xor;
    if n > 0 {
      ShiftLinear(a, b);
      ShiftNLinear(Shift(a), Shift(b), n - 1);
    }
  }

  // ---------- bit strings as register contents ----------

  /** Up to 64 bits, first bit highest. */
  function Pack(w: seq<bool>): bv64
    decreases |w|
  {
    if w == [] then 0 else Xor(Bit(w[0]), Half(Pack(w[1..])))
  }

  /** p can be halved k times without losing a bit. */
  predicate Room(p: bv64, k: nat)
    decreases k
  {
    k == 0 || (LowClear(p) && Room(Half(p), k - 1))
  }

  lemma HalfXor(a: bv64, b: bv64)
    ensures Half(Xor(a, b)) == Xor(Half(a), Half(b))
  {
  }

  lemma LowClearXor(a: bv64, b: bv64)
    requires LowClear(a) && LowClear(b)
    ensures LowClear(Xor(a, b))
  {
  }

  lemma {:induction false} RoomXor(a: bv64, b: bv64, k: nat)
    requires Room(a, k) && Room(b, k)
    ensures Room(Xor(a, b), k)
    decreases k
  {
    hide LowClear, Half, Xor;
    if k > 0 {
      LowClearXor(a, b);
      HalfXor(a, b);
      RoomXor(Half(a), Half(b), k - 1);
    }
  }

  lemma {:induction false} RoomFewer(p: bv64, j: nat, k: nat)
    requires j <= k && Room(p, k)
    ensures Room(p, j)
    decreases j
  {
    hide LowClear, Half;
    if j > 0 {
      RoomFewer(Half(p), j - 1, k - 1);
    }
  }

  lemma ZeroStays()
    ensures LowClear(0) && Half(0) == 0
  {
  }

  lemma {:induction false} RoomZero(k: nat)
    ensures Room(0, k)
    decreases k
  {
    hide LowClear, Half;
    ZeroStays();
    if k > 0 {
      RoomZero(k - 1);
    }
  }

  lemma Room4(p: bv64, k: nat)
    requires LowClear(p) && LowClear(Half(p)) && LowClear(Half(Half(p))) && LowClear(Half(Half(Half(p))))
    requires Room(Half(Half(Half(Half(p)))), k)
    ensures Room(p, k + 4)
  {
    hide LowClear, Half;
    assert Room(Half(Half(Half(p))), k + 1);
    assert Room(Half(Half(p)), k + 2);
    assert Room(Half(p), k + 3);
  }

  lemma Room4Of(p: bv64, q: bv64, k: nat)
    requires p & 0xF == 0 && q == p >> 4
    requires Room(q, k)
    ensures Room(p, k + 4)
  {
    hide Room;
    Nibble(p);
    Room4(p, k);
  }

  lemma Nibble(p: bv64)
    requires p & 0xF == 0
    ensures LowClear(p) && LowClear(Half(p)) && LowClear(Half(Half(p))) && LowClear(Half(Half(Half(p))))
    ensures Half(Half(Half(Half(p)))) == p >> 4
  {
  }

  lemma RoomLast()
    ensures Room(0x8, 3)
  {
    assert Room(Half(Half(Half(0x8))), 0);
    assert Room(Half(Half(0x8)), 1);
    assert Room(Half(0x8), 2);
  }

  /** A single bit can be halved 63 times. */
  lemma RoomBit(b: bool, k: nat)
    requires k <= 63
    ensures Room(Bit(b), k)
  {
    hide Room;
    if b {
      RoomLast();
      Room4Of(0x80, 0x8, 3);
      Room4Of(0x800, 0x80, 7);
      Room4Of(0x8000, 0x800, 11);
      Room4Of(0x80000, 0x8000, 15);
      Room4Of(0x800000, 0x80000, 19);
      Room4Of(0x8000000, 0x800000, 23);
      Room4Of(0x80000000, 0x8000000, 27);
      Room4Of(0x800000000, 0x80000000, 31);
      Room4Of(0x8000000000, 0x800000000, 35);
      Room4Of(0x80000000000, 0x8000000000, 39);
      Room4Of(0x800000000000, 0x80000000000, 43);
      Room4Of(0x8000000000000, 0x800000000000, 47);
      Room4Of(0x80000000000000, 0x8000000000000, 51);
      Room4Of(0x800000000000000, 0x80000000000000, 55);
      Room4Of(0x8000000000000000, 0x800000000000000, 59);
      RoomFewer(TOP, k, 63);
    } else {
      RoomZero(k);
    }
  }

  lemma {:induction false} PackRoom(w: seq<bool>, k: nat)
    requires |w| + k <= 64
    ensures Room(Pack(w), k)
    decreases |w|
  {
    hide Xor, Half, Bit, LowClear;
    if w == [] {
      RoomZero(k);
    } else {
      PackRoom(w[1..], k + 1);
      RoomBit(w[0], k);
      RoomXor(Bit(w[0]), Half(Pack(w[1..])), k);
    }
  }

  /** Fewer than 64 bits leave the lowest bit clear. */
  lemma PackLowClear(w: seq<bool>)
    requires |w| < 64
    ensures LowClear(Pack(w))
  {
    hide LowClear, Pack;
    PackRoom(w, 1);
  }

  lemma {:induction false} PackInjective(u: seq<bool>, w: seq<bool>)
    requires |u| == |w| <= 64 && Pack(u) == Pack(w)
    ensures u == w
    decreases |u|
  {
    hide LowClear, Xor, Half, Bit;
    if u != [] {
      PackLowClear(u[1..]);
      PackLowClear(w[1..]);
      PackParts(u[0], Pack(u[1..]));
      PackParts(w[0], Pack(w[1..]));
      PackInjective(u[1..], w[1..]);
      assert u == [u[0]] + u[1..] && w == [w[0]] + w[1..];
    }
  }

  lemma PackParts(b: bool, p: bv64)
    requires LowClear(p)
    ensures Top(Xor(Bit(b), Half(p))) == b && Double(Xor(Bit(b), Half(p))) == p
  {
    hide LowClear, Xor, Half, Bit, Top, Double;
    BitFacts(b);
    DoubleHalf(p);
    TopXor(Bit(b), Half(p));
    DoubleXor(Bit(b), Half(p));
    XorLaws(p, 0, 0);
    XorLaws(0, p, 0);
  }

  lemma ShiftPeelsBit(c: bv64, b: bool, p: bv64)
    requires LowClear(p)
    ensures Shift(Xor(c, Xor(Bit(b), Half(p)))) == Xor(Shift(Xor(c, Bit(b))), p)
  {
    hide LowClear, Xor, Half, Bit, Shift;
    XorLaws(c, Bit(b), Half(p));
    ShiftLinear(Xor(c, Bit(b)), Half(p));
    ShiftHalf(p);
  }

  /** Dividing up to 64 bits is adding them to the register all at once and then shifting. */
  lemma {:induction false} DivideIsShiftN(c: bv64, w: seq<bool>)
    requires |w| <= 64
    ensures Divide(c, w) == ShiftN(Xor(c, Pack(w)), |w|)
    decreases |w|
  {
    hide Xor, Shift, Half, Bit, LowClear;
    if w == [] {
      XorLaws(c, 0, 0);
    } else {
      PackLowClear(w[1..]);
      DivideIsShiftN(Shift(Xor(c, Bit(w[0]))), w[1..]);
      ShiftPeelsBit(c, w[0], Pack(w[1..]));
    }
  }

  // ---------- table steps are division ----------

  lemma ShiftNEight(c: bv64)
    ensures ShiftN(c, 8) == Shift8(c)
  {
    hide Shift;
    var c1 := Shift(c);
    var c2 := Shift(c1);
    var c3 := Shift(c2);
    var c4 := Shift(c3);
    assert ShiftN(c, 8) == ShiftN(c1, 7) == ShiftN(c2, 6) == ShiftN(c3, 5) == ShiftN(c4, 4);
  }

  function Rest(c: bv64): bv64 {
    c & 0x00FF_FFFF_FFFF_FFFF
  }

  lemma ShiftHalf(p: bv64)
    requires LowClear(p)
    ensures Shift(Half(p)) == p
  {
    hide LowClear, Half, Top, Double, Xor, Shift;
    ShiftForm(Half(p));
    DoubleHalf(p);
  }

  /** Eight steps take eight halvings back. */
  lemma Shift8Halves(p: bv64)
    requires LowClear(p) && LowClear(Half(p)) && LowClear(Half(Half(p))) && LowClear(Half(Half(Half(p))))
    requires var q := Half(Half(Half(Half(p))));
             LowClear(q) && LowClear(Half(q)) && LowClear(Half(Half(q))) && LowClear(Half(Half(Half(q))))
    ensures var q := Half(Half(Half(Half(p))));
            Shift8(Half(Half(Half(Half(q))))) == p
  {
    hide Shift, Half, LowClear;
    var q := Half(Half(Half(Half(p))));
    ShiftHalf(p);
    ShiftHalf(Half(p));
    ShiftHalf(Half(Half(p)));
    ShiftHalf(Half(Half(Half(p))));
    ShiftHalf(q);
    ShiftHalf(Half(q));
    ShiftHalf(Half(Half(q)));
    ShiftHalf(Half(Half(Half(q))));
  }

  lemma RestHalves(c: bv64)
    ensures var p := c << 8;
            var q := Half(Half(Half(Half(p))));
            && LowClear(p) && LowClear(Half(p)) && LowClear(Half(Half(p))) && LowClear(Half(Half(Half(p))))
            && LowClear(q) && LowClear(Half(q)) && LowClear(Half(Half(q))) && LowClear(Half(Half(Half(q))))
            && Rest(c) == Half(Half(Half(Half(q))))
  {
  }

  /** The lower 56 bits just move up while the top byte is empty. */
  lemma RestPart(c: bv64)
    ensures Shift8(Rest(c)) == c << 8
  {
    hide Shift8, Rest, Half, LowClear;
    RestHalves(c);
    Shift8Halves(c << 8);
  }

  lemma SplitRegister(c: bv64, b: bv8)
    ensures Xor(Rest(c), Byte(((c >> 56) as bv8) ^ b)) == Xor(c, Byte(b))
  {
  }

  /** A table step is eight division steps on the register with the byte added in. */
  lemma StepIsShift8(c: bv64, b: bv8)
    ensures Step(c, b) == ShiftN(Xor(c, Byte(b)), 8)
  {
    hide Shift8, Table, Xor, Rest, Byte;
    var top := ((c >> 56) as bv8) ^ b;
    TableIsDivision(top);
    RestPart(c);
    ShiftNEight(Rest(c));
    ShiftNEight(Byte(top));
    ShiftNLinear(Rest(c), Byte(top), 8);
    SplitRegister(c, b);
  }

  lemma {:induction false} PackByte(b: bv8)
    ensures |ByteBits(b)| == 8 && Pack(ByteBits(b)) == Byte(b)
  {
    hide Xor, Bit, Half;
    var s := ByteBits(b);
    PackEight(s);
    ByteFromBits(b);
  }

  lemma PackSuffix(s: seq<bool>, k: nat)
    requires k < |s|
    ensures Pack(s[k..]) == Xor(Bit(s[k]), Half(Pack(s[k + 1..])))
  {
    hide Xor, Bit, Half;
    assert s[k..][1..] == s[k + 1..];
  }

  lemma PackNothing(s: seq<bool>)
    ensures Pack(s[|s|..]) == 0
  {
  }

  lemma PackFour(s: seq<bool>, k: nat)
    requires k + 4 <= |s|
    ensures Pack(s[k..]) == Xor(Bit(s[k]), Half(Xor(Bit(s[k + 1]), Half(Xor(Bit(s[k + 2]), Half(
                            Xor(Bit(s[k + 3]), Half(Pack(s[k + 4..])))))))))
  {
    hide Xor, Bit, Half, Pack;
    PackSuffix(s, k);
    PackSuffix(s, k + 1);
    PackSuffix(s, k + 2);
    PackSuffix(s, k + 3);
  }

  lemma PackEight(s: seq<bool>)
    requires |s| == 8
    ensures Pack(s) == Xor(Bit(s[0]), Half(Xor(Bit(s[1]), Half(Xor(Bit(s[2]), Half(Xor(Bit(s[3]), Half(
                       Xor(Bit(s[4]), Half(Xor(Bit(s[5]), Half(Xor(Bit(s[6]), Half(Xor(Bit(s[7]), Half(0))))))))))))))))
  {
    hide Xor, Bit, Half, Pack;
    assert s[0..] == s;
    PackFour(s, 0);
    PackFour(s, 4);
    PackNothing(s);
  }

  lemma LowNibble(b: bv8)
    ensures Xor(Bit(b & 0x08 != 0), Half(Xor(Bit(b & 0x04 != 0), Half(Xor(Bit(b & 0x02 != 0), Half(
            Xor(Bit(b & 0x01 != 0), Half(0)))))))) == Byte(b << 4)
  {
  }

  lemma HighNibble(b: bv8)
    ensures Xor(Bit(b & 0x80 != 0), Half(Xor(Bit(b & 0x40 != 0), Half(Xor(Bit(b & 0x20 != 0), Half(
            Xor(Bit(b & 0x10 != 0), Half(Byte(b << 4))))))))) == Byte(b)
  {
  }

  lemma ByteFromBits(b: bv8)
    ensures var s := ByteBits(b);
            Byte(b) == Xor(Bit(s[0]), Half(Xor(Bit(s[1]), Half(Xor(Bit(s[2]), Half(Xor(Bit(s[3]), Half(
                         Xor(Bit(s[4]), Half(Xor(Bit(s[5]), Half(Xor(Bit(s[6]), Half(Xor(Bit(s[7]), Half(0))))))))))))))))
  {
    hide Xor, Bit, Half, Byte;
    LowNibble(b);
    HighNibble(b);
  }

  lemma DivideByte(c: bv64, b: bv8)
    ensures Divide(c, ByteBits(b)) == Step(c, b)
  {
    hide Shift, Pack, ByteBits, Table, Step, Xor, Divide;
    PackByte(b);
    DivideIsShiftN(c, ByteBits(b));
    StepIsShift8(c, b);
  }

  lemma {:induction false} DivideAppend(c: bv64, u: seq<bool>, w: seq<bool>)
    ensures Divide(c, u + w) == Divide(Divide(c, u), w)
    decreases |u|
  {
    hide Shift, Xor, Bit;
    if u == [] {
      assert u + w == w;
    } else {
      assert (u + w)[1..] == u[1..] + w;
      DivideAppend(Shift(Xor(c, Bit(u[0]))), u[1..], w);
    }
  }

  /** The table-driven loop is bit-by-bit division of the whole message. */
  lemma {:induction false} FoldIsDivision(c: bv64, msg: seq<bv8>)
    ensures Fold(c, msg) == Divide(c, Bits(msg))
    decreases |msg|
  {
    hide Step, ByteBits, Shift, Xor, Bit;
    if msg != [] {
      DivideByte(c, msg[0]);
      DivideAppend(c, ByteBits(msg[0]), Bits(msg[1..]));
      FoldIsDivision(Step(c, msg[0]), msg[1..]);
    }
  }

  lemma {:induction false} FoldAppend(c: bv64, a: seq<bv8>, b: seq<bv8>)
    ensures Fold(c, a + b) == Fold(Fold(c, a), b)
    decreases |a|
  {
    hide Step;
    if a == [] {
      assert a + b == b;
    } else {
      assert (a + b)[1..] == a[1..] + b;
      FoldAppend(Step(c, a[0]), a[1..], b);
    }
  }

  // ---------- error detection ----------

  lemma {:induction false} DivideInjective(a: bv64, b: bv64, bits: seq<bool>)
    requires Divide(a, bits) == Divide(b, bits)
    ensures a == b
    decreases |bits|
  {
    hide Shift, Xor, Bit;
    if bits != [] {
      var t := Bit(bits[0]);
      DivideInjective(Shift(Xor(a, t)), Shift(Xor(b, t)), bits[1..]);
      ShiftInjective(Xor(a, t), Xor(b, t));
      XorCancel(a, b, t);
    }
  }

  /** Equal remainders after a common head, a window of at most 64 bits and a common tail mean equal
      windows: a burst of up to 64 wrong bits always changes the remainder. */
  lemma WindowDetermined(c: bv64, head: seq<bool>, u: seq<bool>, w: seq<bool>, tail: seq<bool>)
    requires |u| == |w| <= 64
    requires Divide(c, head + u + tail) == Divide(c, head + w + tail)
    ensures u == w
  {
    hide Divide, Xor, Pack, ShiftN;
    var d := Divide(c, head);
    DivideAppend(c, head + u, tail);
    DivideAppend(c, head + w, tail);
    DivideInjective(Divide(c, head + u), Divide(c, head + w), tail);
    DivideAppend(c, head, u);
    DivideAppend(c, head, w);
    DivideIsShiftN(d, u);
    DivideIsShiftN(d, w);
    ShiftNInjective(Xor(d, Pack(u)), Xor(d, Pack(w)), |u|);
    XorLaws(d, Pack(u), 0);
    XorLaws(d, Pack(w), 0);
    XorCancel(Pack(u), Pack(w), d);
    PackInjective(u, w);
  }

  // ---------- Encode ----------

  /** crc64::Encode with a seed, as a function of the buffer's contents. */
  function Checksum(seed: bv64, msg: seq<bv8>): bv64 {
    if msg == [] then 0 else Fold(seed, msg)
  }

  lemma StepForms(c: bv64, b: bv8)
    ensures Table(((c >> 56) as bv8) ^ b) ^ (c << 8) == Step(c, b)
  {
    hide Table;
    XorCommutes(c << 8, Table(((c >> 56) as bv8) ^ b));
  }

  /** The seeded Encode. */
  method EncodeSeeded(seed: bv64, buffer: array?<bv8>, buflen: nat) returns (crc: bv64)
    requires buffer != null ==> buflen <= buffer.Length
    ensures buffer == null || buflen == 0 ==> crc == 0
    ensures buffer != null && buflen > 0 ==>
              crc == Divide(seed, Bits(buffer[..buflen])) && crc == Checksum(seed, buffer[..buflen])
  {
    hide Table, Divide, Bits, Step;
    if buffer == null || buflen == 0 {
      return 0;
    }
    ghost var msg := buffer[..buflen];
    crc := seed;
    var p := 0;
    assert msg[0..] == msg;
    while p < buflen
      invariant 0 <= p <= buflen
      invariant Fold(crc, msg[p..]) == Fold(seed, msg)
    {
      assert msg[p..][0] == buffer[p] && msg[p..][1..] == msg[p + 1..];
      var b := buffer[p];
      StepForms(crc, b);
      var i := ((crc >> 56) as bv8) ^ b;
      crc := Table(i) ^ (crc << 8);
      p := p + 1;
    }
    assert msg[p..] == [];
    FoldIsDivision(seed, msg);
  }

  /** The one-argument Encode: seed 0. */
  method Encode(buffer: array?<bv8>, buflen: nat) returns (crc: bv64)
    requires buffer != null ==> buflen <= buffer.Length
    ensures crc == if buffer == null then 0 else Checksum(0, buffer[..buflen])
  {
    hide Table, Divide, Bits, Step, Fold;
    if buffer == null || buflen == 0 {
      return 0;
    }
    var seed: bv64 := 0;
    var encoded := EncodeSeeded(seed, buffer, buflen);
    XorZero(encoded);
    crc := encoded ^ seed;
  }

  /** Checksumming a and then b from a's checksum gives the checksum of a followed by b exactly when
      both are non-empty, or the empty buffer's 0 happens to be the right seed or result. */
  lemma Composition(seed: bv64, a: seq<bv8>, b: seq<bv8>)
    ensures Checksum(Checksum(seed, a), b) == Checksum(seed, a + b) <==>
              || (a != [] && b != [])
              || (a == [] && (b == [] || seed == 0))
              || (b == [] && Checksum(seed, a) == 0)
  {
    hide Fold;
    if a == [] {
      assert a + b == b;
      if b != [] {
        SeedMatters(0, seed, b);
      }
    } else if b == [] {
      assert a + b == a;
    } else {
      FoldAppend(seed, a, b);
    }
  }

  /** On the same message, different seeds give different checksums. */
  lemma SeedMatters(seed: bv64, other: bv64, b: seq<bv8>)
    requires b != []
    ensures Checksum(seed, b) == Checksum(other, b) <==> seed == other
  {
    hide Fold, Divide;
    if Checksum(seed, b) == Checksum(other, b) {
      FoldIsDivision(seed, b);
      FoldIsDivision(other, b);
      DivideInjective(seed, other, Bits(b));
    }
  }

  /** Two messages whose bit strings differ only inside a window of at most 64 consecutive bits share
      a checksum only if they agree there too. */
  lemma BurstDetected(seed: bv64, m: seq<bv8>, n: seq<bv8>, head: seq<bool>, u: seq<bool>, w: seq<bool>, tail: seq<bool>)
    requires Bits(m) == head + u + tail && Bits(n) == head + w + tail && |u| == |w| <= 64
    ensures Checksum(seed, m) == Checksum(seed, n) <==> m == n
  {
    hide Divide, Bits;
    BitsLength(m);
    BitsLength(n);
    if m != [] && Checksum(seed, m) == Checksum(seed, n) {
      FoldIsDivision(seed, m);
      FoldIsDivision(seed, n);
      WindowDetermined(seed, head, u, w, tail);
      BitsInjective(m, n);
    }
  }

  lemma {:induction false} BitsLength(a: seq<bv8>)
    ensures |Bits(a)| == 8 * |a|
    decreases |a|
  {
    hide ByteBits;
    if a != [] {
      PackByte(a[0]);
      BitsLength(a[1..]);
    }
  }

  lemma {:induction false} BitsAppend(a: seq<bv8>, b: seq<bv8>)
    ensures Bits(a + b) == Bits(a) + Bits(b)
    decreases |a|
  {
    hide ByteBits;
    if a == [] {
      assert a + b == b;
    } else {
      assert (a + b)[1..] == a[1..] + b;
      BitsAppend(a[1..], b);
    }
  }

  lemma {:induction false} BitsInjective(a: seq<bv8>, b: seq<bv8>)
    requires |a| == |b| && Bits(a) == Bits(b)
    ensures a == b
    decreases |a|
  {
    hide ByteBits, Pack;
    if a != [] {
      PackByte(a[0]);
      PackByte(b[0]);
      assert ByteBits(a[0]) == Bits(a)[..8] && ByteBits(b[0]) == Bits(b)[..8];
      assert Bits(a[1..]) == Bits(a)[8..] && Bits(b[1..]) == Bits(b)[8..];
      SameByte(a[0], b[0]);
      BitsInjective(a[1..], b[1..]);
      assert a == [a[0]] + a[1..] && b == [b[0]] + b[1..];
    }
  }

  lemma SameByte(a: bv8, b: bv8)
    requires Byte(a) == Byte(b)
    ensures a == b
  {
  }

  /** Two messages that differ only inside a window of eight consecutive bytes never share a checksum. */
  lemma WindowDetected(seed: bv64, head: seq<bv8>, u: seq<bv8>, w: seq<bv8>, tail: seq<bv8>)
    requires |u| == |w| <= 8 && u != w
    ensures Checksum(seed, head + u + tail) != Checksum(seed, head + w + tail)
  {
    hide Checksum, Bits;
    BitsAppend(head + u, tail);
    BitsAppend(head, u);
    BitsAppend(head + w, tail);
    BitsAppend(head, w);
    BitsLength(u);
    BitsLength(w);
    BurstDetected(seed, head + u + tail, head + w + tail, Bits(head), Bits(u), Bits(w), Bits(tail));
    assert (head + u + tail)[|head|..|head| + |u|] == u && (head + w + tail)[|head|..|head| + |w|] == w;
  }
}
