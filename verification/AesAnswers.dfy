/** The worked example of FIPS 197, appendices A.1 and B, for dev/algorithmic/src/crypt-aes.cpp: one key,
    its whole schedule, and one block through all ten rounds. It fixes the key schedule and the cipher as
    values, where the other modules relate them to each other.

    A state and a round key are four columns here, and each round is evaluated by a lemma of its own, so
    that no proof sees more than one round. The laws of the schedule, byte by byte, hold for every key and
    name nothing but the substitution and the round constants. */
module AesAnswers {

  import opened AesTables
  import opened AesField
  import opened AesState
  import opened AesCipher
  import AesBuffers

  // ---------- a state or a round key as four columns ----------

  datatype Four = Four(w0: Column, w1: Column, w2: Column, w3: Column)

  function Bytes(f: Four): Block {
    [f.w0.a, f.w0.b, f.w0.c, f.w0.d, f.w1.a, f.w1.b, f.w1.c, f.w1.d,
     f.w2.a, f.w2.b, f.w2.c, f.w2.d, f.w3.a, f.w3.b, f.w3.c, f.w3.d]
  }

  function Columns(s: Block): Four {
    Four(ColumnOf(s, 0), ColumnOf(s, 1), ColumnOf(s, 2), ColumnOf(s, 3))
  }

  lemma BytesOfColumns(s: Block)
    ensures Bytes(Columns(s)) == s
  {
    assert ColumnOf(s, 0) == Column(s[0], s[1], s[2], s[3]) && ColumnOf(s, 1) == Column(s[4], s[5], s[6], s[7]);
    assert ColumnOf(s, 2) == Column(s[8], s[9], s[10], s[11]) && ColumnOf(s, 3) == Column(s[12], s[13], s[14], s[15]);
  }

  lemma ColumnsOfBytes(f: Four)
    ensures Columns(Bytes(f)) == f
  {
  }

  // ---------- one round at a time ----------

  function NextKey(k: Four, rcon: bv8): Four {
    var w0 := SumWord(k.w0, SumWord(SubWord(RotWord(k.w3)), Column(rcon, 0, 0, 0)));
    var w1 := SumWord(k.w1, w0);
    var w2 := SumWord(k.w2, w1);
    Four(w0, w1, w2, SumWord(k.w3, w2))
  }

  /** Four words of the schedule, from word i on. */
  function KeyWords(key: Block, i: nat): Four {
    Four(Word(key, i), Word(key, i + 1), Word(key, i + 2), Word(key, i + 3))
  }

  lemma KeyStep(key: Block, i: nat)
    requires 4 <= i < 44 && i % 4 == 0
    ensures KeyWords(key, i) == NextKey(KeyWords(key, i - 4), RCON[i / 4])
  {
    hide Word, Feed, SumWord, SubWord, RotWord;
    NewWord(key, i);
    NewWord(key, i + 1);
    NewWord(key, i + 2);
    NewWord(key, i + 3);
    FedFirst(Word(key, i - 1), i);
    FedPlain(Word(key, i), i + 1);
    FedPlain(Word(key, i + 1), i + 2);
    FedPlain(Word(key, i + 2), i + 3);
  }

  lemma FedFirst(w: Column, i: nat)
    requires 4 <= i < 44 && i % 4 == 0
    ensures Feed(w, i) == SumWord(SubWord(RotWord(w)), Column(RCON[i / 4], 0, 0, 0))
  {
    hide SumWord, SubWord, RotWord, Power;
    RconPowers(i / 4);
  }

  lemma FedPlain(w: Column, i: nat)
    requires i >= 4 && i % 4 != 0
    ensures Feed(w, i) == w
  {
    hide SumWord, SubWord, RotWord, Power;
  }

  lemma NewWord(key: Block, i: nat)
    requires i >= 4
    ensures Word(key, i) == SumWord(Word(key, i - 4), Feed(Word(key, i - 1), i))
  {
    hide SumWord, Feed;
  }

  lemma KeyColumn(key: Block, i: nat)
    requires i < 44
    ensures WordAt(Expanded(key), i) == Word(key, i)
  {
    hide Word, Expanded;
    ScheduleByte(key, 4 * i);
    ScheduleByte(key, 4 * i + 1);
    ScheduleByte(key, 4 * i + 2);
    ScheduleByte(key, 4 * i + 3);
  }

  lemma ScheduleByte(key: Block, m: nat)
    requires m < 176
    ensures Expanded(key)[m] == Entry(Word(key, m / 4), m % 4)
  {
    hide Word, Entry;
  }

  lemma KeyBytes(key: Block, r: nat)
    requires r <= 10
    ensures RoundKeyOf(Expanded(key), r) == Bytes(KeyWords(key, 4 * r))
  {
    hide Word, Expanded, Entry;
    KeyColumn(key, 4 * r);
    KeyColumn(key, 4 * r + 1);
    KeyColumn(key, 4 * r + 2);
    KeyColumn(key, 4 * r + 3);
    var s := RoundKeyOf(Expanded(key), r);
    assert forall k :: 0 <= k < 16 ==> s[k] == Expanded(key)[16 * r + k];
    hide RoundKeyOf;
    BytesOfColumns(s);
  }

  /** SubBytes and ShiftRows, by columns. */
  function Confused(s: Four): Four {
    Four(SubWord(Column(s.w0.a, s.w1.b, s.w2.c, s.w3.d)), SubWord(Column(s.w1.a, s.w2.b, s.w3.c, s.w0.d)),
         SubWord(Column(s.w2.a, s.w3.b, s.w0.c, s.w1.d)), SubWord(Column(s.w3.a, s.w0.b, s.w1.c, s.w2.d)))
  }

  function Added(s: Four, k: Four): Four {
    Four(SumWord(s.w0, k.w0), SumWord(s.w1, k.w1), SumWord(s.w2, k.w2), SumWord(s.w3, k.w3))
  }

  function NextState(s: Four, k: Four): Four {
    var c := Confused(s);
    Added(Four(Mix(c.w0), Mix(c.w1), Mix(c.w2), Mix(c.w3)), k)
  }

  function LastState(s: Four, k: Four): Four {
    Added(Confused(s), k)
  }

  lemma AddedIs(s: Block, k: Block)
    ensures Columns(Sum(s, k)) == Added(Columns(s), Columns(k))
  {
    forall i: nat | i < 16
      ensures Sum(s, k)[i] == Add(s[i], k[i])
    {
    }
    hide Sum, Add;
  }

  lemma ConfusedIs(s: Block)
    ensures Columns(Shifted(Substituted(s))) == Confused(Columns(s))
  {
    hide SBox, Shifted;
    ShiftedEntries(Substituted(s));
  }

  lemma NextStateIs(s: Block, k: Block)
    ensures Columns(Sum(Mixed(Shifted(Substituted(s))), k)) == NextState(Columns(s), Columns(k))
  {
    var c := Shifted(Substituted(s));
    hide Sum, Mixed, Shifted, Substituted, Mix, SubWord, SumWord, ColumnOf;
    ConfusedIs(s);
    MixedColumn(c, 0);
    MixedColumn(c, 1);
    MixedColumn(c, 2);
    MixedColumn(c, 3);
    AddedIs(Mixed(c), k);
  }

  lemma FirstRound(rk: Schedule, b: Block)
    ensures Columns(Rounds(rk, b, 0)) == Added(Columns(b), Columns(RoundKeyOf(rk, 0)))
  {
    hide Sum, Added, Columns, RoundKeyOf;
    AddedIs(b, RoundKeyOf(rk, 0));
  }

  lemma RoundIs(rk: Schedule, b: Block, r: nat)
    requires 1 <= r <= 9
    ensures Columns(Rounds(rk, b, r)) == NextState(Columns(Rounds(rk, b, r - 1)), Columns(RoundKeyOf(rk, r)))
  {
    hide Sum, Mixed, Shifted, Substituted, RoundKeyOf, Columns, NextState;
    NextStateIs(Rounds(rk, b, r - 1), RoundKeyOf(rk, r));
  }

  lemma LastRoundIs(rk: Schedule, b: Block, s: Block, k: Block, c: Block)
    requires s == Rounds(rk, b, 9) && k == RoundKeyOf(rk, 10) && c == Encipher(rk, b)
    ensures Columns(c) == LastState(Columns(s), Columns(k))
  {
    hide Sum, Shifted, Substituted, RoundKeyOf, Columns, Rounds, Confused, Added;
    ConfusedIs(s);
    AddedIs(Shifted(Substituted(s)), k);
  }

  // ---------- the key and its schedule, appendix A.1 of FIPS 197 ----------

  const KEY: Block := [0x2b, 0x7e, 0x15, 0x16, 0x28, 0xae, 0xd2, 0xa6,
                        0xab, 0xf7, 0x15, 0x88, 0x09, 0xcf, 0x4f, 0x3c]

  const K0 := Four(Column(0x2b, 0x7e, 0x15, 0x16), Column(0x28, 0xae, 0xd2, 0xa6),
              Column(0xab, 0xf7, 0x15, 0x88), Column(0x09, 0xcf, 0x4f, 0x3c))

  const K1 := Four(Column(0xa0, 0xfa, 0xfe, 0x17), Column(0x88, 0x54, 0x2c, 0xb1),
              Column(0x23, 0xa3, 0x39, 0x39), Column(0x2a, 0x6c, 0x76, 0x05))

  const K2 := Four(Column(0xf2, 0xc2, 0x95, 0xf2), Column(0x7a, 0x96, 0xb9, 0x43),
              Column(0x59, 0x35, 0x80, 0x7a), Column(0x73, 0x59, 0xf6, 0x7f))

  const K3 := Four(Column(0x3d, 0x80, 0x47, 0x7d), Column(0x47, 0x16, 0xfe, 0x3e),
              Column(0x1e, 0x23, 0x7e, 0x44), Column(0x6d, 0x7a, 0x88, 0x3b))

  const K4 := Four(Column(0xef, 0x44, 0xa5, 0x41), Column(0xa8, 0x52, 0x5b, 0x7f),
              Column(0xb6, 0x71, 0x25, 0x3b), Column(0xdb, 0x0b, 0xad, 0x00))

  const K5 := Four(Column(0xd4, 0xd1, 0xc6, 0xf8), Column(0x7c, 0x83, 0x9d, 0x87),
              Column(0xca, 0xf2, 0xb8, 0xbc), Column(0x11, 0xf9, 0x15, 0xbc))

  const K6 := Four(Column(0x6d, 0x88, 0xa3, 0x7a), Column(0x11, 0x0b, 0x3e, 0xfd),
              Column(0xdb, 0xf9, 0x86, 0x41), Column(0xca, 0x00, 0x93, 0xfd))

  const K7 := Four(Column(0x4e, 0x54, 0xf7, 0x0e), Column(0x5f, 0x5f, 0xc9, 0xf3),
              Column(0x84, 0xa6, 0x4f, 0xb2), Column(0x4e, 0xa6, 0xdc, 0x4f))

  const K8 := Four(Column(0xea, 0xd2, 0x73, 0x21), Column(0xb5, 0x8d, 0xba, 0xd2),
              Column(0x31, 0x2b, 0xf5, 0x60), Column(0x7f, 0x8d, 0x29, 0x2f))

  const K9 := Four(Column(0xac, 0x77, 0x66, 0xf3), Column(0x19, 0xfa, 0xdc, 0x21),
              Column(0x28, 0xd1, 0x29, 0x41), Column(0x57, 0x5c, 0x00, 0x6e))

  const K10 := Four(Column(0xd0, 0x14, 0xf9, 0xa8), Column(0xc9, 0xee, 0x25, 0x89),
               Column(0xe1, 0x3f, 0x0c, 0xc8), Column(0xb6, 0x63, 0x0c, 0xa6))

  function RoundKeys(r: nat): Four
    requires r <= 10
  {
    match r
    case 0 => K0
    case 1 => K1
    case 2 => K2
    case 3 => K3
    case 4 => K4
    case 5 => K5
    case 6 => K6
    case 7 => K7
    case 8 => K8
    case 9 => K9
    case _ => K10
  }

  lemma KeyStep0()
    ensures NextKey(K0, 0x01) == K1
  {
  }

  lemma KeyStep1()
    ensures NextKey(K1, 0x02) == K2
  {
  }

  lemma KeyStep2()
    ensures NextKey(K2, 0x04) == K3
  {
  }

  lemma KeyStep3()
    ensures NextKey(K3, 0x08) == K4
  {
  }

  lemma KeyStep4()
    ensures NextKey(K4, 0x10) == K5
  {
  }

  lemma KeyStep5()
    ensures NextKey(K5, 0x20) == K6
  {
  }

  lemma KeyStep6()
    ensures NextKey(K6, 0x40) == K7
  {
  }

  lemma KeyStep7()
    ensures NextKey(K7, 0x80) == K8
  {
  }

  lemma KeyStep8()
    ensures NextKey(K8, 0x1b) == K9
  {
  }

  lemma KeyStep9()
    ensures NextKey(K9, 0x36) == K10
  {
  }

  lemma KeyStepAnswer(r: nat)
    requires r < 10
    ensures NextKey(RoundKeys(r), RCON[r + 1]) == RoundKeys(r + 1)
  {
    hide NextKey;
    match r
    case 0 => KeyStep0();
    case 1 => KeyStep1();
    case 2 => KeyStep2();
    case 3 => KeyStep3();
    case 4 => KeyStep4();
    case 5 => KeyStep5();
    case 6 => KeyStep6();
    case 7 => KeyStep7();
    case 8 => KeyStep8();
    case _ => KeyStep9();
  }

  lemma {:induction false} KeyWordsAnswer(r: nat)
    requires r <= 10
    ensures KeyWords(KEY, 4 * r) == RoundKeys(r)
    decreases r
  {
    hide NextKey, KeyWords, RoundKeys;
    if r == 0 {
      FirstKey();
    } else {
      KeyWordsAnswer(r - 1);
      KeyStep(KEY, 4 * r);
      KeyStepAnswer(r - 1);
    }
  }

  lemma FirstKey()
    ensures KeyWords(KEY, 0) == RoundKeys(0)
  {
  }

  /** The round keys of the example. */
  lemma ScheduleAnswer(r: nat)
    requires r <= 10
    ensures RoundKeyOf(Expanded(KEY), r) == Bytes(RoundKeys(r))
  {
    hide KeyWords, RoundKeys, Bytes, Expanded, RoundKeyOf;
    KeyBytes(KEY, r);
    KeyWordsAnswer(r);
  }

  // ---------- the rounds, appendix B of FIPS 197 ----------

  const PLAIN: Block := [0x32, 0x43, 0xf6, 0xa8, 0x88, 0x5a, 0x30, 0x8d,
                          0x31, 0x31, 0x98, 0xa2, 0xe0, 0x37, 0x07, 0x34]

  const CODED: Block := [0x39, 0x25, 0x84, 0x1d, 0x02, 0xdc, 0x09, 0xfb,
                          0xdc, 0x11, 0x85, 0x97, 0x19, 0x6a, 0x0b, 0x32]

  const S0 := Four(Column(0x19, 0x3d, 0xe3, 0xbe), Column(0xa0, 0xf4, 0xe2, 0x2b),
              Column(0x9a, 0xc6, 0x8d, 0x2a), Column(0xe9, 0xf8, 0x48, 0x08))

  const S1 := Four(Column(0xa4, 0x9c, 0x7f, 0xf2), Column(0x68, 0x9f, 0x35, 0x2b),
              Column(0x6b, 0x5b, 0xea, 0x43), Column(0x02, 0x6a, 0x50, 0x49))

  const S2 := Four(Column(0xaa, 0x8f, 0x5f, 0x03), Column(0x61, 0xdd, 0xe3, 0xef),
              Column(0x82, 0xd2, 0x4a, 0xd2), Column(0x68, 0x32, 0x46, 0x9a))

  const S3 := Four(Column(0x48, 0x6c, 0x4e, 0xee), Column(0x67, 0x1d, 0x9d, 0x0d),
              Column(0x4d, 0xe3, 0xb1, 0x38), Column(0xd6, 0x5f, 0x58, 0xe7))

  const S4 := Four(Column(0xe0, 0x92, 0x7f, 0xe8), Column(0xc8, 0x63, 0x63, 0xc0),
              Column(0xd9, 0xb1, 0x35, 0x50), Column(0x85, 0xb8, 0xbe, 0x01))

  const S5 := Four(Column(0xf1, 0x00, 0x6f, 0x55), Column(0xc1, 0x92, 0x4c, 0xef),
              Column(0x7c, 0xc8, 0x8b, 0x32), Column(0x5d, 0xb5, 0xd5, 0x0c))

  const S6 := Four(Column(0x26, 0x0e, 0x2e, 0x17), Column(0x3d, 0x41, 0xb7, 0x7d),
              Column(0xe8, 0x64, 0x72, 0xa9), Column(0xfd, 0xd2, 0x8b, 0x25))

  const S7 := Four(Column(0x5a, 0x41, 0x42, 0xb1), Column(0x19, 0x49, 0xdc, 0x1f),
              Column(0xa3, 0xe0, 0x19, 0x65), Column(0x7a, 0x8c, 0x04, 0x0c))

  const S8 := Four(Column(0xea, 0x83, 0x5c, 0xf0), Column(0x04, 0x45, 0x33, 0x2d),
              Column(0x65, 0x5d, 0x98, 0xad), Column(0x85, 0x96, 0xb0, 0xc5))

  const S9 := Four(Column(0xeb, 0x40, 0xf2, 0x1e), Column(0x59, 0x2e, 0x38, 0x84),
              Column(0x8b, 0xa1, 0x13, 0xe7), Column(0x1b, 0xc3, 0x42, 0xd2))

  /** The state after the first key addition and r full rounds. */
  function States(r: nat): Four
    requires r <= 9
  {
    match r
    case 0 => S0
    case 1 => S1
    case 2 => S2
    case 3 => S3
    case 4 => S4
    case 5 => S5
    case 6 => S6
    case 7 => S7
    case 8 => S8
    case _ => S9
  }

  lemma State0()
    ensures Added(Columns(PLAIN), RoundKeys(0)) == States(0)
  {
  }

  lemma State1()
    ensures NextState(S0, K1) == S1
  {
  }

  lemma State2()
    ensures NextState(S1, K2) == S2
  {
  }

  lemma State3()
    ensures NextState(S2, K3) == S3
  {
  }

  lemma State4()
    ensures NextState(S3, K4) == S4
  {
  }

  lemma State5()
    ensures NextState(S4, K5) == S5
  {
  }

  lemma State6()
    ensures NextState(S5, K6) == S6
  {
  }

  lemma State7()
    ensures NextState(S6, K7) == S7
  {
  }

  lemma State8()
    ensures NextState(S7, K8) == S8
  {
  }

  lemma State9()
    ensures NextState(S8, K9) == S9
  {
  }

  lemma State10()
    ensures LastState(States(9), RoundKeys(10)) == Columns(CODED)
  {
  }

  lemma StateAnswer(r: nat)
    requires 1 <= r <= 9
    ensures NextState(States(r - 1), RoundKeys(r)) == States(r)
  {
    hide NextState;
    match r
    case 1 => State1();
    case 2 => State2();
    case 3 => State3();
    case 4 => State4();
    case 5 => State5();
    case 6 => State6();
    case 7 => State7();
    case 8 => State8();
    case _ => State9();
  }

  lemma {:induction false} RoundsAnswer(r: nat)
    requires r <= 9
    ensures Columns(Rounds(Expanded(KEY), PLAIN, r)) == States(r)
    decreases r
  {
    hide NextState, RoundKeys, States, Columns, Rounds, Expanded, RoundKeyOf, Added, Bytes;
    ScheduleAnswer(r);
    ColumnsOfBytes(RoundKeys(r));
    if r == 0 {
      FirstRound(Expanded(KEY), PLAIN);
      State0();
    } else {
      RoundsAnswer(r - 1);
      RoundIs(Expanded(KEY), PLAIN, r);
      StateAnswer(r);
    }
  }

  /** The example block and its ciphertext. */
  lemma CipherAnswer()
    ensures Encipher(Expanded(KEY), PLAIN) == CODED && Decipher(Expanded(KEY), CODED) == PLAIN
  {
    hide LastState, RoundKeys, States, Columns, Rounds, Expanded, RoundKeyOf, Bytes, Encipher, Decipher;
    var rk := Expanded(KEY);
    RoundsAnswer(9);
    ScheduleAnswer(10);
    ColumnsOfBytes(RoundKeys(10));
    LastRoundIs(rk, PLAIN, Rounds(rk, PLAIN, 9), RoundKeyOf(rk, 10), Encipher(rk, PLAIN));
    State10();
    BytesOfColumns(Encipher(rk, PLAIN));
    BytesOfColumns(CODED);
    CipherInverse(rk, PLAIN);
  }

  /** The same through the code: ecb::Encrypt of the example key and block. */
  method EncryptAnswer() returns (output: array<bv8>)
    ensures output[..] == CODED
  {
    hide Expanded, Encipher, Decipher, Splice;
    var input := new bv8[16](k requires 0 <= k < 16 => PLAIN[k]);
    var key := new bv8[16](k requires 0 <= k < 16 => KEY[k]);
    output := new bv8[16];
    assert input[..16] == PLAIN && key[..16] == KEY;
    CipherAnswer();
    WholeSplice(output[..], CODED);
    AesBuffers.Encrypt(input, key, output);
  }

  lemma WholeSplice(s: seq<bv8>, b: Block)
    requires |s| == 16
    ensures Splice(s, 0, b) == b
  {
  }

  // ---------- the schedule, byte by byte ----------

  lemma AddAway(x: bv8, y: bv8)
    ensures Add(x, y) ^ x == y
  {
  }

  lemma AddPlain(x: bv8, y: bv8)
    ensures Add(x, y) == x ^ y
  {
  }

  lemma EntryOfSum(v: Column, w: Column, j: nat)
    requires j < 4
    ensures Entry(SumWord(v, w), j) == Add(Entry(v, j), Entry(w, j))
  {
    hide Add;
  }

  lemma FedEntry(w: Column, i: nat, j: nat)
    requires 4 <= i < 44 && i % 4 == 0 && j < 4
    ensures Entry(Feed(w, i), j) == Add(SBox(Entry(w, (j + 1) % 4)), if j == 0 then RCON[i / 4] else 0)
  {
    hide Feed, SBox, Add;
    FedFirst(w, i);
  }

  /** What makes up a schedule: first the key; */
  lemma ScheduleStart(key: Block, m: nat)
    requires m < 16
    ensures Expanded(key)[m] == key[m]
  {
    hide Expanded, Word, Entry;
    ScheduleByte(key, m);
    KeyEntry(key, m / 4, m % 4);
  }

  /** then every byte is the sum of the byte four words back and the byte one word back, */
  lemma ScheduleLaw(key: Block, i: nat, j: nat)
    requires 4 <= i < 44 && i % 4 != 0 && j < 4
    ensures var rk := Expanded(key);
            rk[4 * i + j] ^ rk[4 * (i - 4) + j] == rk[4 * (i - 1) + j]
  {
    hide Expanded, Word, SumWord, Feed, Entry, Add;
    ScheduleBytes(key, i, j);
    FedPlain(Word(key, i - 1), i);
    AddAway(Entry(Word(key, i - 4), j), Entry(Word(key, i - 1), j));
  }

  /** which at the start of a round key is the next one in its word, substituted, with the constant of the
      round on the first. */
  lemma ScheduleTurn(key: Block, i: nat, j: nat)
    requires 4 <= i < 44 && i % 4 == 0 && j < 4
    ensures var rk := Expanded(key);
            rk[4 * i + j] ^ rk[4 * (i - 4) + j] == SBox(rk[4 * (i - 1) + (j + 1) % 4]) ^ (if j == 0 then RCON[i / 4] else 0)
  {
    hide Expanded, Word, SBox, SumWord, Feed, Entry, Add;
    var w := Word(key, i - 1);
    ScheduleBytes(key, i, j);
    ScheduleByte(key, 4 * (i - 1) + (j + 1) % 4);
    FedEntry(w, i, j);
    AddAway(Entry(Word(key, i - 4), j), Entry(Feed(w, i), j));
    AddPlain(SBox(Entry(w, (j + 1) % 4)), if j == 0 then RCON[i / 4] else 0);
  }

  lemma ScheduleBytes(key: Block, i: nat, j: nat)
    requires 4 <= i < 44 && j < 4
    ensures var rk, v, w := Expanded(key), Word(key, i - 4), Word(key, i - 1);
            && rk[4 * i + j] == Add(Entry(v, j), Entry(Feed(w, i), j))
            && rk[4 * (i - 4) + j] == Entry(v, j) && rk[4 * (i - 1) + j] == Entry(w, j)
  {
    hide Expanded, Word, SBox, SumWord, Feed, Entry, Add;
    ScheduleByte(key, 4 * i + j);
    ScheduleByte(key, 4 * (i - 4) + j);
    ScheduleByte(key, 4 * (i - 1) + j);
    NewWord(key, i);
    EntryOfSum(Word(key, i - 4), Feed(Word(key, i - 1), i), j);
  }

  lemma KeyEntry(key: Block, i: nat, j: nat)
    requires i < 4 && j < 4
    ensures Entry(Word(key, i), j) == key[4 * i + j]
  {
  }
}
