/** Key expansion, Cipher and InvCipher of dev/algorithmic/src/crypt-aes.cpp for 128-bit keys:
    Nb = 4, Nk = 4, Nr = 10. */
module AesCipher {

  import opened AesTables
  import opened AesField
  import opened AesState

  // ---------- key expansion, section 5.2 of FIPS 197 ----------

  /** The entries of Rcon that a 128-bit key reads: 1 to 10. */
  const RCON: seq<bv8> := [0x8d, 0x01, 0x02, 0x04, 0x08, 0x10, 0x20, 0x40, 0x80, 0x1b, 0x36]

  /** x to the power n in GF(2^8). */
  function Power(n: nat): bv8 {
    if n == 0 then 1 else Xtime(Power(n - 1))
  }

  lemma RconPowers(k: nat)
    requires 1 <= k <= 10
    ensures RCON[k] == Power(k - 1)
  {
    assert Power(0) == 0x01;
    assert Power(1) == 0x02;
    assert Power(2) == 0x04;
    assert Power(3) == 0x08;
    assert Power(4) == 0x10;
    assert Power(5) == 0x20;
    assert Power(6) == 0x40;
    assert Power(7) == 0x80;
    assert Power(8) == 0x1b;
    assert Power(9) == 0x36;
  }

  function RotWord(w: Column): Column {
    Column(w.b, w.c, w.d, w.a)
  }

  function SubWord(w: Column): Column {
    Column(SBox(w.a), SBox(w.b), SBox(w.c), SBox(w.d))
  }

  function SumWord(v: Column, w: Column): Column {
    Column(Add(v.a, w.a), Add(v.b, w.b), Add(v.c, w.c), Add(v.d, w.d))
  }

  /** What is added to the word four places back. */
  function Feed(w: Column, i: nat): Column
    requires i >= 4
  {
    if i % 4 == 0 then SumWord(SubWord(RotWord(w)), Column(Power(i / 4 - 1), 0, 0, 0)) else w
  }

  /** Word i of the key schedule. */
  function Word(key: Block, i: nat): Column
    decreases i
  {
    if i < 4 then ColumnOf(key, i) else SumWord(Word(key, i - 4), Feed(Word(key, i - 1), i))
  }

  type Schedule = s: seq<bv8> | |s| == 176 witness seq(176, _ => 0 as bv8)

  function Expanded(key: Block): Schedule {
    seq(176, m requires 0 <= m < 176 => Entry(Word(key, m / 4), m % 4))
  }

  function WordAt(s: seq<bv8>, i: nat): Column
    requires 4 * i + 4 <= |s|
  {
    Column(s[4 * i], s[4 * i + 1], s[4 * i + 2], s[4 * i + 3])
  }

  /** The first n words of the schedule are in place. */
  predicate Filled(s: seq<bv8>, key: Block, n: nat)
    requires 4 * n <= |s|
  {
    forall i: nat :: i < n ==> WordAt(s, i) == Word(key, i)
  }

  lemma FilledOne(s: seq<bv8>, t: seq<bv8>, key: Block, n: nat)
    requires 4 * n + 4 <= |s| == |t| && Filled(s, key, n)
    requires s[..4 * n] == t[..4 * n] && WordAt(t, n) == Word(key, n)
    ensures Filled(t, key, n + 1)
  {
    forall i: nat | i < n + 1
      ensures WordAt(t, i) == Word(key, i)
    {
      if i < n {
        assert WordAt(s, i) == Word(key, i);
        assert s[..4 * n][4 * i] == t[..4 * n][4 * i] && s[..4 * n][4 * i + 1] == t[..4 * n][4 * i + 1];
        assert s[..4 * n][4 * i + 2] == t[..4 * n][4 * i + 2] && s[..4 * n][4 * i + 3] == t[..4 * n][4 * i + 3];
      }
    }
  }

  lemma FilledAll(s: seq<bv8>, key: Block)
    requires |s| == 176 && Filled(s, key, 44)
    ensures s == Expanded(key)
  {
    hide Word;
    forall m: nat | m < 176
      ensures s[m] == Entry(Word(key, m / 4), m % 4)
    {
      assert WordAt(s, m / 4) == Word(key, m / 4);
      WordEntry(s, m);
    }
  }

  lemma WordEntry(s: seq<bv8>, m: nat)
    requires |s| == 176 && m < 176
    ensures s[m] == Entry(WordAt(s, m / 4), m % 4)
  {
  }

  /** RotWord, SubWord and the round constant, on the bytes of tempa. */
  method RotateAndSubstitute(tempa: array<bv8>, rcon: bv8)
    requires tempa.Length == 4
    modifies tempa
    ensures var w := old(WordAt(tempa[..], 0));
            WordAt(tempa[..], 0) == Column(Add(SBox(w.b), rcon), SBox(w.c), SBox(w.d), SBox(w.a))
  {
    hide SBox, Add;
    var k := tempa[0];
    tempa[0] := tempa[1];
    tempa[1] := tempa[2];
    tempa[2] := tempa[3];
    tempa[3] := k;
    tempa[0] := SBox(tempa[0]);
    tempa[1] := SBox(tempa[1]);
    tempa[2] := SBox(tempa[2]);
    tempa[3] := SBox(tempa[3]);
    tempa[0] := Add(tempa[0], rcon);
  }

  /** The first half of a turn of the second loop of KeyExpansion: the four bytes of tempa. */
  method FeedBytes(roundKey: array<bv8>, i: nat) returns (tempa: array<bv8>)
    requires roundKey.Length == 176 && 4 <= i < 44
    ensures tempa.Length == 4 && fresh(tempa)
    ensures WordAt(tempa[..], 0) == Feed(WordAt(roundKey[..], i - 1), i)
  {
    hide SBox, Power, Add;
    tempa := new bv8[4];
    for j := 0 to 4
      invariant forall k :: 0 <= k < j ==> tempa[k] == roundKey[4 * (i - 1) + k]
    {
      tempa[j] := roundKey[(i - 1) * 4 + j];
    }
    if i % 4 == 0 {
      RconPowers(i / 4);
      RotateAndSubstitute(tempa, RCON[i / 4]);
    }
    FedWord(WordAt(roundKey[..], i - 1), i, WordAt(tempa[..], 0));
  }

  lemma FedWord(w: Column, i: nat, fed: Column)
    requires 4 <= i
    requires fed == if i % 4 == 0 then Column(Add(SBox(w.b), Power(i / 4 - 1)), SBox(w.c), SBox(w.d), SBox(w.a)) else w
    ensures fed == Feed(w, i)
  {
    hide SBox, Power, Add;
    AddZero(SBox(w.c));
    AddZero(SBox(w.d));
    AddZero(SBox(w.a));
  }

  lemma AddZero(x: bv8)
    ensures Add(x, 0) == x
  {
  }

  /** The second half: the new word. */
  method ExpandWord(roundKey: array<bv8>, i: nat)
    requires roundKey.Length == 176 && 4 <= i < 44
    modifies roundKey
    ensures WordAt(roundKey[..], i) == SumWord(old(WordAt(roundKey[..], i - 4)), Feed(old(WordAt(roundKey[..], i - 1)), i))
    ensures roundKey[..4 * i] == old(roundKey[..4 * i])
  {
    hide Add, Feed;
    var tempa := FeedBytes(roundKey, i);
    roundKey[i * 4 + 0] := Add(roundKey[(i - 4) * 4 + 0], tempa[0]);
    roundKey[i * 4 + 1] := Add(roundKey[(i - 4) * 4 + 1], tempa[1]);
    roundKey[i * 4 + 2] := Add(roundKey[(i - 4) * 4 + 2], tempa[2]);
    roundKey[i * 4 + 3] := Add(roundKey[(i - 4) * 4 + 3], tempa[3]);
  }

  method KeyExpansion(key: array<bv8>, roundKey: array<bv8>)
    requires key.Length >= 16 && roundKey.Length == 176 && key != roundKey
    modifies roundKey
    ensures roundKey[..] == Expanded(key[..16])
  {
    hide Word, WordAt, Filled;
    ghost var k: Block := key[..16];
    var i := 0;
    FilledNone(roundKey[..], k);
    while i < 4
      invariant 0 <= i <= 4 && Filled(roundKey[..], k, i)
    {
      ghost var was := roundKey[..];
      roundKey[i * 4 + 0] := key[i * 4 + 0];
      roundKey[i * 4 + 1] := key[i * 4 + 1];
      roundKey[i * 4 + 2] := key[i * 4 + 2];
      roundKey[i * 4 + 3] := key[i * 4 + 3];
      KeyWord(roundKey[..], k, i);
      FilledOne(was, roundKey[..], k, i);
      i := i + 1;
    }
    while i < 44
      invariant 4 <= i <= 44 && Filled(roundKey[..], k, i)
    {
      ghost var was := roundKey[..];
      NextWord(was, k, i);
      ExpandWord(roundKey, i);
      assert was[..4 * i] == roundKey[..][..4 * i];
      FilledOne(was, roundKey[..], k, i);
      i := i + 1;
    }
    FilledAll(roundKey[..], k);
  }

  lemma FilledNone(s: seq<bv8>, key: Block)
    ensures Filled(s, key, 0)
  {
  }

  lemma KeyWord(s: seq<bv8>, key: Block, i: nat)
    requires i < 4 && 4 * i + 4 <= |s|
    requires s[4 * i] == key[4 * i] && s[4 * i + 1] == key[4 * i + 1] && s[4 * i + 2] == key[4 * i + 2] && s[4 * i + 3] == key[4 * i + 3]
    ensures WordAt(s, i) == Word(key, i)
  {
  }

  lemma NextWord(s: seq<bv8>, key: Block, i: nat)
    requires 4 <= i && 4 * i + 4 <= |s| && Filled(s, key, i)
    ensures Word(key, i) == SumWord(WordAt(s, i - 4), Feed(WordAt(s, i - 1), i))
  {
    hide SumWord, Feed, WordAt;
  }

  // ---------- Cipher and InvCipher, sections 5.1 and 5.3 of FIPS 197 ----------

  function RoundKeyOf(rk: Schedule, round: nat): Block
    requires round <= 10
  {
    BlockAt(rk, 16 * round)
  }

  /** The state after the first key addition and r full rounds. */
  function Rounds(rk: Schedule, b: Block, r: nat): Block
    requires r <= 9
    decreases r
  {
    if r == 0 then Sum(b, RoundKeyOf(rk, 0))
    else Sum(Mixed(Shifted(Substituted(Rounds(rk, b, r - 1)))), RoundKeyOf(rk, r))
  }

  function Encipher(rk: Schedule, b: Block): Block {
    Sum(Shifted(Substituted(Rounds(rk, b, 9))), RoundKeyOf(rk, 10))
  }

  /** The rest of InvCipher when r full inverse rounds are still to come. */
  function Backward(rk: Schedule, s: Block, r: nat): Block
    requires r <= 9
    decreases r
  {
    var t := Sum(Unsubstituted(Unshifted(s)), RoundKeyOf(rk, r));
    if r == 0 then t else Backward(rk, Unmixed(t), r - 1)
  }

  function Decipher(rk: Schedule, b: Block): Block {
    Backward(rk, Sum(b, RoundKeyOf(rk, 10)), 9)
  }

  /** The inverse rounds take the forward rounds back one by one. */
  lemma {:induction false} BackwardUndoes(rk: Schedule, b: Block, r: nat)
    requires r <= 9
    ensures Backward(rk, Shifted(Substituted(Rounds(rk, b, r))), r) == b
    decreases r
  {
    hide Sum, Shifted, Substituted, Mixed, Unshifted, Unsubstituted, Unmixed, RoundKeyOf;
    var s := Rounds(rk, b, r);
    ShiftInverse(Substituted(s));
    SubstitutionInverse(s);
    if r == 0 {
      SumTwice(b, RoundKeyOf(rk, 0));
    } else {
      var prior := Shifted(Substituted(Rounds(rk, b, r - 1)));
      SumTwice(Mixed(prior), RoundKeyOf(rk, r));
      MixInverse(prior);
      BackwardUndoes(rk, b, r - 1);
    }
  }

  /** And the forward rounds take the inverse rounds back. */
  lemma {:induction false} ForwardUndoes(rk: Schedule, s: Block, r: nat)
    requires r <= 9
    ensures Shifted(Substituted(Rounds(rk, Backward(rk, s, r), r))) == s
    decreases r
  {
    hide Sum, Shifted, Substituted, Mixed, Unshifted, Unsubstituted, Unmixed, RoundKeyOf;
    var u := Unsubstituted(Unshifted(s));
    ShiftInverse(s);
    SubstitutionInverse(Unshifted(s));
    SumTwice(u, RoundKeyOf(rk, r));
    if r > 0 {
      var t := Sum(u, RoundKeyOf(rk, r));
      MixInverse(t);
      ForwardUndoes(rk, Unmixed(t), r - 1);
    }
  }

  /** For every key schedule, InvCipher and Cipher undo each other on every block. */
  lemma CipherInverse(rk: Schedule, b: Block)
    ensures Decipher(rk, Encipher(rk, b)) == b && Encipher(rk, Decipher(rk, b)) == b
  {
    hide Sum, Shifted, Substituted, RoundKeyOf, Rounds, Backward;
    SumTwice(Shifted(Substituted(Rounds(rk, b, 9))), RoundKeyOf(rk, 10));
    BackwardUndoes(rk, b, 9);
    ForwardUndoes(rk, Sum(b, RoundKeyOf(rk, 10)), 9);
    SumTwice(b, RoundKeyOf(rk, 10));
  }

  method Cipher(roundKey: array<bv8>, state: array<bv8>, p: nat)
    requires roundKey.Length == 176 && p + 16 <= state.Length && state != roundKey
    modifies state
    ensures state[..] == Splice(old(state[..]), p, Encipher(roundKey[..], old(BlockAt(state[..], p))))
  {
    hide Sum, Shifted, Substituted, Mixed, Splice, BlockAt;
    ghost var rk: Schedule, was := roundKey[..], state[..];
    ghost var b := BlockAt(was, p);
    AddRoundKey(0, roundKey, state, p);
    var round := 1;
    while round < 10
      invariant 1 <= round <= 10
      invariant |state[..]| == |was| && roundKey[..] == rk
      invariant state[..] == Splice(was, p, Rounds(rk, b, round - 1))
    {
      ghost var s := Rounds(rk, b, round - 1);
      SpliceLaws(was, p, s, Substituted(s));
      SubBytes(state, p);
      SpliceLaws(was, p, Substituted(s), Shifted(Substituted(s)));
      ShiftRows(state, p);
      SpliceLaws(was, p, Shifted(Substituted(s)), Mixed(Shifted(Substituted(s))));
      MixColumns(state, p);
      SpliceLaws(was, p, Mixed(Shifted(Substituted(s))), Rounds(rk, b, round));
      AddRoundKey(round, roundKey, state, p);
      round := round + 1;
    }
    ghost var s := Rounds(rk, b, 9);
    SpliceLaws(was, p, s, Substituted(s));
    SubBytes(state, p);
    SpliceLaws(was, p, Substituted(s), Shifted(Substituted(s)));
    ShiftRows(state, p);
    SpliceLaws(was, p, Shifted(Substituted(s)), Encipher(rk, b));
    AddRoundKey(10, roundKey, state, p);
  }

  method InvCipher(roundKey: array<bv8>, state: array<bv8>, p: nat)
    requires roundKey.Length == 176 && p + 16 <= state.Length && state != roundKey
    modifies state
    ensures state[..] == Splice(old(state[..]), p, Decipher(roundKey[..], old(BlockAt(state[..], p))))
  {
    hide Sum, Unshifted, Unsubstituted, Unmixed, Splice, BlockAt;
    ghost var rk: Schedule, was := roundKey[..], state[..];
    ghost var b := BlockAt(was, p);
    AddRoundKey(10, roundKey, state, p);
    ghost var s := Sum(b, RoundKeyOf(rk, 10));
    var round := 9;
    while round > 0
      invariant 0 <= round <= 9
      invariant |state[..]| == |was| && roundKey[..] == rk
      invariant state[..] == Splice(was, p, s)
      invariant Backward(rk, s, round) == Decipher(rk, b)
    {
      SpliceLaws(was, p, s, Unshifted(s));
      InvShiftRows(state, p);
      SpliceLaws(was, p, Unshifted(s), Unsubstituted(Unshifted(s)));
      InvSubBytes(state, p);
      ghost var t := Sum(Unsubstituted(Unshifted(s)), RoundKeyOf(rk, round));
      SpliceLaws(was, p, Unsubstituted(Unshifted(s)), t);
      AddRoundKey(round, roundKey, state, p);
      SpliceLaws(was, p, t, Unmixed(t));
      InvMixColumns(state, p);
      s := Unmixed(t);
      round := round - 1;
    }
    SpliceLaws(was, p, s, Unshifted(s));
    InvShiftRows(state, p);
    SpliceLaws(was, p, Unshifted(s), Unsubstituted(Unshifted(s)));
    InvSubBytes(state, p);
    SpliceLaws(was, p, Unsubstituted(Unshifted(s)), Decipher(rk, b));
    AddRoundKey(0, roundKey, state, p);
  }
}
