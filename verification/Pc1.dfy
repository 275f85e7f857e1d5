/** The PC1 stream cipher of dev/algorithmic/src/pc1cipher.cpp: a coder of 16-bit registers whose key is
    changed by every plaintext byte, and the text forms that write each byte as two letters. */
module Pc1 {

  import opened CStrings

  // ---------- the coder as arithmetic ----------

  /** The registers that survive from one byte to the next. */
  datatype Coder = Coder(x1a2: bv16, si: bv16)

  const START := Coder(0, 0)

  function Times(x: bv16, y: bv16): bv16 {
    x * y
  }

  function Plus(x: bv16, y: bv16): bv16 {
    x + y
  }

  function Xor(x: bv16, y: bv16): bv16 {
    x ^ y
  }

  /** A step number as a register value. */
  function Number(i: nat): bv16
    requires i < 8
  {
    i as bv16
  }

  /** The new key register of one code step. */
  function NextKey(a: bv16): bv16 {
    Plus(Times(a, 0x4e35), 1)
  }

  /** The new coder registers of code step i on key register a. */
  function NextCoder(c: Coder, a: bv16, i: bv16): Coder {
    Coder(Plus(Plus(Times(0x015a, a), Times(Plus(c.x1a2, i), 0x4e35)), c.si), Times(0x015a, a))
  }

  function Wide(x: bv8): bv16 {
    x as bv16
  }

  /** Key word i: two bytes, the first one high. */
  function KeyWord(key16: seq<bv8>, i: nat): bv16
    requires |key16| == 16 && i < 8
  {
    Plus(Times(Wide(key16[2 * i]), 256), Wide(key16[2 * i + 1]))
  }

  /** The result of the code steps from i on; a is the key register left by step i - 1. */
  datatype Coded = Coded(coder: Coder, inter: bv16)

  function Steps(c: Coder, key16: seq<bv8>, i: nat, a: bv16, inter: bv16): Coded
    requires |key16| == 16 && i <= 8
    decreases 8 - i
  {
    if i == 8 then Coded(c, inter)
    else
      var x := Xor(a, KeyWord(key16, i));
      var next := NextCoder(c, x, Number(i));
      Steps(next, key16, i + 1, NextKey(x), Xor(inter, Xor(NextKey(x), next.x1a2)))
  }

  /** One Update. */
  function Updated(c: Coder, key16: seq<bv8>): Coded
    requires |key16| == 16
  {
    Steps(c, key16, 0, 0, 0)
  }

  /** The byte that is added to the message: cfc ^ cfd. */
  function Mask(v: bv16): bv8 {
    ((v >> 8) as bv8) ^ ((v & 255) as bv8)
  }

  // ---------- the ciphers ----------

  function Add(x: bv8, y: bv8): bv8 {
    x ^ y
  }

  /** The key after a plaintext byte was added to each of its bytes. */
  function Fed(key16: seq<bv8>, b: bv8): (k: seq<bv8>)
    ensures |k| == |key16|
  {
    seq(|key16|, c requires 0 <= c < |key16| => Add(key16[c], b))
  }

  function Enc(c: Coder, key16: seq<bv8>, msg: seq<bv8>): (out: seq<bv8>)
    requires |key16| == 16
    ensures |out| == |msg|
    decreases |msg|
  {
    if msg == [] then []
    else
      var u := Updated(c, key16);
      [Add(msg[0], Mask(u.inter))] + Enc(u.coder, Fed(key16, msg[0]), msg[1..])
  }

  function Dec(c: Coder, key16: seq<bv8>, msg: seq<bv8>): (out: seq<bv8>)
    requires |key16| == 16
    ensures |out| == |msg|
    decreases |msg|
  {
    if msg == [] then []
    else
      var u := Updated(c, key16);
      var b := Add(msg[0], Mask(u.inter));
      [b] + Dec(u.coder, Fed(key16, b), msg[1..])
  }

  /** The first sixteen bytes of the key, filled up with zeros. */
  function Key16(key: seq<bv8>): (k: seq<bv8>)
    ensures |k| == 16
  {
    seq(16, c requires 0 <= c < 16 => if c < |key| then key[c] else 0)
  }

  function Encrypted(key: seq<bv8>, msg: seq<bv8>): (out: seq<bv8>)
    ensures |out| == |msg|
  {
    Enc(START, Key16(key), msg)
  }

  function Decrypted(key: seq<bv8>, msg: seq<bv8>): (out: seq<bv8>)
    ensures |out| == |msg|
  {
    Dec(START, Key16(key), msg)
  }

  lemma XorTwice(x: bv8, y: bv8)
    ensures Add(Add(x, y), y) == x
  {
  }

  /** Both sides stay in the same state: from any coder and key, each cipher undoes the other. */
  lemma {:induction false} InStep(c: Coder, key16: seq<bv8>, msg: seq<bv8>)
    requires |key16| == 16
    ensures Dec(c, key16, Enc(c, key16, msg)) == msg
    ensures Enc(c, key16, Dec(c, key16, msg)) == msg
    decreases |msg|
  {
    hide Updated, Mask, Fed, Add;
    if msg != [] {
      var u := Updated(c, key16);
      var m := Mask(u.inter);
      var e, d := Enc(c, key16, msg), Dec(c, key16, msg);
      XorTwice(msg[0], m);
      InStep(u.coder, Fed(key16, msg[0]), msg[1..]);
      InStep(u.coder, Fed(key16, Add(msg[0], m)), msg[1..]);
      assert e[1..] == Enc(u.coder, Fed(key16, msg[0]), msg[1..]);
      assert d[1..] == Dec(u.coder, Fed(key16, Add(msg[0], m)), msg[1..]);
      assert msg == [msg[0]] + msg[1..];
    }
  }

  /** PC1Dec undoes PC1Enc and PC1Enc undoes PC1Dec, for every key and message. */
  lemma CiphersInverse(key: seq<bv8>, msg: seq<bv8>)
    ensures Decrypted(key, Encrypted(key, msg)) == msg && Encrypted(key, Decrypted(key, msg)) == msg
  {
    hide Enc, Dec;
    InStep(START, Key16(key), msg);
  }

  /** What was enciphered so far does not depend on what follows. */
  lemma {:induction false} Streams(c: Coder, key16: seq<bv8>, msg: seq<bv8>, more: seq<bv8>)
    requires |key16| == 16
    ensures Enc(c, key16, msg + more)[..|msg|] == Enc(c, key16, msg)
    decreases |msg|
  {
    hide Updated, Mask, Fed;
    if msg != [] {
      var u := Updated(c, key16);
      assert (msg + more)[1..] == msg[1..] + more;
      Streams(u.coder, Fed(key16, msg[0]), msg[1..], more);
    }
  }

  // ---------- letters ----------

  function Low(b: bv8): bv8 {
    b & 0x0f
  }

  function High(b: bv8): bv8 {
    b >> 4
  }

  function Letter(nibble: bv8, begin: bv8): bv8 {
    nibble + begin
  }

  /** Low nibble first. */
  function Letters(cipher: seq<bv8>, begin: bv8): (text: seq<bv8>)
    ensures |text| == 2 * |cipher|
  {
    seq(2 * |cipher|, k requires 0 <= k < 2 * |cipher| =>
      Letter(if k % 2 == 0 then Low(cipher[k / 2]) else High(cipher[k / 2]), begin))
  }

  function Nibble(letter: bv8, begin: bv8): bv8 {
    letter - begin
  }

  function Join(low: bv8, high: bv8): bv8 {
    (high << 4) + low
  }

  function Unletter(low: bv8, high: bv8, begin: bv8): bv8 {
    Join(Nibble(low, begin), Nibble(high, begin))
  }

  /** The letter at k; a terminating zero follows the last one. */
  function LetterAt(text: seq<bv8>, k: nat): bv8 {
    if k < |text| then text[k] else 0
  }

  /** The bytes of a text, two letters each; the terminator stands in for a missing last letter. */
  function Unletters(text: seq<bv8>, begin: bv8): (cipher: seq<bv8>)
    ensures |cipher| == (1 + |text|) / 2
  {
    seq((1 + |text|) / 2, j requires 0 <= j < (1 + |text|) / 2 =>
      Unletter(LetterAt(text, 2 * j), LetterAt(text, 2 * j + 1), begin))
  }

  function EncT(key: seq<bv8>, msg: seq<bv8>, begin: bv8): seq<bv8> {
    Letters(Encrypted(key, msg), begin)
  }

  function DecT(key: seq<bv8>, text: seq<bv8>, begin: bv8): seq<bv8> {
    Decrypted(key, Unletters(CString(text), begin))
  }

  lemma UnletterLetters(b: bv8, begin: bv8)
    ensures Unletter(Letter(Low(b), begin), Letter(High(b), begin), begin) == b
  {
    hide Letter, Low, High, Nibble, Join;
    LetterBack(Low(b), begin);
    LetterBack(High(b), begin);
    JoinHalves(b);
  }

  lemma JoinHalves(b: bv8)
    ensures Join(Low(b), High(b)) == b
  {
  }

  lemma LetterBack(nibble: bv8, begin: bv8)
    ensures Nibble(Letter(nibble, begin), begin) == nibble
  {
  }

  lemma LettersOf(cipher: seq<bv8>, begin: bv8, j: nat)
    requires j < |cipher|
    ensures Letters(cipher, begin)[2 * j] == Letter(Low(cipher[j]), begin)
    ensures Letters(cipher, begin)[2 * j + 1] == Letter(High(cipher[j]), begin)
  {
    hide Letter, Low, High;
  }

  lemma PairBack(cipher: seq<bv8>, begin: bv8, k: nat, j: nat)
    requires k <= 2 * |cipher| && j < (1 + k) / 2
    requires k < 2 * |cipher| ==> Letters(cipher, begin)[k] == 0
    ensures var text := Letters(cipher, begin)[..k];
            Unletter(LetterAt(text, 2 * j), LetterAt(text, 2 * j + 1), begin) == cipher[j]
  {
    hide Letters, Letter, Unletter, Low, High;
    LettersOf(cipher, begin, j);
    UnletterLetters(cipher[j], begin);
  }

  /** Reading k of the letters back gives as many bytes, rounded up: a zero letter that cuts the text
      in the middle of a byte is read as that byte's second letter after all. */
  lemma UnlettersPrefix(cipher: seq<bv8>, begin: bv8, k: nat)
    requires k <= 2 * |cipher|
    requires k < 2 * |cipher| ==> Letters(cipher, begin)[k] == 0
    ensures Unletters(Letters(cipher, begin)[..k], begin) == cipher[..(1 + k) / 2]
  {
    hide Letters, Letter, Unletter, LetterAt;
    var text := Letters(cipher, begin)[..k];
    forall j: nat | j < (1 + k) / 2
      ensures Unletter(LetterAt(text, 2 * j), LetterAt(text, 2 * j + 1), begin) == cipher[j]
    {
      PairBack(cipher, begin, k, j);
    }
  }

  /** For one text: PC1DecT undoes PC1EncT exactly when no letter but possibly the last is a zero. */
  lemma TextRecovered(key: seq<bv8>, msg: seq<bv8>, begin: bv8)
    ensures DecT(key, EncT(key, msg, begin), begin) == msg <==>
            msg == [] || 0 !in EncT(key, msg, begin)[..2 * |msg| - 1]
  {
    hide Enc, Dec, Letters, Unletters, Key16;
    var cipher := Encrypted(key, msg);
    var text := Letters(cipher, begin);
    var k := |CString(text)|;
    CStringStops(text);
    UnlettersPrefix(cipher, begin, k);
    assert text[..k] == CString(text);
    CiphersInverse(key, msg);
    if msg != [] {
      assert 0 in text[..2 * |msg| - 1] <==> k < 2 * |msg| - 1 by {
        if k < 2 * |msg| - 1 {
          assert text[..2 * |msg| - 1][k] == 0;
        } else {
          assert text[..2 * |msg| - 1] == CString(text)[..2 * |msg| - 1];
        }
      }
    }
    if (1 + k) / 2 == |msg| {
      assert cipher[..(1 + k) / 2] == cipher;
    }
  }

  /** The begin letters for which none of the sixteen letters is a zero. */
  predicate SafeBegin(begin: bv8) {
    1 <= begin <= 240
  }

  lemma LettersSafe(nibble: bv8, begin: bv8)
    requires nibble < 16 && SafeBegin(begin)
    ensures Letter(nibble, begin) != 0
  {
  }

  lemma ZeroLetter(begin: bv8)
    requires !SafeBegin(begin)
    ensures var n := 0 - begin;
            n < 16 && Letter(Low(n), begin) == 0 && Letter(Low(n | 0x10), begin) == 0 && n != n | 0x10
  {
  }

  /** The text forms are inverse for every key and every text exactly when begin is 1 to 240. */
  lemma TextFormsInverse(begin: bv8)
    ensures SafeBegin(begin) <==> forall key, msg :: 0 !in msg ==> DecT(key, EncT(key, msg, begin), begin) == msg
  {
    hide DecT, EncT, SafeBegin;
    if SafeBegin(begin) {
      forall key, msg
        ensures DecT(key, EncT(key, msg, begin), begin) == msg
      {
        NoZeroLetters(key, msg, begin);
        TextRecovered(key, msg, begin);
      }
    } else {
      var msg := LostText(begin);
      TextRecovered([], msg, begin);
    }
  }

  lemma NoZeroLetters(key: seq<bv8>, msg: seq<bv8>, begin: bv8)
    requires SafeBegin(begin)
    ensures 0 !in EncT(key, msg, begin)
  {
    hide Enc, Letter, SafeBegin, Key16;
    var cipher := Encrypted(key, msg);
    forall k | 0 <= k < 2 * |cipher|
      ensures Letters(cipher, begin)[k] != 0
    {
      Nibbles(cipher[k / 2]);
      LettersSafe(Low(cipher[k / 2]), begin);
      LettersSafe(High(cipher[k / 2]), begin);
    }
  }

  lemma Nibbles(b: bv8)
    ensures Low(b) < 16 && High(b) < 16
  {
  }

  /** With any other begin, some one-character text under the empty key starts with a zero letter. */
  lemma LostText(begin: bv8) returns (msg: seq<bv8>)
    requires !SafeBegin(begin)
    ensures |msg| == 1 && 0 !in msg && 0 in EncT([], msg, begin)[..1]
  {
    hide Updated, Letter, Mask, SafeBegin, Add, Low;
    ZeroLetter(begin);
    var m := Mask(Updated(START, Key16([])).inter);
    var n := 0 - begin;
    var target: bv8 := if n == m then n | 0x10 else n;
    msg := [Add(target, m)];
    XorTwice(target, m);
    XorDiffers(target, m);
    assert Enc(Updated(START, Key16([])).coder, Fed(Key16([]), msg[0]), msg[1..]) == [];
    assert Encrypted([], msg) == [target];
    assert EncT([], msg, begin)[..1][0] == Letter(Low(target), begin);
  }

  lemma XorDiffers(x: bv8, y: bv8)
    requires x != y
    ensures Add(x, y) != 0
  {
  }

  // ---------- the code ----------

  lemma TimesZero(x: bv16)
    ensures Times(0, x) == 0
  {
  }

  class PC1Coder {
    var ax: bv16
    var bx: bv16
    var cx: bv16
    var dx: bv16
    var si: bv16
    var tmp: bv16
    var x1a2: bv16
    var res: bv16
    var inter: bv16
    const x1a0: array<bv16>

    constructor ()
      ensures fresh(x1a0) && x1a0.Length == 8 && State() == START
    {
      x1a0 := new bv16[8](_ => 0);
      ax, bx, cx, dx := 0, 0, 0, 0;
      si, tmp, x1a2, res, inter := 0, 0, 0, 0, 0;
    }

    function State(): Coder
      reads this
    {
      Coder(x1a2, si)
    }

    method MultiplyAx()
      modifies this`ax
      ensures ax == Times(old(ax), bx)
    {
      hide Times;
      TimesZero(bx);
      if ax != 0 {
        ax := Times(ax, bx);
      }
    }

    /** The first half of code: the register swaps and the first product. */
    method Mix(i: nat)
      requires x1a0.Length == 8 && i < 8
      modifies this`ax, this`bx, this`cx, this`dx, this`si, this`tmp
      ensures ax == 0x015a && bx == 0x4e35 && cx == Times(Plus(x1a2, Number(i)), 0x4e35)
      ensures si == x1a0[i] && dx == old(si)
    {
      hide Times, Plus, Xor, Number;
      dx := Plus(x1a2, Number(i));
      ax := x1a0[i];
      cx := 0x015a;
      bx := 0x4e35;
      tmp := ax;
      ax := si;
      si := tmp;
      tmp := ax;
      ax := dx;
      dx := tmp;
      MultiplyAx();
      tmp := ax;
      ax := cx;
      cx := tmp;
    }

    method Code(i: nat)
      requires x1a0.Length == 8 && i < 8
      modifies this`ax, this`bx, this`cx, this`dx, this`si, this`tmp, this`x1a2, this`res, x1a0
      ensures State() == NextCoder(old(State()), old(x1a0[i]), Number(i))
      ensures x1a0[i] == NextKey(old(x1a0[i])) && res == Xor(x1a0[i], x1a2)
      ensures forall k :: 0 <= k < 8 && k != i ==> x1a0[k] == old(x1a0[k])
    {
      hide Times, Plus, Xor, Number;
      Mix(i);
      if ax != 0 {
        ax := Times(ax, si);
        cx := Plus(ax, cx);
      }
      tmp := ax;
      ax := si;
      si := tmp;
      ax := Times(ax, bx);
      dx := Plus(cx, dx);
      ax := Plus(ax, 1);
      x1a2 := dx;
      x1a0[i] := ax;
      res := Xor(ax, dx);
    }

    /** One of the eight steps of Update: key word i on top of register i - 1, then the code step. */
    method UpdateStep(k16: array<bv8>, i: nat)
      requires x1a0.Length == 8 && k16.Length == 16 && i < 8
      modifies this, x1a0
      ensures var x := Xor(if i == 0 then 0 else old(x1a0[i - 1]), KeyWord(k16[..], i));
              && State() == NextCoder(old(State()), x, Number(i))
              && x1a0[i] == NextKey(x)
              && inter == Xor(if i == 0 then 0 else old(inter), Xor(NextKey(x), x1a2))
      ensures forall k :: 0 <= k < 8 && k != i ==> x1a0[k] == old(x1a0[k])
    {
      hide NextCoder, NextKey, Plus, Times, Xor, Number, Wide;
      var word := Plus(Times(Wide(k16[2 * i]), 256), Wide(k16[2 * i + 1]));
      assert word == KeyWord(k16[..], i);
      hide KeyWord;
      ZeroXor(word);
      if i == 0 {
        x1a0[0] := word;
        Code(0);
        ZeroXor(res);
        inter := res;
      } else {
        x1a0[i] := Xor(x1a0[i - 1], word);
        Code(i);
        inter := Xor(inter, res);
      }
    }

    method Update(k16: array<bv8>) returns (v: bv16)
      requires x1a0.Length == 8 && k16.Length == 16
      modifies this, x1a0
      ensures Coded(State(), v) == Updated(old(State()), k16[..])
    {
      hide NextCoder, NextKey, KeyWord, Steps, Xor, Number;
      ghost var u := Updated(State(), k16[..]);
      for i := 0 to 8
        invariant Steps(State(), k16[..], i, if i == 0 then 0 else x1a0[i - 1], if i == 0 then 0 else inter) == u
      {
        OneStep(State(), k16[..], i, if i == 0 then 0 else x1a0[i - 1], if i == 0 then 0 else inter);
        UpdateStep(k16, i);
      }
      LastStep(State(), k16[..], x1a0[7], inter);
      v := inter;
    }
  }

  lemma ZeroXor(x: bv16)
    ensures Xor(0, x) == x
  {
  }

  lemma OneStep(c: Coder, key16: seq<bv8>, i: nat, a: bv16, inter: bv16)
    requires |key16| == 16 && i < 8
    ensures var x := Xor(a, KeyWord(key16, i));
            var next := NextCoder(c, x, Number(i));
            Steps(c, key16, i, a, inter) == Steps(next, key16, i + 1, NextKey(x), Xor(inter, Xor(NextKey(x), next.x1a2)))
  {
    hide NextCoder, NextKey, KeyWord, Xor, Number;
  }

  lemma LastStep(c: Coder, key16: seq<bv8>, a: bv16, inter: bv16)
    requires |key16| == 16
    ensures Steps(c, key16, 8, a, inter) == Coded(c, inter)
  {
  }

  /** memset and strncpy: the key array both sides start from. */
  method CopyKey(key: seq<bv8>) returns (key16: array<bv8>)
    ensures fresh(key16) && key16.Length == 16 && key16[..] == Key16(key)
  {
    key16 := new bv8[16](_ => 0);
    var c := 0;
    while c < 16 && c < |key|
      invariant 0 <= c <= 16 && c <= |key|
      invariant forall k :: 0 <= k < 16 ==> key16[k] == if k < c then key[k] else 0
    {
      key16[c] := key[c];
      c := c + 1;
    }
  }

  /** The inner loop of both ciphers. */
  method Feed(key16: array<bv8>, ic: bv8)
    requires key16.Length == 16
    modifies key16
    ensures key16[..] == Fed(old(key16[..]), ic)
  {
    hide Add;
    for c := 0 to 16
      invariant forall k :: 0 <= k < 16 ==> key16[k] == if k < c then Add(old(key16[k]), ic) else old(key16[k])
    {
      key16[c] := Add(key16[c], ic);
    }
  }

  /** The ciphers byte by byte: byte i and the rest. */
  lemma EncOne(c: Coder, key16: seq<bv8>, msg: seq<bv8>, i: nat)
    requires |key16| == 16 && i < |msg|
    ensures var u := Updated(c, key16);
            Enc(c, key16, msg[i..]) == [Add(msg[i], Mask(u.inter))] + Enc(u.coder, Fed(key16, msg[i]), msg[i + 1..])
  {
    hide Updated, Fed, Mask, Add;
    assert msg[i..][1..] == msg[i + 1..];
  }

  lemma DecOne(c: Coder, key16: seq<bv8>, msg: seq<bv8>, i: nat)
    requires |key16| == 16 && i < |msg|
    ensures var u := Updated(c, key16);
            var b := Add(msg[i], Mask(u.inter));
            Dec(c, key16, msg[i..]) == [b] + Dec(u.coder, Fed(key16, b), msg[i + 1..])
  {
    hide Updated, Fed, Mask, Add;
    assert msg[i..][1..] == msg[i + 1..];
  }

  /** The ends of the byte loops. */
  lemma EncNone(c: Coder, key16: seq<bv8>, msg: seq<bv8>)
    requires |key16| == 16
    ensures Enc(c, key16, msg[|msg|..]) == [] && Dec(c, key16, msg[|msg|..]) == [] && msg[0..] == msg
  {
  }

  lemma MoveOne(done: seq<bv8>, b: bv8, rest: seq<bv8>)
    ensures done + ([b] + rest) == (done + [b]) + rest
  {
  }

  /** PC1Enc; the output may be the message itself. */
  method PC1Enc(key: seq<bv8>, msg: array<bv8>, mlen: nat, output: array<bv8>) returns (n: nat)
    requires mlen <= msg.Length && mlen <= output.Length
    modifies output
    ensures n == mlen && output[..mlen] == Encrypted(key, old(msg[..mlen]))
    ensures output[mlen..] == old(output[mlen..])
  {
    hide Updated, Enc, Fed, Mask, Add, Key16;
    ghost var plain, was := msg[..mlen], output[..];
    var key16 := CopyKey(key);
    var pc1c := new PC1Coder();
    ghost var all := Encrypted(key, plain);
    ghost var done: seq<bv8> := [];
    EncNone(pc1c.State(), key16[..], plain);
    var i := 0;
    while i < mlen
      invariant 0 <= i <= mlen && fresh(pc1c) && fresh(pc1c.x1a0) && fresh(key16) && pc1c.x1a0.Length == 8 && key16.Length == 16
      invariant |done| == i && done + Enc(pc1c.State(), key16[..], plain[i..]) == all
      invariant forall k :: 0 <= k < output.Length ==> output[k] == if k < i then done[k] else was[k]
      invariant forall k :: i <= k < mlen ==> msg[k] == plain[k]
    {
      ghost var coder, keys := pc1c.State(), key16[..];
      EncOne(coder, keys, plain, i);
      var v := pc1c.Update(key16);
      var mask := Mask(v);
      var ic := msg[i];
      Feed(key16, ic);
      output[i] := Add(msg[i], mask);
      MoveOne(done, output[i], Enc(pc1c.State(), key16[..], plain[i + 1..]));
      done := done + [output[i]];
      i := i + 1;
    }
    EncNone(pc1c.State(), key16[..], plain);
    n := i;
  }

  /** PC1Dec; the output may be the message itself. */
  method PC1Dec(key: seq<bv8>, msg: array<bv8>, mlen: nat, output: array<bv8>) returns (n: nat)
    requires mlen <= msg.Length && mlen <= output.Length
    modifies output
    ensures n == mlen && output[..mlen] == Decrypted(key, old(msg[..mlen]))
    ensures output[mlen..] == old(output[mlen..])
  {
    hide Updated, Dec, Fed, Mask, Add, Key16;
    ghost var cipher, was := msg[..mlen], output[..];
    var key16 := CopyKey(key);
    var pc1c := new PC1Coder();
    ghost var all := Decrypted(key, cipher);
    ghost var done: seq<bv8> := [];
    EncNone(pc1c.State(), key16[..], cipher);
    var i := 0;
    while i < mlen
      invariant 0 <= i <= mlen && fresh(pc1c) && fresh(pc1c.x1a0) && fresh(key16) && pc1c.x1a0.Length == 8 && key16.Length == 16
      invariant |done| == i && done + Dec(pc1c.State(), key16[..], cipher[i..]) == all
      invariant forall k :: 0 <= k < output.Length ==> output[k] == if k < i then done[k] else was[k]
      invariant forall k :: i <= k < mlen ==> msg[k] == cipher[k]
    {
      ghost var coder, keys := pc1c.State(), key16[..];
      DecOne(coder, keys, cipher, i);
      var v := pc1c.Update(key16);
      var mask := Mask(v);
      var ic := Add(msg[i], mask);
      output[i] := ic;
      Feed(key16, ic);
      MoveOne(done, output[i], Dec(pc1c.State(), key16[..], cipher[i + 1..]));
      done := done + [output[i]];
      i := i + 1;
    }
    EncNone(pc1c.State(), key16[..], cipher);
    n := i;
  }

  /** PC1EncT: the text and its terminating zero. */
  method PC1EncT(key: seq<bv8>, msg: seq<bv8>, output: array<bv8>, begin: bv8) returns (n: nat)
    requires 0 !in msg && output.Length > 2 * |msg|
    modifies output
    ensures n == 2 * |msg| && output[..n] == EncT(key, msg, begin) && output[n] == 0
    ensures output[n + 1..] == old(output[n + 1..])
  {
    hide Enc, Key16, Letter, Low, High;
    var buf := new bv8[|msg|](k requires 0 <= k < |msg| => msg[k]);
    assert buf[..|msg|] == msg;
    var len := PC1Enc(key, buf, |msg|, buf);
    ghost var cipher, was := Encrypted(key, msg), output[..];
    assert buf[..len] == cipher;
    var j := 0;
    for i := 0 to len
      invariant j == 2 * i
      invariant forall k :: 0 <= k < j ==> output[k] == Letters(cipher, begin)[k]
      invariant forall k :: j <= k < output.Length ==> output[k] == was[k]
      invariant forall k :: 0 <= k < len ==> buf[k] == cipher[k]
    {
      output[j] := Letter(Low(buf[i]), begin);
      j := j + 1;
      output[j] := Letter(High(buf[i]), begin);
      j := j + 1;
      LettersOf(cipher, begin, i);
    }
    output[j] := 0;
    n := j;
  }

  lemma UnlettersAt(text: seq<bv8>, begin: bv8, j: nat)
    requires 2 * j < |text|
    ensures Unletters(text, begin)[j] == Unletter(LetterAt(text, 2 * j), LetterAt(text, 2 * j + 1), begin)
  {
    hide Unletter, LetterAt;
  }

  /** PC1DecT on a C string; a text of odd length ends in half a byte. */
  method PC1DecT(key: seq<bv8>, msg: seq<bv8>, output: array<bv8>, begin: bv8) returns (n: nat)
    requires output.Length > (1 + |CString(msg)|) / 2
    modifies output
    ensures n == (1 + |CString(msg)|) / 2
    ensures output[..n] == DecT(key, msg, begin) && output[n] == 0
  {
    hide Dec, Key16, Unletter, Unletters, CString, LetterAt;
    ghost var text := CString(msg);
    var len := StringLength(msg);
    var buf := new bv8[(1 + len) / 2];
    var i, j := 0, 0;
    while i < len
      invariant i == 2 * j && j <= (1 + len) / 2
      invariant forall k :: 0 <= k < j ==> buf[k] == Unletters(text, begin)[k]
      decreases len + 1 - i
    {
      UnlettersAt(text, begin, j);
      var low := LetterAt(msg[..len], i);
      i := i + 1;
      var high := LetterAt(msg[..len], i);
      i := i + 1;
      buf[j] := Unletter(low, high, begin);
      j := j + 1;
    }
    assert buf[..j] == Unletters(text, begin);
    n := PC1Dec(key, buf, j, output);
    ghost var plain := output[..n];
    output[n] := 0;
    assert output[..n] == plain;
  }
}
