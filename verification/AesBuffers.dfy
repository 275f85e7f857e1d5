/** The public functions of dev/algorithmic/src/crypt-aes.cpp: one block in ecb, and whole buffers in
    cbc. The buffer functions add the same initial vector to every block; nothing is chained. */
module AesBuffers {

  import opened AesState
  import opened AesCipher

  // ---------- buffers as functions ----------

  /** What AES128_CBC_encrypt_buffer writes for whole blocks. */
  function Enciphered(rk: Schedule, iv: Block, data: seq<bv8>): (out: seq<bv8>)
    requires |data| % 16 == 0
    ensures |out| == |data|
    decreases |data|
  {
    if data == [] then [] else Encipher(rk, Sum(data[..16], iv)) + Enciphered(rk, iv, data[16..])
  }

  /** What Decrypt_buffer writes for whole blocks. */
  function Deciphered(rk: Schedule, iv: Block, data: seq<bv8>): (out: seq<bv8>)
    requires |data| % 16 == 0
    ensures |out| == |data|
    decreases |data|
  {
    if data == [] then [] else Sum(Decipher(rk, data[..16]), iv) + Deciphered(rk, iv, data[16..])
  }

  /** Decrypting takes an encrypted buffer of any number of blocks back, and the other way round. */
  lemma {:induction false} BuffersInverse(rk: Schedule, iv: Block, data: seq<bv8>)
    requires |data| % 16 == 0
    ensures Deciphered(rk, iv, Enciphered(rk, iv, data)) == data
    ensures Enciphered(rk, iv, Deciphered(rk, iv, data)) == data
    decreases |data|
  {
    hide Encipher, Decipher, Sum;
    if data != [] {
      var b: Block := data[..16];
      var c, d := Enciphered(rk, iv, data), Deciphered(rk, iv, data);
      CipherInverse(rk, Sum(b, iv));
      CipherInverse(rk, b);
      SumTwice(b, iv);
      SumTwice(Decipher(rk, b), iv);
      BuffersInverse(rk, iv, data[16..]);
      assert c[..16] == Encipher(rk, Sum(b, iv)) && c[16..] == Enciphered(rk, iv, data[16..]);
      assert d[..16] == Sum(Decipher(rk, b), iv) && d[16..] == Deciphered(rk, iv, data[16..]);
      assert data == b + data[16..];
    }
  }

  /** Real chaining, section 6.2 of SP 800-38A: each block is added to the ciphertext before it. */
  function Chained(rk: Schedule, v: Block, data: seq<bv8>): (out: seq<bv8>)
    requires |data| % 16 == 0
    ensures |out| == |data|
    decreases |data|
  {
    if data == [] then []
    else
      var c := Encipher(rk, Sum(data[..16], v));
      c + Chained(rk, c, data[16..])
  }

  /** The one plaintext block that is enciphered to the initial vector. */
  function VectorSource(rk: Schedule, iv: Block): Block {
    Sum(Decipher(rk, iv), iv)
  }

  lemma OnlyVectorSource(rk: Schedule, iv: Block, b: Block)
    ensures Encipher(rk, Sum(b, iv)) == iv <==> b == VectorSource(rk, iv)
  {
    hide Encipher, Decipher, Sum;
    CipherInverse(rk, Sum(b, iv));
    CipherInverse(rk, iv);
    SumTwice(b, iv);
    SumTwice(Decipher(rk, iv), iv);
  }

  /** Every block but the last is b. */
  predicate AllButLast(data: seq<bv8>, b: Block)
    requires |data| % 16 == 0
    decreases |data|
  {
    |data| > 16 ==> data[..16] == b && AllButLast(data[16..], b)
  }

  /** The code agrees with cipher block chaining exactly when every block but the last is the one
      plaintext block that key and vector single out. */
  lemma {:induction false} ChainingOnlyByChance(rk: Schedule, iv: Block, data: seq<bv8>)
    requires |data| % 16 == 0
    ensures Enciphered(rk, iv, data) == Chained(rk, iv, data) <==> AllButLast(data, VectorSource(rk, iv))
    decreases |data|
  {
    hide Encipher, Decipher, Sum, VectorSource;
    if data == [] {
    } else {
      var c := Encipher(rk, Sum(data[..16], iv));
      var rest := data[16..];
      var x, y := Enciphered(rk, iv, data), Chained(rk, iv, data);
      assert x[16..] == Enciphered(rk, iv, rest) && y[16..] == Chained(rk, c, rest);
      assert x == c + Enciphered(rk, iv, rest) && y == c + Chained(rk, c, rest);
      OnlyVectorSource(rk, iv, data[..16]);
      if rest != [] {
        if c == iv {
          ChainingOnlyByChance(rk, iv, rest);
        } else {
          FirstBlockDiffers(rk, iv, c, rest);
        }
      }
    }
  }

  /** A single block is always enciphered as chaining would. */
  lemma SingleBlockAgrees(rk: Schedule, iv: Block, data: seq<bv8>)
    requires |data| % 16 == 0 && |data| <= 16
    ensures Enciphered(rk, iv, data) == Chained(rk, iv, data)
  {
    ChainingOnlyByChance(rk, iv, data);
  }

  /** With more blocks some message is not, whatever key, vector and later blocks are: of any two
      different first blocks, at least one gives a different result. */
  lemma FirstBlockDecides(rk: Schedule, iv: Block, a: Block, b: Block, rest: seq<bv8>)
    requires |rest| % 16 == 0 && rest != [] && a != b
    ensures |a + rest| % 16 == 0 && |b + rest| % 16 == 0
    ensures Enciphered(rk, iv, a + rest) != Chained(rk, iv, a + rest) || Enciphered(rk, iv, b + rest) != Chained(rk, iv, b + rest)
  {
    hide Enciphered, Chained, VectorSource;
    ChainingOnlyByChance(rk, iv, a + rest);
    ChainingOnlyByChance(rk, iv, b + rest);
    assert (a + rest)[..16] == a && (b + rest)[..16] == b;
  }

  /** So for every key and vector there is a buffer of two blocks that is not chained. */
  lemma NotChained(rk: Schedule, iv: Block) returns (data: seq<bv8>)
    ensures |data| == 32 && Enciphered(rk, iv, data) != Chained(rk, iv, data)
  {
    var a: Block, b: Block := seq(16, _ => 0), seq(16, _ => 1);
    assert a[0] != b[0];
    FirstBlockDecides(rk, iv, a, b, a);
    data := if Enciphered(rk, iv, a + a) != Chained(rk, iv, a + a) then a + a else b + a;
  }

  lemma FirstBlockDiffers(rk: Schedule, v: Block, w: Block, data: seq<bv8>)
    requires |data| % 16 == 0 && data != [] && v != w
    ensures Enciphered(rk, v, data) != Chained(rk, w, data)
  {
    hide Encipher, Decipher, Sum;
    var b: Block := data[..16];
    var x, y := Enciphered(rk, v, data), Chained(rk, w, data);
    assert x[..16] == Encipher(rk, Sum(b, v)) && y[..16] == Encipher(rk, Sum(b, w));
    if x == y {
      CipherInverse(rk, Sum(b, v));
      CipherInverse(rk, Sum(b, w));
      SumCommutes(b, v);
      SumCommutes(b, w);
      SumTwice(v, b);
      SumTwice(w, b);
    }
  }

  lemma SumCommutes(s: Block, t: Block)
    ensures Sum(s, t) == Sum(t, s)
  {
    forall k: nat | k < 16
      ensures Sum(s, t)[k] == Sum(t, s)[k]
    {
      assert s[k] ^ t[k] == t[k] ^ s[k];
    }
  }

  lemma {:induction false} EncipheredAppend(rk: Schedule, iv: Block, data: seq<bv8>, b: Block)
    requires |data| % 16 == 0
    ensures |data + b| % 16 == 0
    ensures Enciphered(rk, iv, data + b) == Enciphered(rk, iv, data) + Encipher(rk, Sum(b, iv))
    decreases |data|
  {
    hide Encipher, Sum;
    if data == [] {
      assert data + b == b && b[..16] == b && b[16..] == [];
      assert Enciphered(rk, iv, b) == Encipher(rk, Sum(b, iv)) + [];
    } else {
      EncipheredAppend(rk, iv, data[16..], b);
      assert (data + b)[..16] == data[..16] && (data + b)[16..] == data[16..] + b;
    }
  }

  lemma {:induction false} DecipheredAppend(rk: Schedule, iv: Block, data: seq<bv8>, b: Block)
    requires |data| % 16 == 0
    ensures |data + b| % 16 == 0
    ensures Deciphered(rk, iv, data + b) == Deciphered(rk, iv, data) + Sum(Decipher(rk, b), iv)
    decreases |data|
  {
    hide Decipher, Sum;
    if data == [] {
      assert data + b == b && b[..16] == b && b[16..] == [];
      assert Deciphered(rk, iv, b) == Sum(Decipher(rk, b), iv) + [];
    } else {
      DecipheredAppend(rk, iv, data[16..], b);
      assert (data + b)[..16] == data[..16] && (data + b)[16..] == data[16..] + b;
    }
  }

  // ---------- lengths that are no whole number of blocks ----------

  /** How many bytes the loops run over: the length rounded up to whole blocks. */
  function Whole(length: nat): nat {
    (length + 15) / 16 * 16
  }

  lemma WholeLaws(length: nat)
    ensures length <= Whole(length) < length + 16 && Whole(length) % 16 == 0
    ensures length % 16 == 0 <==> Whole(length) == length
    ensures length > 0 <==> Whole(length) >= 16
  {
  }

  /** A buffer of this size holds every byte a call with this length reads or writes: one block for the
      first copy, the whole blocks, and one block more when the length is no multiple of 16. */
  predicate Holds(size: nat, length: nat) {
    16 <= size && Whole(length) + (if length % 16 == 0 then 0 else 16) <= size
  }

  /** The first r bytes and zeros. */
  function Padded(b: Block, r: nat): Block {
    seq(16, k requires 0 <= k < 16 => if k < r then b[k] else 0)
  }

  /** What AES128_CBC_encrypt_buffer leaves in the output, for any length: the whole blocks, then, when
      there is a remainder, the block after them, cut to the remainder and enciphered without the vector. */
  function EncryptedBuffer(rk: Schedule, iv: Block, input: seq<bv8>, was: seq<bv8>, length: nat): (out: seq<bv8>)
    requires Holds(|input|, length) && Holds(|was|, length)
    ensures |out| == |was|
  {
    WholeLaws(length);
    var n := Whole(length);
    if length == 0 then input[..16] + was[16..]
    else if length % 16 == 0 then Enciphered(rk, iv, input[..n]) + was[n..]
    else Enciphered(rk, iv, input[..n]) + Encipher(rk, Padded(BlockAt(input, n), length % 16)) + was[n + 16..]
  }

  /** What Decrypt_buffer leaves in the output. */
  function DecryptedBuffer(rk: Schedule, iv: Block, input: seq<bv8>, was: seq<bv8>, length: nat): (out: seq<bv8>)
    requires Holds(|input|, length) && Holds(|was|, length)
    ensures |out| == |was|
  {
    WholeLaws(length);
    var n := Whole(length);
    if length == 0 then input[..16] + was[16..]
    else if length % 16 == 0 then Deciphered(rk, iv, input[..n]) + was[n..]
    else Deciphered(rk, iv, input[..n]) + Decipher(rk, Padded(BlockAt(input, n), length % 16)) + was[n + 16..]
  }

  /** Whatever the length and whatever the output buffers held: decrypting what was encrypted gives the
      first `length` bytes back, because the whole blocks reach past them. */
  lemma AnyLengthRecovered(rk: Schedule, iv: Block, data: seq<bv8>, was: seq<bv8>, target: seq<bv8>, length: nat)
    requires Holds(|data|, length) && Holds(|was|, length) && Holds(|target|, length)
    ensures length <= |data|
    ensures DecryptedBuffer(rk, iv, EncryptedBuffer(rk, iv, data, was, length), target, length)[..length] == data[..length]
  {
    hide Encipher, Decipher, Enciphered, Deciphered, Whole, BlockAt, Padded;
    WholeLaws(length);
    var n := Whole(length);
    var c := EncryptedBuffer(rk, iv, data, was, length);
    var d := DecryptedBuffer(rk, iv, c, target, length);
    if length == 0 {
      assert d[..0] == data[..0];
    } else {
      BuffersInverse(rk, iv, data[..n]);
      assert c[..n] == Enciphered(rk, iv, data[..n]);
      assert d[..n] == data[..n];
      assert d[..n][..length] == d[..length] && data[..n][..length] == data[..length];
    }
  }

  // ---------- the functions in place ----------

  method BlockCopy(output: array<bv8>, p: nat, input: array<bv8>, q: nat)
    requires p + 16 <= output.Length && q + 16 <= input.Length && (output != input || p == q)
    modifies output
    ensures output[..] == Splice(old(output[..]), p, old(BlockAt(input[..], q)))
  {
    ghost var was, source := output[..], input[..];
    for i := 0 to 16
      invariant forall m :: 0 <= m < |was| && !(p <= m < p + i) ==> output[m] == was[m]
      invariant forall m :: p <= m < p + i ==> output[m] == source[q + m - p]
    {
      assert input[q + i] == source[q + i];
      output[p + i] := input[q + i];
    }
    SpliceIs(was, output[..], p, BlockAt(source, q));
  }

  /** ecb::Encrypt. */
  method Encrypt(input: array<bv8>, key: array<bv8>, output: array<bv8>)
    requires input.Length >= 16 && key.Length >= 16 && output.Length >= 16
    requires output != key
    modifies output
    ensures output[..] == Splice(old(output[..]), 0, Encipher(Expanded(key[..16]), old(input[..16])))
  {
    hide Splice, BlockAt, Expanded, Encipher;
    var roundKey := new bv8[176];
    SpliceLaws(output[..], 0, BlockAt(input[..], 0), Encipher(Expanded(key[..16]), BlockAt(input[..], 0)));
    BlockAtStart(input[..]);
    BlockCopy(output, 0, input, 0);
    KeyExpansion(key, roundKey);
    Cipher(roundKey, output, 0);
  }

  /** ecb::Decrypt. */
  method Decrypt(input: array<bv8>, key: array<bv8>, output: array<bv8>)
    requires input.Length >= 16 && key.Length >= 16 && output.Length >= 16
    requires output != key
    modifies output
    ensures output[..] == Splice(old(output[..]), 0, Decipher(Expanded(key[..16]), old(input[..16])))
  {
    hide Splice, BlockAt, Expanded, Decipher;
    var roundKey := new bv8[176];
    SpliceLaws(output[..], 0, BlockAt(input[..], 0), Decipher(Expanded(key[..16]), BlockAt(input[..], 0)));
    BlockAtStart(input[..]);
    BlockCopy(output, 0, input, 0);
    KeyExpansion(key, roundKey);
    InvCipher(roundKey, output, 0);
  }

  lemma BlockAtStart(s: seq<bv8>)
    requires |s| >= 16
    ensures BlockAt(s, 0) == s[..16]
  {
  }

  method XorWithIv(buf: array<bv8>, p: nat, iv: array<bv8>)
    requires p + 16 <= buf.Length && iv.Length >= 16 && buf != iv
    modifies buf
    ensures buf[..] == Splice(old(buf[..]), p, Sum(old(BlockAt(buf[..], p)), iv[..16]))
  {
    ghost var was := buf[..];
    ghost var sum := Sum(BlockAt(was, p), iv[..16]);
    for i := 0 to 16
      invariant forall m :: 0 <= m < |was| && !(p <= m < p + i) ==> buf[m] == was[m]
      invariant forall m :: p <= m < p + i ==> buf[m] == sum[m - p]
    {
      buf[p + i] := buf[p + i] ^ iv[i];
    }
    SpliceIs(was, buf[..], p, sum);
  }

  /** The buffer's first i bytes are the given ones and the rest is as before. */
  predicate Front(now: seq<bv8>, done: seq<bv8>, was: seq<bv8>)
  {
    |done| <= |was| && now == done + was[|done|..]
  }

  lemma FrontGrows(now: seq<bv8>, done: seq<bv8>, was: seq<bv8>, b: Block)
    requires Front(now, done, was) && |done| + 16 <= |was|
    ensures BlockAt(now, |done|) == BlockAt(was, |done|)
    ensures Front(Splice(now, |done|, b), done + b, was)
  {
    assert now[..|done|] == done && now[|done| + 16..] == was[|done| + 16..];
  }

  lemma TakeBlock(s: seq<bv8>, i: nat)
    requires i + 16 <= |s|
    ensures s[..i + 16] == s[..i] + BlockAt(s, i)
  {
  }

  /** One turn of the loop of AES128_CBC_encrypt_buffer. */
  method EncryptBlock(output: array<bv8>, input: array<bv8>, i: nat, roundKey: array<bv8>, iv: array<bv8>)
    requires i + 16 <= output.Length && i + 16 <= input.Length && roundKey.Length == 176 && iv.Length >= 16
    requires output != roundKey && output != iv && input != roundKey && input != iv
    modifies output, input
    ensures var masked := Sum(old(BlockAt(input[..], i)), iv[..16]);
            && output[..] == Splice(old(output[..]), i, Encipher(roundKey[..], masked))
            && (input != output ==> input[..] == Splice(old(input[..]), i, masked))
  {
    hide Splice, BlockAt, Encipher, Sum;
    ghost var masked := Sum(BlockAt(input[..], i), iv[..16]);
    SpliceLaws(input[..], i, masked, masked);
    SpliceLaws(output[..], i, masked, Encipher(roundKey[..], masked));
    XorWithIv(input, i, iv);
    SpliceLaws(output[..], i, masked, masked);
    BlockCopy(output, i, input, i);
    Cipher(roundKey, output, i);
  }

  /** One turn of the loop of Decrypt_buffer. */
  method DecryptBlock(output: array<bv8>, input: array<bv8>, i: nat, roundKey: array<bv8>, iv: array<bv8>)
    requires i + 16 <= output.Length && i + 16 <= input.Length && roundKey.Length == 176 && iv.Length >= 16
    requires output != roundKey && output != iv
    modifies output
    ensures output[..] == Splice(old(output[..]), i, Sum(Decipher(roundKey[..], old(BlockAt(input[..], i))), iv[..16]))
  {
    hide Splice, BlockAt, Decipher, Sum;
    ghost var b := BlockAt(input[..], i);
    ghost var d := Decipher(roundKey[..], b);
    SpliceLaws(output[..], i, b, d);
    SpliceLaws(output[..], i, d, Sum(d, iv[..16]));
    BlockCopy(output, i, input, i);
    InvCipher(roundKey, output, i);
    XorWithIv(output, i, iv);
  }

  /** A loop counter that goes up in sixteens stops at the rounded-up length. */
  lemma LoopLength(length: nat, n: nat)
    requires n == Whole(length)
    ensures n % 16 == 0 && forall i: nat :: i % 16 == 0 && i <= n ==> (i < length ==> i + 16 <= n) && (i >= length ==> i == n)
  {
    WholeLaws(length);
    forall i: nat | i % 16 == 0 && i <= n
      ensures (i < length ==> i + 16 <= n) && (i >= length ==> i == n)
    {
    }
  }

  /** The loop of AES128_CBC_encrypt_buffer. */
  method EncryptBlocks(output: array<bv8>, input: array<bv8>, length: nat, roundKey: array<bv8>, iv: array<bv8>)
    returns (ghost masked: seq<bv8>)
    requires Whole(length) <= input.Length && Whole(length) <= output.Length
    requires roundKey.Length == 176 && iv.Length >= 16
    requires output != roundKey && output != iv && input != roundKey && input != iv
    modifies output, input
    ensures Whole(length) % 16 == 0
    ensures Front(output[..], Enciphered(roundKey[..], iv[..16], old(input[..])[..Whole(length)]), old(output[..]))
    ensures Masked(masked, old(input[..])[..Whole(length)], iv[..16])
    ensures input != output ==> Front(input[..], masked, old(input[..]))
  {
    hide Splice, BlockAt, Encipher, Sum, Front, Enciphered, Masked, EncryptedSoFar;
    ghost var n := Whole(length);
    LoopLength(length, n);
    hide Whole;
    ghost var rk: Schedule, v: Block := roundKey[..], iv[..16];
    ghost var base, plain := output[..], input[..];
    ghost var done: seq<bv8> := [];
    masked := [];
    FrontEmpty(base);
    FrontEmpty(plain);
    EncryptedNone(plain, rk, v);
    var i := 0;
    while i < length
      invariant 0 <= i <= n && i % 16 == 0
      invariant EncryptedSoFar(done, masked, plain, i, rk, v)
      invariant Front(output[..], done, base)
      invariant input != output ==> Front(input[..], masked, plain)
    {
      ghost var b := BlockAt(plain, i);
      EncryptedLengths(done, masked, plain, i, rk, v);
      if input != output {
        FrontGrows(input[..], masked, plain, Sum(b, v));
      }
      FrontGrows(output[..], done, base, Encipher(rk, Sum(b, v)));
      EncryptBlock(output, input, i, roundKey, iv);
      EncryptedOneMore(done, masked, plain, i, rk, v);
      done, masked := done + Encipher(rk, Sum(b, v)), masked + Sum(b, v);
      i := i + 16;
    }
    EncryptedLengths(done, masked, plain, i, rk, v);
  }

  lemma PaddedAt(b: Block, r: nat)
    ensures forall k :: 0 <= k < 16 ==> Padded(b, r)[k] == if k < r then b[k] else 0
  {
  }

  /** The memset of the last block. */
  method ZeroFrom(output: array<bv8>, p: nat, r: nat)
    requires p + 16 <= output.Length && r <= 16
    modifies output
    ensures output[..] == Splice(old(output[..]), p, Padded(old(BlockAt(output[..], p)), r))
  {
    ghost var was := output[..];
    ghost var b := Padded(BlockAt(was, p), r);
    for i := r to 16
      invariant forall m :: 0 <= m < |was| && !(p + r <= m < p + i) ==> output[m] == was[m]
      invariant forall m :: p + r <= m < p + i ==> output[m] == 0
    {
      output[p + i] := 0;
    }
    PaddedAt(BlockAt(was, p), r);
    assert forall m :: p <= m < p + 16 ==> output[m] == b[m - p];
    SpliceIs(was, output[..], p, b);
  }

  /** The copied and padded block after the whole ones. */
  method CopyPadded(output: array<bv8>, input: array<bv8>, p: nat, r: nat)
    requires p + 16 <= output.Length && p + 16 <= input.Length && r <= 16
    modifies output
    ensures output[..] == Splice(old(output[..]), p, Padded(old(BlockAt(input[..], p)), r))
  {
    hide Splice, BlockAt, Padded;
    ghost var b := BlockAt(input[..], p);
    SpliceLaws(output[..], p, b, Padded(b, r));
    BlockCopy(output, p, input, p);
    ZeroFrom(output, p, r);
  }

  /** Replacing the block after a front. */
  lemma SpliceAfter(front: seq<bv8>, rest: seq<bv8>, b: Block)
    requires |rest| >= 16
    ensures BlockAt(front + rest, |front|) == rest[..16]
    ensures Splice(front + rest, |front|, b) == front + b + rest[16..]
  {
    assert (front + rest)[..|front|] == front && (front + rest)[|front| + 16..] == rest[16..];
  }

  /** The output after the loop, and after the last block if there is one, is the encrypted buffer. */
  lemma EncryptedParts(rk: Schedule, iv: Block, input: seq<bv8>, was: seq<bv8>, length: nat, now: seq<bv8>)
    requires Holds(|input|, length) && Holds(|was|, length) && Whole(length) % 16 == 0
    requires var copied := Splice(was, 0, BlockAt(input, 0));
             now == Enciphered(rk, iv, input[..Whole(length)]) + copied[Whole(length)..]
    ensures length % 16 == 0 ==> now == EncryptedBuffer(rk, iv, input, was, length)
    ensures length % 16 != 0 ==>
              && |now| == |was| && Whole(length) + 16 <= |was|
              && BlockAt(now, Whole(length)) == BlockAt(was, Whole(length))
              && Splice(now, Whole(length), Encipher(rk, Padded(BlockAt(input, Whole(length)), length % 16))) ==
                   EncryptedBuffer(rk, iv, input, was, length)
  {
    hide Encipher, Enciphered, Padded;
    WholeLaws(length);
    var n := Whole(length);
    hide Whole;
    if length == 0 {
      EncipheredEmpty(rk, iv);
      assert input[..0] == [];
    } else {
      FirstCopy(was, input, n);
      if length % 16 != 0 {
        SpliceAfter(Enciphered(rk, iv, input[..n]), was[n..], Encipher(rk, Padded(BlockAt(input, n), length % 16)));
      }
    }
  }

  lemma DecryptedParts(rk: Schedule, iv: Block, input: seq<bv8>, was: seq<bv8>, length: nat, now: seq<bv8>)
    requires Holds(|input|, length) && Holds(|was|, length) && Whole(length) % 16 == 0
    requires var copied := Splice(was, 0, BlockAt(input, 0));
             now == Deciphered(rk, iv, input[..Whole(length)]) + copied[Whole(length)..]
    ensures length % 16 == 0 ==> now == DecryptedBuffer(rk, iv, input, was, length)
    ensures length % 16 != 0 ==>
              && |now| == |was| && Whole(length) + 16 <= |was|
              && BlockAt(now, Whole(length)) == BlockAt(was, Whole(length))
              && Splice(now, Whole(length), Decipher(rk, Padded(BlockAt(input, Whole(length)), length % 16))) ==
                   DecryptedBuffer(rk, iv, input, was, length)
  {
    hide Decipher, Deciphered, Padded;
    WholeLaws(length);
    var n := Whole(length);
    hide Whole;
    if length == 0 {
      EncipheredEmpty(rk, iv);
      assert input[..0] == [];
    } else {
      FirstCopy(was, input, n);
      if length % 16 != 0 {
        SpliceAfter(Deciphered(rk, iv, input[..n]), was[n..], Decipher(rk, Padded(BlockAt(input, n), length % 16)));
      }
    }
  }

  /** In place, the first copy changes nothing. */
  lemma CopyInPlace(s: seq<bv8>)
    requires |s| >= 16
    ensures Splice(s, 0, BlockAt(s, 0)) == s
  {
  }

  lemma BlockAfter(now: seq<bv8>, done: seq<bv8>, was: seq<bv8>)
    requires Front(now, done, was) && |done| + 16 <= |was|
    ensures |now| == |was| && BlockAt(now, |done|) == BlockAt(was, |done|)
  {
  }

  /** AES128_CBC_encrypt_buffer. Without a key the schedule is whatever the local array held. */
  method EncryptBuffer(output: array<bv8>, input: array<bv8>, length: nat, key: array?<bv8>, iv: array<bv8>)
    returns (ghost rk: Schedule)
    requires Holds(input.Length, length) && Holds(output.Length, length)
    requires (key != null ==> key.Length >= 16) && iv.Length >= 16
    requires output != key && output != iv && input != key && input != iv
    modifies output, input
    ensures key != null ==> rk == Expanded(key[..16])
    ensures output[..] == EncryptedBuffer(rk, iv[..16], old(input[..]), old(output[..]), length)
    ensures input != output ==> Front(input[..], input[..Whole(length)], old(input[..])) &&
                                Masked(input[..Whole(length)], old(input[..Whole(length)]), iv[..16])
  {
    hide Splice, BlockAt, Expanded, Encipher, Enciphered, EncryptedBuffer, Padded, Masked, Front;
    WholeLaws(length);
    hide Whole;
    ghost var n, v: Block, base, plain := Whole(length), iv[..16], output[..], input[..];
    var roundKey := new bv8[176];
    var remainders := length % 16;
    CopyInPlace(plain);
    BlockCopy(output, 0, input, 0);
    if key != null {
      KeyExpansion(key, roundKey);
    }
    rk := roundKey[..];
    ghost var copied := output[..];
    ghost var masked := EncryptBlocks(output, input, length, roundKey, iv);
    FrontParts(output[..], Enciphered(rk, v, plain[..n]), copied);
    EncryptedParts(rk, v, plain, base, length, output[..]);
    MaskedLength(masked, plain[..n], v);
    if input != output {
      FrontParts(input[..], masked, plain);
      assert input[..n] == masked && plain[..n] == old(input[..n]);
    }
    if remainders != 0 {
      if input != output {
        BlockAfter(input[..], masked, plain);
      }
      SpliceLaws(output[..], n, Padded(BlockAt(plain, n), remainders), Encipher(rk, Padded(BlockAt(plain, n), remainders)));
      CopyPadded(output, input, Whole(length), remainders);
      Cipher(roundKey, output, Whole(length));
    }
  }

  /** What encryption of the first i bytes has produced, and what it has left of its input. */
  predicate EncryptedSoFar(done: seq<bv8>, masked: seq<bv8>, plain: seq<bv8>, i: nat, rk: Schedule, v: Block)
    requires i <= |plain| && i % 16 == 0
  {
    |done| == i == |masked| && done == Enciphered(rk, v, plain[..i]) && Masked(masked, plain[..i], v)
  }

  lemma EncryptedLengths(done: seq<bv8>, masked: seq<bv8>, plain: seq<bv8>, i: nat, rk: Schedule, v: Block)
    requires i <= |plain| && i % 16 == 0 && EncryptedSoFar(done, masked, plain, i, rk, v)
    ensures |done| == i == |masked| && done == Enciphered(rk, v, plain[..i]) && Masked(masked, plain[..i], v)
  {
  }

  lemma EncryptedNone(plain: seq<bv8>, rk: Schedule, v: Block)
    ensures EncryptedSoFar([], [], plain, 0, rk, v)
  {
    EncipheredEmpty(rk, v);
  }

  lemma EncryptedOneMore(done: seq<bv8>, masked: seq<bv8>, plain: seq<bv8>, i: nat, rk: Schedule, v: Block)
    requires i + 16 <= |plain| && i % 16 == 0 && EncryptedSoFar(done, masked, plain, i, rk, v)
    ensures var m := Sum(BlockAt(plain, i), v);
            EncryptedSoFar(done + Encipher(rk, m), masked + m, plain, i + 16, rk, v)
  {
    hide Encipher, Sum, BlockAt, Enciphered, Masked;
    TakeBlock(plain, i);
    EncipheredAppend(rk, v, plain[..i], BlockAt(plain, i));
    MaskedAppend(masked, plain[..i], v, BlockAt(plain, i));
  }

  lemma EncipheredEmpty(rk: Schedule, v: Block)
    ensures Enciphered(rk, v, []) == [] && Deciphered(rk, v, []) == []
  {
  }

  lemma FrontEmpty(s: seq<bv8>)
    ensures Front(s, [], s)
  {
  }

  /** The copy made before the loops changes nothing past the first block. */
  lemma FirstCopy(was: seq<bv8>, source: seq<bv8>, length: nat)
    requires 16 <= length <= |was| && length <= |source|
    ensures var now := Splice(was, 0, BlockAt(source, 0));
            |now| == |was| && now[length..] == was[length..]
  {
    var now := Splice(was, 0, BlockAt(source, 0));
    assert now[16..] == was[16..];
    assert now[length..] == now[16..][length - 16..];
    assert was[length..] == was[16..][length - 16..];
  }

  /** Each byte of data with the vector's byte added. */
  predicate Masked(masked: seq<bv8>, data: seq<bv8>, v: Block)
  {
    |masked| == |data| && forall m :: 0 <= m < |data| ==> masked[m] == data[m] ^ v[m % 16]
  }

  lemma MaskedAppend(masked: seq<bv8>, data: seq<bv8>, v: Block, b: Block)
    requires Masked(masked, data, v) && |data| % 16 == 0
    ensures Masked(masked + Sum(b, v), data + b, v)
  {
    forall m | 0 <= m < |data| + 16
      ensures (masked + Sum(b, v))[m] == (data + b)[m] ^ v[m % 16]
    {
      if m >= |data| {
        assert m % 16 == m - |data|;
      }
    }
  }

  lemma MaskedLength(masked: seq<bv8>, data: seq<bv8>, v: Block)
    requires Masked(masked, data, v)
    ensures |masked| == |data|
  {
  }

  lemma FrontParts(now: seq<bv8>, done: seq<bv8>, was: seq<bv8>)
    requires Front(now, done, was)
    ensures |now| == |was| && now[..|done|] == done && now[|done|..] == was[|done|..] && now == done + was[|done|..]
  {
  }

  /** The loop of Decrypt_buffer. */
  method DecryptBlocks(output: array<bv8>, input: array<bv8>, length: nat, roundKey: array<bv8>, iv: array<bv8>)
    requires Whole(length) <= input.Length && Whole(length) <= output.Length
    requires roundKey.Length == 176 && iv.Length >= 16 && output != roundKey && output != iv
    modifies output
    ensures Whole(length) % 16 == 0
    ensures Front(output[..], Deciphered(roundKey[..], iv[..16], old(input[..])[..Whole(length)]), old(output[..]))
  {
    hide Splice, BlockAt, Decipher, Sum, Front, Deciphered;
    ghost var n := Whole(length);
    LoopLength(length, n);
    hide Whole;
    ghost var rk: Schedule, v: Block := roundKey[..], iv[..16];
    ghost var base, cipher := output[..], input[..];
    ghost var done: seq<bv8> := [];
    FrontEmpty(base);
    EncipheredEmpty(rk, v);
    var i := 0;
    while i < length
      invariant 0 <= i <= n && i % 16 == 0
      invariant input != output ==> input[..] == cipher
      invariant |done| == i && done == Deciphered(rk, v, cipher[..i])
      invariant Front(output[..], done, base)
    {
      ghost var b := BlockAt(cipher, i);
      FrontGrows(output[..], done, base, Sum(Decipher(rk, b), v));
      DecryptBlock(output, input, i, roundKey, iv);
      TakeBlock(cipher, i);
      DecipheredAppend(rk, v, cipher[..i], b);
      done := done + Sum(Decipher(rk, b), v);
      i := i + 16;
    }
  }

  /** Decrypt_buffer. */
  method DecryptBuffer(output: array<bv8>, input: array<bv8>, length: nat, key: array?<bv8>, iv: array<bv8>)
    returns (ghost rk: Schedule)
    requires Holds(input.Length, length) && Holds(output.Length, length)
    requires (key != null ==> key.Length >= 16) && iv.Length >= 16
    requires output != key && output != iv
    modifies output
    ensures key != null ==> rk == Expanded(key[..16])
    ensures output[..] == DecryptedBuffer(rk, iv[..16], old(input[..]), old(output[..]), length)
  {
    hide Splice, BlockAt, Expanded, Decipher, Deciphered, DecryptedBuffer, Padded, Front;
    WholeLaws(length);
    hide Whole;
    ghost var n, v: Block, base, cipher := Whole(length), iv[..16], output[..], input[..];
    var roundKey := new bv8[176];
    var remainders := length % 16;
    CopyInPlace(cipher);
    BlockCopy(output, 0, input, 0);
    if key != null {
      KeyExpansion(key, roundKey);
    }
    rk := roundKey[..];
    ghost var copied := output[..];
    DecryptBlocks(output, input, length, roundKey, iv);
    FrontParts(output[..], Deciphered(rk, v, cipher[..n]), copied);
    DecryptedParts(rk, v, cipher, base, length, output[..]);
    if remainders != 0 {
      SpliceLaws(output[..], n, Padded(BlockAt(cipher, n), remainders), Decipher(rk, Padded(BlockAt(cipher, n), remainders)));
      CopyPadded(output, input, Whole(length), remainders);
      InvCipher(roundKey, output, Whole(length));
    }
  }
}
