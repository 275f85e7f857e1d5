/** The streaming digest of dev/algorithmic/src/crypt-md5.cpp: however a message is cut into md5_append
    calls, md5_finish returns the digest of the whole message of sections 3.1 to 3.5 of RFC 1321. */
module Md5Stream {

  import opened Md5Block

  const WORD: int := 0x1_0000_0000
  const INT_MAX: int := 0x7FFF_FFFF

  const INIT := Registers(0x67452301, 0xefcdab89, 0x98badcfe, 0x10325476)

  // ---------- the digest of a whole message ----------

  /** Compresses the whole blocks of data, in order. */
  function Absorb(h: Registers, data: seq<bv8>): Registers
    decreases |data|
  {
    if |data| < 64 then h else Absorb(Compress(h, data[..64]), data[64..])
  }

  /** Eight more bytes complete a block. */
  predicate RoomForLength(n: nat) {
    n % 64 == 56
  }

  /** How many padding bytes follow a message of n bytes. */
  function PadLength(n: nat): nat {
    1 + (55 - n) % 64
  }

  /** Section 3.1 of RFC 1321: a one bit, then zeros. */
  function Padding(n: nat): seq<bv8> {
    [0x80] + seq(PadLength(n) - 1, _ => 0 as bv8)
  }

  /** Padding ends 8 bytes before a block boundary, adds at least one byte and never a block more than needed. */
  lemma PadLands(n: nat)
    ensures 1 <= PadLength(n) <= 64 && RoomForLength(n + PadLength(n))
    ensures forall m :: n < m < n + PadLength(n) ==> !RoomForLength(m)
  {
  }

  /** Byte i of a number, least significant first. */
  function ByteOf(v: nat, i: nat): bv8
    decreases i
  {
    if i == 0 then (v % 256) as bv8 else ByteOf(v / 256, i - 1)
  }

  /** Section 3.2 of RFC 1321: the length in bits as 64 bits. */
  function LengthBytes(n: nat): seq<bv8> {
    seq(8, i requires 0 <= i < 8 => ByteOf(8 * n % (WORD * WORD), i))
  }

  function RegisterAt(h: Registers, i: nat): bv32 {
    if i == 0 then h.a else if i == 1 then h.b else if i == 2 then h.c else h.d
  }

  function ByteAt(v: bv32, shift: nat): bv8
    requires shift <= 24
  {
    ((v >> shift) & 0xFF) as bv8
  }

  function DigestByte(h: Registers, i: nat): bv8
    requires i < 16
  {
    ByteAt(RegisterAt(h, i / 4), 8 * (i % 4))
  }

  /** Section 3.5 of RFC 1321. */
  function Output(h: Registers): seq<bv8> {
    seq(16, i requires 0 <= i < 16 => DigestByte(h, i))
  }

  function Padded(msg: seq<bv8>): seq<bv8> {
    msg + Padding(|msg|) + LengthBytes(|msg|)
  }

  function Digest(msg: seq<bv8>): seq<bv8> {
    Output(Absorb(INIT, Padded(msg)))
  }

  /** The padded message is a whole number of blocks, so the digest leaves no byte out. */
  lemma PaddedWhole(msg: seq<bv8>)
    ensures |Padded(msg)| % 64 == 0
  {
    PadLands(|msg|);
  }

  // ---------- cutting the message ----------

  /** The bytes after the last whole block. */
  function Tail(msg: seq<bv8>): (t: seq<bv8>)
    ensures |t| == |msg| % 64 && |t| < 64
  {
    msg[|msg| - |msg| % 64..]
  }

  /** The buffer holds what is left of the message after its whole blocks. */
  predicate Buffered(b: seq<bv8>, msg: seq<bv8>) {
    |msg| % 64 <= |b| && b[..|msg| % 64] == Tail(msg)
  }

  lemma SameTail(b: seq<bv8>, msg: seq<bv8>, rest: seq<bv8>)
    requires Buffered(b, rest) && Tail(msg) == Tail(rest)
    ensures Buffered(b, msg)
  {
    hide Tail;
    assert |msg| % 64 == |Tail(msg)| == |Tail(rest)| == |rest| % 64;
  }

  lemma BufferedIs(b: seq<bv8>, msg: seq<bv8>, t: seq<bv8>)
    requires |t| <= |b| && b[..|t|] == t && Tail(msg) == t
    ensures Buffered(b, msg)
  {
    hide Tail;
    assert |msg| % 64 == |t|;
  }

  lemma BufferedBytes(b: seq<bv8>, msg: seq<bv8>)
    requires Buffered(b, msg)
    ensures |msg| % 64 <= |b| && b[..|msg| % 64] == Tail(msg)
  {
  }

  lemma {:induction false} AbsorbAppend(h: Registers, a: seq<bv8>, b: seq<bv8>)
    requires |a| % 64 == 0
    ensures Absorb(h, a + b) == Absorb(Absorb(h, a), b)
    decreases |a|
  {
    hide Compress;
    if a == [] {
      assert a + b == b;
    } else {
      assert (a + b)[..64] == a[..64] && (a + b)[64..] == a[64..] + b;
      AbsorbAppend(Compress(h, a[..64]), a[64..], b);
    }
  }

  /** Compression can be resumed from the registers and the unfinished block alone. */
  lemma Resume(h: Registers, msg: seq<bv8>, more: seq<bv8>)
    ensures Absorb(h, msg + more) == Absorb(Absorb(h, msg), Tail(msg) + more)
  {
    hide Compress;
    var whole := msg[..|msg| - |msg| % 64];
    assert |whole| % 64 == 0;
    assert msg == whole + Tail(msg);
    assert msg + more == whole + (Tail(msg) + more);
    AbsorbAppend(h, whole, Tail(msg));
    AbsorbAppend(h, whole, Tail(msg) + more);
  }

  lemma TailOf(msg: seq<bv8>, rest: seq<bv8>, cut: nat)
    requires cut <= |msg| && cut % 64 == 0 && rest == msg[cut..] && |rest| < 64
    ensures Tail(msg) == rest
  {
    assert |msg| == cut + |rest|;
    assert |msg| % 64 == |rest|;
  }

  /** Cutting a message at a block boundary keeps its tail. */
  lemma TailAligned(msg: seq<bv8>, rest: seq<bv8>, cut: nat)
    requires cut <= |msg| && cut % 64 == 0 && rest == msg[cut..]
    ensures |rest| % 64 == |msg| % 64 && Tail(msg) == Tail(rest)
  {
    var t := |rest| % 64;
    assert |msg| == cut + |rest|;
    assert rest[|rest| - t..] == msg[|msg| - t..];
  }

  lemma Prefix(s: seq<bv8>, n: nat, k: nat)
    requires k <= n <= |s|
    ensures s[..n][..k] == s[0..k]
  {
  }

  lemma Remainder(s: seq<bv8>, n: nat, k: nat)
    requires k <= n <= |s|
    ensures s[..n][k..] == s[k..k + (n - k)]
  {
  }

  lemma WholeBuffer(s: seq<bv8>)
    requires |s| == 64
    ensures s[0..64] == s == s[..64]
  {
  }

  /** The new bytes do not complete the buffered block. */
  lemma StillShort(msg: seq<bv8>, more: seq<bv8>)
    requires |Tail(msg)| + |more| < 64
    ensures Tail(msg + more) == Tail(msg) + more && more[..|more|] == more
  {
    var cut := |msg| - |msg| % 64;
    assert (msg + more)[cut..] == msg[cut..] + more;
    TailOf(msg + more, Tail(msg) + more, cut);
  }

  /** The first of the new bytes complete the buffered block. */
  lemma BufferFull(msg: seq<bv8>, more: seq<bv8>, copy: nat)
    requires |Tail(msg)| + copy == 64 && copy <= |more|
    ensures (Tail(msg) + more)[..64] == Tail(msg) + more[..copy]
    ensures (Tail(msg) + more)[64..] == more[copy..]
    ensures Tail(msg + more) == Tail(more[copy..])
  {
    hide Tail;
    assert |msg| + copy == (|msg| - |msg| % 64) + 64;
    TailAligned(msg + more, more[copy..], |msg| + copy);
  }

  lemma NothingBuffered(msg: seq<bv8>, more: seq<bv8>)
    requires |msg| % 64 == 0
    ensures Tail(msg) + more == more[0..] && Tail(msg + more) == Tail(more[0..])
  {
    TailAligned(msg + more, more, |msg|);
  }

  // ---------- the bit counter ----------

  /** The two count words hold the length of n bytes in bits, modulo 2^64. */
  predicate Counts(count0: nat, count1: nat, n: nat) {
    count0 == 8 * n % WORD && count1 == 8 * n / WORD % WORD
  }

  lemma OffsetIs(count0: nat, count1: nat, n: nat)
    requires Counts(count0, count1, n)
    ensures count0 / 8 % 64 == n % 64
  {
    var q := 8 * n / WORD;
    assert 8 * n == q * WORD + count0;
    assert n == q * 0x2000_0000 + count0 / 8;
  }

  /** The carry test of md5_append is exact. */
  lemma CountsAdd(count0: nat, count1: nat, n: nat, nbytes: nat)
    requires Counts(count0, count1, n) && nbytes <= INT_MAX
    ensures var nbits := nbytes * 8 % WORD;
            var low := (count0 + nbits) % WORD;
            var high := (count1 + nbytes / 0x2000_0000) % WORD;
            Counts(low, if low < nbits then (high + 1) % WORD else high, n + nbytes)
  {
    var q, r := 8 * n / WORD, nbytes / 0x2000_0000;
    var nbits := nbytes * 8 % WORD;
    assert nbytes * 8 == r * WORD + nbits;
    assert 8 * n == q * WORD + count0;
    var carry := if count0 + nbits < WORD then 0 else 1;
    var low := (count0 + nbits) % WORD;
    assert low == count0 + nbits - carry * WORD;
    assert 8 * (n + nbytes) == (q + r + carry) * WORD + low;
    assert 8 * (n + nbytes) / WORD == q + r + carry;
    ModAdds(q, r, carry);
  }

  lemma ModAdds(q: nat, r: nat, carry: nat)
    requires carry <= 1
    ensures (q + r + carry) % WORD == if carry == 1 then ((q % WORD + r) % WORD + 1) % WORD else (q % WORD + r) % WORD
  {
  }

  lemma CountsTotal(count0: nat, count1: nat, n: nat)
    requires Counts(count0, count1, n)
    ensures 8 * n % (WORD * WORD) == count0 + WORD * count1
  {
    var q := 8 * n / WORD;
    assert 8 * n == q * WORD + count0 && q == q / WORD * WORD + count1;
    assert 8 * n == q / WORD * (WORD * WORD) + (WORD * count1 + count0);
    assert 0 <= WORD * count1 + count0 < WORD * WORD;
  }

  function Pow256(k: nat): (p: nat)
    ensures p > 0
  {
    if k == 0 then 1 else 256 * Pow256(k - 1)
  }

  /** The bytes of a number put together from k low bytes and a rest. */
  lemma {:induction false} JoinedBytes(low: nat, high: nat, k: nat, i: nat)
    requires low < Pow256(k)
    ensures ByteOf(low + Pow256(k) * high, i) == if i < k then ByteOf(low, i) else ByteOf(high, i - k)
    decreases k
  {
    if k > 0 {
      var x := Pow256(k - 1) * high;
      assert Pow256(k) * high == 256 * x;
      assert (low + 256 * x) / 256 == low / 256 + x && (low + 256 * x) % 256 == low % 256;
      if i > 0 {
        JoinedBytes(low / 256, high, k - 1, i - 1);
      }
    }
  }

  /** The bytes of the two words in a row are the bytes of the 64-bit number. */
  lemma CountBytes(count0: nat, count1: nat, i: nat)
    requires count0 < WORD && count1 < WORD && i < 8
    ensures ByteOf(count0 + WORD * count1, i) == ByteOf(if i < 4 then count0 else count1, i % 4)
  {
    hide ByteOf;
    assert Pow256(4) == WORD;
    JoinedBytes(count0, count1, 4, i);
  }

  // ---------- the streaming state ----------

  method Copy(target: array<bv8>, at: nat, source: array<bv8>, p: nat, n: nat)
    requires at + n <= target.Length && p + n <= source.Length && target != source
    modifies target
    ensures target[..at + n] == old(target[..at]) + source[p..p + n]
    ensures target[at + n..] == old(target[at + n..])
  {
    for i := 0 to n
      invariant target[..at] == old(target[..at]) && target[at + i..] == old(target[at + i..])
      invariant target[at..at + i] == source[p..p + i]
    {
      target[at + i] := source[p + i];
      assert target[at..at + i + 1] == target[at..at + i] + [source[p + i]];
    }
    assert target[..at + n] == target[..at] + target[at..at + n];
  }

  lemma NextBlock(data: array<bv8>, p0: nat, left0: nat, p: nat)
    requires p0 <= p && p + 64 <= p0 + left0 <= data.Length
    ensures var rest := data[p0..p0 + left0];
            rest[p - p0..][..64] == data[p..p + 64] && rest[p - p0..][64..] == rest[p + 64 - p0..]
  {
  }

  lemma LastBytes(data: array<bv8>, p0: nat, left0: nat, p: nat)
    requires p0 <= p <= p0 + left0 <= data.Length
    ensures data[p0..p0 + left0][p - p0..] == data[p..p0 + left0]
  {
  }

  /** What the state says about the message so far. */
  predicate Describes(count0: nat, count1: nat, abcd: Registers, b: seq<bv8>, msg: seq<bv8>) {
    Counts(count0, count1, |msg|) && abcd == Absorb(INIT, msg) && Buffered(b, msg)
  }

  lemma DescribesIs(count0: nat, count1: nat, abcd: Registers, b: seq<bv8>, msg: seq<bv8>)
    ensures Describes(count0, count1, abcd, b, msg) <==>
              Counts(count0, count1, |msg|) && abcd == Absorb(INIT, msg) && Buffered(b, msg)
  {
  }

  class State {
    var count0: nat
    var count1: nat
    var abcd: Registers
    const buf: array<bv8>
    /** Everything appended since Init. */
    ghost var message: seq<bv8>

    ghost predicate Valid()
      reads this, buf
    {
      buf.Length == 64 && Describes(count0, count1, abcd, buf[..], message)
    }

    constructor ()
      ensures fresh(buf) && buf.Length == 64
    {
      buf := new bv8[64];
    }

    /** md5_init. */
    method Init()
      requires buf.Length == 64
      modifies this
      ensures Valid() && message == []
    {
      count0, count1 := 0, 0;
      abcd := INIT;
      message := [];
    }

    /** The first lines of md5_append: the message length. */
    method AddLength(nbytes: nat)
      requires Counts(count0, count1, |message|) && nbytes <= INT_MAX
      modifies this`count0, this`count1
      ensures Counts(count0, count1, |message| + nbytes)
    {
      hide Counts;
      CountsAdd(count0, count1, |message|, nbytes);
      var nbits := nbytes * 8 % WORD;
      count1 := (count1 + nbytes / 0x2000_0000) % WORD;
      count0 := (count0 + nbits) % WORD;
      if count0 < nbits {
        count1 := (count1 + 1) % WORD;
      }
    }

    /** The middle of md5_append: as many of the new bytes as fit in the buffered block. */
    method FillBuffer(data: array<bv8>, nbytes: nat, offset: nat) returns (copy: nat)
      requires buf.Length == 64 && data != buf && 0 < offset < 64 && nbytes <= data.Length
      modifies this`abcd, buf
      ensures copy == if offset + nbytes > 64 then 64 - offset else nbytes
      ensures buf[..offset + copy] == old(buf[..offset]) + data[..copy]
      ensures abcd == if offset + copy < 64 then old(abcd) else Compress(old(abcd), old(buf[..offset]) + data[..copy])
    {
      hide Compress;
      copy := if offset + nbytes > 64 then 64 - offset else nbytes;
      Copy(buf, offset, data, 0, copy);
      assert data[0..copy] == data[..copy];
      if offset + copy < 64 {
        return;
      }
      WholeBuffer(buf[..]);
      assert buf[0..64] == buf[..64];
      abcd := Process(abcd, buf, 0);
    }

    /** The last lines of md5_append: the full blocks and the final partial block. */
    method AddBlocks(data: array<bv8>, p0: nat, left0: nat)
      requires buf.Length == 64 && data != buf && p0 + left0 <= data.Length
      modifies this`abcd, buf
      ensures abcd == Absorb(old(abcd), data[p0..p0 + left0])
      ensures Buffered(buf[..], data[p0..p0 + left0])
    {
      hide Absorb, Tail, Compress;
      ghost var rest := data[p0..p0 + left0];
      var p, left := p0, left0;
      while left >= 64
        invariant 0 <= left <= left0 && left + p == p0 + left0 && (p - p0) % 64 == 0
        invariant Absorb(abcd, rest[p - p0..]) == Absorb(old(abcd), rest)
        decreases left
      {
        NextBlock(data, p0, left0, p);
        OneBlock(abcd, rest[p - p0..]);
        abcd := Process(abcd, data, p);
        p, left := p + 64, left - 64;
      }
      FewBytes(abcd, rest[p - p0..]);
      TailOf(rest, rest[p - p0..], p - p0);
      LastBytes(data, p0, left0, p);
      if left != 0 {
        Copy(buf, 0, data, p, left);
      }
      assert left == left0 % 64;
    }

    /** md5_append. */
    method Append(data: array<bv8>, nbytes: int)
      requires Valid() && data != buf
      requires nbytes <= data.Length && |message| % 64 + nbytes <= INT_MAX
      modifies this, buf
      ensures Valid()
      ensures message == old(message) + (if nbytes <= 0 then [] else data[..nbytes])
    {
      hide Absorb, Counts, Tail, Compress, Buffered, Describes;
      DescribesIs(count0, count1, abcd, buf[..], message);
      var p, left := 0, nbytes;
      OffsetIs(count0, count1, |message|);
      var offset := count0 / 8 % 64;
      if nbytes <= 0 {
        return;
      }
      ghost var msg, bytes, more := message, data[..], data[..nbytes];
      Resume(INIT, msg, more);
      AddLength(nbytes);
      BufferedBytes(buf[..], msg);
      message := msg + more;
      if offset != 0 {
        var copy := FillBuffer(data, nbytes, offset);
        Prefix(bytes, nbytes, copy);
        if offset + copy < 64 {
          StillShort(msg, more);
          FewBytes(abcd, Tail(msg) + more);
          assert buf[..][..offset + copy] == Tail(msg) + more;
          BufferedIs(buf[..], message, Tail(msg) + more);
          DescribesIs(count0, count1, abcd, buf[..], message);
          return;
        }
        p := p + copy;
        left := left - copy;
        BufferFull(msg, more, copy);
        OneBlock(Absorb(INIT, msg), Tail(msg) + more);
      } else {
        NothingBuffered(msg, more);
      }
      assert data[..] == bytes;
      Remainder(bytes, nbytes, p);
      AddBlocks(data, p, left);
      SameTail(buf[..], message, more[p..]);
      DescribesIs(count0, count1, abcd, buf[..], message);
    }

    /** The length before padding, saved by md5_finish. */
    method SaveLength() returns (data: array<bv8>)
      requires Counts(count0, count1, |message|)
      ensures fresh(data) && data.Length == 8 && data[..] == LengthBytes(|message|)
    {
      hide Counts, ByteOf;
      data := new bv8[8];
      CountsTotal(count0, count1, |message|);
      CountsBounded(count0, count1, |message|);
      for i := 0 to 8
        invariant forall k :: 0 <= k < i ==> data[k] == LengthBytes(|message|)[k]
      {
        CountBytes(count0, count1, i);
        data[i] := ByteOf(if i / 4 == 0 then count0 else count1, i % 4);
      }
    }

    /** The last lines of md5_finish. */
    method WriteDigest() returns (digest: array<bv8>)
      ensures fresh(digest) && digest.Length == 16 && digest[..] == Output(abcd)
    {
      hide DigestByte;
      digest := new bv8[16];
      for i := 0 to 16
        invariant forall k :: 0 <= k < i ==> digest[k] == DigestByte(abcd, k)
      {
        digest[i] := DigestByte(abcd, i);
      }
    }

    /** md5_finish. */
    method Finish() returns (digest: array<bv8>)
      requires Valid()
      modifies this, buf
      ensures digest.Length == 16 && digest[..] == Digest(old(message))
    {
      hide Absorb, Counts, Tail, Buffered, Compress, LengthBytes, Padding, Output;
      ghost var msg := message;
      var pad := new bv8[64](i => if i == 0 then 0x80 else 0);
      var data := SaveLength();
      OffsetIs(count0, count1, |msg|);
      PadMod(count0 / 8, |msg|);
      PadLands(|msg|);
      var n := (55 - count0 / 8) % 64 + 1;
      PadIs(pad[..n], |msg|);
      Append(pad, n);
      Append(data, 8);
      assert data[..8] == data[..] && message == Padded(msg);
      digest := WriteDigest();
    }
  }

  lemma CountsBounded(count0: nat, count1: nat, n: nat)
    requires Counts(count0, count1, n)
    ensures count0 < WORD && count1 < WORD
  {
  }

  lemma PadMod(x: nat, n: nat)
    requires x % 64 == n % 64
    ensures (55 - x) % 64 + 1 == PadLength(n)
  {
  }

  lemma PadIs(pad: seq<bv8>, n: nat)
    requires |pad| == PadLength(n)
    requires forall k :: 0 <= k < |pad| ==> pad[k] == if k == 0 then 0x80 else 0
    ensures pad == Padding(n)
  {
  }

  lemma FewBytes(h: Registers, data: seq<bv8>)
    requires |data| < 64
    ensures Absorb(h, data) == h
  {
  }

  lemma OneBlock(h: Registers, data: seq<bv8>)
    requires |data| >= 64
    ensures Absorb(h, data) == Absorb(Compress(h, data[..64]), data[64..])
  {
  }

  function Flatten(chunks: seq<seq<bv8>>): seq<bv8> {
    if chunks == [] then [] else Flatten(chunks[..|chunks| - 1]) + chunks[|chunks| - 1]
  }

  lemma FlattenOneMore(chunks: seq<seq<bv8>>, i: nat)
    requires i < |chunks|
    ensures Flatten(chunks[..i + 1]) == Flatten(chunks[..i]) + chunks[i]
  {
    assert chunks[..i + 1][..i] == chunks[..i];
  }

  lemma NothingFlat()
    ensures Flatten([]) == []
  {
  }

  method ToArray(s: seq<bv8>) returns (a: array<bv8>)
    ensures fresh(a) && a.Length == |s| && a[..|s|] == s
  {
    a := new bv8[|s|](k requires 0 <= k < |s| => s[k]);
  }

  /** Init, any number of Append calls, Finish: the digest does not depend on where the message was cut. */
  method DigestOfChunks(chunks: seq<seq<bv8>>) returns (digest: seq<bv8>)
    requires forall c :: c in chunks ==> |c| + 63 <= INT_MAX
    ensures digest == Digest(Flatten(chunks))
  {
    hide Digest, Flatten, Absorb, Counts, Buffered, Tail, Compress;
    NothingFlat();
    var state := new State();
    state.Init();
    for i := 0 to |chunks|
      invariant fresh(state) && fresh(state.buf) && state.Valid()
      invariant state.message == Flatten(chunks[..i])
    {
      var data := ToArray(chunks[i]);
      FlattenOneMore(chunks, i);
      state.Append(data, |chunks[i]|);
    }
    assert chunks[..|chunks|] == chunks;
    var out := state.Finish();
    digest := out[..];
  }
}
