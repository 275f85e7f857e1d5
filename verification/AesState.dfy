/** The round steps of dev/algorithmic/src/crypt-aes.cpp. Each is a function on a block and an in-place
    method on the sixteen bytes of a buffer that start at an offset. Byte k of a block is
    state[k / 4][k % 4] of the source: column k / 4, row k % 4 of FIPS 197.

    The methods change nothing outside their sixteen bytes, so the buffer loops can be told with Splice.
    The inversions are proved for the functions; that the rows and the columns come back follows entry by
    entry. */
module AesState {

  import opened AesTables
  import opened AesField

  type Block = s: seq<bv8> | |s| == 16 witness seq(16, _ => 0 as bv8)

  // ---------- the steps as functions ----------

  /** SubBytes, section 5.1.1 of FIPS 197. */
  function Substituted(s: Block): Block {
    seq(16, k requires 0 <= k < 16 => SBox(s[k]))
  }

  /** InvSubBytes, section 5.3.2 of FIPS 197. */
  function Unsubstituted(s: Block): Block {
    seq(16, k requires 0 <= k < 16 => RSBox(s[k]))
  }

  /** The place of a row and a column; columns wrap around. */
  function At(row: nat, column: nat): nat {
    4 * (column % 4) + row
  }

  /** ShiftRows, section 5.1.2 of FIPS 197: row r moves left by r columns. */
  function Shifted(s: Block): Block {
    seq(16, k requires 0 <= k < 16 => s[At(k % 4, k / 4 + k % 4)])
  }

  /** InvShiftRows, section 5.3.1 of FIPS 197: row r moves right by r columns. */
  function Unshifted(s: Block): Block {
    seq(16, k requires 0 <= k < 16 => s[At(k % 4, k / 4 + 4 - k % 4)])
  }

  function ColumnOf(s: Block, i: nat): Column
    requires i < 4
  {
    Column(s[4 * i], s[4 * i + 1], s[4 * i + 2], s[4 * i + 3])
  }

  function Entry(v: Column, row: nat): bv8 {
    if row == 0 then v.a else if row == 1 then v.b else if row == 2 then v.c else v.d
  }

  /** MixColumns, section 5.1.3 of FIPS 197. */
  function Mixed(s: Block): Block {
    seq(16, k requires 0 <= k < 16 => Entry(Mix(ColumnOf(s, k / 4)), k % 4))
  }

  /** InvMixColumns, section 5.3.3 of FIPS 197. */
  function Unmixed(s: Block): Block {
    seq(16, k requires 0 <= k < 16 => Entry(Unmix(ColumnOf(s, k / 4)), k % 4))
  }

  /** The byte-wise sum of two blocks. */
  function Sum(s: Block, t: Block): Block {
    seq(16, k requires 0 <= k < 16 => s[k] ^ t[k])
  }

  // ---------- each step undoes its partner ----------

  lemma SubstitutionInverse(s: Block)
    ensures Unsubstituted(Substituted(s)) == s && Substituted(Unsubstituted(s)) == s
  {
    hide SBox, RSBox;
    forall k | 0 <= k < 16
      ensures RSBox(SBox(s[k])) == s[k] && SBox(RSBox(s[k])) == s[k]
    {
      SBoxesInverse(s[k]);
    }
  }

  lemma ShiftedHalf0(s: Block)
    ensures Shifted(s)[0] == s[0] && Shifted(s)[1] == s[5] && Shifted(s)[2] == s[10] && Shifted(s)[3] == s[15]
    ensures Shifted(s)[4] == s[4] && Shifted(s)[5] == s[9] && Shifted(s)[6] == s[14] && Shifted(s)[7] == s[3]
  {
  }

  lemma ShiftedHalf1(s: Block)
    ensures Shifted(s)[8] == s[8] && Shifted(s)[9] == s[13] && Shifted(s)[10] == s[2] && Shifted(s)[11] == s[7]
    ensures Shifted(s)[12] == s[12] && Shifted(s)[13] == s[1] && Shifted(s)[14] == s[6] && Shifted(s)[15] == s[11]
  {
  }

  lemma ShiftedEntries(s: Block)
    ensures Shifted(s)[0] == s[0] && Shifted(s)[1] == s[5] && Shifted(s)[2] == s[10] && Shifted(s)[3] == s[15]
    ensures Shifted(s)[4] == s[4] && Shifted(s)[5] == s[9] && Shifted(s)[6] == s[14] && Shifted(s)[7] == s[3]
    ensures Shifted(s)[8] == s[8] && Shifted(s)[9] == s[13] && Shifted(s)[10] == s[2] && Shifted(s)[11] == s[7]
    ensures Shifted(s)[12] == s[12] && Shifted(s)[13] == s[1] && Shifted(s)[14] == s[6] && Shifted(s)[15] == s[11]
  {
    hide Shifted;
    ShiftedHalf0(s);
    ShiftedHalf1(s);
  }

  lemma UnshiftedHalf0(s: Block)
    ensures Unshifted(s)[0] == s[0] && Unshifted(s)[1] == s[13] && Unshifted(s)[2] == s[10] && Unshifted(s)[3] == s[7]
    ensures Unshifted(s)[4] == s[4] && Unshifted(s)[5] == s[1] && Unshifted(s)[6] == s[14] && Unshifted(s)[7] == s[11]
  {
  }

  lemma UnshiftedHalf1(s: Block)
    ensures Unshifted(s)[8] == s[8] && Unshifted(s)[9] == s[5] && Unshifted(s)[10] == s[2] && Unshifted(s)[11] == s[15]
    ensures Unshifted(s)[12] == s[12] && Unshifted(s)[13] == s[9] && Unshifted(s)[14] == s[6] && Unshifted(s)[15] == s[3]
  {
  }

  lemma UnshiftedEntries(s: Block)
    ensures Unshifted(s)[0] == s[0] && Unshifted(s)[1] == s[13] && Unshifted(s)[2] == s[10] && Unshifted(s)[3] == s[7]
    ensures Unshifted(s)[4] == s[4] && Unshifted(s)[5] == s[1] && Unshifted(s)[6] == s[14] && Unshifted(s)[7] == s[11]
    ensures Unshifted(s)[8] == s[8] && Unshifted(s)[9] == s[5] && Unshifted(s)[10] == s[2] && Unshifted(s)[11] == s[15]
    ensures Unshifted(s)[12] == s[12] && Unshifted(s)[13] == s[9] && Unshifted(s)[14] == s[6] && Unshifted(s)[15] == s[3]
  {
    hide Unshifted;
    UnshiftedHalf0(s);
    UnshiftedHalf1(s);
  }

  lemma ShiftInverse(s: Block)
    ensures Unshifted(Shifted(s)) == s && Shifted(Unshifted(s)) == s
  {
    hide Shifted, Unshifted;
    ShiftedEntries(s);
    UnshiftedEntries(Shifted(s));
    UnshiftedEntries(s);
    ShiftedEntries(Unshifted(s));
  }

  lemma MixedEntry(s: Block, i: nat, row: nat)
    requires i < 4 && row < 4
    ensures Mixed(s)[4 * i + row] == Entry(Mix(ColumnOf(s, i)), row)
    ensures Unmixed(s)[4 * i + row] == Entry(Unmix(ColumnOf(s, i)), row)
  {
    hide Mix, Unmix, Entry;
    var k := 4 * i + row;
    assert k / 4 == i && k % 4 == row;
  }

  lemma MixedColumn(s: Block, i: nat)
    requires i < 4
    ensures ColumnOf(Mixed(s), i) == Mix(ColumnOf(s, i)) && ColumnOf(Unmixed(s), i) == Unmix(ColumnOf(s, i))
  {
    hide Mix, Unmix, Mixed, Unmixed;
    MixedEntry(s, i, 0);
    MixedEntry(s, i, 1);
    MixedEntry(s, i, 2);
    MixedEntry(s, i, 3);
  }

  lemma EntryOf(s: Block, k: nat)
    requires k < 16
    ensures Entry(ColumnOf(s, k / 4), k % 4) == s[k]
  {
  }

  lemma SameColumns(s: Block, t: Block)
    requires forall i: nat :: i < 4 ==> ColumnOf(s, i) == ColumnOf(t, i)
    ensures s == t
  {
    hide ColumnOf, Entry;
    forall k: nat | k < 16
      ensures s[k] == t[k]
    {
      EntryOf(s, k);
      EntryOf(t, k);
    }
  }

  lemma MixInverse(s: Block)
    ensures Unmixed(Mixed(s)) == s && Mixed(Unmixed(s)) == s
  {
    hide Mix, Unmix, ColumnOf, Mixed, Unmixed;
    forall i: nat | i < 4
      ensures ColumnOf(Unmixed(Mixed(s)), i) == ColumnOf(s, i) && ColumnOf(Mixed(Unmixed(s)), i) == ColumnOf(s, i)
    {
      MixedColumn(s, i);
      MixedColumn(Mixed(s), i);
      MixedColumn(Unmixed(s), i);
      ColumnsInverse(ColumnOf(s, i));
    }
    SameColumns(Unmixed(Mixed(s)), s);
    SameColumns(Mixed(Unmixed(s)), s);
  }

  lemma SumTwice(s: Block, t: Block)
    ensures Sum(Sum(s, t), t) == s
  {
    forall k: nat | k < 16
      ensures Sum(Sum(s, t), t)[k] == s[k]
    {
      AddUndoes(s[k], t[k]);
    }
  }

  // ---------- sixteen bytes of a buffer ----------

  /** The buffer with the block at p replaced. */
  function Splice(s: seq<bv8>, p: nat, b: Block): seq<bv8>
    requires p + 16 <= |s|
  {
    s[..p] + b + s[p + 16..]
  }

  function BlockAt(s: seq<bv8>, p: nat): Block
    requires p + 16 <= |s|
  {
    s[p..p + 16]
  }

  lemma SpliceIs(was: seq<bv8>, now: seq<bv8>, p: nat, b: Block)
    requires p + 16 <= |was| == |now|
    requires forall m :: 0 <= m < |was| && !(p <= m < p + 16) ==> now[m] == was[m]
    requires forall m :: p <= m < p + 16 ==> now[m] == b[m - p]
    ensures now == Splice(was, p, b)
  {
  }

  lemma SpliceEntries(was: seq<bv8>, now: seq<bv8>, p: nat, b: Block)
    requires p + 16 <= |was| == |now|
    requires forall m :: 0 <= m < |was| && !(p <= m < p + 16) ==> now[m] == was[m]
    requires now[p] == b[0] && now[p + 1] == b[1] && now[p + 2] == b[2] && now[p + 3] == b[3]
    requires now[p + 4] == b[4] && now[p + 5] == b[5] && now[p + 6] == b[6] && now[p + 7] == b[7]
    requires now[p + 8] == b[8] && now[p + 9] == b[9] && now[p + 10] == b[10] && now[p + 11] == b[11]
    requires now[p + 12] == b[12] && now[p + 13] == b[13] && now[p + 14] == b[14] && now[p + 15] == b[15]
    ensures now == Splice(was, p, b)
  {
    SpliceIs(was, now, p, b);
  }

  lemma BlockEntries(s: seq<bv8>, p: nat)
    requires p + 16 <= |s|
    ensures BlockAt(s, p)[0] == s[p] && BlockAt(s, p)[1] == s[p + 1] && BlockAt(s, p)[2] == s[p + 2] && BlockAt(s, p)[3] == s[p + 3]
    ensures BlockAt(s, p)[4] == s[p + 4] && BlockAt(s, p)[5] == s[p + 5] && BlockAt(s, p)[6] == s[p + 6] && BlockAt(s, p)[7] == s[p + 7]
    ensures BlockAt(s, p)[8] == s[p + 8] && BlockAt(s, p)[9] == s[p + 9] && BlockAt(s, p)[10] == s[p + 10] && BlockAt(s, p)[11] == s[p + 11]
    ensures BlockAt(s, p)[12] == s[p + 12] && BlockAt(s, p)[13] == s[p + 13] && BlockAt(s, p)[14] == s[p + 14] && BlockAt(s, p)[15] == s[p + 15]
  {
  }

  lemma SpliceLaws(s: seq<bv8>, p: nat, b: Block, c: Block)
    requires p + 16 <= |s|
    ensures |Splice(s, p, b)| == |s|
    ensures BlockAt(Splice(s, p, b), p) == b
    ensures Splice(Splice(s, p, b), p, c) == Splice(s, p, c)
    ensures Splice(s, p, BlockAt(s, p)) == s
  {
    assert Splice(s, p, b)[..p] == s[..p];
    assert Splice(s, p, b)[p + 16..] == s[p + 16..];
  }

  // ---------- the steps in place ----------

  method SubBytes(state: array<bv8>, p: nat)
    requires p + 16 <= state.Length
    modifies state
    ensures state[..] == Splice(old(state[..]), p, Substituted(old(BlockAt(state[..], p))))
  {
    hide SBox;
    ghost var was := state[..];
    for i := 0 to 4
      invariant forall m :: 0 <= m < |was| && !(p <= m < p + 16) ==> state[m] == was[m]
      invariant forall m :: p <= m < p + 16 ==> state[m] == if (m - p) % 4 < i then SBox(was[m]) else was[m]
    {
      for j := 0 to 4
        invariant forall m :: 0 <= m < |was| && !(p <= m < p + 16) ==> state[m] == was[m]
        invariant forall m :: p <= m < p + 16 ==>
                    state[m] == if (m - p) % 4 < i || ((m - p) % 4 == i && (m - p) / 4 < j) then SBox(was[m]) else was[m]
      {
        state[p + 4 * j + i] := SBox(state[p + 4 * j + i]);
      }
    }
    SpliceIs(was, state[..], p, Substituted(BlockAt(was, p)));
  }

  method InvSubBytes(state: array<bv8>, p: nat)
    requires p + 16 <= state.Length
    modifies state
    ensures state[..] == Splice(old(state[..]), p, Unsubstituted(old(BlockAt(state[..], p))))
  {
    hide RSBox;
    ghost var was := state[..];
    for i := 0 to 4
      invariant forall m :: 0 <= m < |was| && !(p <= m < p + 16) ==> state[m] == was[m]
      invariant forall m :: p <= m < p + 16 ==> state[m] == if (m - p) % 4 < i then RSBox(was[m]) else was[m]
    {
      for j := 0 to 4
        invariant forall m :: 0 <= m < |was| && !(p <= m < p + 16) ==> state[m] == was[m]
        invariant forall m :: p <= m < p + 16 ==>
                    state[m] == if (m - p) % 4 < i || ((m - p) % 4 == i && (m - p) / 4 < j) then RSBox(was[m]) else was[m]
      {
        state[p + 4 * j + i] := RSBox(state[p + 4 * j + i]);
      }
    }
    SpliceIs(was, state[..], p, Unsubstituted(BlockAt(was, p)));
  }

  /** The first lines of ShiftRows: row 1 moves left by one column. */
  method Row1Left(state: array<bv8>, p: nat)
    requires p + 16 <= state.Length
    modifies state
    ensures state[p + 1] == old(state[p + 5]) && state[p + 5] == old(state[p + 9]) && state[p + 9] == old(state[p + 13]) && state[p + 13] == old(state[p + 1])
    ensures forall m :: 0 <= m < state.Length && m != p + 1 && m != p + 5 && m != p + 9 && m != p + 13 ==> state[m] == old(state[m])
  {
    var temp := state[p + 1];
    state[p + 1] := state[p + 5];
    state[p + 5] := state[p + 9];
    state[p + 9] := state[p + 13];
    state[p + 13] := temp;
  }

  /** Row 2 moves by two columns, the same way left and right. */
  method Row2Over(state: array<bv8>, p: nat)
    requires p + 16 <= state.Length
    modifies state
    ensures state[p + 2] == old(state[p + 10]) && state[p + 10] == old(state[p + 2]) && state[p + 6] == old(state[p + 14]) && state[p + 14] == old(state[p + 6])
    ensures forall m :: 0 <= m < state.Length && m != p + 2 && m != p + 10 && m != p + 6 && m != p + 14 ==> state[m] == old(state[m])
  {
    var temp := state[p + 2];
    state[p + 2] := state[p + 10];
    state[p + 10] := temp;
    temp := state[p + 6];
    state[p + 6] := state[p + 14];
    state[p + 14] := temp;
  }

  /** Row 3 moves left by three columns. */
  method Row3Left(state: array<bv8>, p: nat)
    requires p + 16 <= state.Length
    modifies state
    ensures state[p + 3] == old(state[p + 15]) && state[p + 15] == old(state[p + 11]) && state[p + 11] == old(state[p + 7]) && state[p + 7] == old(state[p + 3])
    ensures forall m :: 0 <= m < state.Length && m != p + 3 && m != p + 15 && m != p + 11 && m != p + 7 ==> state[m] == old(state[m])
  {
    var temp := state[p + 3];
    state[p + 3] := state[p + 15];
    state[p + 15] := state[p + 11];
    state[p + 11] := state[p + 7];
    state[p + 7] := temp;
  }

  method ShiftRows(state: array<bv8>, p: nat)
    requires p + 16 <= state.Length
    modifies state
    ensures state[..] == Splice(old(state[..]), p, Shifted(old(BlockAt(state[..], p))))
  {
    hide Shifted, Unshifted, BlockAt;
    ghost var was := state[..];
    Row1Left(state, p);
    Row2Over(state, p);
    Row3Left(state, p);
    BlockEntries(was, p);
    ShiftedEntries(BlockAt(was, p));
    SpliceEntries(was, state[..], p, Shifted(BlockAt(was, p)));
  }

  /** The first lines of InvShiftRows: row 1 moves right by one column. */
  method Row1Right(state: array<bv8>, p: nat)
    requires p + 16 <= state.Length
    modifies state
    ensures state[p + 13] == old(state[p + 9]) && state[p + 9] == old(state[p + 5]) && state[p + 5] == old(state[p + 1]) && state[p + 1] == old(state[p + 13])
    ensures forall m :: 0 <= m < state.Length && m != p + 13 && m != p + 9 && m != p + 5 && m != p + 1 ==> state[m] == old(state[m])
  {
    var temp := state[p + 13];
    state[p + 13] := state[p + 9];
    state[p + 9] := state[p + 5];
    state[p + 5] := state[p + 1];
    state[p + 1] := temp;
  }

  /** Row 3 moves right by three columns. */
  method Row3Right(state: array<bv8>, p: nat)
    requires p + 16 <= state.Length
    modifies state
    ensures state[p + 3] == old(state[p + 7]) && state[p + 7] == old(state[p + 11]) && state[p + 11] == old(state[p + 15]) && state[p + 15] == old(state[p + 3])
    ensures forall m :: 0 <= m < state.Length && m != p + 3 && m != p + 7 && m != p + 11 && m != p + 15 ==> state[m] == old(state[m])
  {
    var temp := state[p + 3];
    state[p + 3] := state[p + 7];
    state[p + 7] := state[p + 11];
    state[p + 11] := state[p + 15];
    state[p + 15] := temp;
  }

  method InvShiftRows(state: array<bv8>, p: nat)
    requires p + 16 <= state.Length
    modifies state
    ensures state[..] == Splice(old(state[..]), p, Unshifted(old(BlockAt(state[..], p))))
  {
    hide Shifted, Unshifted, BlockAt;
    ghost var was := state[..];
    Row1Right(state, p);
    Row2Over(state, p);
    Row3Right(state, p);
    BlockEntries(was, p);
    UnshiftedEntries(BlockAt(was, p));
    SpliceEntries(was, state[..], p, Unshifted(BlockAt(was, p)));
  }

  /** One turn of the loop of MixColumns: the column at q. */
  method MixColumn(state: array<bv8>, q: nat)
    requires q + 4 <= state.Length
    modifies state
    ensures Column(state[q], state[q + 1], state[q + 2], state[q + 3]) ==
            Mix(old(Column(state[q], state[q + 1], state[q + 2], state[q + 3])))
    ensures forall m :: 0 <= m < state.Length && !(q <= m < q + 4) ==> state[m] == old(state[m])
  {
    hide Add, Xtime, MixByte;
    ghost var a, b, c, d := state[q], state[q + 1], state[q + 2], state[q + 3];
    var t := state[q];
    var tmp := Add(Add(state[q], state[q + 1]), Add(state[q + 2], state[q + 3]));
    var tm := Xtime(Add(state[q], state[q + 1]));
    state[q] := Add(state[q], Add(tm, tmp));
    tm := Xtime(Add(state[q + 1], state[q + 2]));
    state[q + 1] := Add(state[q + 1], Add(tm, tmp));
    tm := Xtime(Add(state[q + 2], state[q + 3]));
    state[q + 2] := Add(state[q + 2], Add(tm, tmp));
    tm := Xtime(Add(state[q + 3], t));
    state[q + 3] := Add(state[q + 3], Add(tm, tmp));
    TrickIsMix(a, b, c, d);
    TrickIsMix(b, c, d, a);
    TrickIsMix(c, d, a, b);
    TrickIsMix(d, a, b, c);
    TotalRotates(a, b, c, d);
    TotalRotates(b, c, d, a);
    TotalRotates(c, d, a, b);
  }

  lemma BlockColumn(s: seq<bv8>, p: nat, i: nat)
    requires p + 16 <= |s| && i < 4
    ensures var q := p + 4 * i;
            ColumnOf(BlockAt(s, p), i) == Column(s[q], s[q + 1], s[q + 2], s[q + 3])
  {
  }

  /** Columns up to i are done; the rest of the buffer is as it was. */
  predicate ColumnsDone(was: seq<bv8>, now: seq<bv8>, p: nat, b: Block, i: nat)
    requires p + 16 <= |was| == |now| && i <= 4
  {
    && (forall m :: 0 <= m < |was| && !(p <= m < p + 4 * i) ==> now[m] == was[m])
    && (forall m :: p <= m < p + 4 * i ==> now[m] == b[m - p])
  }

  lemma OneMoreColumn(was: seq<bv8>, now: seq<bv8>, next: seq<bv8>, p: nat, b: Block, i: nat)
    requires p + 16 <= |was| == |now| == |next| && i < 4 && ColumnsDone(was, now, p, b, i)
    requires var q := p + 4 * i;
             && (forall m :: 0 <= m < |was| && !(q <= m < q + 4) ==> next[m] == now[m])
             && ColumnOf(b, i) == Column(next[q], next[q + 1], next[q + 2], next[q + 3])
    ensures ColumnsDone(was, next, p, b, i + 1)
  {
  }

  lemma ColumnUntouched(was: seq<bv8>, now: seq<bv8>, p: nat, b: Block, i: nat)
    requires p + 16 <= |was| == |now| && i < 4 && ColumnsDone(was, now, p, b, i)
    ensures var q := p + 4 * i;
            ColumnOf(BlockAt(was, p), i) == Column(now[q], now[q + 1], now[q + 2], now[q + 3])
  {
    hide BlockAt, ColumnOf;
    BlockColumn(was, p, i);
  }

  method MixColumns(state: array<bv8>, p: nat)
    requires p + 16 <= state.Length
    modifies state
    ensures state[..] == Splice(old(state[..]), p, Mixed(old(BlockAt(state[..], p))))
  {
    hide Mix, Mixed, BlockAt, ColumnOf, ColumnsDone;
    ghost var was := state[..];
    ghost var mixed := Mixed(BlockAt(was, p));
    NoColumns(was, p, mixed);
    for i := 0 to 4
      invariant ColumnsDone(was, state[..], p, mixed, i)
    {
      ghost var now := state[..];
      ColumnUntouched(was, now, p, mixed, i);
      MixColumn(state, p + 4 * i);
      MixedColumn(BlockAt(was, p), i);
      OneMoreColumn(was, now, state[..], p, mixed, i);
    }
    AllColumns(was, state[..], p, mixed);
  }

  lemma NoColumns(was: seq<bv8>, p: nat, b: Block)
    requires p + 16 <= |was|
    ensures ColumnsDone(was, was, p, b, 0)
  {
  }

  lemma AllColumns(was: seq<bv8>, now: seq<bv8>, p: nat, b: Block)
    requires p + 16 <= |was| == |now| && ColumnsDone(was, now, p, b, 4)
    ensures now == Splice(was, p, b)
  {
    SpliceIs(was, now, p, b);
  }

  /** A row of the inverse matrix with the source's truncated products. */
  function UnmixRow(a: bv8, b: bv8, c: bv8, d: bv8): bv8 {
    Add(Add(Add(Multiply(a, 0x0e), Multiply(b, 0x0b)), Multiply(c, 0x0d)), Multiply(d, 0x09))
  }

  lemma UnmixRowForm(a: bv8, b: bv8, c: bv8, d: bv8)
    ensures UnmixRow(a, b, c, d) == UnmixByte(a, b, c, d)
  {
    hide Add, Multiply, Product;
    MultiplyIsProduct(a, 0x0e);
    MultiplyIsProduct(b, 0x0b);
    MultiplyIsProduct(c, 0x0d);
    MultiplyIsProduct(d, 0x09);
    AddAssociates(Add(Multiply(a, 0x0e), Multiply(b, 0x0b)), Multiply(c, 0x0d), Multiply(d, 0x09));
  }

  lemma UnmixRows(a: bv8, b: bv8, c: bv8, d: bv8)
    ensures Add(Add(Add(Multiply(a, 0x09), Multiply(b, 0x0e)), Multiply(c, 0x0b)), Multiply(d, 0x0d)) == UnmixByte(b, c, d, a)
    ensures Add(Add(Add(Multiply(a, 0x0d), Multiply(b, 0x09)), Multiply(c, 0x0e)), Multiply(d, 0x0b)) == UnmixByte(c, d, a, b)
    ensures Add(Add(Add(Multiply(a, 0x0b), Multiply(b, 0x0d)), Multiply(c, 0x09)), Multiply(d, 0x0e)) == UnmixByte(d, a, b, c)
  {
    hide Add, Multiply, UnmixByte;
    UnmixRowForm(b, c, d, a);
    RotateSum(Multiply(a, 0x09), Multiply(b, 0x0e), Multiply(c, 0x0b), Multiply(d, 0x0d));
    UnmixRowForm(c, d, a, b);
    RotateSum(Multiply(a, 0x0d), Multiply(b, 0x09), Multiply(c, 0x0e), Multiply(d, 0x0b));
    RotateSum(Multiply(b, 0x09), Multiply(c, 0x0e), Multiply(d, 0x0b), Multiply(a, 0x0d));
    UnmixRowForm(d, a, b, c);
    RotateSum(Multiply(d, 0x0e), Multiply(a, 0x0b), Multiply(b, 0x0d), Multiply(c, 0x09));
  }

  lemma RotateSum(x: bv8, y: bv8, z: bv8, w: bv8)
    ensures Add(Add(Add(x, y), z), w) == Add(Add(Add(y, z), w), x)
  {
    hide Add;
    AddAssociates(x, y, z);
    AddAssociates(x, Add(y, z), w);
    AddCommutes(x, Add(Add(y, z), w));
  }

  /** One turn of the loop of InvMixColumns: the column at q. */
  method InvMixColumn(state: array<bv8>, q: nat)
    requires q + 4 <= state.Length
    modifies state
    ensures Column(state[q], state[q + 1], state[q + 2], state[q + 3]) ==
            Unmix(old(Column(state[q], state[q + 1], state[q + 2], state[q + 3])))
    ensures forall m :: 0 <= m < state.Length && !(q <= m < q + 4) ==> state[m] == old(state[m])
  {
    hide Add, Multiply, UnmixByte;
    var a, b, c, d := state[q], state[q + 1], state[q + 2], state[q + 3];
    state[q] := Add(Add(Add(Multiply(a, 0x0e), Multiply(b, 0x0b)), Multiply(c, 0x0d)), Multiply(d, 0x09));
    state[q + 1] := Add(Add(Add(Multiply(a, 0x09), Multiply(b, 0x0e)), Multiply(c, 0x0b)), Multiply(d, 0x0d));
    state[q + 2] := Add(Add(Add(Multiply(a, 0x0d), Multiply(b, 0x09)), Multiply(c, 0x0e)), Multiply(d, 0x0b));
    state[q + 3] := Add(Add(Add(Multiply(a, 0x0b), Multiply(b, 0x0d)), Multiply(c, 0x09)), Multiply(d, 0x0e));
    UnmixRowForm(a, b, c, d);
    UnmixRows(a, b, c, d);
  }

  method InvMixColumns(state: array<bv8>, p: nat)
    requires p + 16 <= state.Length
    modifies state
    ensures state[..] == Splice(old(state[..]), p, Unmixed(old(BlockAt(state[..], p))))
  {
    hide Unmix, Unmixed, BlockAt, ColumnOf, ColumnsDone;
    ghost var was := state[..];
    ghost var unmixed := Unmixed(BlockAt(was, p));
    NoColumns(was, p, unmixed);
    for i := 0 to 4
      invariant ColumnsDone(was, state[..], p, unmixed, i)
    {
      ghost var now := state[..];
      ColumnUntouched(was, now, p, unmixed, i);
      InvMixColumn(state, p + 4 * i);
      MixedColumn(BlockAt(was, p), i);
      OneMoreColumn(was, now, state[..], p, unmixed, i);
    }
    AllColumns(was, state[..], p, unmixed);
  }

  /** AddRoundKey: adds sixteen bytes of the key schedule. */
  method AddRoundKey(round: nat, roundKey: array<bv8>, state: array<bv8>, p: nat)
    requires p + 16 <= state.Length && 16 * round + 16 <= roundKey.Length && state != roundKey
    modifies state
    ensures state[..] == Splice(old(state[..]), p, Sum(old(BlockAt(state[..], p)), BlockAt(roundKey[..], 16 * round)))
  {
    ghost var was, key := state[..], BlockAt(roundKey[..], 16 * round);
    for i := 0 to 4
      invariant forall m :: 0 <= m < |was| && !(p <= m < p + 16) ==> state[m] == was[m]
      invariant forall m :: p <= m < p + 16 ==> state[m] == if m < p + 4 * i then was[m] ^ key[m - p] else was[m]
    {
      for j := 0 to 4
        invariant forall m :: 0 <= m < |was| && !(p <= m < p + 16) ==> state[m] == was[m]
        invariant forall m :: p <= m < p + 16 ==> state[m] == if m < p + 4 * i + j then was[m] ^ key[m - p] else was[m]
      {
        state[p + 4 * i + j] := state[p + 4 * i + j] ^ roundKey[16 * round + 4 * i + j];
      }
    }
    SpliceIs(was, state[..], p, Sum(BlockAt(was, p), key));
  }
}
