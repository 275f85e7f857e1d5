/** Record addresses of dev/cyberspace/src/cs-db_query_base.h: a table name and a record id joined by
    '@' and written in base32, taken apart again by string_split of dev/utility/src/pf-stdlib.cpp with
    the tokenizer of dev/utility/src/pf-string.cpp. Strings are octets without a zero. */
module RecordAddress {

  import opened Base32
  import opened CStrings
  import opened Wrappers

  datatype Names = Names(tbname: seq<bv8>, uid: seq<bv8>)

  const AT: bv8 := 64

  // ---------- splitting ----------

  /** How many octets at the front of s are not '@'. */
  function Run(s: seq<bv8>): (n: nat)
    ensures n <= |s|
  {
    if s == [] || s[0] == AT then 0 else 1 + Run(s[1..])
  }

  /** The pieces between '@' characters, empty ones left out. */
  function Tokens(s: seq<bv8>): seq<seq<bv8>>
    decreases |s|
  {
    if s == [] then []
    else if s[0] == AT then Tokens(s[1..])
    else
      var n := Run(s);
      [s[..n]] + Tokens(s[n..])
  }

  function Make(names: Names): seq<bv8> {
    Encoded(names.uid + [AT] + names.tbname)
  }

  function Split(address: seq<bv8>): Option<Names> {
    var value := Tokens(CString(Decoded(address)));
    if |value| == 2 then Some(Names(value[1], value[0])) else None
  }

  // ---------- which addresses come back ----------

  /** Decoding an address gives the joined string back as a C string. */
  lemma AddressText(names: Names)
    requires IsString(names.tbname) && IsString(names.uid)
    ensures CString(Decoded(Make(names))) == names.uid + [AT] + names.tbname
  {
    hide Encoded, Decoded, CString;
    var p := names.uid + [AT] + names.tbname;
    RoundTrip(p);
    CStringEnds(p, seq((|p| + 4) / 5 * 5 - |p|, _ => 0 as bv8));
  }

  lemma {:induction false} RunOf(s: seq<bv8>, rest: seq<bv8>)
    requires AT !in s && (rest == [] || rest[0] == AT)
    ensures Run(s + rest) == |s|
    decreases |s|
  {
    if s == [] {
      assert s + rest == rest;
    } else {
      assert (s + rest)[1..] == s[1..] + rest;
      RunOf(s[1..], rest);
    }
  }

  lemma {:induction false} RunClean(s: seq<bv8>)
    ensures AT !in s[..Run(s)]
    ensures Run(s) < |s| ==> s[Run(s)] == AT
    decreases |s|
  {
    if s != [] && s[0] != AT {
      RunClean(s[1..]);
      assert s[..Run(s)] == [s[0]] + s[1..][..Run(s[1..])];
    }
  }

  /** No token is empty or holds an '@'. */
  lemma {:induction false} TokensClean(s: seq<bv8>)
    ensures forall t :: t in Tokens(s) ==> t != [] && AT !in t
    decreases |s|
  {
    if s != [] {
      if s[0] == AT {
        TokensClean(s[1..]);
      } else {
        RunClean(s);
        TokensClean(s[Run(s)..]);
      }
    }
  }

  lemma TwoTokens(a: seq<bv8>, b: seq<bv8>)
    requires a != [] && b != [] && AT !in a && AT !in b
    ensures Tokens(a + [AT] + b) == [a, b]
  {
    var s := a + [AT] + b;
    assert s == a + ([AT] + b);
    RunOf(a, [AT] + b);
    assert s[..|a|] == a && s[|a|..] == [AT] + b && s[0] == a[0];
    assert Tokens(s) == [a] + Tokens([AT] + b);
    assert ([AT] + b)[1..] == b;
    assert b == b + [];
    RunOf(b, []);
    assert b[..|b|] == b && b[|b|..] == [];
    assert Tokens(b) == [b] + Tokens([]);
  }

  /** SplitRecordAddress recovers the names MakeRecordAddress was given exactly when both are
      non-empty and neither holds an '@'. */
  lemma Recovered(names: Names)
    requires IsString(names.tbname) && IsString(names.uid)
    ensures Split(Make(names)) == Some(names) <==>
            names.tbname != [] && names.uid != [] && AT !in names.tbname && AT !in names.uid
  {
    hide Make, Decoded, CString, Tokens;
    AddressText(names);
    var s := names.uid + [AT] + names.tbname;
    TokensClean(s);
    if names.tbname != [] && names.uid != [] && AT !in names.tbname && AT !in names.uid {
      TwoTokens(names.uid, names.tbname);
    } else if |Tokens(s)| == 2 {
      assert Tokens(s)[0] in Tokens(s) && Tokens(s)[1] in Tokens(s);
    }
  }

  /** Different names with different joined strings have different addresses. */
  lemma AddressesDiffer(a: Names, b: Names)
    requires Make(a) == Make(b)
    ensures a.uid + [AT] + a.tbname == b.uid + [AT] + b.tbname
  {
    hide Encoded;
    EncodingInjective(a.uid + [AT] + a.tbname, b.uid + [AT] + b.tbname);
  }

  // ---------- the functions of the source ----------

  /** The C string that starts at p. */
  function StringAt(s: seq<bv8>, p: nat): seq<bv8>
    requires p <= |s|
  {
    CString(s[p..])
  }

  lemma EmptyAt(b: seq<bv8>, s: nat)
    requires s < |b| && b[s] == 0
    ensures StringAt(b, s) == [] && Tokens([]) == []
  {
  }

  lemma NotYetZero(b: seq<bv8>, e: nat)
    requires e < |b| && b[e] != 0 && 0 in b[e..]
    ensures e + 1 < |b| && 0 in b[e + 1..]
  {
    assert b[e..] == [b[e]] + b[e + 1..];
  }

  lemma SkipDelimiter(b: seq<bv8>, s: nat)
    requires s < |b| && b[s] == AT && 0 in b[s..]
    ensures s + 1 < |b| && 0 in b[s + 1..]
    ensures Tokens(StringAt(b, s)) == Tokens(StringAt(b, s + 1))
  {
    NotYetZero(b, s);
    assert b[s..][1..] == b[s + 1..];
    assert StringAt(b, s) == [AT] + StringAt(b, s + 1);
    assert StringAt(b, s)[1..] == StringAt(b, s + 1);
  }

  lemma StringStep(b: seq<bv8>, s: nat)
    requires s < |b| && b[s] != 0
    ensures StringAt(b, s) == [b[s]] + StringAt(b, s + 1)
  {
    assert b[s..][1..] == b[s + 1..];
  }

  lemma RunStep(c: bv8, rest: seq<bv8>)
    ensures Run([c] + rest) == if c == AT then 0 else 1 + Run(rest)
  {
    assert ([c] + rest)[1..] == rest;
  }

  lemma RunStops(b: seq<bv8>, e: nat)
    requires e < |b| && (b[e] == AT || b[e] == 0)
    ensures Run(StringAt(b, e)) == 0
  {
  }

  /** A stretch without '@' or zero is the front of the string and of its first run. */
  lemma {:induction false} Stretch(b: seq<bv8>, s: nat, e: nat)
    requires s <= e < |b| && (b[e] == AT || b[e] == 0)
    requires forall k :: s <= k < e ==> b[k] != AT && b[k] != 0
    ensures StringAt(b, s) == b[s..e] + StringAt(b, e) && Run(StringAt(b, s)) == e - s
    decreases e - s
  {
    hide StringAt, Run;
    if s == e {
      RunStops(b, e);
      assert b[s..e] == [];
    } else {
      Stretch(b, s + 1, e);
      StringStep(b, s);
      RunStep(b[s], StringAt(b, s + 1));
      assert b[s..e] == [b[s]] + b[s + 1..e];
    }
  }

  lemma TokenEnds(b: seq<bv8>, s: nat, e: nat)
    requires s < e < |b| && (b[e] == AT || b[e] == 0)
    requires forall k :: s <= k < e ==> b[k] != AT && b[k] != 0
    ensures Tokens(StringAt(b, s)) == [b[s..e]] + Tokens(StringAt(b, e))
    ensures b[e] == 0 ==> StringAt(b, s) == b[s..e] && StringAt(b, e) == []
  {
    Stretch(b, s, e);
    var text := StringAt(b, s);
    assert text[..e - s] == b[s..e] && text[e - s..] == StringAt(b, e);
    assert text[0] == b[s];
  }

  /** Writing a zero over the delimiter ends the token and leaves the rest alone. */
  lemma TokenCut(was: seq<bv8>, now: seq<bv8>, s: nat, e: nat)
    requires s < e < |was| && was[e] == AT && 0 in was[e..] && now == was[e := 0]
    requires forall k :: s <= k < e ==> was[k] != AT && was[k] != 0
    ensures e + 1 < |now| && 0 in now[e + 1..]
    ensures StringAt(now, s) == was[s..e] && Tokens(StringAt(now, e + 1)) == Tokens(StringAt(was, e))
  {
    NotYetZero(was, e);
    SkipDelimiter(was, e);
    assert now[e + 1..] == was[e + 1..];
    Stretch(now, s, e);
    EmptyAt(now, e);
    assert now[s..e] == was[s..e];
  }

  /** strtok_rc with the delimiter '@': the start of the next token, or None, and where to go on. The
      token is ended by a zero written over its delimiter. */
  method StrTok(buffer: array<bv8>, start: nat) returns (token: Option<nat>, save: nat)
    requires start < buffer.Length && 0 in buffer[start..]
    modifies buffer
    ensures var tokens := Tokens(old(StringAt(buffer[..], start)));
            && (token.None? <==> tokens == [])
            && (token.Some? ==>
                  && start <= token.value < save < buffer.Length && 0 in buffer[save..]
                  && StringAt(buffer[..], token.value) == tokens[0]
                  && Tokens(StringAt(buffer[..], save)) == tokens[1..])
    ensures token.Some? ==> start < save
  {
    hide CString, Tokens, Run;
    ghost var was := buffer[..];
    ghost var text := StringAt(was, start);
    var s := start;
    while buffer[s] == AT
      invariant start <= s < |was| && 0 in was[s..] && buffer[..] == was
      invariant Tokens(StringAt(was, s)) == Tokens(text)
      decreases buffer.Length - s
    {
      SkipDelimiter(was, s);
      s := s + 1;
    }
    if buffer[s] == 0 {
      EmptyAt(was, s);
      return None, s;
    }
    var e := s;
    while buffer[e] != AT && buffer[e] != 0
      invariant s <= e < |was| && 0 in was[e..] && buffer[..] == was
      invariant forall k :: s <= k < e ==> was[k] != AT && was[k] != 0
      decreases buffer.Length - e
    {
      NotYetZero(was, e);
      e := e + 1;
    }
    assert was[s] == buffer[s] && was[e] == buffer[e];
    TokenEnds(was, s, e);
    if buffer[e] == 0 {
      return Some(s), e;
    }
    buffer[e] := 0;
    TokenCut(was, buffer[..], s, e);
    return Some(s), e + 1;
  }

  /** string_split on '@': the tokens of the C string, one tokenizer call after another. */
  method StringSplit(str: seq<bv8>) returns (value: seq<seq<bv8>>)
    ensures value == Tokens(CString(str))
  {
    hide CString, Tokens;
    var buffer := CopyString(str);
    value := [];
    ghost var all := Tokens(CString(str));
    var token, next := StrTok(buffer, 0);
    while token.Some?
      invariant token.Some? ==> token.value < next < buffer.Length && 0 in buffer[next..]
      invariant if token.None? then value == all
                else all == value + [StringAt(buffer[..], token.value)] + Tokens(StringAt(buffer[..], next))
      decreases token.Some?, buffer.Length - next
    {
      var piece := ReadString(buffer, token.value);
      value := value + [piece];
      ghost var rest := Tokens(StringAt(buffer[..], next));
      token, next := StrTok(buffer, next);
      assert token.Some? ==> rest == [rest[0]] + rest[1..];
    }
  }

  /** strcpy into a fresh buffer. */
  method CopyString(str: seq<bv8>) returns (buffer: array<bv8>)
    ensures fresh(buffer) && buffer.Length > 0 && 0 in buffer[..] && StringAt(buffer[..], 0) == CString(str)
  {
    hide CString, StringAt;
    var n := StringLength(str);
    buffer := new bv8[|str| + 1](_ => 0);
    for k := 0 to n
      invariant forall m :: 0 <= m < k ==> buffer[m] == str[m]
      invariant buffer[n] == 0
    {
      buffer[k] := str[k];
    }
    TerminatedCopy(buffer[..], str, n);
  }

  lemma TerminatedCopy(b: seq<bv8>, str: seq<bv8>, n: nat)
    requires n < |b| && n <= |str| && b[n] == 0 && IsString(str[..n])
    requires forall m :: 0 <= m < n ==> b[m] == str[m]
    ensures 0 in b && StringAt(b, 0) == str[..n]
  {
    assert b == str[..n] + b[n..] && b[n..][0] == 0 && b[0..] == b;
    CStringEnds(str[..n], b[n..]);
  }

  lemma NextChar(b: seq<bv8>, k: nat)
    requires k <= |b|
    ensures StringAt(b, k) == if k == |b| || b[k] == 0 then [] else [b[k]] + StringAt(b, k + 1)
  {
    if k < |b| {
      assert b[k..][1..] == b[k + 1..];
    }
  }

  /** The std::string made from a pointer into the buffer. */
  method ReadString(buffer: array<bv8>, p: nat) returns (s: seq<bv8>)
    requires p <= buffer.Length
    ensures s == StringAt(buffer[..], p)
  {
    hide StringAt;
    s := [];
    var k := p;
    ghost var b := buffer[..];
    while k < buffer.Length && buffer[k] != 0
      invariant p <= k <= buffer.Length && buffer[..] == b
      invariant StringAt(b, p) == s + StringAt(b, k)
    {
      NextChar(b, k);
      s := s + [buffer[k]];
      k := k + 1;
    }
    NextChar(b, k);
  }

  /** MakeRecordAddress. */
  method MakeRecordAddress(tbname: seq<bv8>, uid: seq<bv8>) returns (address: seq<bv8>)
    ensures address == Make(Names(tbname, uid))
  {
    hide Encoded;
    var text := uid + [AT] + tbname;
    var plain := new bv8[|text|](k requires 0 <= k < |text| => text[k]);
    assert plain[..|text|] == text;
    var coded := Base32.Encode(plain, |text|);
    address := coded[..];
  }

  /** SplitRecordAddress: on failure the names keep their old values. */
  method SplitRecordAddress(address: seq<bv8>, tbname0: seq<bv8>, uid0: seq<bv8>)
    returns (ok: bool, tbname: seq<bv8>, uid: seq<bv8>)
    requires Fits(address)
    ensures ok <==> Split(address).Some?
    ensures Names(tbname, uid) == if ok then Split(address).value else Names(tbname0, uid0)
  {
    hide Decoded, CString, Tokens;
    tbname, uid := tbname0, uid0;
    var plain, _ := Base32.Decode(address);
    var value := StringSplit(plain[..]);
    if |value| != 2 {
      return false, tbname, uid;
    }
    uid := value[0];
    tbname := value[1];
    return true, tbname, uid;
  }
}
