/** Zero-terminated strings: what the C library sees of a string of octets. */
module CStrings {

  predicate IsString(s: seq<bv8>) {
    0 !in s
  }

  /** The octets before the first zero. */
  function CString(s: seq<bv8>): (c: seq<bv8>)
    ensures c <= s
  {
    if s == [] || s[0] == 0 then [] else [s[0]] + CString(s[1..])
  }

  lemma {:induction false} CStringEnds(s: seq<bv8>, rest: seq<bv8>)
    requires IsString(s) && (rest == [] || rest[0] == 0)
    ensures CString(s + rest) == s
    decreases |s|
  {
    if s == [] {
      assert s + rest == rest;
    } else {
      assert (s + rest)[1..] == s[1..] + rest;
      CStringEnds(s[1..], rest);
    }
  }

  /** The C string has no zero and stops at one, or at the end. */
  lemma {:induction false} CStringStops(s: seq<bv8>)
    ensures IsString(CString(s))
    ensures |CString(s)| < |s| ==> s[|CString(s)|] == 0
    decreases |s|
  {
    if s != [] && s[0] != 0 {
      CStringStops(s[1..]);
    }
  }

  /** strlen. */
  method StringLength(s: seq<bv8>) returns (n: nat)
    ensures n <= |s| && CString(s) == s[..n] && IsString(s[..n])
  {
    n := 0;
    while n < |s| && s[n] != 0
      invariant 0 <= n <= |s| && IsString(s[..n])
    {
      n := n + 1;
    }
    assert s == s[..n] + s[n..];
    CStringEnds(s[..n], s[n..]);
  }
}
