/** The 32-bit FNV-1a hash. */
module Fnv {

  type Octet = bv8

  const FNV1_32A_INIT: bv32 := 0x811c9dc5
  const FNV_32_PRIME: bv32 := 0x01000193

  function Step(h: bv32, c: Octet): bv32 {
    (h ^ (c as bv32)) * FNV_32_PRIME
  }

  function Hash(s: seq<Octet>, h: bv32): bv32 {
    if |s| == 0 then h else Step(Hash(s[..|s| - 1], h), s[|s| - 1])
  }

  /** Hashing may be resumed where it stopped. */
  lemma {:induction false} HashAppend(a: seq<Octet>, b: seq<Octet>, h: bv32)
    ensures Hash(a + b, h) == Hash(b, Hash(a, h))
  {
    hide Step;
    if |b| == 0 {
      assert a + b == a;
    } else {
      assert (a + b)[..|a + b| - 1] == a + b[..|b| - 1];
      HashAppend(a, b[..|b| - 1], h);
    }
  }

  /** `LOS_HashFNV32aBuf`. */
  method HashFNV32aBuf(buf: seq<Octet>, len: nat, h: bv32) returns (hval: bv32)
    requires len <= |buf|
    ensures hval == Hash(buf[..len], h)
  {
    hide Step;
    hval := h;
    var i := 0;
    while i < len
      invariant 0 <= i <= len && hval == Hash(buf[..i], h)
    {
      assert buf[..i + 1][..i] == buf[..i];
      hval := Step(hval, buf[i]);
      i := i + 1;
    }
  }

  /** The part of a C string before its terminator. */
  function CString(s: seq<Octet>): (r: seq<Octet>)
    ensures |r| <= |s| && r == s[..|r|] && 0 !in r
    ensures |r| < |s| ==> s[|r|] == 0
  {
    if |s| == 0 || s[0] == 0 then [] else [s[0]] + CString(s[1..])
  }

  lemma {:induction false} CStringIs(s: seq<Octet>, i: nat)
    requires i < |s| && s[i] == 0 && 0 !in s[..i]
    ensures CString(s) == s[..i]
  {
  }

  /** `LOS_HashFNV32aStr`. */
  method HashFNV32aStr(str: seq<Octet>, h: bv32) returns (hval: bv32)
    requires 0 in str
    ensures hval == Hash(CString(str), h)
  {
    hide Step;
    hval := h;
    var i := 0;
    var end :| 0 <= end < |str| && str[end] == 0;
    while str[i] != 0
      invariant 0 <= i <= end && hval == Hash(str[..i], h) && 0 !in str[..i]
      decreases end - i
    {
      assert str[..i + 1][..i] == str[..i] && str[..i + 1] == str[..i] + [str[i]];
      hval := Step(hval, str[i]);
      i := i + 1;
    }
    CStringIs(str, i);
  }

  /** Known hashes: of nothing, of "a", of "b" and of "ab". */
  lemma KnownHashes()
    ensures Hash([], FNV1_32A_INIT) == 0x811C_9DC5
    ensures Hash([97], FNV1_32A_INIT) == 0xE40C_292C
    ensures Hash([98], FNV1_32A_INIT) == 0xE70C_2DE5
    ensures Hash([97, 98], FNV1_32A_INIT) == 0x4D25_05CA
  {
    assert [97, 98][..1] == [97];
    assert Hash([97, 98], FNV1_32A_INIT) == Step(Hash([97], FNV1_32A_INIT), 98);
  }
}
