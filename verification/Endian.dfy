/** Byte swapping in place on a little-endian machine (src/cNBT/nbt_parsing.c). */
module Endian {
  import opened Bits

  /** How the machine lays out v in w bytes, and how it reads bytes back. */
  function LE(v: nat, w: nat): (s: seq<byte>)
    ensures |s| == w
  {
    if w == 0 then [] else [v % 256] + LE(v / 256, w - 1)
  }

  function FromLE(s: seq<byte>): nat {
    if s == [] then 0 else FromLE(s[1..]) * 256 + s[0]
  }

  function Reversed(s: seq<byte>): (r: seq<byte>)
    ensures |r| == |s|
  {
    if s == [] then [] else Reversed(s[1..]) + [s[0]]
  }

  lemma {:induction false} ReversedAt(s: seq<byte>, k: nat)
    requires k < |s|
    ensures Reversed(s)[k] == s[|s| - 1 - k]
  {
    if k < |s| - 1 { ReversedAt(s[1..], k); }
  }

  lemma {:induction false} ReversedLast(s: seq<byte>)
    requires s != []
    ensures Reversed(s) == [s[|s| - 1]] + Reversed(s[..|s| - 1])
  {
    if |s| > 1 {
      ReversedLast(s[1..]);
      assert s[1..][..|s| - 2] == s[..|s| - 1][1..];
    }
  }

  /** Swapped bytes read natively are the big-endian value. */
  lemma {:induction false} SwapReads(s: seq<byte>)
    ensures FromLE(Reversed(s)) == FromBE(s)
  {
    if s != [] {
      SwapReads(s[..|s| - 1]);
      ReversedLast(s);
    }
  }

  /** A native number, swapped, is its big-endian encoding. */
  lemma {:induction false} SwapWrites(v: nat, w: nat)
    ensures Reversed(LE(v, w)) == BE(v, w)
  {
    if w > 0 {
      SwapWrites(v / 256, w - 1);
      assert LE(v, w)[1..] == LE(v / 256, w - 1);
    }
  }

  method SwapBytes(s: array<byte>)
    modifies s
    ensures s[..] == Reversed(old(s[..]))
  {
    var b, e: int := 0, s.Length - 1;
    while b < e
      invariant 0 <= b <= s.Length && e == s.Length - 1 - b && b <= e + 1
      invariant forall k :: 0 <= k < b ==> s[k] == old(s[s.Length - 1 - k]) && s[s.Length - 1 - k] == old(s[k])
      invariant forall k :: b <= k <= e ==> s[k] == old(s[k])
    {
      var t := s[b];
      s[b] := s[e];
      s[e] := t;
      b, e := b + 1, e - 1;
    }
    ghost var was := old(s[..]);
    forall k | 0 <= k < s.Length ensures s[k] == Reversed(was)[k] { ReversedAt(was, k); }
  }

  /** `swapped_memscan` into a native variable of w bytes. */
  method ReadSwapped(bytes: seq<byte>) returns (v: nat)
    ensures v == FromBE(bytes)
  {
    var dest := new byte[|bytes|](i requires 0 <= i < |bytes| => bytes[i]);
    assert dest[..] == bytes;
    SwapBytes(dest);
    SwapReads(bytes);
    v := FromLE(dest[..]);
  }

  /** `ne2be` on a native variable, before it is appended to the dump. */
  method SwapToWrite(v: nat, w: nat) returns (bytes: seq<byte>)
    ensures bytes == BE(v, w)
  {
    var native := LE(v, w);
    var temp := new byte[w](i requires 0 <= i < w => native[i]);
    assert temp[..] == native;
    SwapBytes(temp);
    SwapWrites(v, w);
    bytes := temp[..];
  }
}
