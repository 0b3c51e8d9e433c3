/** The sending side of src/net/sb_net.c: the header in front of an uncompressed packet. */
module NetSend {
  import opened Bits
  import opened Varint
  import opened Framing

  /** Size field and id; the size is cut to 32 bits. */
  function Header(size: nat, id: nat): Bytes {
    Enc((size + SizeVarint(id)) % U32) + Enc(id)
  }

  /** `sbnet_size_uncom_hdr` */
  function SizeUncomHdr(size: nat, id: nat): nat {
    SizeVarint((size + SizeVarint(id)) % U32) + SizeVarint(id)
  }

  predicate TwoByteOdd(v: nat) { 128 <= v < 256 }

  /** The room computed for a header is enough if and only if neither the id nor the size field
      lies in 128..255; each that does makes it one byte short. */
  lemma {:induction false} HeaderRoom(size: nat, id: nat)
    requires id < U32
    ensures var total := (size + SizeVarint(id)) % U32;
      && (SizeUncomHdr(size, id) >= |Header(size, id)| <==> !TwoByteOdd(id) && !TwoByteOdd(total))
      && SizeUncomHdr(size, id) == |Header(size, id)| - (if TwoByteOdd(id) then 1 else 0) - (if TwoByteOdd(total) then 1 else 0)
  {
    hide SizeVarint, Enc;
    SizeIsLength(id);
    SizeIsLength((size + SizeVarint(id)) % U32);
  }

  lemma {:induction false} Behind(a: Bytes, x: Bytes, y: Bytes, b: Bytes)
    requires |x| + |y| <= |b|
    ensures a + x + b[|x|..] == (a + x) + b[|x|..]
    ensures (a + x + b[|x|..])[..|a| + |x|] == a + x
    ensures (a + x + b[|x|..])[|a| + |x|..][|y|..] == b[|x| + |y|..]
    ensures a + x + y == a + (x + y)
  {
  }

  /** `sbnet_enc_uncom_hdr`: the header lands at `at`, nothing else moves. */
  method EncUncomHdr(dest: array<byte>, at: nat, size: nat, id: nat) returns (end: nat)
    requires id < U32 && at + |Header(size, id)| <= dest.Length
    modifies dest
    ensures end == at + |Header(size, id)|
    ensures dest[..] == old(dest[..at]) + Header(size, id) + old(dest[at..])[|Header(size, id)|..]
  {
    hide Enc, SizeVarint;
    ghost var pre, post := dest[..at], dest[at..];
    var total := (size + SizeVarint(id)) % U32;
    ghost var x, y := Enc(total), Enc(id);
    var mid := EncVarint(dest, at, total);
    Behind(pre, x, y, post);
    ghost var was := dest[..];
    assert dest[..mid] == was[..mid] && dest[mid..] == was[mid..];
    end := EncVarint(dest, mid, id);
  }

  /** For a packet that fits, header and body are the frame the receiver expects. */
  lemma {:induction false} HeaderStartsFrame(p: Packet)
    requires Sendable(p)
    ensures Frame(p) == Header(|p.body|, U(p.id)) + p.body
  {
    hide Enc, SizeVarint;
    var a, b := Enc(FrameSize(p)), Enc(U(p.id));
    assert a + (b + p.body) == a + b + p.body;
  }
}
