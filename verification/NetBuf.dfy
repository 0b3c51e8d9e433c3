/** The receive side of src/net/sb_net.c as it runs: a sliding buffer that is compacted and
    grown in place, and the read callback that drains it. */
module NetBuf {
  import opened Bits
  import opened Varint
  import opened Framing

  /** `sbnet_bbuf` and the fields of `sbnet_netcore` the callback uses; `cur` is an offset. */
  class Netcore {
    var base: array<byte>
    var cur: nat
    var len: nat
    var inUse: nat
    var rem: nat
    var nextPacketSize: int
    var delivered: seq<Packet>
    var exited: bool

    /** The buffer's regions always add up. */
    ghost predicate Valid()
      reads this`base, this`cur, this`len, this`inUse, this`rem, base
    {
      base.Length == len && cur + inUse + rem == len
    }

    ghost function Unused(): Bytes
      requires Valid()
      reads this`base, this`cur, this`len, this`inUse, this`rem, base
    {
      base[cur..cur + inUse]
    }

    ghost function View(): Rx
      requires Valid()
      reads this, base
    {
      if exited then Dead(delivered) else Live(nextPacketSize, Unused(), delivered)
    }

    constructor (size: nat)
      ensures Valid() && fresh(base) && View() == Live(NO_SIZE, [], [])
    {
      base, cur, len, inUse, rem := new byte[size], 0, size, 0, size;
      nextPacketSize, delivered, exited := NO_SIZE, [], false;
    }

    /** `sbnet_bbuf_make_room`: move the unused bytes to the front, then grow if need be. */
    method MakeRoom(n: nat)
      requires Valid()
      modifies this`base, this`cur, this`len, this`rem, base
      ensures Valid() && rem >= n && (base == old(base) || fresh(base))
      ensures Unused() == old(Unused())
    {
      if n <= rem { return; }
      ghost var keep := Unused();
      var from := cur;
      forall i | 0 <= i < inUse { base[i] := base[from + i]; }
      cur := 0;
      rem := len - inUse;
      assert base[..inUse] == keep;
      if n <= rem { return; }
      len := inUse + n;
      rem := n;
      var bigger := new byte[len];
      forall i | 0 <= i < inUse { bigger[i] := base[i]; }
      assert bigger[..inUse] == keep;
      base := bigger;
    }

    /** `sbnet_adv_bbuf`. */
    method Advance(dist: nat) returns (ok: bool)
      requires Valid()
      modifies this`cur, this`inUse
      ensures Valid() && (ok <==> dist <= |old(Unused())|)
      ensures Unused() == if ok then old(Unused())[dist..] else old(Unused())
    {
      if inUse < dist { return false; }
      cur, inUse := cur + dist, inUse - dist;
      ok := true;
    }

    /** `sbnet_recv_bbuf`. */
    method Recv(n: nat) returns (dest: Bytes, ok: bool)
      requires Valid()
      modifies this`cur, this`inUse
      ensures Valid() && (ok <==> n <= |old(Unused())|)
      ensures Unused() == if ok then old(Unused())[n..] else old(Unused())
      ensures ok ==> dest == old(Unused())[..n]
    {
      if inUse < n { return [], false; }
      dest, ok := base[cur..cur + n], true;
      assert dest == Unused()[..n];
      cur, inUse := cur + n, inUse - n;
    }

    /** Skip the id, copy out the rest of the frame. */
    method Take(idLen: nat, size: nat) returns (data: Bytes)
      requires Valid() && idLen <= size <= |Unused()|
      modifies this`cur, this`inUse
      ensures Valid() && Unused() == old(Unused())[size..] && data == old(Unused())[idLen..size]
    {
      ghost var s := Unused();
      var ok := Advance(idLen);
      data, ok := Recv(size - idLen);
      SliceSlice(s, idLen, size);
    }

    /** The socket writes behind the unused bytes. */
    method Fill(chunk: Bytes)
      requires Valid() && |chunk| <= rem
      modifies this`inUse, this`rem, base
      ensures Valid() && Unused() == old(Unused()) + chunk
    {
      ghost var s := Unused();
      var at := cur + inUse;
      forall i | 0 <= i < |chunk| { base[at + i] := chunk[i]; }
      inUse, rem := inUse + |chunk|, rem - |chunk|;
      assert base[cur..at] == s && base[at..at + |chunk|] == chunk;
    }

    /** The size field of the next packet, when it is not known yet; false on `break` or exit. */
    method ReadSize() returns (go: bool)
      requires Valid() && !exited && nextPacketSize == NO_SIZE
      modifies this`cur, this`inUse, this`nextPacketSize, this`exited
      ensures Valid()
      ensures go ==> !exited && Drain(NO_SIZE, old(Unused())) == Body(nextPacketSize, Unused())
      ensures go ==> |Unused()| < |old(Unused())|
      ensures !go ==> View() == After(delivered, Drain(NO_SIZE, old(Unused())))
    {
      hide Walk, Value, Body;
      var s := base[cur..cur + inUse];
      assert delivered + [] == delivered && s[..inUse] == s;
      var ret := WalkVarint(s, inUse);
      if ret == Overrun { return false; }
      if ret == Invalid {
        exited := true;
        return false;
      }
      WalkBounds(s, 0);
      WalkIsFrom(s);
      var size, end := DecVarint(s);
      var ok := Advance(ret.n);
      nextPacketSize := size;
      go := true;
    }

    /** The packet itself, when all of it is there; false on `break` or exit. */
    method ReadPacket() returns (go: bool)
      requires Valid() && !exited
      modifies this`cur, this`inUse, this`nextPacketSize, this`exited, this`delivered
      ensures Valid()
      ensures go ==> !exited && nextPacketSize == NO_SIZE
      ensures go ==> |Unused()| < |old(Unused())|
      ensures go ==> After(old(delivered), Body(old(nextPacketSize), old(Unused()))) == After(delivered, Drain(NO_SIZE, Unused()))
      ensures !go ==> View() == After(old(delivered), Body(old(nextPacketSize), old(Unused())))
    {
      hide Walk, Value, Drain, Body, After;
      var s := base[cur..cur + inUse];
      assert s[..inUse] == s == Unused();
      hide Netcore.Unused, Netcore.Valid;
      BodyCases(nextPacketSize, s, delivered);
      if nextPacketSize < 0 || nextPacketSize > inUse { return false; }
      var ret := WalkVarint(s, inUse);
      if !ret.Size? || ret.n > nextPacketSize {
        exited := true;
        return false;
      }
      var id, end := DecVarint(s);
      var data := Take(ret.n, nextPacketSize);
      delivered := delivered + [Packet(id, data)];
      nextPacketSize := NO_SIZE;
      go := true;
    }

    /** The decode loop of `sbnet_read_cb`. */
    method DecodeLoop()
      requires Valid() && !exited
      modifies this`cur, this`inUse, this`nextPacketSize, this`exited, this`delivered
      ensures Valid() && View() == After(old(delivered), Drain(old(nextPacketSize), old(Unused())))
    {
      hide Drain, Body, After;
      while true
        invariant Valid() && !exited
        invariant After(old(delivered), Drain(old(nextPacketSize), old(Unused()))) == After(delivered, Drain(nextPacketSize, Unused()))
        decreases |Unused()|
      {
        KnownSize(nextPacketSize, Unused());
        if nextPacketSize == NO_SIZE {
          var go := ReadSize();
          if !go { return; }
        }
        var go := ReadPacket();
        if !go { return; }
      }
    }

    /** One read: `sbnet_alloc_cb` makes room for `size` bytes, the socket fills in `chunk`,
        `sbnet_read_cb` accounts for it and decodes what is complete. */
    method Receive(chunk: Bytes, size: nat)
      requires Valid() && |chunk| <= size
      modifies this, base
      ensures Valid() && (base == old(base) || fresh(base))
      ensures !old(exited) ==> View() == Resume(old(View()), chunk)
    {
      MakeRoom(size);
      Fill(chunk);
      if !exited { DecodeLoop(); }
    }
  }

  /** What the three outcomes of a packet mean for the decoder. */
  lemma {:induction false} BodyCases(size: int, s: Bytes, out: seq<Packet>)
    ensures size < 0 || size > |s| ==> After(out, Body(size, s)) == Live(size, s, out)
    ensures 0 <= size <= |s| && (Walk(s).Size? ==> Walk(s).n > size) ==> After(out, Body(size, s)) == Dead(out)
    ensures 0 <= size <= |s| && Walk(s).Size? && Walk(s).n <= size ==>
      && 0 < Walk(s).n
      && After(out, Body(size, s)) ==
           After(out + [Packet(Number(s), s[Walk(s).n..size])], Drain(NO_SIZE, s[size..]))
  {
    hide Walk, Value, Drain;
    assert out + [] == out;
    WalkIsFrom(s);
    WalkBounds(s, 0);
    if 0 <= size <= |s| && Walk(s).Size? && Walk(s).n <= size {
      AfterAfter(out, [Packet(Number(s), s[Walk(s).n..size])], Drain(NO_SIZE, s[size..]));
    }
  }

  lemma {:induction false} WalkIsFrom(s: Bytes)
    ensures Walk(s) == WalkFrom(s, 0)
  {
  }

  lemma {:induction false} SliceSlice(s: Bytes, m: nat, size: nat)
    requires m <= size <= |s|
    ensures s[m..][..size - m] == s[m..size] && s[m..][size - m..] == s[size..]
  {
  }

  lemma {:induction false} KnownSize(next: int, s: Bytes)
    ensures next != NO_SIZE ==> Drain(next, s) == Body(next, s)
  {
  }

  /** A connection: any number of reads, each of any size, deliver what was sent. */
  method Connection(ps: seq<Packet>, chunks: seq<Bytes>, size: nat) returns (out: seq<Packet>)
    requires forall i :: 0 <= i < |ps| ==> Sendable(ps[i]) && !Misjudged(ps[i])
    requires Concat(chunks) == Stream(ps)
    requires forall i :: 0 <= i < |chunks| ==> |chunks[i]| <= size
    ensures out == ps
  {
    hide Stream, Concat, Drain, Body, Resume;
    var net := new Netcore(0);
    FramingIsIndependentOfChunking(ps, chunks);
    for i := 0 to |chunks|
      invariant net.Valid() && fresh(net) && fresh(net.base)
      invariant Feed(net.View(), chunks[i..]) == Live(NO_SIZE, [], ps)
    {
      assert chunks[i..][1..] == chunks[i + 1..];
      StaysDead(net.View(), chunks[i..]);
      net.Receive(chunks[i], size);
    }
    out := net.delivered;
  }

  lemma {:induction false} StaysDead(r: Rx, chunks: seq<Bytes>)
    ensures r.Dead? ==> Feed(r, chunks).Dead?
    decreases |chunks|
  {
    if chunks != [] { StaysDead(Resume(r, chunks[0]), chunks[1..]); }
  }
}
