/** Packet framing of src/net/sb_net.c on the uncompressed path, as functions on byte streams. */
module Framing {
  import opened Bits
  import opened Varint

  const NO_SIZE := -1

  datatype Packet = Packet(id: int, body: Bytes)

  /** The receiver between reads: the announced size of the next packet (or NO_SIZE), the bytes
      not yet used, and what has been delivered; or the process has exited. */
  datatype Rx = Live(next: int, pending: Bytes, out: seq<Packet>) | Dead(out: seq<Packet>)

  function After(out: seq<Packet>, r: Rx): Rx {
    match r
    case Live(next, pending, more) => Live(next, pending, out + more)
    case Dead(more) => Dead(out + more)
  }

  function Number(s: Bytes): int {
    ToInt32(Value(s) % U32)
  }

  /** The decode loop of `sbnet_read_cb` on the unused bytes s. */
  function Drain(next: int, s: Bytes): Rx
    decreases |s|, 1
  {
    if next != NO_SIZE then Body(next, s)
    else
      match Walk(s)
      case Overrun => Live(NO_SIZE, s, [])
      case Invalid => Dead([])
      case Size(n) =>
        WalkBounds(s, 0);
        Body(Number(s), s[n..])
  }

  /** With the size known. A negative one compares as a huge unsigned number and waits for ever;
      a packet id that does not fit in its frame makes the data length wrap around, and the
      allocation of that many bytes ends the process. */
  function Body(size: int, s: Bytes): Rx
    decreases |s|, 0
  {
    if size < 0 || size > |s| then Live(size, s, [])
    else
      match Walk(s)
      case Size(m) =>
        if m > size then Dead([])
        else
          WalkBounds(s, 0);
          After([Packet(Number(s), s[m..size])], Drain(NO_SIZE, s[size..]))
      case _ => Dead([])
  }

  /** A frame of size -1, which the receiver afterwards takes for "no size yet", is harmless only
      as long as no more than the beginning of a number follows it. The stream is safe if that
      holds of every frame of that size the loop reaches. */
  predicate Safe(next: int, s: Bytes)
    decreases |s|, 1
  {
    if next != NO_SIZE then SafeBody(next, s)
    else
      match Walk(s)
      case Size(n) =>
        WalkBounds(s, 0);
        if Number(s) == NO_SIZE then Walk(s[n..]) == Overrun else SafeBody(Number(s), s[n..])
      case _ => true
  }

  predicate SafeBody(size: int, s: Bytes)
    decreases |s|, 0
  {
    if size < 0 || size > |s| then true
    else
      match Walk(s)
      case Size(m) =>
        WalkBounds(s, 0);
        m > size || Safe(NO_SIZE, s[size..])
      case _ => true
  }

  /** More bytes arrive. */
  function Resume(r: Rx, t: Bytes): Rx {
    match r
    case Live(next, pending, out) => After(out, Drain(next, pending + t))
    case Dead(out) => r
  }

  // ------------------------------------------------ independence of chunking

  lemma {:induction false} AfterAfter(a: seq<Packet>, b: seq<Packet>, r: Rx)
    ensures After(a, After(b, r)) == After(a + b, r)
  {
    match r
    case Live(_, _, more) => assert a + b + more == a + (b + more);
    case Dead(more) => assert a + b + more == a + (b + more);
  }

  lemma {:induction false} AfterNothing(r: Rx)
    ensures After([], r) == r
  {
    assert [] + r.out == r.out;
  }

  lemma {:induction false} ResumeAfter(out: seq<Packet>, r: Rx, t: Bytes)
    ensures Resume(After(out, r), t) == After(out, Resume(r, t))
  {
    match r
    case Live(next, pending, more) => AfterAfter(out, more, Drain(next, pending + t));
    case Dead(_) =>
  }

  lemma {:induction false} StableNumber(s: Bytes, t: Bytes)
    requires Walk(s).Size?
    ensures Number(s + t) == Number(s)
  {
    WalkBounds(s, 0);
    StableValue(s, t, Walk(s).n);
  }

  lemma {:induction false} StableValue(s: Bytes, t: Bytes, n: nat)
    requires 0 < n <= |s| && s[n - 1] < 128
    ensures Value(s + t) == Value(s)
  {
    if s[0] >= 128 {
      assert (s + t)[1..] == s[1..] + t;
      StableValue(s[1..], t, n - 1);
    }
  }

  /** An id that does not end inside the bytes at hand never fits in the frame. */
  lemma {:induction false} StuckId(s: Bytes, t: Bytes, k: nat)
    requires WalkFrom(s, k) == Overrun && k <= |s|
    ensures WalkFrom(s + t, k).Size? ==> WalkFrom(s + t, k).n > |s|
    decreases |s| - k
  {
    if k < |s| { StuckId(s, t, k + 1); } else { WalkBounds(s + t, k); }
  }

  /** Reading a stream in two pieces is reading it in one. */
  lemma {:induction false} DrainSplit(next: int, s: Bytes, t: Bytes)
    requires Safe(next, s + t)
    ensures Drain(next, s + t) == Resume(Drain(next, s), t)
    decreases |s|, 1
  {
    if next != NO_SIZE {
      BodySplit(next, s, t);
    } else {
      match Walk(s)
      case Overrun => AfterNothing(Drain(NO_SIZE, s + t));
      case Invalid => VerdictIsStable(s, t);
      case Size(n) =>
        WalkBounds(s, 0);
        VerdictIsStable(s, t);
        StableNumber(s, t);
        assert (s + t)[n..] == s[n..] + t;
        if Number(s) == NO_SIZE {
          AfterNothing(Drain(NO_SIZE, s[n..] + t));
        } else {
          BodySplit(Number(s), s[n..], t);
        }
    }
  }

  lemma {:induction false} BodySplit(size: int, s: Bytes, t: Bytes)
    requires size != NO_SIZE && SafeBody(size, s + t)
    ensures Body(size, s + t) == Resume(Body(size, s), t)
    decreases |s|, 0
  {
    if size < 0 || size > |s| {
      AfterNothing(Drain(size, s + t));
    } else {
      match Walk(s)
      case Size(m) =>
        VerdictIsStable(s, t);
        if m <= size {
          WalkBounds(s, 0);
          assert (s + t)[size..] == s[size..] + t;
          DrainSplit(NO_SIZE, s[size..], t);
          FrameSplit(size, s, t, m);
        }
      case Overrun => StuckId(s, t, 0);
      case Invalid => VerdictIsStable(s, t);
    }
  }

  lemma {:induction false} FrameSplit(size: int, s: Bytes, t: Bytes, m: nat)
    requires 0 < m <= size <= |s| && Walk(s) == Size(m) && Walk(s + t) == Size(m)
    requires Drain(NO_SIZE, s[size..] + t) == Resume(Drain(NO_SIZE, s[size..]), t)
    ensures Body(size, s + t) == Resume(Body(size, s), t)
  {
    StableNumber(s, t);
    assert (s + t)[m..size] == s[m..size] && (s + t)[size..] == s[size..] + t;
    ResumeAfter([Packet(Number(s), s[m..size])], Drain(NO_SIZE, s[size..]), t);
  }

  function Concat(chunks: seq<Bytes>): Bytes {
    if chunks == [] then [] else chunks[0] + Concat(chunks[1..])
  }

  /** The receiver after a list of reads. */
  function Feed(r: Rx, chunks: seq<Bytes>): Rx
    decreases |chunks|
  {
    if chunks == [] then r else Feed(Resume(r, chunks[0]), chunks[1..])
  }

  lemma {:induction false} FeedAll(s: Bytes, chunks: seq<Bytes>)
    requires Safe(NO_SIZE, s + Concat(chunks))
    ensures Feed(Drain(NO_SIZE, s), chunks) == Drain(NO_SIZE, s + Concat(chunks))
    decreases chunks
  {
    if chunks == [] {
      assert s + [] == s;
    } else {
      var t := s + chunks[0];
      assert s + Concat(chunks) == t + Concat(chunks[1..]);
      SafePrefix(NO_SIZE, t, Concat(chunks[1..]));
      DrainSplit(NO_SIZE, s, chunks[0]);
      FeedAll(t, chunks[1..]);
    }
  }

  lemma {:induction false} SafePrefix(next: int, s: Bytes, t: Bytes)
    requires Safe(next, s + t)
    ensures Safe(next, s)
    decreases |s|, 1
  {
    if next != NO_SIZE {
      SafeBodyPrefix(next, s, t);
    } else if Walk(s).Size? {
      WalkBounds(s, 0);
      VerdictIsStable(s, t);
      StableNumber(s, t);
      var u := s[Walk(s).n..];
      assert (s + t)[Walk(s).n..] == u + t;
      if Number(s) == NO_SIZE {
        if Walk(u) != Overrun { VerdictIsStable(u, t); }
      } else {
        SafeBodyPrefix(Number(s), u, t);
      }
    }
  }

  lemma {:induction false} SafeBodyPrefix(size: int, s: Bytes, t: Bytes)
    requires SafeBody(size, s + t)
    ensures SafeBody(size, s)
    decreases |s|, 0
  {
    if 0 <= size <= |s| && Walk(s).Size? && Walk(s).n <= size {
      WalkBounds(s, 0);
      VerdictIsStable(s, t);
      assert (s + t)[size..] == s[size..] + t;
      SafePrefix(NO_SIZE, s[size..], t);
    }
  }

  /** However a safe stream is cut into reads, a receiver that starts empty ends in the same
      state, having delivered the same packets in the same order. */
  lemma {:induction false} ChunkingIsIrrelevant(chunks: seq<Bytes>)
    requires Safe(NO_SIZE, Concat(chunks))
    ensures Feed(Live(NO_SIZE, [], []), chunks) == Drain(NO_SIZE, Concat(chunks))
  {
    assert [] + Concat(chunks) == Concat(chunks);
    FeedAll([], chunks);
  }

  // ------------------------------------------------------ where cutting matters

  /** A number that ends before j is there in the first j bytes too. */
  lemma {:induction false} WalkPrefix(s: Bytes, j: nat)
    requires Walk(s).Size? && Walk(s).n <= j <= |s|
    ensures Walk(s[..j]) == Walk(s) && Number(s[..j]) == Number(s)
  {
    assert s[..j] + s[j..] == s;
    if Walk(s[..j]) == Overrun {
      StuckId(s[..j], s[j..], 0);
    } else {
      VerdictIsStable(s[..j], s[j..]);
      StableNumber(s[..j], s[j..]);
    }
  }

  /** The decoder never has more bytes pending than it was given. */
  lemma {:induction false} PendingFits(next: int, s: Bytes)
    ensures Drain(next, s).Live? ==> |Drain(next, s).pending| <= |s|
    decreases |s|, 1
  {
    if next != NO_SIZE {
      BodyPendingFits(next, s);
    } else if Walk(s).Size? {
      WalkBounds(s, 0);
      BodyPendingFits(Number(s), s[Walk(s).n..]);
    }
  }

  lemma {:induction false} BodyPendingFits(size: int, s: Bytes)
    ensures Body(size, s).Live? ==> |Body(size, s).pending| <= |s|
    decreases |s|, 0
  {
    if 0 <= size <= |s| && Walk(s).Size? && Walk(s).n <= size {
      WalkBounds(s, 0);
      PendingFits(NO_SIZE, s[size..]);
    }
  }

  /** A number, complete or malformed, after a size of -1: cut there, the receiver uses it up. */
  lemma {:induction false} NumberIsUsed(u: Bytes)
    requires Walk(u) != Overrun
    ensures Drain(NO_SIZE, u) != Live(NO_SIZE, u, [])
  {
    if Walk(u).Size? {
      WalkBounds(u, 0);
      BodyPendingFits(Number(u), u[Walk(u).n..]);
    }
  }

  lemma {:induction false} AfterInjective(p: Packet, a: Rx, b: Rx)
    requires After([p], a) == After([p], b)
    ensures a == b
  {
    assert a.out == After([p], a).out[1..] && b.out == After([p], b).out[1..];
  }

  /** Every unsafe stream has a place where cutting it changes what the receiver does. */
  lemma {:induction false} UnsafeCut(s: Bytes) returns (cut: nat)
    requires !Safe(NO_SIZE, s)
    ensures cut <= |s| && Drain(NO_SIZE, s) != Resume(Drain(NO_SIZE, s[..cut]), s[cut..])
    decreases |s|, 1
  {
    var n := Walk(s).n;
    WalkBounds(s, 0);
    var u := s[n..];
    if Number(s) == NO_SIZE {
      cut := n;
      WalkPrefix(s, cut);
      assert s[..cut][n..] == [] && [] + u == u;
      AfterNothing(Drain(NO_SIZE, u));
      NumberIsUsed(u);
    } else {
      var c := UnsafeBodyCut(Number(s), u);
      cut := n + c;
      WalkPrefix(s, cut);
      assert s[..cut][n..] == u[..c] && s[cut..] == u[c..];
    }
  }

  lemma {:induction false} UnsafeBodyCut(size: int, s: Bytes) returns (cut: nat)
    requires !SafeBody(size, s)
    ensures cut <= |s| && Body(size, s) != Resume(Body(size, s[..cut]), s[cut..])
    decreases |s|, 0
  {
    WalkBounds(s, 0);
    var u := s[size..];
    var c := UnsafeCut(u);
    cut := size + c;
    WalkPrefix(s, cut);
    var p := Packet(Number(s), s[Walk(s).n..size]);
    assert s[..cut][Walk(s).n..size] == s[Walk(s).n..size] && s[..cut][size..] == u[..c] && s[cut..] == u[c..];
    ResumeAfter([p], Drain(NO_SIZE, u[..c]), u[c..]);
    if Body(size, s) == Resume(Body(size, s[..cut]), s[cut..]) {
      AfterInjective(p, Drain(NO_SIZE, u), Resume(Drain(NO_SIZE, u[..c]), u[c..]));
    }
  }

  /** Cutting a stream in two, anywhere, makes no difference if and only if the stream is safe. */
  lemma {:induction false} CuttingIff(s: Bytes)
    ensures (forall cut: nat :: cut <= |s| ==> Drain(NO_SIZE, s) == Resume(Drain(NO_SIZE, s[..cut]), s[cut..]))
            <==> Safe(NO_SIZE, s)
  {
    if Safe(NO_SIZE, s) {
      forall cut: nat | cut <= |s| ensures Drain(NO_SIZE, s) == Resume(Drain(NO_SIZE, s[..cut]), s[cut..]) {
        assert s[..cut] + s[cut..] == s;
        DrainSplit(NO_SIZE, s[..cut], s[cut..]);
      }
    } else {
      var cut := UnsafeCut(s);
    }
  }

  /** Every way of cutting a stream into any number of reads delivers the same, if and only if
      the stream is safe. */
  lemma {:induction false} ChunkingIff(s: Bytes)
    ensures (forall chunks :: Concat(chunks) == s ==> Feed(Live(NO_SIZE, [], []), chunks) == Drain(NO_SIZE, s))
            <==> Safe(NO_SIZE, s)
  {
    hide Drain, Safe, Resume;
    if Safe(NO_SIZE, s) {
      forall chunks | Concat(chunks) == s ensures Feed(Live(NO_SIZE, [], []), chunks) == Drain(NO_SIZE, s) {
        ChunkingIsIrrelevant(chunks);
      }
    } else {
      var cut := UnsafeCut(s);
      TwoReads(s[..cut], s[cut..]);
      assert s[..cut] + s[cut..] == s;
    }
  }

  lemma {:induction false} TwoReads(a: Bytes, b: Bytes)
    ensures Concat([a, b]) == a + b && Feed(Live(NO_SIZE, [], []), [a, b]) == Resume(Drain(NO_SIZE, a), b)
  {
    var none: seq<Bytes> := [];
    var start := Live(NO_SIZE, [], []);
    AfterNothing(Drain(NO_SIZE, a));
    hide Drain;
    assert [a, b][1..] == [b] && [b][1..] == none && [] + a == a;
    assert Resume(start, a) == Drain(NO_SIZE, a);
    hide Resume;
    assert Concat(none) == [] && Concat([b]) == b + [] == b;
    var r := Resume(start, a);
    assert Feed(Resume(r, b), none) == Resume(r, b);
    assert Feed(r, [b]) == Feed(Resume(r, b), none);
  }

  /** In particular, cutting right behind a frame size of -1 is harmless if and only if no more
      than the beginning of a number follows. */
  lemma {:induction false} MinusOneIsAmbiguous(t: Bytes)
    ensures var h := Enc(U32 - 1);
      Drain(NO_SIZE, h + t) == Resume(Drain(NO_SIZE, h), t) <==> Walk(t) == Overrun
  {
    var h := Enc(U32 - 1);
    HeaderRead(U32 - 1, t);
    HeaderRead(U32 - 1, []);
    hide Enc;
    assert h + [] == h && [] + t == t;
    AfterNothing(Drain(NO_SIZE, t));
    if Walk(t) != Overrun { NumberIsUsed(t); }
  }

  lemma {:induction false} HeaderRead(v: nat, t: Bytes)
    requires v < U32
    ensures Drain(NO_SIZE, Enc(v) + t) == Body(ToInt32(v), t)
  {
    hide Enc, Walk, Value, Body;
    WalkOfEnc(v, t, 0);
    ValueOfEnc(v, t);
    assert (Enc(v) + t)[|Enc(v)|..] == t;
  }

  // ------------------------------------------------------------ round trip

  function U(id: int): nat
    requires -0x8000_0000 <= id < 0x8000_0000
  {
    if id < 0 then id + U32 else id
  }

  predicate Id(id: int) {
    -0x8000_0000 <= id < 0x8000_0000
  }

  /** The size field `sbnet_enc_uncom_hdr` writes in front of a packet. */
  function FrameSize(p: Packet): nat
    requires Id(p.id)
  {
    |p.body| + SizeVarint(U(p.id))
  }

  /** Header and body as sent. */
  function Frame(p: Packet): Bytes
    requires Id(p.id) && FrameSize(p) < U32
  {
    Enc(FrameSize(p)) + (Enc(U(p.id)) + p.body)
  }

  /** A short frame on the wire: size, id, body. */
  lemma {:induction false} ShortFrame(p: Packet)
    requires 0 <= p.id < 128 && |p.body| <= 126
    ensures Frame(p) == [|p.body| + 1, p.id] + p.body
  {
  }

  predicate Sendable(p: Packet) {
    Id(p.id) && FrameSize(p) < 0x8000_0000
  }

  /** Ids whose encoded length the size function gets wrong. */
  predicate Misjudged(p: Packet) {
    128 <= p.id < 256
  }

  lemma {:induction false} HeaderSafe(v: nat, t: Bytes)
    requires v < 0x8000_0000
    ensures SafeBody(v, t) ==> Safe(NO_SIZE, Enc(v) + t)
  {
    WalkOfEnc(v, t, 0);
    ValueOfEnc(v, t);
    assert (Enc(v) + t)[|Enc(v)|..] == t;
  }

  lemma {:induction false} FrameFront(p: Packet, t: Bytes)
    requires Sendable(p) && !Misjudged(p)
    ensures Drain(NO_SIZE, Frame(p) + t) == After([p], Drain(NO_SIZE, t))
    ensures Safe(NO_SIZE, t) ==> Safe(NO_SIZE, Frame(p) + t)
  {
    hide Enc, Drain, Body, Safe, SafeBody, SizeVarint, After;
    var b := Enc(U(p.id)) + p.body;
    assert Frame(p) + t == Enc(FrameSize(p)) + (b + t);
    SizeIsLength(U(p.id));
    HeaderRead(FrameSize(p), b + t);
    HeaderSafe(FrameSize(p), b + t);
    FrameBody(p, b, t);
  }

  lemma {:induction false} IdComesBack(id: int)
    requires Id(id)
    ensures U(id) < U32 && ToInt32(U(id) % U32) == id
  {
  }

  lemma {:induction false} FrameBody(p: Packet, b: Bytes, t: Bytes)
    requires Id(p.id) && b == Enc(U(p.id)) + p.body
    ensures Body(|b|, b + t) == After([p], Drain(NO_SIZE, t))
    ensures Safe(NO_SIZE, t) ==> SafeBody(|b|, b + t)
  {
    hide Enc, Walk, Value, Drain, Safe, U;
    var m := |Enc(U(p.id))|;
    IdComesBack(p.id);
    assert b + t == Enc(U(p.id)) + (p.body + t);
    WalkOfEnc(U(p.id), p.body + t, 0);
    ValueOfEnc(U(p.id), p.body + t);
    assert (b + t)[m..|b|] == p.body && (b + t)[|b|..] == t;
  }

  function Stream(ps: seq<Packet>): Bytes
    requires forall i :: 0 <= i < |ps| ==> Sendable(ps[i])
  {
    if ps == [] then []
    else
      assert Sendable(ps[0]);
      Frame(ps[0]) + Stream(ps[1..])
  }

  lemma {:induction false} StreamRoundTrip(ps: seq<Packet>)
    requires forall i :: 0 <= i < |ps| ==> Sendable(ps[i]) && !Misjudged(ps[i])
    ensures Drain(NO_SIZE, Stream(ps)) == Live(NO_SIZE, [], ps) && Safe(NO_SIZE, Stream(ps))
  {
    if ps != [] {
      StreamRoundTrip(ps[1..]);
      FrameFront(ps[0], Stream(ps[1..]));
      assert [ps[0]] + ps[1..] == ps;
    }
  }

  /** Whatever is sent arrives: for every list of packets and every way of cutting their stream
      into reads, exactly that list is delivered, in order, and nothing is left over. */
  lemma {:induction false} FramingIsIndependentOfChunking(ps: seq<Packet>, chunks: seq<Bytes>)
    requires forall i :: 0 <= i < |ps| ==> Sendable(ps[i]) && !Misjudged(ps[i])
    requires Concat(chunks) == Stream(ps)
    ensures Feed(Live(NO_SIZE, [], []), chunks) == Live(NO_SIZE, [], ps)
  {
    StreamRoundTrip(ps);
    ChunkingIsIrrelevant(chunks);
  }

  /** A misjudged packet is cut short by one byte or ends the process, whatever follows. */
  lemma {:induction false} MisjudgedFront(p: Packet, t: Bytes)
    requires Sendable(p) && Misjudged(p)
    ensures var r := Drain(NO_SIZE, Frame(p) + t); r == Dead([]) || (r.out != [] && r.out[0] != p)
  {
    var b := Enc(U(p.id)) + p.body;
    SizeIsLength(U(p.id));
    EncLength(U(p.id));
    var size := FrameSize(p);
    hide Enc, Walk, Value, Drain, SizeVarint;
    assert Frame(p) + t == Enc(size) + (b + t) && b + t == Enc(U(p.id)) + (p.body + t);
    HeaderRead(size, b + t);
    WalkOfEnc(U(p.id), p.body + t, 0);
    if size >= 2 {
      var q := Packet(Number(b + t), (b + t)[2..size]);
      assert Body(size, b + t) == After([q], Drain(NO_SIZE, (b + t)[size..]));
      assert |q.body| == |p.body| - 1;
    }
  }

  /** A list of packets arrives if and only if no id in it is one that the size function
      misjudges. */
  lemma {:induction false} StreamRoundTripIff(ps: seq<Packet>)
    requires forall i :: 0 <= i < |ps| ==> Sendable(ps[i])
    ensures Drain(NO_SIZE, Stream(ps)) == Live(NO_SIZE, [], ps) <==> forall i :: 0 <= i < |ps| ==> !Misjudged(ps[i])
  {
    if ps != [] {
      var p, more := ps[0], ps[1..];
      assert ps == [p] + more;
      hide Drain, Frame;
      if Misjudged(p) {
        MisjudgedFront(p, Stream(more));
      } else {
        StreamRoundTripIff(more);
        FrameFront(p, Stream(more));
        var r := Drain(NO_SIZE, Stream(more));
        if After([p], r) == Live(NO_SIZE, [], ps) {
          assert After([p], Live(NO_SIZE, [], more)) == Live(NO_SIZE, [], ps);
          AfterInjective(p, r, Live(NO_SIZE, [], more));
        }
        assert forall i :: 0 <= i < |ps| ==> ps[i] == if i == 0 then p else more[i - 1];
        assert forall i :: 0 <= i < |more| ==> more[i] == ps[i + 1];
      }
    } else {
      assert Drain(NO_SIZE, []) == Live(NO_SIZE, [], []);
    }
  }

  /** One packet comes back if and only if its id is not one of those the size function
      misjudges. */
  lemma {:induction false} FrameRoundTripIff(p: Packet)
    requires Sendable(p)
    ensures Drain(NO_SIZE, Frame(p)) == Live(NO_SIZE, [], [p]) <==> !Misjudged(p)
  {
    StreamRoundTripIff([p]);
    assert [p][1..] == [] && Frame(p) + [] == Frame(p);
    hide Drain, Frame;
    assert Stream([p][1..]) == [];
  }
}
