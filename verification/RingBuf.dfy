/** src/fibers/queue.c with one call running at a time: the ring is a FIFO of capacity `size`. */
module RingBuf {
  import opened Bits

  /** Between calls every cell is either full, with seq one past its position, or free. */
  ghost predicate Settled(head: nat, tail: nat, seqs: seq<nat>) {
    var n := |seqs|;
    && n >= 2 && head <= tail <= head + n
    && (forall p {:trigger Slot(p, n)} :: head <= p < tail ==> seqs[Slot(p, n)] == p + 1)
    && (forall p {:trigger Slot(p, n)} :: tail <= p < head + n ==> seqs[Slot(p, n)] == p)
  }

  /** The queued entries, oldest first. */
  function Queue(head: nat, tail: nat, slots: seq<nat>): seq<nat>
    requires head <= tail && |slots| > 0
    decreases tail - head
  {
    if head == tail then [] else Queue(head, tail - 1, slots) + [slots[Slot(tail - 1, |slots|)]]
  }

  lemma Apart(p: nat, q: nat, n: nat)
    requires n > 0 && p < q < p + n
    ensures Slot(p, n) != Slot(q, n)
  {
    if Slot(p, n) == Slot(q, n) { SlotGap(p, q, n); }
  }

  lemma {:induction false} QueueFrame(head: nat, tail: nat, slots: seq<nat>, i: nat, v: nat)
    requires head <= tail && i < |slots|
    requires forall p {:trigger Slot(p, |slots|)} :: head <= p < tail ==> Slot(p, |slots|) != i
    ensures Queue(head, tail, slots[i := v]) == Queue(head, tail, slots)
    decreases tail - head
  {
    if head < tail {
      QueueFrame(head, tail - 1, slots, i, v);
      assert Slot(tail - 1, |slots|) != i;
    }
  }

  lemma {:induction false} QueueFront(head: nat, tail: nat, slots: seq<nat>)
    requires head < tail && |slots| > 0
    ensures Queue(head, tail, slots) == [slots[Slot(head, |slots|)]] + Queue(head + 1, tail, slots)
    decreases tail - head
  {
    if head + 1 < tail { QueueFront(head, tail - 1, slots); }
  }

  lemma {:induction false} QueueLength(head: nat, tail: nat, slots: seq<nat>)
    requires head <= tail && |slots| > 0
    ensures |Queue(head, tail, slots)| == tail - head
    decreases tail - head
  {
    if head < tail { QueueLength(head, tail - 1, slots); }
  }

  lemma PushKeeps(head: nat, tail: nat, seqs: seq<nat>, slots: seq<nat>, data: nat)
    requires Settled(head, tail, seqs) && |slots| == |seqs| && tail < head + |seqs|
    ensures var i := Slot(tail, |seqs|);
      && Settled(head, tail + 1, seqs[i := tail + 1])
      && Queue(head, tail + 1, slots[i := data]) == Queue(head, tail, slots) + [data]
  {
    var n := |seqs|;
    var i := Slot(tail, n);
    forall p | head <= p < tail ensures Slot(p, n) != i { Apart(p, tail, n); }
    forall p | tail < p < head + n ensures Slot(p, n) != i { Apart(tail, p, n); }
    QueueFrame(head, tail, slots, i, data);
  }

  lemma PopKeeps(head: nat, tail: nat, seqs: seq<nat>)
    requires Settled(head, tail, seqs) && head < tail
    ensures Settled(head + 1, tail, seqs[Slot(head, |seqs|) := head + |seqs|])
  {
    var n := |seqs|;
    var i := Slot(head, n);
    SlotLap(head, n);
    forall p | head < p < head + n ensures Slot(p, n) != i { Apart(head, p, n); }
  }

  /** What the cell at tail shows: its position if there is room, an older one if not. */
  lemma TailCell(head: nat, tail: nat, seqs: seq<nat>)
    requires Settled(head, tail, seqs)
    ensures |seqs| > 0 && head <= tail <= head + |seqs|
    ensures if tail < head + |seqs| then seqs[Slot(tail, |seqs|)] == tail else seqs[Slot(tail, |seqs|)] < tail
  {
    if tail == head + |seqs| {
      SlotLap(head, |seqs|);
      assert seqs[Slot(head, |seqs|)] == head + 1;
    }
  }

  /** What the cell at head shows: the next position if it is full, its own if not. */
  lemma HeadCell(head: nat, tail: nat, seqs: seq<nat>)
    requires Settled(head, tail, seqs)
    ensures |seqs| > 0 && head <= tail <= head + |seqs|
    ensures seqs[Slot(head, |seqs|)] == if head < tail then head + 1 else head
  {
  }

  class Ringbuf {
    const log2: nat
    const seqs: array<nat>
    const slots: array<nat>
    var head: nat
    var tail: nat

    ghost predicate Valid()
      reads this, seqs, slots
    {
      && seqs != slots && seqs.Length == slots.Length == Pow2(log2)
      && Settled(head, tail, seqs[..])
    }

    ghost function Contents(): (q: seq<nat>)
      requires Valid()
      reads this, seqs, slots
    {
      Queue(head, tail, slots[..])
    }

    /** `vgc_ringbuf_init` on a size that is a power of two and at least 2. */
    constructor (log2: nat)
      requires log2 >= 1
      ensures Valid() && fresh(seqs) && fresh(slots) && seqs.Length == Pow2(log2)
      ensures Contents() == []
    {
      var size := Pow2(log2);
      assert size == 2 * Pow2(log2 - 1);
      var q := new nat[size];
      for i := 0 to size
        invariant forall j :: 0 <= j < i ==> q[j] == j
      {
        q[i] := i;
      }
      this.log2 := log2;
      seqs := q;
      slots := new nat[size](_ => 0);
      head, tail := 0, 0;
    }

    /** `vgc_push`: appends, or fails exactly when `size` entries are queued. */
    method Push(data: nat) returns (ok: bool)
      requires Valid()
      modifies this`tail, seqs, slots
      ensures Valid()
      ensures ok <==> |old(Contents())| < seqs.Length
      ensures Contents() == if ok then old(Contents()) + [data] else old(Contents())
    {
      hide And, Slot, Settled, Queue, Pow2;
      var pos, n := tail, seqs.Length;
      ghost var q: seq<nat>, d: seq<nat> := seqs[..], slots[..];
      TailCell(head, tail, q);
      MaskIsSlot(pos, log2);
      var cell := And(pos, n - 1);
      var dif: int := seqs[cell] as int - pos as int;
      QueueLength(head, tail, d);
      assert dif <= 0;  // with no other thread around, the reloading branch is not taken
      ok := dif == 0;
      if ok {
        PushKeeps(head, tail, q, d, data);
        tail := pos + 1;
        Publish(cell, data, pos + 1);
      }
    }

    /** Store the data, then the sequence number. */
    method Publish(cell: nat, data: nat, seqno: nat)
      requires cell < slots.Length == seqs.Length && seqs != slots
      modifies seqs, slots
      ensures slots[..] == old(slots[..])[cell := data] && seqs[..] == old(seqs[..])[cell := seqno]
    {
      slots[cell] := data;
      seqs[cell] := seqno;
    }

    /** `vgc_pop`: removes the oldest entry, or fails exactly when there is none. */
    method Pop() returns (ok: bool, data: nat)
      requires Valid()
      modifies this`head, seqs
      ensures Valid()
      ensures ok <==> old(Contents()) != []
      ensures if ok then old(Contents()) == [data] + Contents() else Contents() == []
    {
      hide And, Slot, Settled, Queue, Pow2;
      var pos, n := head, seqs.Length;
      ghost var q: seq<nat>, d: seq<nat> := seqs[..], slots[..];
      HeadCell(head, tail, q);
      MaskIsSlot(pos, log2);
      var cell := And(pos, n - 1);
      var dif: int := seqs[cell] as int - (pos + 1) as int;
      QueueLength(head, tail, d);
      assert dif <= 0;
      ok, data := dif == 0, 0;
      if ok {
        PopKeeps(head, tail, q);
        QueueFront(head, tail, d);
        head := pos + 1;
        data := slots[cell];
        assert data == d[cell];
        Release(cell, pos + n);
      }
    }

    method Release(cell: nat, seqno: nat)
      requires cell < seqs.Length
      modifies seqs
      ensures seqs[..] == old(seqs[..])[cell := seqno]
    {
      seqs[cell] := seqno;
    }
  }
}
