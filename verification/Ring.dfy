/** The bounded multi-producer/multi-consumer ring of src/fibers/queue.c, one step per
    atomic load, compare-exchange or store, for any number of threads and any interleaving. */
module Ring {
  import opened Bits

  type Tid = nat
  type Ptr = nat

  datatype Cell = Cell(seqno: nat, data: Ptr)

  /** Where a thread stands inside `vgc_push` or `vgc_pop`. */
  datatype PC =
    | Idle
    | PushTail(data: Ptr)                  // about to (re)load tail
    | PushSeq(pos: nat, data: Ptr)         // about to load the cell's seq
    | PushCas(pos: nat, data: Ptr)         // saw seq == pos, about to claim
    | PushWrite(pos: nat, data: Ptr)       // owns pos, about to store the data
    | PushPublish(pos: nat, data: Ptr)     // about to store seq := pos + 1
    | PopHead                              // about to (re)load head
    | PopSeq(pos: nat)
    | PopCas(pos: nat)
    | PopRead(pos: nat)                    // owns pos, about to read the data
    | PopRelease(pos: nat)                 // about to store seq := pos + size

  /** Which thread claimed a position for pushing, and with what. */
  datatype Claim = Claim(owner: Tid, data: Ptr)

  /** Ring and thread state, followed by a history that no step reads:
      `pushes[p]` and `pops[p]` record the successful claims of position p, and
      `delivered[p]` the pointer its popper copied out. */
  datatype State = State(
    log2: nat, head: nat, tail: nat, cells: seq<Cell>, threads: map<Tid, PC>,
    pushes: seq<Claim>, pops: seq<Tid>, delivered: map<nat, Ptr>)

  predicate Shape(s: State) {
    s.log2 >= 1 && |s.cells| == Pow2(s.log2)
  }

  /** `pos & bufmask`. */
  function Index(s: State, pos: nat): (i: nat)
    requires Shape(s)
    ensures i < |s.cells| && i == Slot(pos, |s.cells|)
  {
    MaskIsSlot(pos, s.log2);
    And(pos, |s.cells| - 1)
  }

  predicate Init(s: State) {
    && Shape(s)
    && s.head == 0 && s.tail == 0
    && (forall i :: 0 <= i < |s.cells| ==> s.cells[i].seqno == i)
    && (forall t :: t in s.threads ==> s.threads[t] == Idle)
    && s.pushes == [] && s.pops == [] && s.delivered == map[]
  }

  function At(s: State, t: Tid, pc: PC): State {
    s.(threads := s.threads[t := pc])
  }

  function SetCell(s: State, i: nat, c: Cell): State
    requires i < |s.cells|
  {
    s.(cells := s.cells[i := c])
  }

  // ---------------------------------------------------------------- steps

  predicate Call(s: State, t: Tid, s': State) {
    && t in s.threads && s.threads[t] == Idle
    && s'.threads.Keys == s.threads.Keys
    && (s'.threads[t].PushTail? || s'.threads[t].PopHead?)
    && s' == At(s, t, s'.threads[t])
  }

  predicate LoadTail(s: State, t: Tid, s': State) {
    && t in s.threads && s.threads[t].PushTail?
    && s' == At(s, t, PushSeq(s.tail, s.threads[t].data))
  }

  /** The load of `seq` and the three-way branch on `dif`; a negative one returns -1. */
  predicate PushLoadSeq(s: State, t: Tid, s': State)
    requires Shape(s)
  {
    && t in s.threads && s.threads[t].PushSeq?
    && var pc := s.threads[t];
       var q := s.cells[Index(s, pc.pos)].seqno;
       s' == At(s, t, if q == pc.pos then PushCas(pc.pos, pc.data)
                      else if q < pc.pos then Idle
                      else PushTail(pc.data))
  }

  predicate PushClaim(s: State, t: Tid, s': State) {
    && t in s.threads && s.threads[t].PushCas?
    && var pc := s.threads[t];
       && s.tail == pc.pos
       && s' == At(s, t, PushWrite(pc.pos, pc.data)).(
                  tail := s.tail + 1, pushes := s.pushes + [Claim(t, pc.data)])
  }

  /** A failed (possibly spuriously failed) compare-exchange refreshes `pos`. */
  predicate PushRetry(s: State, t: Tid, s': State) {
    && t in s.threads && s.threads[t].PushCas?
    && s' == At(s, t, PushSeq(s.tail, s.threads[t].data))
  }

  predicate PushStore(s: State, t: Tid, s': State)
    requires Shape(s)
  {
    && t in s.threads && s.threads[t].PushWrite?
    && var pc := s.threads[t];
       var i := Index(s, pc.pos);
       s' == SetCell(At(s, t, PushPublish(pc.pos, pc.data)), i, s.cells[i].(data := pc.data))
  }

  predicate PushDone(s: State, t: Tid, s': State)
    requires Shape(s)
  {
    && t in s.threads && s.threads[t].PushPublish?
    && var pc := s.threads[t];
       var i := Index(s, pc.pos);
       s' == SetCell(At(s, t, Idle), i, s.cells[i].(seqno := pc.pos + 1))
  }

  predicate LoadHead(s: State, t: Tid, s': State) {
    && t in s.threads && s.threads[t].PopHead?
    && s' == At(s, t, PopSeq(s.head))
  }

  predicate PopLoadSeq(s: State, t: Tid, s': State)
    requires Shape(s)
  {
    && t in s.threads && s.threads[t].PopSeq?
    && var pc := s.threads[t];
       var q := s.cells[Index(s, pc.pos)].seqno;
       s' == At(s, t, if q == pc.pos + 1 then PopCas(pc.pos)
                      else if q < pc.pos + 1 then Idle
                      else PopHead)
  }

  predicate PopClaim(s: State, t: Tid, s': State) {
    && t in s.threads && s.threads[t].PopCas?
    && s.head == s.threads[t].pos
    && s' == At(s, t, PopRead(s.head)).(head := s.head + 1, pops := s.pops + [t])
  }

  predicate PopRetry(s: State, t: Tid, s': State) {
    && t in s.threads && s.threads[t].PopCas?
    && s' == At(s, t, PopSeq(s.head))
  }

  predicate PopLoad(s: State, t: Tid, s': State)
    requires Shape(s)
  {
    && t in s.threads && s.threads[t].PopRead?
    && var p := s.threads[t].pos;
       s' == At(s, t, PopRelease(p)).(delivered := s.delivered[p := s.cells[Index(s, p)].data])
  }

  predicate PopDone(s: State, t: Tid, s': State)
    requires Shape(s)
  {
    && t in s.threads && s.threads[t].PopRelease?
    && var p := s.threads[t].pos;
       var i := Index(s, p);
       s' == SetCell(At(s, t, Idle), i, s.cells[i].(seqno := p + |s.cells|))
  }

  predicate Next(s: State, t: Tid, s': State) {
    && Shape(s)
    && (|| Call(s, t, s')
        || LoadTail(s, t, s') || PushLoadSeq(s, t, s') || PushClaim(s, t, s') || PushRetry(s, t, s')
        || PushStore(s, t, s') || PushDone(s, t, s')
        || LoadHead(s, t, s') || PopLoadSeq(s, t, s') || PopClaim(s, t, s') || PopRetry(s, t, s')
        || PopLoad(s, t, s') || PopDone(s, t, s'))
  }

  /** A run: any thread may take the next step. */
  ghost predicate Run(r: seq<State>, who: seq<Tid>) {
    && |r| == |who| + 1 && Init(r[0])
    && forall i {:trigger who[i]} :: 0 <= i < |who| ==> Next(r[i], who[i], r[i + 1])
  }

  // ------------------------------------------------------------ invariant

  predicate Writing(s: State, p: nat) {
    && s.head <= p < s.tail <= |s.pushes|
    && var k := s.pushes[p];
       && k.owner in s.threads
       && (s.threads[k.owner] == PushWrite(p, k.data) || s.threads[k.owner] == PushPublish(p, k.data))
  }

  predicate Holds(s: State, p: nat, c: Cell) {
    p < s.tail <= |s.pushes| && c.data == s.pushes[p].data
  }

  predicate Reading(s: State, p: nat) {
    && p < s.head <= |s.pops|
    && s.pops[p] in s.threads
    && (|| (s.threads[s.pops[p]] == PopRead(p) && p !in s.delivered)
        || s.threads[s.pops[p]] == PopRelease(p))
  }

  /** The life of a cell: Free(p), Writing(p), Full(p), Reading(p), Free(p + size).
      `seq` alone, compared with head and tail, says which. */
  predicate CellOk(s: State, i: nat)
    requires i < |s.cells|
  {
    var c, n := s.cells[i], |s.cells|;
    || (Slot(c.seqno, n) == i && s.tail <= c.seqno < s.tail + n)
    || (Slot(c.seqno, n) == i && Writing(s, c.seqno) && s.tail <= c.seqno + n)
    || (c.seqno >= 1 && Slot(c.seqno - 1, n) == i && s.tail <= c.seqno - 1 + n
        && Holds(s, c.seqno - 1, c) && (s.head <= c.seqno - 1 || Reading(s, c.seqno - 1)))
  }

  predicate ThreadOk(s: State, t: Tid)
    requires t in s.threads && |s.cells| > 0
  {
    var n := |s.cells|;
    match s.threads[t]
    case Idle => true
    case PushTail(_) => true
    case PopHead => true
    case PushSeq(p, _) => p <= s.tail
    case PushCas(p, _) => p < s.tail || (p == s.tail && s.cells[Slot(p, n)].seqno == p)
    case PushWrite(p, d) =>
      p < |s.pushes| && s.pushes[p] == Claim(t, d) && s.cells[Slot(p, n)].seqno == p
    case PushPublish(p, d) =>
      p < |s.pushes| && s.pushes[p] == Claim(t, d) && s.cells[Slot(p, n)] == Cell(p, d)
    case PopSeq(p) => p <= s.head
    case PopCas(p) => p < s.head || (p == s.head && s.cells[Slot(p, n)].seqno == p + 1)
    case PopRead(p) =>
      p < |s.pops| && s.pops[p] == t && s.cells[Slot(p, n)].seqno == p + 1 && p !in s.delivered
    case PopRelease(p) =>
      p < |s.pops| && s.pops[p] == t && s.cells[Slot(p, n)].seqno == p + 1 && p in s.delivered
  }

  /** A claimed, not yet popped position still occupies its cell. */
  predicate PosOk(s: State, p: nat)
    requires |s.cells| > 0
  {
    s.head <= p < s.tail ==>
      var q := s.cells[Slot(p, |s.cells|)].seqno; q == p || q == p + 1
  }

  /** A popped position has been delivered as pushed, or is about to be. */
  predicate DeliveryOk(s: State, p: nat) {
    && (p in s.delivered ==> p < s.head && p < |s.pushes| && s.delivered[p] == s.pushes[p].data)
    && (p < s.head && p !in s.delivered ==>
          p < |s.pops| && s.pops[p] in s.threads && s.threads[s.pops[p]] == PopRead(p))
  }

  predicate Sized(s: State) {
    && Shape(s) && |s.cells| >= 2
    && s.head <= s.tail && |s.pushes| == s.tail && |s.pops| == s.head
  }

  ghost predicate Inv(s: State) {
    && Sized(s)
    && (forall i :: 0 <= i < |s.cells| ==> CellOk(s, i))
    && (forall t :: t in s.threads ==> ThreadOk(s, t))
    && (forall p: nat :: PosOk(s, p))
    && (forall p: nat :: DeliveryOk(s, p))
  }

  lemma InitInv(s: State)
    requires Init(s)
    ensures Inv(s)
  {
    assert Pow2(s.log2) == 2 * Pow2(s.log2 - 1);
  }

  /** A thread that owns no cell moves from one program counter to another such. */
  predicate Idling(s: State, t: Tid, pc: PC) {
    && t in s.threads && !s.threads[t].PushWrite? && !s.threads[t].PushPublish?
    && !s.threads[t].PopRead? && !s.threads[t].PopRelease? && !pc.PopRelease?
  }

  lemma MoveCell(s: State, t: Tid, pc: PC, i: nat)
    requires Idling(s, t, pc) && i < |s.cells| && CellOk(s, i)
    ensures CellOk(At(s, t, pc), i)
  {
  }

  lemma MoveThread(s: State, t: Tid, pc: PC, u: Tid)
    requires Idling(s, t, pc) && u in s.threads && u != t && |s.cells| > 0 && ThreadOk(s, u)
    ensures ThreadOk(At(s, t, pc), u)
  {
  }

  lemma MovePos(s: State, t: Tid, pc: PC, p: nat)
    requires Idling(s, t, pc) && |s.cells| > 0 && PosOk(s, p) && DeliveryOk(s, p)
    ensures PosOk(At(s, t, pc), p) && DeliveryOk(At(s, t, pc), p)
  {
  }

  /** Steps that move only one thread's program counter, outside any owned cell. */
  lemma MoveInv(s: State, t: Tid, pc: PC)
    requires Inv(s) && t in s.threads
    requires !s.threads[t].PushWrite? && !s.threads[t].PushPublish?
    requires !s.threads[t].PopRead? && !s.threads[t].PopRelease?
    requires ThreadOk(At(s, t, pc), t)
    requires !pc.PopRelease?
    ensures Inv(At(s, t, pc))
  {
    var s' := At(s, t, pc);
    forall i | 0 <= i < |s'.cells| ensures CellOk(s', i) { assert CellOk(s, i); MoveCell(s, t, pc, i); }
    forall u | u in s'.threads ensures ThreadOk(s', u) { if u != t { assert ThreadOk(s, u); MoveThread(s, t, pc, u); } }
    forall p: nat ensures PosOk(s', p) && DeliveryOk(s', p) { assert PosOk(s, p) && DeliveryOk(s, p); MovePos(s, t, pc, p); }
    hide CellOk, ThreadOk, PosOk, DeliveryOk;
  }

  /** What a stepping thread that owns a position knows about its own cell. */
  predicate Owner(s: State, t: Tid)
    requires Sized(s) && t in s.threads
  {
    && ThreadOk(s, t)
    && match s.threads[t]
       case PushCas(p, _) => p == s.tail ==> CellOk(s, Slot(p, |s.cells|))
       case PushWrite(p, d) => Writing(s, p) && s.tail <= p + |s.cells|
       case PushPublish(p, d) => Writing(s, p) && s.tail <= p + |s.cells|
       case PopCas(p) => p == s.head ==> p < s.tail && s.tail <= p + |s.cells| && p !in s.delivered
                                         && s.cells[Slot(p, |s.cells|)].data == s.pushes[p].data
       case PopRead(p) => s.tail <= p + |s.cells| && s.cells[Slot(p, |s.cells|)].data == s.pushes[p].data
       case PopRelease(p) => s.tail <= p + |s.cells|
       case _ => true
  }

  lemma OwnerOfCell(s: State, t: Tid, p: nat)
    requires Sized(s) && t in s.threads && ThreadOk(s, t)
    requires match s.threads[t] case PushWrite(q, _) => p == q case PushPublish(q, _) => p == q
             case PopCas(q) => p == q case PopRead(q) => p == q case PopRelease(q) => p == q case _ => false
    requires CellOk(s, Slot(p, |s.cells|)) && DeliveryOk(s, p)
    ensures Owner(s, t)
  {
    SlotNext(p, |s.cells|);
    if p > 0 { SlotNext(p - 1, |s.cells|); }
  }

  lemma OwnerKnows(s: State, t: Tid)
    requires Inv(s) && t in s.threads
    ensures Owner(s, t)
  {
    assert ThreadOk(s, t);
    match s.threads[t]
    case PushWrite(p, _) => OwnerOfCell(s, t, p);
    case PushPublish(p, _) => OwnerOfCell(s, t, p);
    case PopCas(p) => OwnerOfCell(s, t, p);
    case PopRead(p) => OwnerOfCell(s, t, p);
    case PopRelease(p) => OwnerOfCell(s, t, p);
    case _ =>
  }

  lemma PushClaimCell(s: State, t: Tid, s': State, i: nat)
    requires Sized(s) && PushClaim(s, t, s') && Owner(s, t)
    requires i < |s.cells| && CellOk(s, i)
    ensures CellOk(s', i)
  {
  }

  lemma PushClaimThread(s: State, t: Tid, s': State, u: Tid)
    requires Sized(s) && PushClaim(s, t, s') && Owner(s, t)
    requires u in s.threads && ThreadOk(s, u)
    ensures ThreadOk(s', u)
  {
  }

  lemma PushClaimPos(s: State, t: Tid, s': State, q: nat)
    requires Sized(s) && PushClaim(s, t, s') && Owner(s, t)
    requires PosOk(s, q) && DeliveryOk(s, q)
    ensures PosOk(s', q) && DeliveryOk(s', q)
  {
  }

  lemma PushClaimInv(s: State, t: Tid, s': State)
    requires Inv(s) && PushClaim(s, t, s')
    ensures Inv(s')
  {
    OwnerKnows(s, t);
    forall i | 0 <= i < |s'.cells| ensures CellOk(s', i) { PushClaimCell(s, t, s', i); }
    forall u | u in s'.threads ensures ThreadOk(s', u) { PushClaimThread(s, t, s', u); }
    forall q: nat ensures PosOk(s', q) && DeliveryOk(s', q) { PushClaimPos(s, t, s', q); }
  }

  lemma PushStoreCell(s: State, t: Tid, s': State, i: nat)
    requires Sized(s) && PushStore(s, t, s') && Owner(s, t)
    requires i < |s.cells| && CellOk(s, i)
    ensures CellOk(s', i)
  {
  }

  lemma PushStoreThread(s: State, t: Tid, s': State, u: Tid)
    requires Sized(s) && PushStore(s, t, s') && Owner(s, t)
    requires u in s.threads && ThreadOk(s, u)
    ensures ThreadOk(s', u)
  {
  }

  lemma PushStorePos(s: State, t: Tid, s': State, q: nat)
    requires Sized(s) && PushStore(s, t, s') && Owner(s, t)
    requires PosOk(s, q) && DeliveryOk(s, q)
    ensures PosOk(s', q) && DeliveryOk(s', q)
  {
  }

  lemma PushStoreInv(s: State, t: Tid, s': State)
    requires Inv(s) && PushStore(s, t, s')
    ensures Inv(s')
  {
    OwnerKnows(s, t);
    forall i | 0 <= i < |s'.cells| ensures CellOk(s', i) { PushStoreCell(s, t, s', i); }
    forall u | u in s'.threads ensures ThreadOk(s', u) { PushStoreThread(s, t, s', u); }
    forall q: nat ensures PosOk(s', q) && DeliveryOk(s', q) { PushStorePos(s, t, s', q); }
  }

  lemma PushDoneCell(s: State, t: Tid, s': State, i: nat)
    requires Sized(s) && PushDone(s, t, s') && Owner(s, t)
    requires i < |s.cells| && CellOk(s, i)
    ensures CellOk(s', i)
  {
    hide Slot;
  }

  lemma PushDoneThread(s: State, t: Tid, s': State, u: Tid)
    requires Sized(s) && PushDone(s, t, s') && Owner(s, t)
    requires u in s.threads && ThreadOk(s, u)
    ensures ThreadOk(s', u)
  {
    var p := s.threads[t].pos;
    if p > 0 { SlotNext(p - 1, |s.cells|); }
  }

  lemma PushDonePos(s: State, t: Tid, s': State, q: nat)
    requires Sized(s) && PushDone(s, t, s') && Owner(s, t)
    requires PosOk(s, q) && DeliveryOk(s, q)
    ensures PosOk(s', q) && DeliveryOk(s', q)
  {
    if q > 0 { SlotNext(q - 1, |s.cells|); }
    SlotNext(q, |s.cells|);
  }

  lemma PushDoneInv(s: State, t: Tid, s': State)
    requires Inv(s) && PushDone(s, t, s')
    ensures Inv(s')
  {
    OwnerKnows(s, t);
    forall i | 0 <= i < |s'.cells| ensures CellOk(s', i) { PushDoneCell(s, t, s', i); }
    forall u | u in s'.threads ensures ThreadOk(s', u) { PushDoneThread(s, t, s', u); }
    forall q: nat ensures PosOk(s', q) && DeliveryOk(s', q) { PushDonePos(s, t, s', q); }
  }

  lemma PopClaimCell(s: State, t: Tid, s': State, i: nat)
    requires Sized(s) && PopClaim(s, t, s') && Owner(s, t)
    requires i < |s.cells| && CellOk(s, i)
    ensures CellOk(s', i)
  {
  }

  lemma PopClaimThread(s: State, t: Tid, s': State, u: Tid)
    requires Sized(s) && PopClaim(s, t, s') && Owner(s, t)
    requires u in s.threads && ThreadOk(s, u)
    ensures ThreadOk(s', u)
  {
  }

  lemma PopClaimPos(s: State, t: Tid, s': State, q: nat)
    requires Sized(s) && PopClaim(s, t, s') && Owner(s, t)
    requires PosOk(s, q) && DeliveryOk(s, q)
    ensures PosOk(s', q) && DeliveryOk(s', q)
  {
  }

  lemma PopClaimInv(s: State, t: Tid, s': State)
    requires Inv(s) && PopClaim(s, t, s')
    ensures Inv(s')
  {
    OwnerKnows(s, t);
    forall i | 0 <= i < |s'.cells| ensures CellOk(s', i) { PopClaimCell(s, t, s', i); }
    forall u | u in s'.threads ensures ThreadOk(s', u) { PopClaimThread(s, t, s', u); }
    forall q: nat ensures PosOk(s', q) && DeliveryOk(s', q) { PopClaimPos(s, t, s', q); }
  }

  lemma PopLoadCell(s: State, t: Tid, s': State, i: nat)
    requires Sized(s) && PopLoad(s, t, s') && Owner(s, t)
    requires i < |s.cells| && CellOk(s, i)
    ensures CellOk(s', i)
  {
  }

  lemma PopLoadThread(s: State, t: Tid, s': State, u: Tid)
    requires Sized(s) && PopLoad(s, t, s') && Owner(s, t)
    requires u in s.threads && ThreadOk(s, u)
    ensures ThreadOk(s', u)
  {
  }

  lemma PopLoadPos(s: State, t: Tid, s': State, q: nat)
    requires Sized(s) && PopLoad(s, t, s') && Owner(s, t)
    requires PosOk(s, q) && DeliveryOk(s, q)
    ensures PosOk(s', q) && DeliveryOk(s', q)
  {
  }

  lemma PopLoadInv(s: State, t: Tid, s': State)
    requires Inv(s) && PopLoad(s, t, s')
    ensures Inv(s')
  {
    OwnerKnows(s, t);
    forall i | 0 <= i < |s'.cells| ensures CellOk(s', i) { PopLoadCell(s, t, s', i); }
    forall u | u in s'.threads ensures ThreadOk(s', u) { PopLoadThread(s, t, s', u); }
    forall q: nat ensures PosOk(s', q) && DeliveryOk(s', q) { PopLoadPos(s, t, s', q); }
  }

  lemma PopDoneCell(s: State, t: Tid, s': State, i: nat)
    requires Sized(s) && PopDone(s, t, s') && Owner(s, t)
    requires i < |s.cells| && CellOk(s, i)
    ensures CellOk(s', i)
  {
    SlotLap(s.threads[t].pos, |s.cells|);
  }

  lemma PopDoneThread(s: State, t: Tid, s': State, u: Tid)
    requires Sized(s) && PopDone(s, t, s') && Owner(s, t)
    requires u in s.threads && ThreadOk(s, u)
    ensures ThreadOk(s', u)
  {
    SlotNext(s.threads[t].pos, |s.cells|);
  }

  lemma PopDonePos(s: State, t: Tid, s': State, q: nat)
    requires Sized(s) && PopDone(s, t, s') && Owner(s, t)
    requires PosOk(s, q) && DeliveryOk(s, q)
    ensures PosOk(s', q) && DeliveryOk(s', q)
  {
    SlotNext(s.threads[t].pos, |s.cells|);
  }

  lemma PopDoneInv(s: State, t: Tid, s': State)
    requires Inv(s) && PopDone(s, t, s')
    ensures Inv(s')
  {
    OwnerKnows(s, t);
    forall i | 0 <= i < |s'.cells| ensures CellOk(s', i) { PopDoneCell(s, t, s', i); }
    forall u | u in s'.threads ensures ThreadOk(s', u) { PopDoneThread(s, t, s', u); }
    forall q: nat ensures PosOk(s', q) && DeliveryOk(s', q) { PopDonePos(s, t, s', q); }
  }

  /** Every step of every thread keeps the invariant. */
  lemma NextInv(s: State, t: Tid, s': State)
    requires Inv(s) && Next(s, t, s')
    ensures Inv(s')
  {
    assert ThreadOk(s, t);
    if PushClaim(s, t, s') { PushClaimInv(s, t, s'); }
    else if PushStore(s, t, s') { PushStoreInv(s, t, s'); }
    else if PushDone(s, t, s') { PushDoneInv(s, t, s'); }
    else if PopClaim(s, t, s') { PopClaimInv(s, t, s'); }
    else if PopLoad(s, t, s') { PopLoadInv(s, t, s'); }
    else if PopDone(s, t, s') { PopDoneInv(s, t, s'); }
    else { MoveInv(s, t, s'.threads[t]); }
  }

  lemma {:induction false} RunInv(r: seq<State>, who: seq<Tid>, i: nat)
    requires Run(r, who) && i < |r|
    ensures Inv(r[i])
  {
    if i == 0 {
      InitInv(r[0]);
    } else {
      RunInv(r, who, i - 1);
      NextInv(r[i - 1], who[i - 1], r[i]);
    }
  }

  // ------------------------------------------------------------- theorems

  /** The position a thread owns, that is, between its claim and its last store. */
  predicate Owns(s: State, t: Tid, p: nat) {
    && t in s.threads
    && var pc := s.threads[t];
       (pc.PushWrite? || pc.PushPublish? || pc.PopRead? || pc.PopRelease?) && pc.pos == p
  }

  /** In every interleaving, two threads never touch the data of one cell at a time. */
  lemma DataExclusion(r: seq<State>, who: seq<Tid>, i: nat, t: Tid, u: Tid, p: nat, q: nat)
    requires Run(r, who) && i < |r|
    requires t != u && Owns(r[i], t, p) && Owns(r[i], u, q)
    ensures Shape(r[i]) && Index(r[i], p) != Index(r[i], q)
  {
    RunInv(r, who, i);
    var s := r[i];
    assert ThreadOk(s, t) && ThreadOk(s, u);
    SlotNext(p, |s.cells|);
    SlotNext(q, |s.cells|);
  }

  /** In every interleaving, each position below `tail` has exactly one pusher and each below
      `head` exactly one popper, which copies out what that pusher put in; a position in
      between is still in its cell, or on its way there. */
  lemma NothingLostOrDuplicated(r: seq<State>, who: seq<Tid>, i: nat, p: nat)
    requires Run(r, who) && i < |r|
    ensures var s := r[i];
      && Shape(s) && s.head <= s.tail == |s.pushes| && |s.pops| == s.head
      && (p in s.delivered ==> p < s.head && s.delivered[p] == s.pushes[p].data)
      && (p < s.head && p !in s.delivered ==> Owns(s, s.pops[p], p))
      && (s.head <= p < s.tail ==>
            || Owns(s, s.pushes[p].owner, p)
            || s.cells[Index(s, p)] == Cell(p + 1, s.pushes[p].data))
  {
    RunInv(r, who, i);
    var s := r[i];
    assert PosOk(s, p) && DeliveryOk(s, p) && CellOk(s, Index(s, p));
    SlotNext(p, |s.cells|);
    if p > 0 { SlotNext(p - 1, |s.cells|); }
  }

  /** Claims are for ever: history only grows, and no position is delivered twice. */
  lemma DeliveredOnce(r: seq<State>, who: seq<Tid>, i: nat)
    requires Run(r, who) && i < |who|
    ensures r[i].pushes <= r[i + 1].pushes && r[i].pops <= r[i + 1].pops
    ensures forall p :: p in r[i].delivered ==>
              p in r[i + 1].delivered && r[i + 1].delivered[p] == r[i].delivered[p]
    ensures PopLoad(r[i], who[i], r[i + 1]) ==> r[i].threads[who[i]].pos !in r[i].delivered
  {
    RunInv(r, who, i);
    assert Next(r[i], who[i], r[i + 1]);
    assert ThreadOk(r[i], who[i]);
  }

  /** The tenant of position `p` has not finished with its cell. */
  predicate Occupied(s: State, p: nat)
    requires Sized(s)
  {
    p < s.tail && (s.head <= p || Owns(s, s.pops[p], p))
  }

  /** A push gives up at its load of `seq` if and only if it finds the ring full: its position is
      still the tail, and the tenant one lap earlier has not released the cell. */
  lemma FailingPushIsJustified(r: seq<State>, who: seq<Tid>, i: nat)
    requires Run(r, who) && i < |who| && who[i] in r[i].threads && r[i].threads[who[i]].PushSeq?
    ensures Inv(r[i]) && who[i] in r[i + 1].threads
    ensures var s := r[i]; var pos := s.threads[who[i]].pos;
      r[i + 1].threads[who[i]] == Idle <==> pos == s.tail && pos >= |s.cells| && Occupied(s, pos - |s.cells|)
  {
    RunInv(r, who, i);
    assert Next(r[i], who[i], r[i + 1]);
    var s, t := r[i], who[i];
    var pos, n := s.threads[t].pos, |s.cells|;
    assert PushLoadSeq(s, t, r[i + 1]);
    assert ThreadOk(s, t);
    if s.cells[Index(s, pos)].seqno < pos { BehindTail(s, pos); }
    if pos == s.tail && pos >= n && Occupied(s, pos - n) { TenantThere(s, pos - n); }
  }

  lemma BehindTail(s: State, pos: nat)
    requires Inv(s) && pos <= s.tail && s.cells[Slot(pos, |s.cells|)].seqno < pos
    ensures pos == s.tail && pos >= |s.cells| && Occupied(s, pos - |s.cells|)
  {
    var n := |s.cells|;
    var j := Slot(pos, n);
    assert CellOk(s, j);
    var q := s.cells[j].seqno;
    if Slot(q, n) == j {
      if q > 0 { SlotNext(q - 1, n); }
      SlotGap(q, pos, n);
    } else {
      SlotGap(q - 1, pos, n);
    }
  }

  /** The cell of a tenant that has not gone shows its position or the next. */
  lemma TenantThere(s: State, p: nat)
    requires Inv(s) && Occupied(s, p)
    ensures Slot(p + |s.cells|, |s.cells|) == Slot(p, |s.cells|) && s.cells[Slot(p, |s.cells|)].seqno <= p + 1
  {
    SlotLap(p, |s.cells|);
    assert PosOk(s, p);
    if p < s.head { assert ThreadOk(s, s.pops[p]); }
  }

  /** A pop gives up at its load of `seq` if and only if its position is still the head and not
      yet published. */
  lemma FailingPopIsJustified(r: seq<State>, who: seq<Tid>, i: nat)
    requires Run(r, who) && i < |who| && who[i] in r[i].threads && r[i].threads[who[i]].PopSeq?
    ensures who[i] in r[i + 1].threads && r[i].head <= r[i].tail == |r[i].pushes|
    ensures var s := r[i]; var pos := s.threads[who[i]].pos;
      r[i + 1].threads[who[i]] == Idle <==> pos == s.head && (pos < s.tail ==> Owns(s, s.pushes[pos].owner, pos))
  {
    RunInv(r, who, i);
    assert Next(r[i], who[i], r[i + 1]);
    var s, t := r[i], who[i];
    var pos, n := s.threads[t].pos, |s.cells|;
    assert PopLoadSeq(s, t, r[i + 1]);
    assert ThreadOk(s, t);
    if s.cells[Index(s, pos)].seqno < pos + 1 { BehindHead(s, pos); }
    if pos == s.head && (pos < s.tail ==> Owns(s, s.pushes[pos].owner, pos)) { NotPublished(s, pos); }
  }

  lemma BehindHead(s: State, pos: nat)
    requires Inv(s) && pos <= s.head && s.cells[Slot(pos, |s.cells|)].seqno < pos + 1
    ensures pos == s.head && (pos < s.tail ==> Owns(s, s.pushes[pos].owner, pos))
  {
    var n := |s.cells|;
    var j := Slot(pos, n);
    assert CellOk(s, j);
    var q := s.cells[j].seqno;
    if q > 0 { SlotNext(q - 1, n); }
    if Slot(q, n) != j { SlotGap(q - 1, pos, n); }
  }

  lemma NotPublished(s: State, pos: nat)
    requires Inv(s) && pos == s.head && (pos < s.tail ==> Owns(s, s.pushes[pos].owner, pos))
    ensures s.cells[Slot(pos, |s.cells|)].seqno < pos + 1
  {
    var n := |s.cells|;
    var j := Slot(pos, n);
    var q := s.cells[j].seqno;
    assert CellOk(s, j);
    if pos < s.tail {
      assert ThreadOk(s, s.pushes[pos].owner);
    } else if q > pos {
      if Slot(q, n) == j { SlotGap(pos, q, n); }
    }
  }

  // ------------------------------------------------- what was pushed is what was asked

  /** The pointer a thread inside `vgc_push` carries. */
  function Carried(pc: PC): seq<Ptr> {
    match pc
    case PushTail(d) => [d]
    case PushSeq(_, d) => [d]
    case PushCas(_, d) => [d]
    case PushWrite(_, d) => [d]
    case PushPublish(_, d) => [d]
    case _ => []
  }

  /** Step i of thread t is a call of `vgc_push` with pointer d, and t is inside that same call up
      to state k. */
  predicate Calling(r: seq<State>, who: seq<Tid>, t: Tid, d: Ptr, i: nat, k: nat) {
    && i < k < |r| && i < |who| && who[i] == t
    && t in r[i].threads && r[i].threads[t] == Idle
    && t in r[i + 1].threads && r[i + 1].threads[t] == PushTail(d)
    && forall m :: i < m <= k ==> t in r[m].threads && Carried(r[m].threads[t]) == [d]
  }

  lemma CarriedStep(s: State, w: Tid, s': State, t: Tid)
    requires Next(s, w, s') && t in s.threads
    ensures t in s'.threads
    ensures w != t ==> s'.threads[t] == s.threads[t]
    ensures Carried(s'.threads[t]) != [] && !(w == t && s.threads[t] == Idle) ==>
      Carried(s.threads[t]) == Carried(s'.threads[t])
    ensures w == t && s.threads[t] == Idle && Carried(s'.threads[t]) != [] ==>
      s'.threads[t] == PushTail(Carried(s'.threads[t])[0])
  {
  }

  lemma {:induction false} ThreadsStay(r: seq<State>, who: seq<Tid>, k: nat, t: Tid)
    requires Run(r, who) && k < |r| && t in r[k].threads
    ensures t in r[0].threads && forall m :: 0 <= m <= k ==> t in r[m].threads
  {
    hide Next, Init;
    if k > 0 {
      SameThreads(r[k - 1], who[k - 1], r[k]);
      ThreadsStay(r, who, k - 1, t);
    }
  }

  lemma SameThreads(s: State, w: Tid, s': State)
    requires Next(s, w, s')
    ensures s'.threads.Keys == s.threads.Keys
  {
  }

  /** Whatever pointer a thread carries is the argument of the call it is in. */
  lemma {:induction false} CarriesItsArgument(r: seq<State>, who: seq<Tid>, k: nat, t: Tid) returns (i: nat)
    requires Run(r, who) && k < |r| && t in r[k].threads && Carried(r[k].threads[t]) != []
    ensures Calling(r, who, t, Carried(r[k].threads[t])[0], i, k)
  {
    ThreadsStay(r, who, k, t);
    assert k > 0;
    hide Next, Init, Carried;
    assert Next(r[k - 1], who[k - 1], r[k]);
    CarriedStep(r[k - 1], who[k - 1], r[k], t);
    if who[k - 1] == t && r[k - 1].threads[t] == Idle {
      i := k - 1;
    } else {
      i := CarriesItsArgument(r, who, k - 1, t);
    }
  }

  lemma ClaimStep(s: State, t: Tid, s': State)
    requires Next(s, t, s') && |s'.pushes| != |s.pushes|
    ensures t in s.threads && Carried(s.threads[t]) != []
    ensures s'.pushes == s.pushes + [Claim(t, Carried(s.threads[t])[0])]
  {
  }

  /** Every claim records the claiming thread and the argument of the `vgc_push` call it is in. */
  lemma {:induction false} ClaimIsOfTheArgument(r: seq<State>, who: seq<Tid>, k: nat) returns (i: nat)
    requires Run(r, who) && k < |who| && |r[k + 1].pushes| != |r[k].pushes|
    ensures |r[k + 1].pushes| == |r[k].pushes| + 1
    ensures var c := r[k + 1].pushes[|r[k].pushes|]; c.owner == who[k] && Calling(r, who, who[k], c.data, i, k)
  {
    hide Init, Carried;
    assert Next(r[k], who[k], r[k + 1]);
    ClaimStep(r[k], who[k], r[k + 1]);
    hide Next;
    i := CarriesItsArgument(r, who, k, who[k]);
  }

  /** The step that claimed position p. */
  lemma {:induction false} ClaimedAt(r: seq<State>, who: seq<Tid>, j: nat, p: nat) returns (k: nat)
    requires Run(r, who) && j < |r| && p < |r[j].pushes|
    ensures k < j && |r[k].pushes| == p && |r[k + 1].pushes| == p + 1 && r[k + 1].pushes[p] == r[j].pushes[p]
  {
    assert j > 0;
    hide Init;
    assert Next(r[j - 1], who[j - 1], r[j]);
    DeliveredOnce(r, who, j - 1);
    if |r[j].pushes| != |r[j - 1].pushes| { ClaimStep(r[j - 1], who[j - 1], r[j]); }
    hide Next;
    if p < |r[j - 1].pushes| { k := ClaimedAt(r, who, j - 1, p); } else { k := j - 1; }
  }

  /** A delivered value is the argument of the `vgc_push` call that claimed the position: the call
      was step i, the claim step k, and the thread was inside that call in between. */
  lemma {:induction false} DeliveredIsTheArgument(r: seq<State>, who: seq<Tid>, j: nat, p: nat) returns (i: nat, k: nat)
    requires Run(r, who) && j < |r| && p in r[j].delivered
    ensures i < k < j && |r[k].pushes| == p && |r[k + 1].pushes| == p + 1
    ensures Calling(r, who, who[k], r[j].delivered[p], i, k)
  {
    hide Next, Init, Carried, Calling;
    NothingLostOrDuplicated(r, who, j, p);
    k := ClaimedAt(r, who, j, p);
    i := ClaimIsOfTheArgument(r, who, k);
    CallBefore(r, who, who[k], r[j].delivered[p], i, k);
  }

  lemma {:induction false} CallBefore(r: seq<State>, who: seq<Tid>, t: Tid, d: Ptr, i: nat, k: nat)
    requires Calling(r, who, t, d, i, k)
    ensures i < k
  {
  }

  /** How a `vgc_push` call of d ends: it gave up on a full ring, having claimed nothing at that
      step, or its claim of some position with d is now published in its cell. */
  lemma {:induction false} PushReturns(r: seq<State>, who: seq<Tid>, t: Tid, d: Ptr, i: nat, k: nat)
    requires Run(r, who) && Calling(r, who, t, d, i, k) && k < |who| && who[k] == t
    requires t in r[k + 1].threads && r[k + 1].threads[t] == Idle
    ensures Inv(r[k]) && (r[k].threads[t].PushSeq? || r[k].threads[t].PushPublish?)
    ensures var s, p := r[k], r[k].threads[t].pos;
      if r[k].threads[t].PushSeq?
      then p == s.tail && p >= |s.cells| && Occupied(s, p - |s.cells|) && r[k + 1] == At(s, t, Idle)
      else p < |s.pushes| && s.pushes[p] == Claim(t, d) && Slot(p, |s.cells|) < |r[k + 1].cells|
           && r[k + 1].cells[Slot(p, |s.cells|)] == Cell(p + 1, d)
  {
    RunInv(r, who, k);
    assert Next(r[k], who[k], r[k + 1]);
    assert ThreadOk(r[k], t) && Carried(r[k].threads[t]) == [d];
    if r[k].threads[t].PushSeq? { FailingPushIsJustified(r, who, k); }
    hide Inv;
  }
}
