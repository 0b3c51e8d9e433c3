/** The fiber scheduler of src/fibers/scheduler.c over atomic queues: a fixed population of
    fibers, any number of workers, and spin-locked completion counters, one step per queue
    operation or locked region. */
module Scheduler {
  import opened Wrappers

  type Fid = nat
  type Wid = nat
  type Cid = nat

  const WAIT_FIBER_LEN: nat := 4

  datatype Priority = Lo | Mid | Hi

  /** Where a fiber can be. */
  datatype Place =
    | Free                     // in free_q_pool
    | Queued(prio: Priority)   // in hi_q, mid_q or lo_q
    | Waiting(on: Cid)         // on a counter's waiter list, not yet re-enqueued
    | OnWorker(w: Wid)         // running on, or in the hands of, one worker
    | Retired                  // finished without a parent counter: never recycled
    | Lost                     // dropped: its counter's waiter list was full

  /** A worker, or the fiber it is running. */
  datatype PC =
    | Poll                                                              // about to dequeue
    | Run(f: Fid)                                                       // inside the fiber
    | Sched(caller: Option<Fid>, cnt: Option<Cid>, jobs: seq<Priority>) // scheduling loop, about to pop a free fiber
    | Start(caller: Option<Fid>, cnt: Option<Cid>, jobs: seq<Priority>, g: Fid) // g assigned, about to enqueue it
    | Acquire(f: Fid, c: Cid, checked: bool)                            // waiting call, about to lock
    | Decide(f: Fid, c: Cid, checked: bool)                             // lock held
    | HandOff(f: Fid, c: Cid, checked: bool)                             // jumped out, lock still held
    | Finish(f: Fid)                                                    // done, about to lock the parent
    | Decrement(f: Fid, c: Cid)                                         // lock held
    | Wake(f: Fid, c: Cid)                                              // lock held, counter at zero
    | Release(f: Fid, c: Cid)                                           // lock held
    | Recycle(f: Fid)                                                   // about to return to the pool
    | Panic                                                             // a ring was full

  datatype Fiber = Fiber(prio: Priority, parent: Option<Cid>)

  /** `lock` and `value` are the counter's; its waiters are `pools[Waiting(c)]`.
      History: children started and not finished, jobs not started yet, the worker still in
      the scheduling loop, and whether that loop gave up. */
  datatype Counter = Counter(
    lock: Option<Wid>, value: int,
    pending: set<Fid>, unstarted: int, loop: Option<Wid>, failed: bool)

  /** `size` fibers and rings of `size` cells; `at` is history. */
  datatype State = State(
    size: nat, pools: map<Place, seq<Fid>>, fibers: seq<Fiber>, counters: seq<Counter>,
    workers: map<Wid, PC>, at: seq<Place>)

  function Held(pc: PC): seq<Fid> {
    match pc
    case Poll => []
    case Panic => []
    case Sched(caller, _, _) => if caller.Some? then [caller.value] else []
    case Start(caller, _, _, g) => (if caller.Some? then [caller.value] else []) + [g]
    case Run(f) => [f]
    case Acquire(f, _, _) => [f]
    case Decide(f, _, _) => [f]
    case HandOff(f, _, _) => [f]
    case Finish(f) => [f]
    case Decrement(f, _) => [f]
    case Wake(f, _) => [f]
    case Release(f, _) => [f]
    case Recycle(f) => [f]
  }

  function Back(caller: Option<Fid>): PC {
    if caller.Some? then Run(caller.value) else Poll
  }

  predicate Init(s: State) {
    && |s.fibers| == |s.at| == s.size
    && s.pools.Keys == {Free, Queued(Lo), Queued(Mid), Queued(Hi), Retired, Lost}
    && (forall pl :: pl in s.pools && pl != Free ==> s.pools[pl] == [])
    && |s.pools[Free]| == s.size
    && (forall f :: 0 <= f < s.size ==> s.pools[Free][f] == f && s.at[f] == Free && s.fibers[f].parent == None)
    && s.counters == []
    && forall w :: w in s.workers ==> s.workers[w] == Poll
  }

  // ------------------------------------------------------------ operations

  function Go(s: State, w: Wid, pc: PC): State {
    s.(workers := s.workers[w := pc])
  }

  /** Pop the oldest fiber of a ring into the hands of worker w. */
  function Take(s: State, w: Wid, from: Place): State
    requires from in s.pools && s.pools[from] != []
  {
    var f := s.pools[from][0];
    s.(pools := s.pools[from := s.pools[from][1..]],
       at := if f < |s.at| then s.at[f := OnWorker(w)] else s.at)
  }

  /** Append a fiber to a ring or list. */
  function Give(s: State, f: Fid, to: Place): State
    requires to in s.pools
  {
    s.(pools := s.pools[to := s.pools[to] + [f]],
       at := if f < |s.at| then s.at[f := to] else s.at)
  }

  predicate HasRoom(s: State, pl: Place)
    requires pl in s.pools
  {
    |s.pools[pl]| < s.size
  }

  function SetCounter(s: State, c: Cid, k: Counter): State
    requires c < |s.counters|
  {
    s.(counters := s.counters[c := k])
  }

  // ----------------------------------------------------------------- steps

  /** `vgc_dequeue` on one of the three queues succeeds and the fiber is resumed. */
  predicate Dequeue(s: State, w: Wid, p: Priority, s': State) {
    && w in s.workers && s.workers[w] == Poll
    && Queued(p) in s.pools && s.pools[Queued(p)] != []
    && s' == Go(Take(s, w, Queued(p)), w, Run(s.pools[Queued(p)][0]))
  }

  /** `vgc_schedule_jobs` by a fiber, or by a thread that has not started its loop;
      `counted` says whether a counter was passed in. */
  predicate Schedule(s: State, w: Wid, jobs: seq<Priority>, counted: bool, s': State) {
    && w in s.workers && (s.workers[w] == Poll || s.workers[w].Run?)
    && var caller := if s.workers[w].Run? then Some(s.workers[w].f) else None;
       if counted then
         var c := |s.counters|;
         s' == Go(s, w, Sched(caller, Some(c), jobs)).(
                 counters := s.counters + [Counter(None, |jobs|, {}, |jobs|, Some(w), false)],
                 pools := s.pools[Waiting(c) := []])
       else s' == Go(s, w, Sched(caller, None, jobs))
  }

  function EndLoop(s: State, cnt: Option<Cid>, failed: bool): State {
    if cnt.Some? && cnt.value < |s.counters| then
      SetCounter(s, cnt.value, s.counters[cnt.value].(loop := None, failed := failed))
    else s
  }

  predicate ScheduleEnd(s: State, w: Wid, s': State) {
    && w in s.workers && s.workers[w].Sched?
    && var pc := s.workers[w];
       && (pc.jobs == [] || (Free in s.pools && s.pools[Free] == []))
       && s' == EndLoop(Go(s, w, Back(pc.caller)), pc.cnt, pc.jobs != [])
  }

  /** First half of `vgc_enque_job`: pop a free fiber and assign the job to it. */
  predicate Assign(s: State, w: Wid, s': State) {
    && w in s.workers && s.workers[w].Sched?
    && Free in s.pools && s.pools[Free] != []
    && var pc := s.workers[w];
       var g := s.pools[Free][0];
       && pc.jobs != [] && g < |s.fibers|
       && var s1 := Go(Take(s, w, Free), w, Start(pc.caller, pc.cnt, pc.jobs, g)).(
                      fibers := s.fibers[g := Fiber(pc.jobs[0], pc.cnt)]);
          if pc.cnt.Some? && pc.cnt.value < |s.counters| then
            var k := s.counters[pc.cnt.value];
            s' == SetCounter(s1, pc.cnt.value, k.(pending := k.pending + {g}, unstarted := k.unstarted - 1))
          else s' == s1
  }

  /** Second half: push it to the queue of its priority. */
  predicate EnqueueJob(s: State, w: Wid, s': State) {
    && w in s.workers && s.workers[w].Start?
    && var pc := s.workers[w];
       && pc.jobs != [] && Queued(pc.jobs[0]) in s.pools
       && if HasRoom(s, Queued(pc.jobs[0]))
          then s' == Go(Give(s, pc.g, Queued(pc.jobs[0])), w, Sched(pc.caller, pc.cnt, pc.jobs[1..]))
          else s' == Go(s, w, Panic)
  }

  /** `vgc_wait_for_counter`, or with `checked` its error-checking form. */
  predicate CallWait(s: State, w: Wid, c: Cid, checked: bool, s': State) {
    && w in s.workers && s.workers[w].Run? && c < |s.counters|
    && s' == Go(s, w, Acquire(s.workers[w].f, c, checked))
  }

  predicate LockForWait(s: State, w: Wid, s': State) {
    && w in s.workers && s.workers[w].Acquire?
    && var pc := s.workers[w];
       && pc.c < |s.counters| && s.counters[pc.c].lock == None
       && s' == SetCounter(Go(s, w, Decide(pc.f, pc.c, pc.checked)), pc.c, s.counters[pc.c].(lock := Some(w)))
  }

  predicate DecideWait(s: State, w: Wid, s': State) {
    && w in s.workers && s.workers[w].Decide?
    && var pc := s.workers[w];
       && pc.c < |s.counters| && Waiting(pc.c) in s.pools
       && var k := s.counters[pc.c];
          if k.value == 0 || (pc.checked && |s.pools[Waiting(pc.c)]| == WAIT_FIBER_LEN)
          then s' == SetCounter(Go(s, w, Run(pc.f)), pc.c, k.(lock := None))
          else s' == Go(s, w, HandOff(pc.f, pc.c, pc.checked))
  }

  /** Back in the worker: record the waiter, then release the lock the fiber took. */
  predicate AddWaiter(s: State, w: Wid, s': State) {
    && w in s.workers && s.workers[w].HandOff?
    && var pc := s.workers[w];
       && pc.c < |s.counters| && Waiting(pc.c) in s.pools && Lost in s.pools
       && var to := if |s.pools[Waiting(pc.c)]| == WAIT_FIBER_LEN then Lost else Waiting(pc.c);
          s' == SetCounter(Go(Give(s, pc.f, to), w, Poll), pc.c, s.counters[pc.c].(lock := None))
  }

  predicate Done(s: State, w: Wid, s': State) {
    && w in s.workers && s.workers[w].Run? && s.workers[w].f < |s.fibers| && Retired in s.pools
    && var f := s.workers[w].f;
       if s.fibers[f].parent.Some? then s' == Go(s, w, Finish(f))
       else s' == Go(Give(s, f, Retired), w, Poll)
  }

  predicate LockParent(s: State, w: Wid, s': State) {
    && w in s.workers && s.workers[w].Finish? && s.workers[w].f < |s.fibers|
    && var f := s.workers[w].f;
       && s.fibers[f].parent.Some? && s.fibers[f].parent.value < |s.counters|
       && var c := s.fibers[f].parent.value;
          && s.counters[c].lock == None
          && s' == SetCounter(Go(s, w, Decrement(f, c)), c, s.counters[c].(lock := Some(w)))
  }

  predicate DecrementStep(s: State, w: Wid, s': State) {
    && w in s.workers && s.workers[w].Decrement?
    && var pc := s.workers[w];
       && pc.c < |s.counters|
       && var k := s.counters[pc.c];
          s' == SetCounter(Go(s, w, if k.value == 1 then Wake(pc.f, pc.c) else Release(pc.f, pc.c)),
                           pc.c, k.(value := k.value - 1, pending := k.pending - {pc.f}))
  }

  /** Re-enqueue the next waiter, or leave the loop. */
  predicate WakeStep(s: State, w: Wid, s': State) {
    && w in s.workers && s.workers[w].Wake?
    && var pc := s.workers[w];
       && Waiting(pc.c) in s.pools
       && if s.pools[Waiting(pc.c)] == [] then s' == Go(s, w, Release(pc.f, pc.c))
          else
            var f := s.pools[Waiting(pc.c)][0];
            && f < |s.fibers| && Queued(s.fibers[f].prio) in s.pools
            && if HasRoom(s, Queued(s.fibers[f].prio))
               then s' == Give(Take(s, w, Waiting(pc.c)), f, Queued(s.fibers[f].prio))
               else s' == Go(s, w, Panic)
  }

  predicate ReleaseStep(s: State, w: Wid, s': State) {
    && w in s.workers && s.workers[w].Release?
    && var pc := s.workers[w];
       && pc.c < |s.counters|
       && s' == SetCounter(Go(s, w, Recycle(pc.f)), pc.c, s.counters[pc.c].(lock := None))
  }

  predicate RecycleStep(s: State, w: Wid, s': State) {
    && w in s.workers && s.workers[w].Recycle? && Free in s.pools
    && if HasRoom(s, Free) then s' == Go(Give(s, s.workers[w].f, Free), w, Poll)
       else s' == Go(s, w, Panic)
  }

  ghost predicate Begin(s: State, w: Wid, s': State) {
    exists jobs, counted :: Schedule(s, w, jobs, counted, s')
  }

  ghost predicate QueueStep(s: State, w: Wid, s': State) {
    (exists p :: Dequeue(s, w, p, s')) || EnqueueJob(s, w, s')
  }

  ghost predicate CallStep(s: State, w: Wid, s': State) {
    exists c, checked :: CallWait(s, w, c, checked, s')
  }

  /** A fiber's wait on a counter. */
  ghost predicate WaitStep(s: State, w: Wid, s': State) {
    || CallStep(s, w, s') || LockForWait(s, w, s') || DecideWait(s, w, s') || AddWaiter(s, w, s')
  }

  /** The end of a fiber, up to the decrement of its parent counter. */
  predicate DoneStep(s: State, w: Wid, s': State) {
    Done(s, w, s') || LockParent(s, w, s') || DecrementStep(s, w, s')
  }

  /** The rest of it. */
  predicate ExitStep(s: State, w: Wid, s': State) {
    WakeStep(s, w, s') || ReleaseStep(s, w, s') || RecycleStep(s, w, s')
  }

  ghost predicate Next(s: State, w: Wid, s': State) {
    || Begin(s, w, s') || ScheduleEnd(s, w, s') || Assign(s, w, s') || QueueStep(s, w, s')
    || WaitStep(s, w, s') || DoneStep(s, w, s') || ExitStep(s, w, s')
  }

  ghost predicate Execution(r: seq<State>, who: seq<Wid>) {
    && |r| == |who| + 1 && Init(r[0])
    && forall i {:trigger who[i]} :: 0 <= i < |who| ==> Next(r[i], who[i], r[i + 1])
  }

  // ------------------------------------------------- one place per fiber

  predicate NoDup(q: seq<Fid>) {
    forall i, j :: 0 <= i < j < |q| ==> q[i] != q[j]
  }

  predicate PoolOk(s: State, pl: Place)
    requires pl in s.pools
  {
    && !pl.OnWorker?
    && NoDup(s.pools[pl])
    && forall k :: 0 <= k < |s.pools[pl]| ==> s.pools[pl][k] < |s.at| && s.at[s.pools[pl][k]] == pl
  }

  predicate HandsOk(s: State, w: Wid)
    requires w in s.workers
  {
    InHands(s.at, Held(s.workers[w]), w)
  }

  predicate InHands(at: seq<Place>, h: seq<Fid>, w: Wid) {
    NoDup(h) && forall k :: 0 <= k < |h| ==> h[k] < |at| && at[h[k]] == OnWorker(w)
  }

  predicate PlaceOk(s: State, f: Fid)
    requires f < |s.at|
  {
    match s.at[f]
    case OnWorker(w) => w in s.workers && f in Held(s.workers[w])
    case pl => pl in s.pools && f in s.pools[pl]
  }

  ghost predicate PlacesInv(s: State) {
    && |s.fibers| == |s.at| == s.size
    && (forall pl :: pl in s.pools ==> PoolOk(s, pl))
    && (forall w :: w in s.workers ==> HandsOk(s, w))
    && (forall f :: 0 <= f < |s.at| ==> PlaceOk(s, f))
  }

  // Popping a ring into a worker's hands.

  lemma TakePool(s: State, w: Wid, from: Place, pc: PC, pl: Place)
    requires from in s.pools && s.pools[from] != [] && PoolOk(s, from)
    requires pl in s.pools && PoolOk(s, pl)
    ensures PoolOk(Go(Take(s, w, from), w, pc), pl)
  {
  }

  lemma HandsStay(at: seq<Place>, h: seq<Fid>, u: Wid, f: Fid, pl: Place)
    requires InHands(at, h, u) && f !in h
    ensures InHands(if f < |at| then at[f := pl] else at, h, u)
  {
  }

  lemma HandsGrow(at: seq<Place>, h: seq<Fid>, w: Wid, f: Fid)
    requires InHands(at, h, w) && f !in h && f < |at|
    ensures InHands(at[f := OnWorker(w)], h + [f], w)
  {
  }

  lemma NotInHands(at: seq<Place>, h: seq<Fid>, u: Wid, f: Fid)
    requires InHands(at, h, u) && f < |at| && !at[f].OnWorker?
    ensures f !in h
  {
  }

  lemma TakeHands(s: State, w: Wid, from: Place, pc: PC, u: Wid)
    requires from in s.pools && s.pools[from] != [] && PoolOk(s, from)
    requires w in s.workers && HandsOk(s, w) && Held(pc) == Held(s.workers[w]) + [s.pools[from][0]]
    requires u in s.workers && HandsOk(s, u)
    ensures HandsOk(Go(Take(s, w, from), w, pc), u)
  {
    var f, h := s.pools[from][0], Held(s.workers[u]);
    assert f < |s.at| && s.at[f] == from && !from.OnWorker?;
    hide Held, InHands, PoolOk;
    NotInHands(s.at, h, u, f);
    if u == w { HandsGrow(s.at, h, w, f); } else { HandsStay(s.at, h, u, f, OnWorker(w)); }
  }

  lemma TakePlace(s: State, w: Wid, from: Place, pc: PC, g: Fid)
    requires from in s.pools && s.pools[from] != []
    requires w in s.workers && Held(pc) == Held(s.workers[w]) + [s.pools[from][0]]
    requires g < |s.at| && PlaceOk(s, g)
    ensures PlaceOk(Go(Take(s, w, from), w, pc), g)
  {
    var s' := Go(Take(s, w, from), w, pc);
    if g == s.pools[from][0] {
      assert Held(pc)[|Held(pc)| - 1] == g;
    } else if s.at[g] == from {
      assert s.pools[from] == [s.pools[from][0]] + s'.pools[from];
    }
  }

  lemma TakeKeeps(s: State, w: Wid, from: Place, pc: PC)
    requires PlacesInv(s) && w in s.workers && from in s.pools && s.pools[from] != []
    requires Held(pc) == Held(s.workers[w]) + [s.pools[from][0]]
    ensures PlacesInv(Go(Take(s, w, from), w, pc))
  {
    var s' := Go(Take(s, w, from), w, pc);
    forall pl | pl in s'.pools ensures PoolOk(s', pl) { TakePool(s, w, from, pc, pl); }
    forall u | u in s'.workers ensures HandsOk(s', u) { TakeHands(s, w, from, pc, u); }
    forall g | 0 <= g < |s'.at| ensures PlaceOk(s', g) { TakePlace(s, w, from, pc, g); }
  }

  // Pushing a fiber from a worker's hands.

  lemma GivePool(s: State, w: Wid, f: Fid, to: Place, pc: PC, pl: Place)
    requires f < |s.at| && s.at[f] == OnWorker(w) && to in s.pools && !to.OnWorker?
    requires pl in s.pools && PoolOk(s, pl)
    ensures PoolOk(Go(Give(s, f, to), w, pc), pl)
  {
  }

  lemma HandsShrink(at: seq<Place>, h: seq<Fid>, f: Fid, w: Wid, to: Place)
    requires InHands(at, h + [f], w)
    ensures f < |at| && at[f] == OnWorker(w) && InHands(at[f := to], h, w)
  {
    var full := h + [f];
    assert full[|h|] == f;
    assert forall k :: 0 <= k < |h| ==> h[k] == full[k];
  }

  lemma GiveHands(s: State, w: Wid, f: Fid, to: Place, pc: PC, u: Wid)
    requires to in s.pools && w in s.workers && Held(s.workers[w]) == Held(pc) + [f]
    requires HandsOk(s, w) && u in s.workers && HandsOk(s, u)
    ensures HandsOk(Go(Give(s, f, to), w, pc), u)
  {
    HandsShrink(s.at, Held(pc), f, w, to);
    if u != w { assert InHands(s.at[f := to], Held(s.workers[u]), u); }
  }

  lemma GivePlace(s: State, w: Wid, f: Fid, to: Place, pc: PC, g: Fid)
    requires to in s.pools && !to.OnWorker? && w in s.workers && Held(s.workers[w]) == Held(pc) + [f]
    requires g < |s.at| && PlaceOk(s, g)
    ensures PlaceOk(Go(Give(s, f, to), w, pc), g)
  {
  }

  lemma GiveKeeps(s: State, w: Wid, f: Fid, to: Place, pc: PC)
    requires PlacesInv(s) && w in s.workers && to in s.pools && !to.OnWorker?
    requires Held(s.workers[w]) == Held(pc) + [f]
    ensures PlacesInv(Go(Give(s, f, to), w, pc))
  {
    var s' := Go(Give(s, f, to), w, pc);
    var h := Held(s.workers[w]);
    assert HandsOk(s, w) && h[|h| - 1] == f;
    forall pl | pl in s'.pools ensures PoolOk(s', pl) { GivePool(s, w, f, to, pc, pl); }
    forall u | u in s'.workers ensures HandsOk(s', u) { GiveHands(s, w, f, to, pc, u); }
    forall g | 0 <= g < |s'.at| ensures PlaceOk(s', g) { GivePlace(s, w, f, to, pc, g); }
  }

  // Moving a waiter from its counter to its queue.

  lemma MovePool(s: State, w: Wid, from: Place, to: Place, pl: Place)
    requires from in s.pools && s.pools[from] != [] && to in s.pools && from != to && !to.OnWorker?
    requires PoolOk(s, from) && pl in s.pools && PoolOk(s, pl)
    ensures PoolOk(Give(Take(s, w, from), s.pools[from][0], to), pl)
  {
  }

  lemma MovePlace(s: State, w: Wid, from: Place, to: Place, g: Fid)
    requires from in s.pools && s.pools[from] != [] && to in s.pools && from != to && !to.OnWorker?
    requires g < |s.at| && PlaceOk(s, g)
    ensures PlaceOk(Give(Take(s, w, from), s.pools[from][0], to), g)
  {
    var s' := Give(Take(s, w, from), s.pools[from][0], to);
    if g != s.pools[from][0] && s.at[g] == from {
      assert s.pools[from] == [s.pools[from][0]] + s'.pools[from];
    }
  }

  lemma MoveKeeps(s: State, w: Wid, from: Place, to: Place)
    requires PlacesInv(s) && from in s.pools && s.pools[from] != [] && to in s.pools && from != to
    requires !to.OnWorker?
    ensures PlacesInv(Give(Take(s, w, from), s.pools[from][0], to))
  {
    var s' := Give(Take(s, w, from), s.pools[from][0], to);
    assert PoolOk(s, from);
    forall pl | pl in s'.pools ensures PoolOk(s', pl) { MovePool(s, w, from, to, pl); }
    forall u | u in s'.workers ensures HandsOk(s', u) { assert HandsOk(s, u); }
    forall g | 0 <= g < |s'.at| ensures PlaceOk(s', g) { MovePlace(s, w, from, to, g); }
  }

  lemma StayKeeps(s: State, w: Wid, pc: PC)
    requires PlacesInv(s) && w in s.workers && Held(pc) == Held(s.workers[w])
    ensures PlacesInv(Go(s, w, pc))
  {
    var s' := Go(s, w, pc);
    forall pl | pl in s'.pools ensures PoolOk(s', pl) { assert PoolOk(s, pl); }
    forall u | u in s'.workers ensures HandsOk(s', u) { assert HandsOk(s, u); }
    forall g | 0 <= g < |s'.at| ensures PlaceOk(s', g) { assert PlaceOk(s, g); }
  }

  lemma OpenKeeps(s: State, pl: Place)
    requires PlacesInv(s) && pl !in s.pools && !pl.OnWorker?
    ensures PlacesInv(s.(pools := s.pools[pl := []]))
  {
    var s' := s.(pools := s.pools[pl := []]);
    forall p | p in s'.pools ensures PoolOk(s', p) { if p != pl { assert PoolOk(s, p); } }
    forall u | u in s'.workers ensures HandsOk(s', u) { assert HandsOk(s, u); }
    forall g | 0 <= g < |s'.at| ensures PlaceOk(s', g) { assert PlaceOk(s, g); }
  }

  function Below(size: nat): (r: set<Fid>)
    ensures |r| == size && forall g :: g in r <==> 0 <= g < size
  {
    if size == 0 then {} else Below(size - 1) + {size - 1}
  }

  function Elements(q: seq<Fid>): (r: set<Fid>)
    requires NoDup(q)
    ensures |r| == |q| && forall g :: g in r <==> g in q
  {
    if q == [] then {} else
      assert q[0] !in q[1..];
      {q[0]} + Elements(q[1..])
  }

  /** Distinct fibers of one ring, none of them f: fewer than there are fibers. */
  lemma Pigeonhole(q: seq<Fid>, f: Fid, size: nat)
    requires NoDup(q) && f < size && f !in q && forall k :: 0 <= k < |q| ==> q[k] < size
    ensures |q| < size
  {
    assert Elements(q) <= Below(size) - {f};
    SubsetSize(Elements(q), Below(size) - {f});
  }

  lemma {:induction false} SubsetSize(a: set<Fid>, b: set<Fid>)
    requires a <= b
    ensures |a| <= |b|
  {
    if a != {} {
      var x :| x in a;
      SubsetSize(a - {x}, b - {x});
    }
  }

  /** No ring is full while one of the fibers is somewhere else. */
  lemma RoomFor(s: State, f: Fid, pl: Place)
    requires PlacesInv(s) && f < |s.at| && pl in s.pools && s.at[f] != pl
    ensures HasRoom(s, pl)
  {
    assert PoolOk(s, pl);
    Pigeonhole(s.pools[pl], f, s.size);
  }

  // -------------------------------------------------------------- counters

  function LockOf(pc: PC): Option<Cid> {
    match pc
    case Decide(_, c, _) => Some(c)
    case HandOff(_, c, _) => Some(c)
    case Decrement(_, c) => Some(c)
    case Wake(_, c) => Some(c)
    case Release(_, c) => Some(c)
    case _ => None
  }

  predicate PastDecrement(pc: PC) {
    pc.Wake? || pc.Release? || pc.Recycle?
  }

  /** Assigned a job that has not been counted as finished. */
  predicate Active(s: State, f: Fid)
    requires f < |s.at|
  {
    match s.at[f]
    case Free => false
    case Retired => false
    case OnWorker(w) => w in s.workers && !PastDecrement(s.workers[w])
    case _ => true
  }

  predicate Child(s: State, f: Fid, c: Cid) {
    f < |s.at| && f < |s.fibers| && s.fibers[f].parent == Some(c) && Active(s, f)
  }

  predicate ChildOk(s: State, f: Fid, c: Cid)
    requires c < |s.counters|
  {
    f in s.counters[c].pending <==> Child(s, f, c)
  }

  predicate CounterOk(s: State, c: Cid)
    requires c < |s.counters|
  {
    var k := s.counters[c];
    && Waiting(c) in s.pools && |s.pools[Waiting(c)]| <= WAIT_FIBER_LEN
    && k.unstarted >= 0 && k.value == |k.pending| + k.unstarted
    && (k.lock.Some? ==> k.lock.value in s.workers && LockOf(s.workers[k.lock.value]) == Some(c))
    && (k.value == 0 && s.pools[Waiting(c)] != [] ==> k.lock.Some? && s.workers[k.lock.value].Wake?)
    && (k.loop == None ==> (k.failed <==> k.unstarted > 0))
    && (k.loop != None ==> !k.failed)
  }

  predicate WorkerOk(s: State, w: Wid)
    requires w in s.workers
  {
    var pc := s.workers[w];
    && pc != Panic
    && (LockOf(pc).Some? ==> LockOf(pc).value < |s.counters| && s.counters[LockOf(pc).value].lock == Some(w))
    && match pc
       case Acquire(_, c, _) => c < |s.counters|
       case HandOff(_, c, checked) =>
         && c < |s.counters| && s.counters[c].value != 0
         && (checked ==> Waiting(c) in s.pools && |s.pools[Waiting(c)]| < WAIT_FIBER_LEN)
       case Finish(f) => f < |s.fibers| && s.fibers[f].parent.Some?
       case Decrement(f, c) => f < |s.fibers| && s.fibers[f].parent == Some(c)
       case Wake(_, c) => c < |s.counters| && s.counters[c].value == 0
       case Sched(_, Some(c), jobs) =>
         c < |s.counters| && s.counters[c].loop == Some(w) && s.counters[c].unstarted == |jobs|
       case Start(_, cnt, jobs, g) =>
         && jobs != []
         && (cnt.Some? ==> cnt.value < |s.counters| && s.counters[cnt.value].loop == Some(w)
                           && s.counters[cnt.value].unstarted == |jobs| - 1)
       case _ => true
  }

  predicate KeysOk(s: State) {
    && Free in s.pools && Queued(Lo) in s.pools && Queued(Mid) in s.pools && Queued(Hi) in s.pools
    && Retired in s.pools && Lost in s.pools
  }

  ghost predicate AllCounters(s: State) {
    forall c :: 0 <= c < |s.counters| ==> CounterOk(s, c)
  }

  ghost predicate AllWorkers(s: State) {
    forall w :: w in s.workers ==> WorkerOk(s, w)
  }

  ghost predicate AllParents(s: State) {
    forall f :: 0 <= f < |s.fibers| && s.fibers[f].parent.Some? ==> s.fibers[f].parent.value < |s.counters|
  }

  ghost predicate Children(s: State, c: Cid)
    requires c < |s.counters|
  {
    forall f: nat :: ChildOk(s, f, c)
  }

  ghost predicate AllChildren(s: State) {
    forall c :: 0 <= c < |s.counters| ==> Children(s, c)
  }

  ghost predicate CountersInv(s: State) {
    && KeysOk(s)
    && (forall c: nat :: Waiting(c) in s.pools ==> c < |s.counters|)
    && AllCounters(s) && AllWorkers(s) && AllParents(s) && AllChildren(s)
  }

  lemma BeginCounter(s: State, w: Wid, s': State, c: Cid)
    requires Begin(s, w, s')
    requires w in s.workers && w in s'.workers && s'.workers[w] != Panic && WorkerOk(s, w)
    requires c < |s.counters| && CounterOk(s, c)
    ensures c < |s'.counters| && CounterOk(s', c)
  {
  }

  lemma BeginWorker(s: State, w: Wid, s': State, u: Wid)
    requires Begin(s, w, s')
    requires w in s.workers && w in s'.workers && s'.workers[w] != Panic && WorkerOk(s, w)
    requires u in s.workers && WorkerOk(s, u)
    ensures WorkerOk(s', u)
  {
  }

  lemma BeginChild(s: State, w: Wid, s': State, f: Fid, c: Cid)
    requires Begin(s, w, s')
    requires w in s.workers && w in s'.workers && s'.workers[w] != Panic && WorkerOk(s, w)
    requires HandsOk(s, w) && c < |s.counters| && ChildOk(s, f, c) && (f < |s.at| ==> PlaceOk(s, f))
    ensures c < |s'.counters| && ChildOk(s', f, c)
  {
  }

  lemma EndCounter(s: State, w: Wid, s': State, c: Cid)
    requires ScheduleEnd(s, w, s')
    requires w in s.workers && w in s'.workers && s'.workers[w] != Panic && WorkerOk(s, w)
    requires c < |s.counters| && CounterOk(s, c)
    ensures c < |s'.counters| && CounterOk(s', c)
  {
  }

  lemma EndWorker(s: State, w: Wid, s': State, u: Wid)
    requires ScheduleEnd(s, w, s')
    requires w in s.workers && w in s'.workers && s'.workers[w] != Panic && WorkerOk(s, w)
    requires u in s.workers && WorkerOk(s, u)
    ensures WorkerOk(s', u)
  {
  }

  lemma EndChild(s: State, w: Wid, s': State, f: Fid, c: Cid)
    requires ScheduleEnd(s, w, s')
    requires w in s.workers && w in s'.workers && s'.workers[w] != Panic && WorkerOk(s, w)
    requires HandsOk(s, w) && c < |s.counters| && ChildOk(s, f, c) && (f < |s.at| ==> PlaceOk(s, f))
    ensures c < |s'.counters| && ChildOk(s', f, c)
  {
  }

  lemma AssignCounter(s: State, w: Wid, s': State, c: Cid)
    requires Assign(s, w, s')
    requires w in s.workers && w in s'.workers && s'.workers[w] != Panic && WorkerOk(s, w)
    requires c < |s.counters| && CounterOk(s, c)
    requires ChildOk(s, s.pools[Free][0], c) && s.pools[Free][0] < |s.at| && s.at[s.pools[Free][0]] == Free
    ensures c < |s'.counters| && CounterOk(s', c)
  {
  }

  lemma AssignWorker(s: State, w: Wid, s': State, u: Wid)
    requires Assign(s, w, s')
    requires w in s.workers && w in s'.workers && s'.workers[w] != Panic && WorkerOk(s, w)
    requires u in s.workers && WorkerOk(s, u)
    requires HandsOk(s, u) && PoolOk(s, Free)
    ensures WorkerOk(s', u)
  {
    if Held(s.workers[u]) != [] { assert s.at[Held(s.workers[u])[0]] == OnWorker(u); }
    assert s.at[s.pools[Free][0]] == Free;
    hide PoolOk, HandsOk;
  }

  lemma AssignChild(s: State, w: Wid, s': State, f: Fid, c: Cid)
    requires Assign(s, w, s')
    requires w in s.workers && w in s'.workers && s'.workers[w] != Panic && WorkerOk(s, w)
    requires HandsOk(s, w) && c < |s.counters| && ChildOk(s, f, c) && (f < |s.at| ==> PlaceOk(s, f))
    requires PoolOk(s, Free)
    ensures c < |s'.counters| && ChildOk(s', f, c)
  {
    assert s.at[s.pools[Free][0]] == Free;
  }

  lemma QueueCounter(s: State, w: Wid, s': State, c: Cid)
    requires QueueStep(s, w, s')
    requires w in s.workers && w in s'.workers && s'.workers[w] != Panic && WorkerOk(s, w)
    requires c < |s.counters| && CounterOk(s, c)
    ensures c < |s'.counters| && CounterOk(s', c)
  {
  }

  lemma QueueWorker(s: State, w: Wid, s': State, u: Wid)
    requires QueueStep(s, w, s')
    requires w in s.workers && w in s'.workers && s'.workers[w] != Panic && WorkerOk(s, w)
    requires u in s.workers && WorkerOk(s, u)
    ensures WorkerOk(s', u)
  {
  }

  lemma QueueChild(s: State, w: Wid, s': State, f: Fid, c: Cid)
    requires QueueStep(s, w, s')
    requires w in s.workers && w in s'.workers && s'.workers[w] != Panic && WorkerOk(s, w)
    requires HandsOk(s, w) && c < |s.counters| && ChildOk(s, f, c) && (f < |s.at| ==> PlaceOk(s, f))
    requires forall p :: Queued(p) in s.pools ==> PoolOk(s, Queued(p))
    ensures c < |s'.counters| && ChildOk(s', f, c)
  {
    if EnqueueJob(s, w, s') {
      var h := Held(s.workers[w]);
      assert h[|h| - 1] == s.workers[w].g;
    } else {
      var p :| Dequeue(s, w, p, s');
      assert s.at[s.pools[Queued(p)][0]] == Queued(p);
    }
  }

  lemma CallCounter(s: State, w: Wid, s': State, c: Cid)
    requires CallStep(s, w, s')
    requires w in s.workers && w in s'.workers && s'.workers[w] != Panic && WorkerOk(s, w)
    requires c < |s.counters| && CounterOk(s, c)
    ensures c < |s'.counters| && CounterOk(s', c)
  {
  }

  lemma LockForWaitCounter(s: State, w: Wid, s': State, c: Cid)
    requires LockForWait(s, w, s')
    requires w in s.workers && w in s'.workers && s'.workers[w] != Panic && WorkerOk(s, w)
    requires c < |s.counters| && CounterOk(s, c)
    ensures c < |s'.counters| && CounterOk(s', c)
  {
  }

  lemma DecideWaitCounter(s: State, w: Wid, s': State, c: Cid)
    requires DecideWait(s, w, s')
    requires w in s.workers && w in s'.workers && s'.workers[w] != Panic && WorkerOk(s, w)
    requires c < |s.counters| && CounterOk(s, c)
    ensures c < |s'.counters| && CounterOk(s', c)
  {
  }

  lemma AddWaiterCounter(s: State, w: Wid, s': State, c: Cid)
    requires AddWaiter(s, w, s')
    requires w in s.workers && w in s'.workers && s'.workers[w] != Panic && WorkerOk(s, w)
    requires c < |s.counters| && CounterOk(s, c)
    ensures c < |s'.counters| && CounterOk(s', c)
  {
  }

  lemma WaitCounter(s: State, w: Wid, s': State, c: Cid)
    requires WaitStep(s, w, s')
    requires w in s.workers && w in s'.workers && s'.workers[w] != Panic && WorkerOk(s, w)
    requires c < |s.counters| && CounterOk(s, c)
    ensures c < |s'.counters| && CounterOk(s', c)
  {
    hide CallStep, LockForWait, DecideWait, AddWaiter;
    if CallStep(s, w, s') { CallCounter(s, w, s', c); }
    else if LockForWait(s, w, s') { LockForWaitCounter(s, w, s', c); }
    else if DecideWait(s, w, s') { DecideWaitCounter(s, w, s', c); }
    else { AddWaiterCounter(s, w, s', c); }
  }

  lemma CallWorker(s: State, w: Wid, s': State, u: Wid)
    requires CallStep(s, w, s')
    requires w in s.workers && w in s'.workers && s'.workers[w] != Panic && WorkerOk(s, w)
    requires u in s.workers && WorkerOk(s, u)
    ensures WorkerOk(s', u)
  {
  }

  lemma LockForWaitWorker(s: State, w: Wid, s': State, u: Wid)
    requires LockForWait(s, w, s')
    requires w in s.workers && w in s'.workers && s'.workers[w] != Panic && WorkerOk(s, w)
    requires u in s.workers && WorkerOk(s, u)
    ensures WorkerOk(s', u)
  {
  }

  lemma DecideWaitWorker(s: State, w: Wid, s': State, u: Wid)
    requires DecideWait(s, w, s')
    requires w in s.workers && w in s'.workers && s'.workers[w] != Panic && WorkerOk(s, w)
    requires u in s.workers && WorkerOk(s, u)
    requires s.workers[w].Decide? ==> CounterOk(s, s.workers[w].c)
    ensures WorkerOk(s', u)
  {
  }

  lemma AddWaiterWorker(s: State, w: Wid, s': State, u: Wid)
    requires AddWaiter(s, w, s')
    requires w in s.workers && w in s'.workers && s'.workers[w] != Panic && WorkerOk(s, w)
    requires u in s.workers && WorkerOk(s, u)
    ensures WorkerOk(s', u)
  {
  }

  lemma WaitWorker(s: State, w: Wid, s': State, u: Wid)
    requires WaitStep(s, w, s')
    requires w in s.workers && w in s'.workers && s'.workers[w] != Panic && WorkerOk(s, w)
    requires u in s.workers && WorkerOk(s, u)
    requires s.workers[w].Decide? ==> CounterOk(s, s.workers[w].c)
    ensures WorkerOk(s', u)
  {
    hide CallStep, LockForWait, DecideWait, AddWaiter;
    if CallStep(s, w, s') { CallWorker(s, w, s', u); }
    else if LockForWait(s, w, s') { LockForWaitWorker(s, w, s', u); }
    else if DecideWait(s, w, s') { DecideWaitWorker(s, w, s', u); }
    else { AddWaiterWorker(s, w, s', u); }
  }

  lemma AddWaiterChild(s: State, w: Wid, s': State, f: Fid, c: Cid)
    requires AddWaiter(s, w, s')
    requires w in s.workers && w in s'.workers && s'.workers[w] != Panic && WorkerOk(s, w)
    requires HandsOk(s, w) && c < |s.counters| && ChildOk(s, f, c) && (f < |s.at| ==> PlaceOk(s, f))
    ensures c < |s'.counters| && ChildOk(s', f, c)
  {
    assert Held(s.workers[w])[0] == s.workers[w].f;
  }

  lemma CallChild(s: State, w: Wid, s': State, f: Fid, c: Cid)
    requires CallStep(s, w, s')
    requires w in s.workers && w in s'.workers && s'.workers[w] != Panic && WorkerOk(s, w)
    requires HandsOk(s, w) && c < |s.counters| && ChildOk(s, f, c) && (f < |s.at| ==> PlaceOk(s, f))
    ensures c < |s'.counters| && ChildOk(s', f, c)
  {
    assert Held(s.workers[w])[0] == s.workers[w].f;
  }

  lemma LockForWaitChild(s: State, w: Wid, s': State, f: Fid, c: Cid)
    requires LockForWait(s, w, s')
    requires w in s.workers && w in s'.workers && s'.workers[w] != Panic && WorkerOk(s, w)
    requires HandsOk(s, w) && c < |s.counters| && ChildOk(s, f, c) && (f < |s.at| ==> PlaceOk(s, f))
    ensures c < |s'.counters| && ChildOk(s', f, c)
  {
    assert Held(s.workers[w])[0] == s.workers[w].f;
  }

  lemma DecideWaitChild(s: State, w: Wid, s': State, f: Fid, c: Cid)
    requires DecideWait(s, w, s')
    requires w in s.workers && w in s'.workers && s'.workers[w] != Panic && WorkerOk(s, w)
    requires HandsOk(s, w) && c < |s.counters| && ChildOk(s, f, c) && (f < |s.at| ==> PlaceOk(s, f))
    ensures c < |s'.counters| && ChildOk(s', f, c)
  {
    assert Held(s.workers[w])[0] == s.workers[w].f;
  }

  lemma WaitChild(s: State, w: Wid, s': State, f: Fid, c: Cid)
    requires WaitStep(s, w, s')
    requires w in s.workers && w in s'.workers && s'.workers[w] != Panic && WorkerOk(s, w)
    requires HandsOk(s, w) && c < |s.counters| && ChildOk(s, f, c) && (f < |s.at| ==> PlaceOk(s, f))
    ensures c < |s'.counters| && ChildOk(s', f, c)
  {
    hide CallStep, LockForWait, DecideWait, AddWaiter;
    if CallStep(s, w, s') { CallChild(s, w, s', f, c); }
    else if LockForWait(s, w, s') { LockForWaitChild(s, w, s', f, c); }
    else if DecideWait(s, w, s') { DecideWaitChild(s, w, s', f, c); }
    else { AddWaiterChild(s, w, s', f, c); }
  }

  lemma FinishCounter(s: State, w: Wid, s': State, c: Cid)
    requires Done(s, w, s')
    requires w in s.workers && w in s'.workers && s'.workers[w] != Panic && WorkerOk(s, w)
    requires c < |s.counters| && CounterOk(s, c)
    ensures c < |s'.counters| && CounterOk(s', c)
  {
  }

  lemma LockParentCounter(s: State, w: Wid, s': State, c: Cid)
    requires LockParent(s, w, s')
    requires w in s.workers && w in s'.workers && s'.workers[w] != Panic && WorkerOk(s, w)
    requires c < |s.counters| && CounterOk(s, c)
    ensures c < |s'.counters| && CounterOk(s', c)
  {
  }

  lemma DecrementCounter(s: State, w: Wid, s': State, c: Cid)
    requires DecrementStep(s, w, s')
    requires w in s.workers && w in s'.workers && s'.workers[w] != Panic && WorkerOk(s, w)
    requires c < |s.counters| && CounterOk(s, c)
    requires s.workers[w].Decrement? && s.workers[w].c == c ==> s.workers[w].f in s.counters[c].pending
    ensures c < |s'.counters| && CounterOk(s', c)
  {
  }

  lemma DoneCounter(s: State, w: Wid, s': State, c: Cid)
    requires DoneStep(s, w, s')
    requires w in s.workers && w in s'.workers && s'.workers[w] != Panic && WorkerOk(s, w)
    requires c < |s.counters| && CounterOk(s, c)
    requires s.workers[w].Decrement? && s.workers[w].c == c ==> s.workers[w].f in s.counters[c].pending
    ensures c < |s'.counters| && CounterOk(s', c)
  {
    hide Done, LockParent, DecrementStep;
    if Done(s, w, s') { FinishCounter(s, w, s', c); }
    else if LockParent(s, w, s') { LockParentCounter(s, w, s', c); }
    else { DecrementCounter(s, w, s', c); }
  }

  lemma FinishWorker(s: State, w: Wid, s': State, u: Wid)
    requires Done(s, w, s')
    requires w in s.workers && w in s'.workers && s'.workers[w] != Panic && WorkerOk(s, w)
    requires u in s.workers && WorkerOk(s, u)
    ensures WorkerOk(s', u)
  {
  }

  lemma LockParentWorker(s: State, w: Wid, s': State, u: Wid)
    requires LockParent(s, w, s')
    requires w in s.workers && w in s'.workers && s'.workers[w] != Panic && WorkerOk(s, w)
    requires u in s.workers && WorkerOk(s, u)
    ensures WorkerOk(s', u)
  {
  }

  lemma DecrementWorker(s: State, w: Wid, s': State, u: Wid)
    requires DecrementStep(s, w, s')
    requires w in s.workers && w in s'.workers && s'.workers[w] != Panic && WorkerOk(s, w)
    requires u in s.workers && WorkerOk(s, u)
    ensures WorkerOk(s', u)
  {
  }

  lemma DoneWorker(s: State, w: Wid, s': State, u: Wid)
    requires DoneStep(s, w, s')
    requires w in s.workers && w in s'.workers && s'.workers[w] != Panic && WorkerOk(s, w)
    requires u in s.workers && WorkerOk(s, u)
    ensures WorkerOk(s', u)
  {
    hide Done, LockParent, DecrementStep;
    if Done(s, w, s') { FinishWorker(s, w, s', u); }
    else if LockParent(s, w, s') { LockParentWorker(s, w, s', u); }
    else { DecrementWorker(s, w, s', u); }
  }

  lemma FinishChild(s: State, w: Wid, s': State, f: Fid, c: Cid)
    requires Done(s, w, s')
    requires w in s.workers && w in s'.workers && s'.workers[w] != Panic && WorkerOk(s, w)
    requires HandsOk(s, w) && c < |s.counters| && ChildOk(s, f, c) && (f < |s.at| ==> PlaceOk(s, f))
    ensures c < |s'.counters| && ChildOk(s', f, c)
  {
    assert Held(s.workers[w])[0] == s.workers[w].f;
  }

  lemma LockParentChild(s: State, w: Wid, s': State, f: Fid, c: Cid)
    requires LockParent(s, w, s')
    requires w in s.workers && w in s'.workers && s'.workers[w] != Panic && WorkerOk(s, w)
    requires HandsOk(s, w) && c < |s.counters| && ChildOk(s, f, c) && (f < |s.at| ==> PlaceOk(s, f))
    ensures c < |s'.counters| && ChildOk(s', f, c)
  {
    assert Held(s.workers[w])[0] == s.workers[w].f;
  }

  lemma DecrementChild(s: State, w: Wid, s': State, f: Fid, c: Cid)
    requires DecrementStep(s, w, s')
    requires w in s.workers && w in s'.workers && s'.workers[w] != Panic && WorkerOk(s, w)
    requires HandsOk(s, w) && c < |s.counters| && ChildOk(s, f, c) && (f < |s.at| ==> PlaceOk(s, f))
    ensures c < |s'.counters| && ChildOk(s', f, c)
  {
    assert Held(s.workers[w])[0] == s.workers[w].f;
  }

  lemma DoneChild(s: State, w: Wid, s': State, f: Fid, c: Cid)
    requires DoneStep(s, w, s')
    requires w in s.workers && w in s'.workers && s'.workers[w] != Panic && WorkerOk(s, w)
    requires HandsOk(s, w) && c < |s.counters| && ChildOk(s, f, c) && (f < |s.at| ==> PlaceOk(s, f))
    ensures c < |s'.counters| && ChildOk(s', f, c)
  {
    hide Done, LockParent, DecrementStep;
    if Done(s, w, s') { FinishChild(s, w, s', f, c); }
    else if LockParent(s, w, s') { LockParentChild(s, w, s', f, c); }
    else { DecrementChild(s, w, s', f, c); }
  }

  lemma WakeCounter(s: State, w: Wid, s': State, c: Cid)
    requires WakeStep(s, w, s')
    requires w in s.workers && w in s'.workers && s'.workers[w] != Panic && WorkerOk(s, w)
    requires c < |s.counters| && CounterOk(s, c)
    ensures c < |s'.counters| && CounterOk(s', c)
  {
  }

  lemma ReleaseCounter(s: State, w: Wid, s': State, c: Cid)
    requires ReleaseStep(s, w, s')
    requires w in s.workers && w in s'.workers && s'.workers[w] != Panic && WorkerOk(s, w)
    requires c < |s.counters| && CounterOk(s, c)
    ensures c < |s'.counters| && CounterOk(s', c)
  {
  }

  lemma RecycleCounter(s: State, w: Wid, s': State, c: Cid)
    requires RecycleStep(s, w, s')
    requires w in s.workers && w in s'.workers && s'.workers[w] != Panic && WorkerOk(s, w)
    requires c < |s.counters| && CounterOk(s, c)
    ensures c < |s'.counters| && CounterOk(s', c)
  {
  }

  lemma ExitCounter(s: State, w: Wid, s': State, c: Cid)
    requires ExitStep(s, w, s')
    requires w in s.workers && w in s'.workers && s'.workers[w] != Panic && WorkerOk(s, w)
    requires c < |s.counters| && CounterOk(s, c)
    ensures c < |s'.counters| && CounterOk(s', c)
  {
    hide WakeStep, ReleaseStep, RecycleStep;
    if WakeStep(s, w, s') { WakeCounter(s, w, s', c); }
    else if ReleaseStep(s, w, s') { ReleaseCounter(s, w, s', c); }
    else { RecycleCounter(s, w, s', c); }
  }

  lemma WakeWorker(s: State, w: Wid, s': State, u: Wid)
    requires WakeStep(s, w, s')
    requires w in s.workers && w in s'.workers && s'.workers[w] != Panic && WorkerOk(s, w)
    requires u in s.workers && WorkerOk(s, u)
    ensures WorkerOk(s', u)
  {
  }

  lemma ReleaseWorker(s: State, w: Wid, s': State, u: Wid)
    requires ReleaseStep(s, w, s')
    requires w in s.workers && w in s'.workers && s'.workers[w] != Panic && WorkerOk(s, w)
    requires u in s.workers && WorkerOk(s, u)
    ensures WorkerOk(s', u)
  {
  }

  lemma RecycleWorker(s: State, w: Wid, s': State, u: Wid)
    requires RecycleStep(s, w, s')
    requires w in s.workers && w in s'.workers && s'.workers[w] != Panic && WorkerOk(s, w)
    requires u in s.workers && WorkerOk(s, u)
    ensures WorkerOk(s', u)
  {
  }

  lemma ExitWorker(s: State, w: Wid, s': State, u: Wid)
    requires ExitStep(s, w, s')
    requires w in s.workers && w in s'.workers && s'.workers[w] != Panic && WorkerOk(s, w)
    requires u in s.workers && WorkerOk(s, u)
    ensures WorkerOk(s', u)
  {
    hide WakeStep, ReleaseStep, RecycleStep;
    if WakeStep(s, w, s') { WakeWorker(s, w, s', u); }
    else if ReleaseStep(s, w, s') { ReleaseWorker(s, w, s', u); }
    else { RecycleWorker(s, w, s', u); }
  }

  lemma WakeChild(s: State, w: Wid, s': State, f: Fid, c: Cid)
    requires WakeStep(s, w, s')
    requires w in s.workers && w in s'.workers && s'.workers[w] != Panic && WorkerOk(s, w)
    requires HandsOk(s, w) && c < |s.counters| && ChildOk(s, f, c) && (f < |s.at| ==> PlaceOk(s, f))
    requires s.workers[w].Wake? ==> Waiting(s.workers[w].c) in s.pools && PoolOk(s, Waiting(s.workers[w].c))
    ensures c < |s'.counters| && ChildOk(s', f, c)
  {
    assert Held(s.workers[w])[0] == s.workers[w].f;
  }

  lemma ReleaseChild(s: State, w: Wid, s': State, f: Fid, c: Cid)
    requires ReleaseStep(s, w, s')
    requires w in s.workers && w in s'.workers && s'.workers[w] != Panic && WorkerOk(s, w)
    requires HandsOk(s, w) && c < |s.counters| && ChildOk(s, f, c) && (f < |s.at| ==> PlaceOk(s, f))
    ensures c < |s'.counters| && ChildOk(s', f, c)
  {
    assert Held(s.workers[w])[0] == s.workers[w].f;
  }

  lemma RecycleChild(s: State, w: Wid, s': State, f: Fid, c: Cid)
    requires RecycleStep(s, w, s')
    requires w in s.workers && w in s'.workers && s'.workers[w] != Panic && WorkerOk(s, w)
    requires HandsOk(s, w) && c < |s.counters| && ChildOk(s, f, c) && (f < |s.at| ==> PlaceOk(s, f))
    ensures c < |s'.counters| && ChildOk(s', f, c)
  {
    assert Held(s.workers[w])[0] == s.workers[w].f;
  }

  lemma ExitChild(s: State, w: Wid, s': State, f: Fid, c: Cid)
    requires ExitStep(s, w, s')
    requires w in s.workers && w in s'.workers && s'.workers[w] != Panic && WorkerOk(s, w)
    requires HandsOk(s, w) && c < |s.counters| && ChildOk(s, f, c) && (f < |s.at| ==> PlaceOk(s, f))
    requires s.workers[w].Wake? ==> Waiting(s.workers[w].c) in s.pools && PoolOk(s, Waiting(s.workers[w].c))
    ensures c < |s'.counters| && ChildOk(s', f, c)
  {
    hide WakeStep, ReleaseStep, RecycleStep;
    if WakeStep(s, w, s') { WakeChild(s, w, s', f, c); }
    else if ReleaseStep(s, w, s') { ReleaseChild(s, w, s', f, c); }
    else { RecycleChild(s, w, s', f, c); }
  }

  ghost predicate Inv(s: State) {
    PlacesInv(s) && CountersInv(s)
  }

  lemma CounterKept(s: State, w: Wid, s': State, c: Cid)
    requires Inv(s) && Next(s, w, s') && w in s'.workers && s'.workers[w] != Panic && c < |s.counters|
    ensures c < |s'.counters| && CounterOk(s', c)
  {
    assert WorkerOk(s, w) && HandsOk(s, w) && Children(s, c);
    if Held(s.workers[w]) != [] { assert ChildOk(s, Held(s.workers[w])[0], c); }
    if s.pools[Free] != [] { assert PoolOk(s, Free) && s.pools[Free][0] < |s.at| && ChildOk(s, s.pools[Free][0], c); }
    if Begin(s, w, s') { BeginCounter(s, w, s', c); }
    else if ScheduleEnd(s, w, s') { EndCounter(s, w, s', c); }
    else if Assign(s, w, s') { AssignCounter(s, w, s', c); }
    else if QueueStep(s, w, s') { QueueCounter(s, w, s', c); }
    else if WaitStep(s, w, s') { WaitCounter(s, w, s', c); }
    else if DoneStep(s, w, s') { DoneCounter(s, w, s', c); }
    else { ExitCounter(s, w, s', c); }
  }

  lemma JobWorkerKept(s: State, w: Wid, s': State, u: Wid)
    requires Begin(s, w, s') || ScheduleEnd(s, w, s') || Assign(s, w, s') || QueueStep(s, w, s')
    requires w in s.workers && w in s'.workers && s'.workers[w] != Panic
    requires u in s.workers && WorkerOk(s, w) && WorkerOk(s, u) && HandsOk(s, u)
    requires Free in s.pools && PoolOk(s, Free)
    ensures u in s'.workers && WorkerOk(s', u)
  {
    if Begin(s, w, s') { BeginWorker(s, w, s', u); }
    else if ScheduleEnd(s, w, s') { EndWorker(s, w, s', u); }
    else if Assign(s, w, s') { AssignWorker(s, w, s', u); }
    else { QueueWorker(s, w, s', u); }
  }

  lemma WorkerKept(s: State, w: Wid, s': State, u: Wid)
    requires AllCounters(s) && Next(s, w, s') && w in s.workers && w in s'.workers && s'.workers[w] != Panic
    requires u in s.workers && WorkerOk(s, w) && WorkerOk(s, u) && HandsOk(s, u)
    requires Free in s.pools && PoolOk(s, Free)
    ensures u in s'.workers && WorkerOk(s', u)
  {
    NextMild(s, w, s');
    hide Begin, ScheduleEnd, Assign, QueueStep, DoneStep, ExitStep;
    if WaitStep(s, w, s') {
      if s.workers[w].Decide? { assert CounterOk(s, s.workers[w].c); }
      WaitWorker(s, w, s', u);
    }
    else if DoneStep(s, w, s') { DoneWorker(s, w, s', u); }
    else if ExitStep(s, w, s') { ExitWorker(s, w, s', u); }
    else { JobWorkerKept(s, w, s', u); }
  }

  lemma ChildKept(s: State, w: Wid, s': State, f: Fid, c: Cid)
    requires Inv(s) && Next(s, w, s') && w in s'.workers && s'.workers[w] != Panic && c < |s.counters|
    ensures c < |s'.counters| && ChildOk(s', f, c)
  {
    assert WorkerOk(s, w) && HandsOk(s, w) && PoolOk(s, Free) && Children(s, c) && ChildOk(s, f, c);
    if Begin(s, w, s') { BeginChild(s, w, s', f, c); }
    else if ScheduleEnd(s, w, s') { EndChild(s, w, s', f, c); }
    else if Assign(s, w, s') { AssignChild(s, w, s', f, c); }
    else if QueueStep(s, w, s') { QueueChild(s, w, s', f, c); }
    else if WaitStep(s, w, s') { WaitChild(s, w, s', f, c); }
    else if DoneStep(s, w, s') { DoneChild(s, w, s', f, c); }
    else { ExitChild(s, w, s', f, c); }
  }

  /** The places depend only on rings, lists, workers and the record of places. */
  lemma PlacesFrame(s: State, s': State)
    requires PlacesInv(s) && |s'.fibers| == s'.size == s.size
    requires s'.pools == s.pools && s'.at == s.at && s'.workers == s.workers
    ensures PlacesInv(s')
  {
    forall pl | pl in s'.pools ensures PoolOk(s', pl) { assert PoolOk(s, pl); }
    forall u | u in s'.workers ensures HandsOk(s', u) { assert HandsOk(s, u); }
    forall g | 0 <= g < |s'.at| ensures PlaceOk(s', g) { assert PlaceOk(s, g); }
  }

  lemma PlacesSchedule(s: State, w: Wid, s': State)
    requires PlacesInv(s) && Next(s, w, s') && w in s.workers
    requires forall c: nat :: Waiting(c) in s.pools ==> c < |s.counters|
    requires Begin(s, w, s') || ScheduleEnd(s, w, s')
    ensures PlacesInv(s')
  {
    StayKeeps(s, w, s'.workers[w]);
    var t := Go(s, w, s'.workers[w]);
    if s'.pools == s.pools {
      PlacesFrame(t, s');
    } else {
      OpenKeeps(t, Waiting(|s.counters|));
      PlacesFrame(t.(pools := t.pools[Waiting(|s.counters|) := []]), s');
    }
  }

  lemma PlacesQueue(s: State, w: Wid, s': State)
    requires PlacesInv(s) && w in s.workers && w in s'.workers && s'.workers[w] != Panic
    requires QueueStep(s, w, s') || Assign(s, w, s')
    ensures PlacesInv(s')
  {
    var pc, pc' := s.workers[w], s'.workers[w];
    if Assign(s, w, s') {
      TakeKeeps(s, w, Free, pc');
      PlacesFrame(Go(Take(s, w, Free), w, pc'), s');
    } else if EnqueueJob(s, w, s') {
      GiveKeeps(s, w, pc.g, Queued(pc.jobs[0]), pc');
    } else {
      var p :| Dequeue(s, w, p, s');
      TakeKeeps(s, w, Queued(p), pc');
    }
  }

  lemma PlacesWait(s: State, w: Wid, s': State)
    requires PlacesInv(s) && w in s.workers && WaitStep(s, w, s')
    ensures PlacesInv(s')
  {
    var pc, pc' := s.workers[w], s'.workers[w];
    if AddWaiter(s, w, s') {
      var to := if |s.pools[Waiting(pc.c)]| == WAIT_FIBER_LEN then Lost else Waiting(pc.c);
      GiveKeeps(s, w, pc.f, to, pc');
      PlacesFrame(Go(Give(s, pc.f, to), w, pc'), s');
    } else {
      StayKeeps(s, w, pc');
      PlacesFrame(Go(s, w, pc'), s');
    }
  }

  lemma PlacesDone(s: State, w: Wid, s': State)
    requires PlacesInv(s) && w in s.workers && DoneStep(s, w, s')
    ensures PlacesInv(s')
  {
    var pc, pc' := s.workers[w], s'.workers[w];
    if pc' == Poll {
      GiveKeeps(s, w, pc.f, Retired, pc');
    } else {
      StayKeeps(s, w, pc');
      PlacesFrame(Go(s, w, pc'), s');
    }
  }

  lemma PlacesExit(s: State, w: Wid, s': State)
    requires PlacesInv(s) && w in s.workers && ExitStep(s, w, s')
    requires w in s'.workers && s'.workers[w] != Panic
    ensures PlacesInv(s')
  {
    var pc, pc' := s.workers[w], s'.workers[w];
    if RecycleStep(s, w, s') {
      GiveKeeps(s, w, pc.f, Free, pc');
    } else if pc' == pc {
      MoveKeeps(s, w, Waiting(pc.c), Queued(s.fibers[s.pools[Waiting(pc.c)][0]].prio));
    } else {
      StayKeeps(s, w, pc');
      PlacesFrame(Go(s, w, pc'), s');
    }
  }

  lemma PlacesKept(s: State, w: Wid, s': State)
    requires Inv(s) && Next(s, w, s') && w in s'.workers && s'.workers[w] != Panic
    ensures PlacesInv(s')
  {
    if Begin(s, w, s') || ScheduleEnd(s, w, s') { PlacesSchedule(s, w, s'); }
    else if QueueStep(s, w, s') || Assign(s, w, s') { PlacesQueue(s, w, s'); }
    else if WaitStep(s, w, s') { PlacesWait(s, w, s'); }
    else if DoneStep(s, w, s') { PlacesDone(s, w, s'); }
    else { PlacesExit(s, w, s'); }
  }

  /** While a worker has a fiber in its hands, no ring is full. */
  lemma RoomWhileHolding(s: State, w: Wid, pl: Place)
    requires PlacesInv(s) && w in s.workers && Held(s.workers[w]) != [] && pl in s.pools && !pl.OnWorker?
    ensures HasRoom(s, pl)
  {
    assert HandsOk(s, w);
    RoomFor(s, Held(s.workers[w])[0], pl);
  }

  lemma FullRing(s: State, w: Wid, s': State)
    requires Next(s, w, s') && w in s.workers && s.workers[w] != Panic && w in s'.workers && s'.workers[w] == Panic
    ensures Held(s.workers[w]) != [] && exists pl :: pl in s.pools && !pl.OnWorker? && !HasRoom(s, pl)
  {
    if EnqueueJob(s, w, s') {
      assert !HasRoom(s, Queued(s.workers[w].jobs[0]));
    } else if RecycleStep(s, w, s') {
      assert !HasRoom(s, Free);
    } else {
      assert !HasRoom(s, Queued(s.fibers[s.pools[Waiting(s.workers[w].c)][0]].prio));
    }
  }

  /** So no push of a fiber ever finds its ring full. */
  lemma NoPanic(s: State, w: Wid, s': State)
    requires PlacesInv(s) && w in s.workers && WorkerOk(s, w) && Next(s, w, s')
    ensures w in s'.workers && s'.workers[w] != Panic
  {
    NextMild(s, w, s');
    if s'.workers[w] == Panic {
      FullRing(s, w, s');
      hide Next;
      var pl :| pl in s.pools && !pl.OnWorker? && !HasRoom(s, pl);
      RoomWhileHolding(s, w, pl);
    }
  }

  // ------------------------------------------------- what every step leaves alone

  /** Only worker w moves, counters and lists are only added, by `Begin`, and only `Assign`
      rewrites a fiber. Values go down only by a decrement. */
  predicate Mild(s: State, w: Wid, s': State) {
    && w in s.workers && w in s'.workers && s'.workers == s.workers[w := s'.workers[w]]
    && |s.counters| <= |s'.counters|
    && (s'.pools.Keys == s.pools.Keys ||
        (s'.pools.Keys == s.pools.Keys + {Waiting(|s.counters|)} && |s.counters| < |s'.counters|))
    && forall c :: 0 <= c < |s.counters| ==> Valued(s, w, s', c)
  }

  predicate Valued(s: State, w: Wid, s': State, c: Cid)
    requires w in s.workers && c < |s.counters| <= |s'.counters|
  {
    s'.counters[c].value == s.counters[c].value - (if s.workers[w].Decrement? && s.workers[w].c == c then 1 else 0)
  }

  lemma BeginMild(s: State, w: Wid, s': State)
    requires Begin(s, w, s')
    ensures Mild(s, w, s') && s'.fibers == s.fibers
  {
  }

  lemma EndMild(s: State, w: Wid, s': State)
    requires ScheduleEnd(s, w, s')
    ensures Mild(s, w, s') && |s'.counters| == |s.counters| && s'.fibers == s.fibers
  {
  }

  lemma AssignMild(s: State, w: Wid, s': State)
    requires Assign(s, w, s')
    ensures Mild(s, w, s') && |s'.counters| == |s.counters|
  {
  }

  lemma QueueMild(s: State, w: Wid, s': State)
    requires QueueStep(s, w, s')
    ensures Mild(s, w, s') && |s'.counters| == |s.counters| && s'.fibers == s.fibers
  {
  }

  lemma WaitMild(s: State, w: Wid, s': State)
    requires WaitStep(s, w, s')
    ensures Mild(s, w, s') && |s'.counters| == |s.counters| && s'.fibers == s.fibers
  {
  }

  lemma DoneMild(s: State, w: Wid, s': State)
    requires DoneStep(s, w, s')
    ensures Mild(s, w, s') && |s'.counters| == |s.counters| && s'.fibers == s.fibers
  {
  }

  lemma ExitMild(s: State, w: Wid, s': State)
    requires ExitStep(s, w, s')
    ensures Mild(s, w, s') && |s'.counters| == |s.counters| && s'.fibers == s.fibers
  {
  }

  lemma NextMild(s: State, w: Wid, s': State)
    requires Next(s, w, s')
    ensures Mild(s, w, s')
    ensures !Begin(s, w, s') ==> |s'.counters| == |s.counters|
    ensures !Assign(s, w, s') ==> s'.fibers == s.fibers
  {
    hide Begin, ScheduleEnd, Assign, QueueStep, WaitStep, DoneStep, ExitStep, Mild;
    if Begin(s, w, s') { BeginMild(s, w, s'); }
    else if ScheduleEnd(s, w, s') { EndMild(s, w, s'); }
    else if Assign(s, w, s') { AssignMild(s, w, s'); }
    else if QueueStep(s, w, s') { QueueMild(s, w, s'); }
    else if WaitStep(s, w, s') { WaitMild(s, w, s'); }
    else if DoneStep(s, w, s') { DoneMild(s, w, s'); }
    else { ExitMild(s, w, s'); }
  }

  lemma NewCounter(s: State, w: Wid, s': State, c: Cid)
    requires Inv(s) && Begin(s, w, s') && |s.counters| <= c < |s'.counters|
    ensures CounterOk(s', c) && Children(s', c)
  {
  }

  lemma AssignParents(s: State, w: Wid, s': State, f: Fid)
    requires w in s.workers && Assign(s, w, s') && WorkerOk(s, w) && AllParents(s) && f < |s'.fibers| && s'.fibers[f].parent.Some?
    ensures s'.fibers[f].parent.value < |s'.counters|
  {
  }

  lemma ParentsKept(s: State, w: Wid, s': State, f: Fid)
    requires CountersInv(s) && Next(s, w, s') && f < |s'.fibers| && s'.fibers[f].parent.Some? && w in s.workers
    ensures s'.fibers[f].parent.value < |s'.counters|
  {
    hide Next, Assign;
    NextMild(s, w, s');
    assert WorkerOk(s, w);
    if Assign(s, w, s') { AssignParents(s, w, s', f); }
  }

  lemma KeysKept(s: State, w: Wid, s': State)
    requires KeysOk(s) && (forall c: nat :: Waiting(c) in s.pools ==> c < |s.counters|) && Next(s, w, s')
    ensures KeysOk(s') && forall c: nat :: Waiting(c) in s'.pools ==> c < |s'.counters|
  {
    hide Next;
    NextMild(s, w, s');
  }

  lemma InitCounters(s: State)
    requires Init(s)
    ensures CountersInv(s)
  {
  }

  lemma InitInv(s: State)
    requires Init(s)
    ensures Inv(s)
  {
    forall f | 0 <= f < |s.at| ensures PlaceOk(s, f) { assert s.pools[Free][f] == f; }
    InitCounters(s);
    hide CountersInv;
  }

  lemma AnyCounterKept(s: State, w: Wid, s': State, c: Cid)
    requires Inv(s) && Next(s, w, s') && w in s'.workers && s'.workers[w] != Panic && c < |s'.counters|
    ensures CounterOk(s', c) && Children(s', c)
  {
    if c < |s.counters| {
      CounterKept(s, w, s', c);
      forall f: nat ensures ChildOk(s', f, c) { ChildKept(s, w, s', f, c); }
    } else {
      OnlyBeginAdds(s, w, s');
      NewCounter(s, w, s', c);
    }
  }

  lemma OnlyBeginAdds(s: State, w: Wid, s': State)
    requires Next(s, w, s') && |s.counters| < |s'.counters|
    ensures Begin(s, w, s')
  {
    hide Next, Begin;
    NextMild(s, w, s');
  }

  lemma AllCountersKept(s: State, w: Wid, s': State)
    requires Inv(s) && Next(s, w, s') && w in s'.workers && s'.workers[w] != Panic
    ensures AllCounters(s') && AllChildren(s')
  {
    forall c: nat | c < |s'.counters| ensures CounterOk(s', c) && Children(s', c) {
      AnyCounterKept(s, w, s', c);
    }
  }

  lemma AllWorkersKept(s: State, w: Wid, s': State)
    requires Inv(s) && Next(s, w, s') && w in s.workers && w in s'.workers && s'.workers[w] != Panic
    requires s'.workers.Keys == s.workers.Keys
    ensures AllWorkers(s')
  {
    assert PoolOk(s, Free);
    forall u | u in s'.workers ensures WorkerOk(s', u) {
      assert WorkerOk(s, w) && WorkerOk(s, u) && HandsOk(s, u);
      WorkerKept(s, w, s', u);
    }
  }

  lemma CountersKept(s: State, w: Wid, s': State)
    requires Inv(s) && Next(s, w, s') && w in s.workers && w in s'.workers && s'.workers[w] != Panic
    requires s'.workers.Keys == s.workers.Keys
    ensures CountersInv(s')
  {
    KeysKept(s, w, s');
    AllCountersKept(s, w, s');
    AllWorkersKept(s, w, s');
    forall f: nat | f < |s'.fibers| && s'.fibers[f].parent.Some?
      ensures s'.fibers[f].parent.value < |s'.counters| { ParentsKept(s, w, s', f); }
  }

  lemma SameWorkers(s: State, w: Wid, s': State)
    requires Next(s, w, s')
    ensures w in s.workers && s'.workers.Keys == s.workers.Keys
  {
    hide Next;
    NextMild(s, w, s');
  }

  lemma NextInv(s: State, w: Wid, s': State)
    requires Inv(s) && Next(s, w, s')
    ensures Inv(s')
  {
    SameWorkers(s, w, s');
    assert WorkerOk(s, w);
    NoPanic(s, w, s');
    PlacesKept(s, w, s');
    CountersKept(s, w, s');
  }

  lemma {:induction false} ExecutionInv(r: seq<State>, who: seq<Wid>, i: nat)
    requires Execution(r, who) && i < |r|
    ensures Inv(r[i])
  {
    hide Next, Inv;
    if i == 0 {
      InitInv(r[0]);
    } else {
      ExecutionInv(r, who, i - 1);
      NextInv(r[i - 1], who[i - 1], r[i]);
    }
  }

  // -------------------------------------------------------------- theorems

  /** Read off the data structures: fiber f is in place pl. */
  predicate Occupies(s: State, f: Fid, pl: Place) {
    match pl
    case OnWorker(w) => w in s.workers && f in Held(s.workers[w])
    case _ => pl in s.pools && f in s.pools[pl]
  }

  /** In every execution, every fiber is in exactly one place, and there exactly once. */
  lemma OnePlace(r: seq<State>, who: seq<Wid>, i: nat, f: Fid)
    requires Execution(r, who) && i < |r| && f < r[i].size
    ensures exists pl :: Occupies(r[i], f, pl)
    ensures forall pl, pl' :: Occupies(r[i], f, pl) && Occupies(r[i], f, pl') ==> pl == pl'
    ensures forall pl :: pl in r[i].pools ==> NoDup(r[i].pools[pl])
  {
    ExecutionInv(r, who, i);
    var s := r[i];
    assert PlaceOk(s, f);
    assert Occupies(s, f, s.at[f]);
    forall pl | Occupies(s, f, pl) ensures pl == s.at[f] {
      if pl.OnWorker? { assert HandsOk(s, pl.w); } else { assert PoolOk(s, pl); }
    }
    forall pl | pl in s.pools ensures NoDup(s.pools[pl]) { assert PoolOk(s, pl); }
  }

  /** No fiber is in the hands of two workers. */
  lemma NoSharedFiber(r: seq<State>, who: seq<Wid>, i: nat, w: Wid, u: Wid)
    requires Execution(r, who) && i < |r| && w in r[i].workers && u in r[i].workers && w != u
    ensures forall f :: f in Held(r[i].workers[w]) ==> f !in Held(r[i].workers[u])
  {
    ExecutionInv(r, who, i);
    hide Next;
    assert HandsOk(r[i], w) && HandsOk(r[i], u);
  }

  /** No worker ever takes the error exit: no push of a fiber finds its ring full. */
  lemma NoErrorExit(r: seq<State>, who: seq<Wid>, i: nat, w: Wid)
    requires Execution(r, who) && i < |r| && w in r[i].workers
    ensures r[i].workers[w] != Panic
  {
    ExecutionInv(r, who, i);
    hide Next;
    assert WorkerOk(r[i], w);
  }

  /** A counter is the number of its children that have not finished, plus the jobs its
      scheduling loop has still to start; after a successful loop there are none of those. */
  lemma CounterCounts(r: seq<State>, who: seq<Wid>, i: nat, c: Cid)
    requires Execution(r, who) && i < |r| && c < |r[i].counters|
    ensures var s := r[i]; var k := s.counters[c];
      && (forall f: nat :: f in k.pending <==> Child(s, f, c))
      && k.value == |k.pending| + k.unstarted
      && (k.loop == None && !k.failed ==> k.value == |k.pending|)
      && (k.failed ==> k.value > 0)
  {
    ExecutionInv(r, who, i);
    var s := r[i];
    assert CounterOk(s, c) && Children(s, c);
    forall f: nat ensures f in s.counters[c].pending <==> Child(s, f, c) { assert ChildOk(s, f, c); }
  }

  lemma LoopOwes(r: seq<State>, who: seq<Wid>, i: nat, w: Wid)
    requires Execution(r, who) && i < |r| && w in r[i].workers
    requires r[i].workers[w].Sched? && r[i].workers[w].cnt.Some?
    ensures var pc := r[i].workers[w];
      pc.cnt.value < |r[i].counters| && r[i].counters[pc.cnt.value].unstarted == |pc.jobs|
  {
    ExecutionInv(r, who, i);
    assert WorkerOk(r[i], w);
  }

  lemma ValueStep(s: State, w: Wid, s': State, c: Cid)
    requires Next(s, w, s') && w in s.workers && c < |s.counters|
    ensures c < |s'.counters|
    ensures s'.counters[c].value == s.counters[c].value - (if s.workers[w].Decrement? && s.workers[w].c == c then 1 else 0)
  {
    hide Next;
    NextMild(s, w, s');
    assert Valued(s, w, s', c);
  }

  /** One step of an execution never raises a counter. */
  lemma {:induction false} ValueDown(r: seq<State>, who: seq<Wid>, i: nat, c: Cid)
    requires Execution(r, who) && i < |who| && c < |r[i].counters|
    ensures c < |r[i + 1].counters| && r[i + 1].counters[c].value <= r[i].counters[c].value
  {
    ExecutionInv(r, who, i);
    assert Next(r[i], who[i], r[i + 1]);
    hide Next, Inv;
    ValueStep(r[i], who[i], r[i + 1], c);
  }

  lemma {:induction false} NotNegative(r: seq<State>, who: seq<Wid>, i: nat, c: Cid)
    requires Execution(r, who) && i < |r| && c < |r[i].counters|
    ensures r[i].counters[c].value >= 0
  {
    ExecutionInv(r, who, i);
    assert CounterOk(r[i], c);
  }

  /** Zero is reached at most once: a counter only goes down, one finished child at a time,
      and never below zero. */
  lemma {:induction false} ZeroIsFinal(r: seq<State>, who: seq<Wid>, i: nat, j: nat, c: Cid)
    requires Execution(r, who) && i <= j < |r| && c < |r[i].counters|
    ensures c < |r[j].counters| && 0 <= r[j].counters[c].value <= r[i].counters[c].value
    decreases j
  {
    if i < j {
      ZeroIsFinal(r, who, i, j - 1, c);
      ValueDown(r, who, j - 1, c);
    }
    hide Next, Inv;
    NotNegative(r, who, j, c);
  }

  /** Once a counter is at zero and unlocked, nobody is left on its waiter list. */
  lemma NoStrandedWaiter(r: seq<State>, who: seq<Wid>, i: nat, c: Cid)
    requires Execution(r, who) && i < |r| && c < |r[i].counters|
    requires r[i].counters[c].value == 0 && r[i].counters[c].lock == None
    ensures Waiting(c) in r[i].pools && r[i].pools[Waiting(c)] == []
  {
    ExecutionInv(r, who, i);
    assert CounterOk(r[i], c);
  }

  lemma WaitersStay(s: State, w: Wid, s': State, c: Cid)
    requires Next(s, w, s') && w in s.workers && Waiting(c) in s.pools && c < |s.counters|
    requires !(s.workers[w].Wake? && s.workers[w].c == c)
    ensures Waiting(c) in s'.pools && s.pools[Waiting(c)] <= s'.pools[Waiting(c)]
  {
  }

  lemma LeavesByWaking(s: State, w: Wid, s': State, c: Cid, f: Fid)
    requires WakeStep(s, w, s') && s.workers[w].c == c && w in s'.workers && s'.workers[w] != Panic
    requires Waiting(c) in s.pools && f in s.pools[Waiting(c)]
    requires !(Waiting(c) in s'.pools && f in s'.pools[Waiting(c)])
    ensures f < |s.fibers| && Occupies(s', f, Queued(s.fibers[f].prio))
  {
    assert s.pools[Waiting(c)] == [s.pools[Waiting(c)][0]] + s.pools[Waiting(c)][1..];
  }

  lemma OnlyWake(s: State, w: Wid, s': State)
    requires Next(s, w, s') && w in s.workers && s.workers[w].Wake?
    ensures WakeStep(s, w, s')
  {
  }

  lemma WakingFacts(s: State, w: Wid, c: Cid)
    requires Inv(s) && w in s.workers && c < |s.counters|
    ensures Waiting(c) in s.pools && s.counters[c].unstarted >= 0
    ensures s.workers[w].Wake? && s.workers[w].c == c ==> s.counters[c].value == 0
  {
    assert WorkerOk(s, w) && CounterOk(s, c);
  }

  /** A waiter leaves the list only when every child has finished, and goes straight to the
      queue of its priority. */
  lemma WokenAfterLastChild(r: seq<State>, who: seq<Wid>, i: nat, c: Cid, f: Fid)
    requires Execution(r, who) && i < |who| && c < |r[i].counters|
    requires Occupies(r[i], f, Waiting(c)) && !Occupies(r[i + 1], f, Waiting(c))
    ensures f < |r[i].fibers| && Occupies(r[i + 1], f, Queued(r[i].fibers[f].prio))
    ensures r[i].counters[c].value == 0 && forall g: nat :: !Child(r[i], g, c)
  {
    hide Next, WakeStep, Inv;
    ExecutionInv(r, who, i);
    ExecutionInv(r, who, i + 1);
    var s, w, s' := r[i], who[i], r[i + 1];
    assert Next(s, w, s');
    SameWorkers(s, w, s');
    WakingFacts(s, w, c);
    NoErrorExit(r, who, i + 1, w);
    if !(s.workers[w].Wake? && s.workers[w].c == c) { WaitersStay(s, w, s', c); }
    OnlyWake(s, w, s');
    LeavesByWaking(s, w, s', c, f);
    CounterCounts(r, who, i, c);
    assert s.counters[c].pending == {};
  }

  /** Worker w is about to record a waiter on a full list. */
  predicate Overflows(s: State, w: Wid) {
    && w in s.workers && s.workers[w].HandOff?
    && Waiting(s.workers[w].c) in s.pools && |s.pools[Waiting(s.workers[w].c)]| == WAIT_FIBER_LEN
  }

  lemma LostStep(s: State, w: Wid, s': State)
    requires Next(s, w, s') && w in s.workers && WorkerOk(s, w) && Lost in s.pools && Lost in s'.pools
    ensures s'.pools[Lost] != s.pools[Lost] <==> Overflows(s, w)
    ensures Overflows(s, w) ==> !s.workers[w].checked
  {
    if Overflows(s, w) { assert |s'.pools[Lost]| == |s.pools[Lost]| + 1; }
  }

  /** A step loses a fiber if and only if it records a waiter on a full list, and then the
      wait was the unchecked form. */
  lemma LostOnlyByOverflow(r: seq<State>, who: seq<Wid>, i: nat)
    requires Execution(r, who) && i < |who|
    ensures Lost in r[i].pools && Lost in r[i + 1].pools
    ensures r[i + 1].pools[Lost] != r[i].pools[Lost] <==> Overflows(r[i], who[i])
    ensures Overflows(r[i], who[i]) ==> !r[i].workers[who[i]].checked
  {
    ExecutionInv(r, who, i);
    ExecutionInv(r, who, i + 1);
    assert Next(r[i], who[i], r[i + 1]);
    SameWorkers(r[i], who[i], r[i + 1]);
    assert WorkerOk(r[i], who[i]);
    LostStep(r[i], who[i], r[i + 1]);
  }
}
