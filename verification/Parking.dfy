/** The hybrid spin/park protocol between `vgc_enqueue` (src/fibers/queue.c) and the worker
    loop of `vgc_scheduler_run` (src/fibers/scheduler.c), one step per shared access.
    A push is two steps, claiming a place and publishing it, because a dequeue also fails
    on a claimed but unpublished front entry. */
module Parking {
  import opened Wrappers

  type Tid = nat

  /** A queued fiber, and the thread that is enqueuing it. */
  datatype Entry = Entry(owner: Tid, published: bool)

  datatype PC =
    // enqueuing; `Busy` is everything that touches none of the state below
    | Busy
    | Claimed(queue: nat)      // has a place in the ring, about to publish it
    | Pushed                   // about to load is_waiter
    | Locking                  // saw is_waiter set, about to lock waiter_mux
    | Signal                   // holds waiter_mux, about to broadcast
    | Unlock                   // holds waiter_mux, about to unlock
    // looking for work
    | Scan(queue: nat)         // about to dequeue, without the lock
    | Lock                     // about to lock waiter_mux
    | Mark                     // holds waiter_mux, about to set is_waiter
    | Check(queue: nat)        // holds waiter_mux, about to dequeue
    | Wait                     // holds waiter_mux, about to wait on the condition
    | Parked                   // asleep
    | Woken                    // must take waiter_mux again before it goes on
    | Clear                    // holds waiter_mux and a fiber, about to reset is_waiter

  /** hi_q, mid_q and lo_q are `queues[0]`, `queues[1]` and `queues[2]`. */
  datatype State = State(
    queues: seq<seq<Entry>>, flag: bool, mutex: Option<Tid>, pcs: map<Tid, PC>, workers: set<Tid>)

  predicate Init(s: State) {
    && s.queues == [[], [], []] && !s.flag && s.mutex == None
    && s.workers != {} && s.workers <= s.pcs.Keys
    && forall t :: t in s.pcs ==> s.pcs[t] == if t in s.workers then Scan(0) else Busy
  }

  function At(s: State, t: Tid, pc: PC): State {
    s.(pcs := s.pcs[t := pc])
  }

  function Put(s: State, i: nat, q: seq<Entry>): State
    requires i < |s.queues|
  {
    s.(queues := s.queues[i := q])
  }

  /** Publishing marks the one entry the thread owns that is not yet published. */
  function Publish(q: seq<Entry>, t: Tid): (r: seq<Entry>)
    ensures |r| == |q|
    ensures forall k :: 0 <= k < |q| ==> r[k] == if q[k].owner == t then Entry(t, true) else q[k]
  {
    if q == [] then []
    else [if q[0].owner == t then Entry(t, true) else q[0]] + Publish(q[1..], t)
  }

  predicate CanPop(q: seq<Entry>) {
    q != [] && q[0].published
  }

  // ---------------------------------------------------------------- steps

  predicate Claim(s: State, t: Tid, s': State) {
    && t in s.pcs && s.pcs[t] == Busy && t in s'.pcs
    && var pc := s'.pcs[t];
       && pc.Claimed? && pc.queue < |s.queues|
       && s' == Put(At(s, t, pc), pc.queue, s.queues[pc.queue] + [Entry(t, false)])
  }

  predicate Push(s: State, t: Tid, s': State) {
    && t in s.pcs && s.pcs[t].Claimed? && s.pcs[t].queue < |s.queues|
    && var i := s.pcs[t].queue;
       s' == Put(At(s, t, Pushed), i, Publish(s.queues[i], t))
  }

  predicate LoadFlag(s: State, t: Tid, s': State) {
    && t in s.pcs && s.pcs[t] == Pushed
    && s' == At(s, t, if s.flag then Locking else Busy)
  }

  predicate TakeMutex(s: State, t: Tid, s': State) {
    && t in s.pcs && s.mutex == None
    && (s.pcs[t].Locking? || s.pcs[t].Lock? || s.pcs[t].Woken?)
    && s' == At(s, t, if s.pcs[t].Locking? then Signal else Mark).(mutex := Some(t))
  }

  predicate Broadcast(s: State, t: Tid, s': State) {
    && t in s.pcs && s.pcs[t] == Signal
    && s' == s.(pcs := map u | u in s.pcs ::
                  if u == t then Unlock else if s.pcs[u] == Parked then Woken else s.pcs[u])
  }

  predicate ReleaseMutex(s: State, t: Tid, s': State) {
    && t in s.pcs && s.pcs[t] == Unlock
    && s' == At(s, t, Busy).(mutex := None)
  }

  predicate Poll(s: State, t: Tid, s': State) {
    && t in s.workers && t in s.pcs && s.pcs[t] == Busy
    && s' == At(s, t, Scan(0))
  }

  predicate ScanStep(s: State, t: Tid, s': State) {
    && t in s.pcs && s.pcs[t].Scan? && s.pcs[t].queue < |s.queues|
    && var i := s.pcs[t].queue;
       if CanPop(s.queues[i]) then s' == Put(At(s, t, Busy), i, s.queues[i][1..])
       else s' == At(s, t, if i + 1 < |s.queues| then Scan(i + 1) else Lock)
  }

  predicate SetFlag(s: State, t: Tid, s': State) {
    && t in s.pcs && s.pcs[t] == Mark
    && s' == At(s, t, Check(0)).(flag := true)
  }

  predicate CheckStep(s: State, t: Tid, s': State) {
    && t in s.pcs && s.pcs[t].Check? && s.pcs[t].queue < |s.queues|
    && var i := s.pcs[t].queue;
       if CanPop(s.queues[i]) then s' == Put(At(s, t, Clear), i, s.queues[i][1..])
       else s' == At(s, t, if i + 1 < |s.queues| then Check(i + 1) else Wait)
  }

  predicate Park(s: State, t: Tid, s': State) {
    && t in s.pcs && s.pcs[t] == Wait
    && s' == At(s, t, Parked).(mutex := None)
  }

  /** `uv_cond_wait` may also return without a broadcast. */
  predicate Spurious(s: State, t: Tid, s': State) {
    && t in s.pcs && s.pcs[t] == Parked
    && s' == At(s, t, Woken)
  }

  predicate ClearFlag(s: State, t: Tid, s': State) {
    && t in s.pcs && s.pcs[t] == Clear
    && s' == At(s, t, Unlock).(flag := false)
  }

  /** A step inside `vgc_enqueue`, by any thread. */
  predicate EnqueueStep(s: State, t: Tid, s': State) {
    || Claim(s, t, s') || Push(s, t, s') || LoadFlag(s, t, s') || Broadcast(s, t, s')
    || ReleaseMutex(s, t, s')
  }

  /** A step of the worker up to the check loop; taking the mutex is common to both. */
  predicate LookStep(s: State, t: Tid, s': State) {
    TakeMutex(s, t, s') || Poll(s, t, s') || ScanStep(s, t, s') || SetFlag(s, t, s')
  }

  /** A step inside the check loop, or out of it. */
  predicate LoopStep(s: State, t: Tid, s': State) {
    CheckStep(s, t, s') || Park(s, t, s') || Spurious(s, t, s') || ClearFlag(s, t, s')
  }

  predicate WorkerStep(s: State, t: Tid, s': State) {
    LookStep(s, t, s') || LoopStep(s, t, s')
  }

  predicate Next(s: State, t: Tid, s': State) {
    EnqueueStep(s, t, s') || WorkerStep(s, t, s')
  }

  ghost predicate Run(r: seq<State>, who: seq<Tid>) {
    && |r| == |who| + 1 && Init(r[0])
    && forall i {:trigger who[i]} :: 0 <= i < |who| ==> Next(r[i], who[i], r[i + 1])
  }

  // ------------------------------------------------------------ invariant

  predicate Holds(pc: PC) {
    pc.Signal? || pc.Unlock? || pc.Mark? || pc.Check? || pc.Wait? || pc.Clear?
  }

  /** Awake, and certain to look at every queue again before it can sleep. */
  predicate Outside(pc: PC) {
    !pc.Check? && !pc.Wait? && !pc.Parked?
  }

  /** Between claiming a place and the end of the broadcast. */
  predicate InWindow(pc: PC) {
    pc.Claimed? || pc.Pushed? || pc.Locking? || pc.Signal?
  }

  predicate WillSee(pc: PC, i: nat) {
    Outside(pc) || (pc.Check? && pc.queue <= i)
  }

  ghost predicate SomeoneOutside(s: State) {
    exists w :: w in s.workers && w in s.pcs && Outside(s.pcs[w])
  }

  ghost predicate Covered(s: State, i: nat) {
    || (exists w :: w in s.workers && w in s.pcs && WillSee(s.pcs[w], i))
    || (exists t :: t in s.pcs && InWindow(s.pcs[t]))
  }

  predicate EntryOk(s: State, i: nat, e: Entry) {
    e.published || (e.owner in s.pcs && s.pcs[e.owner] == Claimed(i))
  }

  predicate Enqueues(pc: PC) {
    InWindow(pc) || pc.Busy? || pc.Unlock?
  }

  predicate ThreadOk(s: State, t: Tid)
    requires t in s.pcs
  {
    && (t !in s.workers ==> Enqueues(s.pcs[t]))
    && (Holds(s.pcs[t]) <==> s.mutex == Some(t))
  }

  ghost predicate MutexOk(s: State) {
    && s.workers != {} && s.workers <= s.pcs.Keys
    && forall t :: t in s.pcs ==> ThreadOk(s, t)
  }

  ghost predicate EntriesOk(s: State) {
    forall i, k :: 0 <= i < |s.queues| && 0 <= k < |s.queues[i]| ==> EntryOk(s, i, s.queues[i][k])
  }

  ghost predicate Inv(s: State) {
    && |s.queues| == 3 && MutexOk(s) && EntriesOk(s)
    && (!s.flag ==> SomeoneOutside(s))
    && forall i :: 0 <= i < 3 && s.queues[i] != [] ==> Covered(s, i)
  }

  lemma ThreadKept(s: State, t: Tid, s': State, u: Tid)
    requires EnqueueStep(s, t, s') && u in s.pcs && ThreadOk(s, t) && ThreadOk(s, u)
    ensures u in s'.pcs && ThreadOk(s', u)
  {
  }

  lemma LookKept(s: State, t: Tid, s': State, u: Tid)
    requires LookStep(s, t, s') && u in s.pcs && ThreadOk(s, t) && ThreadOk(s, u)
    ensures u in s'.pcs && ThreadOk(s', u)
  {
  }

  lemma LoopKept(s: State, t: Tid, s': State, u: Tid)
    requires LoopStep(s, t, s') && u in s.pcs && ThreadOk(s, t) && ThreadOk(s, u)
    ensures u in s'.pcs && ThreadOk(s', u)
  {
  }

  lemma SameThreads(s: State, t: Tid, s': State)
    requires Next(s, t, s')
    ensures t in s.pcs && s'.pcs.Keys == s.pcs.Keys && s'.workers == s.workers
  {
  }

  lemma MutexKept(s: State, t: Tid, s': State)
    requires MutexOk(s) && Next(s, t, s')
    ensures MutexOk(s')
  {
    SameThreads(s, t, s');
    hide EnqueueStep, LookStep, LoopStep, ThreadOk;
    forall u | u in s'.pcs ensures ThreadOk(s', u) {
      if EnqueueStep(s, t, s') { ThreadKept(s, t, s', u); }
      else if LookStep(s, t, s') { LookKept(s, t, s', u); }
      else { LoopKept(s, t, s', u); }
    }
  }

  lemma EntryKept(s: State, t: Tid, s': State, i: nat, e: Entry)
    requires Next(s, t, s') && EntryOk(s, i, e) && !(e.owner == t && s.pcs[t].Claimed?)
    ensures EntryOk(s', i, e)
  {
  }

  lemma QueueChange(s: State, t: Tid, s': State, i: nat)
    requires Next(s, t, s') && |s.queues| == 3 && i < 3
    ensures t in s.pcs && |s'.queues| == 3
    ensures var q, q' := s.queues[i], s'.queues[i];
      || q' == q
      || (s.pcs[t] == Busy && t in s'.pcs && s'.pcs[t] == Claimed(i) && q' == q + [Entry(t, false)])
      || (s.pcs[t] == Claimed(i) && q' == Publish(q, t))
      || (q != [] && !s.pcs[t].Claimed? && q' == q[1..])
  {
  }

  lemma ClaimedElsewhere(s: State, t: Tid, s': State, i: nat)
    requires Next(s, t, s') && |s.queues| == 3 && i < 3 && t in s.pcs && s.pcs[t] == Claimed(i)
    ensures s'.queues[i] == Publish(s.queues[i], t)
  {
  }

  lemma EntriesKept(s: State, t: Tid, s': State)
    requires |s.queues| == 3 && EntriesOk(s) && Next(s, t, s')
    ensures |s'.queues| == 3 && EntriesOk(s')
  {
    QueueChange(s, t, s', 0);
    forall i, k | 0 <= i < 3 && 0 <= k < |s'.queues[i]| ensures EntryOk(s', i, s'.queues[i][k]) {
      var q, q' := s.queues[i], s'.queues[i];
      QueueChange(s, t, s', i);
      if s.pcs[t] == Claimed(i) { ClaimedElsewhere(s, t, s', i); }
      hide Next, EntryOk;
      if s.pcs[t] == Claimed(i) {
        assert EntryOk(s, i, q[k]);
        if q[k].owner != t { EntryKept(s, t, s', i, q[k]); } else { Published(s', i, q'[k]); }
      } else if q != [] && q' == q[1..] {
        assert EntryOk(s, i, q[k + 1]);
        EntryKept(s, t, s', i, q[k + 1]);
      } else if k < |q| {
        assert EntryOk(s, i, q[k]) && q'[k] == q[k];
        OwnEntry(s, t, i, q[k]);
        if q[k].published { Published(s', i, q[k]); } else { EntryKept(s, t, s', i, q[k]); }
      } else {
        OwnClaim(s', t, i);
      }
    }
  }

  lemma Published(s: State, i: nat, e: Entry)
    requires e.published
    ensures EntryOk(s, i, e)
  {
  }

  lemma OwnEntry(s: State, t: Tid, i: nat, e: Entry)
    requires EntryOk(s, i, e) && t in s.pcs && s.pcs[t] != Claimed(i)
    ensures e.published || e.owner != t
  {
  }

  lemma OwnClaim(s: State, t: Tid, i: nat)
    requires t in s.pcs && s.pcs[t] == Claimed(i)
    ensures EntryOk(s, i, Entry(t, false))
  {
  }

  lemma OutsideStays(s: State, t: Tid, s': State, w: Tid)
    requires Next(s, t, s') && !s'.flag && !s.flag && w in s.pcs && Outside(s.pcs[w])
    ensures w in s'.pcs && Outside(s'.pcs[w])
  {
  }

  lemma FlagCleared(s: State, t: Tid, s': State)
    requires Next(s, t, s') && s.flag && !s'.flag
    ensures t in s.pcs && s.pcs[t] == Clear && t in s'.pcs && Outside(s'.pcs[t])
  {
  }

  lemma FlagKept(s: State, t: Tid, s': State)
    requires Inv(s) && Next(s, t, s') && !s'.flag
    ensures SomeoneOutside(s')
  {
    SameThreads(s, t, s');
    hide Next;
    if !s.flag {
      var w :| w in s.workers && w in s.pcs && Outside(s.pcs[w]);
      OutsideStays(s, t, s', w);
    } else {
      FlagCleared(s, t, s');
      assert ThreadOk(s, t);
    }
  }

  lemma WatcherStays(s: State, t: Tid, s': State, w: Tid, i: nat)
    requires Next(s, t, s') && w in s.pcs && WillSee(s.pcs[w], i) && |s.queues| == 3 && i < 3
    requires !(s.pcs[t] == Check(i) && !CanPop(s.queues[i]))
    ensures w in s'.pcs && WillSee(s'.pcs[w], i)
  {
  }

  lemma WindowStays(s: State, t: Tid, s': State, u: Tid)
    requires Next(s, t, s') && u in s.pcs && InWindow(s.pcs[u])
    requires !(s.pcs[t] == Signal) && !(s.pcs[t] == Pushed && !s.flag)
    ensures u in s'.pcs && InWindow(s'.pcs[u])
  {
  }

  /** One queue's cover survives a step: whoever stops covering it hands over to another. */
  lemma CoverKept(s: State, t: Tid, s': State, i: nat)
    requires Inv(s) && Next(s, t, s') && |s'.queues| == 3 && i < 3 && s'.queues[i] != []
    ensures Covered(s', i)
  {
    if Claim(s, t, s') {
      assert t in s'.pcs && InWindow(s'.pcs[t]);
    } else if Broadcast(s, t, s') {
      BroadcastCovers(s, t, s', i);
    } else if LoadFlag(s, t, s') && !s.flag {
      FlagKept(s, t, s');
    } else if CheckStep(s, t, s') && s.pcs[t].queue == i && !CanPop(s.queues[i]) {
      var e := s.queues[i][0];
      assert EntryOk(s, i, s.queues[i][0]);
      assert e.owner in s'.pcs && InWindow(s'.pcs[e.owner]);
    } else {
      assert s.queues[i] != [];
      CoverStays(s, t, s', i);
    }
  }

  lemma CoverStays(s: State, t: Tid, s': State, i: nat)
    requires Next(s, t, s') && |s.queues| == 3 && i < 3 && Covered(s, i)
    requires t in s.pcs && !(s.pcs[t] == Check(i) && !CanPop(s.queues[i]))
    requires !(s.pcs[t] == Signal) && !(s.pcs[t] == Pushed && !s.flag)
    ensures Covered(s', i)
  {
    SameThreads(s, t, s');
    hide Next;
    if w :| w in s.workers && w in s.pcs && WillSee(s.pcs[w], i) {
      WatcherStays(s, t, s', w, i);
    } else {
      var u :| u in s.pcs && InWindow(s.pcs[u]);
      WindowStays(s, t, s', u);
    }
  }

  /** The broadcaster holds the lock, so no worker is left inside the check loop or asleep. */
  lemma BroadcastCovers(s: State, t: Tid, s': State, i: nat)
    requires MutexOk(s) && Broadcast(s, t, s')
    ensures Covered(s', i)
  {
    var w :| w in s.workers;
    assert ThreadOk(s, w) && ThreadOk(s, t);
    assert w in s'.pcs && WillSee(s'.pcs[w], i);
  }

  lemma InitInv(s: State)
    requires Init(s)
    ensures Inv(s)
  {
    var w :| w in s.workers;
    assert w in s.pcs && Outside(s.pcs[w]);
  }

  lemma NextInv(s: State, t: Tid, s': State)
    requires Inv(s) && Next(s, t, s')
    ensures Inv(s')
  {
    MutexKept(s, t, s');
    EntriesKept(s, t, s');
    if !s'.flag { FlagKept(s, t, s'); }
    forall i | 0 <= i < 3 && s'.queues[i] != [] ensures Covered(s', i) { CoverKept(s, t, s', i); }
  }

  lemma {:induction false} RunInv(r: seq<State>, who: seq<Tid>, i: nat)
    requires Run(r, who) && i < |r|
    ensures Inv(r[i])
  {
    if i == 0 {
      InitInv(r[0]);
    } else {
      RunInv(r, who, i - 1);
      NextInv(r[i - 1], who[i - 1], r[i]);
    }
  }

  // ------------------------------------------------------------- theorems

  /** No lost wakeup: in every run, once every worker sleeps and no enqueuer is between its
      push and the end of its broadcast, all three queues are empty. */
  lemma NoLostWakeup(r: seq<State>, who: seq<Tid>, i: nat)
    requires Run(r, who) && i < |r|
    requires forall w :: w in r[i].workers ==> w in r[i].pcs && r[i].pcs[w] == Parked
    requires forall t :: t in r[i].pcs ==> !InWindow(r[i].pcs[t])
    ensures r[i].queues == [[], [], []]
  {
    RunInv(r, who, i);
  }

  /** Mutual exclusion of `waiter_mux`, and what `is_waiter == 0` means to an enqueuer that
      decides not to broadcast: some worker is awake and will scan the queues again. */
  lemma SkippedBroadcastIsSafe(r: seq<State>, who: seq<Tid>, i: nat)
    requires Run(r, who) && i < |who|
    requires LoadFlag(r[i], who[i], r[i + 1]) && r[i + 1].pcs[who[i]] == Busy
    ensures SomeoneOutside(r[i + 1])
  {
    RunInv(r, who, i);
    RunInv(r, who, i + 1);
  }
}
