/** Whole executions of the fiber scheduler: a waiter is re-enqueued exactly once, and a fiber
    really can be lost. */
module SchedulerRuns {
  import opened Wrappers
  import opened Scheduler

  // ------------------------------------------------------------ woken exactly once

  /** Nobody joins the waiters of a counter at zero. */
  lemma NoNewWaiter(s: State, w: Wid, s': State, c: Cid, f: Fid)
    requires Next(s, w, s') && w in s.workers && WorkerOk(s, w)
    requires c < |s.counters| && s.counters[c].value == 0 && Waiting(c) in s.pools && f !in s.pools[Waiting(c)]
    ensures Waiting(c) in s'.pools && f !in s'.pools[Waiting(c)]
  {
  }

  lemma {:induction false} StaysOut(r: seq<State>, who: seq<Wid>, i: nat, j: nat, c: Cid, f: Fid)
    requires Execution(r, who) && i <= j < |r| && c < |r[i].counters|
    requires r[i].counters[c].value == 0 && !Occupies(r[i], f, Waiting(c))
    ensures c < |r[j].counters| && !Occupies(r[j], f, Waiting(c))
    decreases j
  {
    ZeroIsFinal(r, who, i, j, c);
    if i < j {
      StaysOut(r, who, i, j - 1, c, f);
      ZeroIsFinal(r, who, i, j - 1, c);
      OutStep(r, who, j - 1, c, f);
    }
  }

  lemma {:induction false} OutStep(r: seq<State>, who: seq<Wid>, i: nat, c: Cid, f: Fid)
    requires Execution(r, who) && i < |who| && c < |r[i].counters|
    requires r[i].counters[c].value == 0 && !Occupies(r[i], f, Waiting(c))
    ensures !Occupies(r[i + 1], f, Waiting(c))
  {
    ExecutionInv(r, who, i);
    assert Next(r[i], who[i], r[i + 1]);
    hide Next;
    SameWorkers(r[i], who[i], r[i + 1]);
    assert WorkerOk(r[i], who[i]) && CounterOk(r[i], c);
    NoNewWaiter(r[i], who[i], r[i + 1], c, f);
  }

  /** Step k takes f off the waiters of c. */
  predicate Leaves(r: seq<State>, k: nat, f: Fid, c: Cid)
    requires k + 1 < |r|
  {
    Occupies(r[k], f, Waiting(c)) && !Occupies(r[k + 1], f, Waiting(c))
  }

  lemma {:induction false} LeavesSomewhere(r: seq<State>, i: nat, j: nat, f: Fid, c: Cid) returns (k: nat)
    requires i <= j < |r| && Occupies(r[i], f, Waiting(c)) && !Occupies(r[j], f, Waiting(c))
    ensures i <= k < j && Leaves(r, k, f, c)
    decreases j - i
  {
    hide Occupies;
    if Occupies(r[i + 1], f, Waiting(c)) { k := LeavesSomewhere(r, i + 1, j, f, c); } else { k := i; }
  }

  /** Between being recorded and any later state in which the counter is at zero and unlocked, a
      waiter leaves the list at exactly one step, for the queue of its priority, and never comes
      back to it. */
  lemma {:induction false} WokenExactlyOnce(r: seq<State>, who: seq<Wid>, i: nat, j: nat, f: Fid, c: Cid) returns (k: nat)
    requires Execution(r, who) && i <= j < |r| && Occupies(r[i], f, Waiting(c)) && c < |r[i].counters|
    requires c < |r[j].counters| && r[j].counters[c].value == 0 && r[j].counters[c].lock == None
    ensures i <= k < j && Leaves(r, k, f, c)
    ensures f < |r[k].fibers| && Occupies(r[k + 1], f, Queued(r[k].fibers[f].prio))
    ensures forall m :: i <= m < j && Leaves(r, m, f, c) ==> m == k
    ensures forall m :: k < m < |r| ==> !Occupies(r[m], f, Waiting(c))
  {
    hide Next, Inv;
    NoStrandedWaiter(r, who, j, c);
    k := LeavesSomewhere(r, i, j, f, c);
    Grows(r, who, i, k, c);
    WokenAfterLastChild(r, who, k, c, f);
    Grows(r, who, k, k + 1, c);
    ZeroIsFinal(r, who, k, k + 1, c);
    forall m | k < m < |r| ensures !Occupies(r[m], f, Waiting(c)) { StaysOut(r, who, k + 1, m, c, f); }
    forall m | i <= m < j && Leaves(r, m, f, c) ensures m == k {
      if m < k {
        Grows(r, who, i, m, c);
        WokenAfterLastChild(r, who, m, c, f);
        ZeroIsFinal(r, who, m, m + 1, c);
        StaysOut(r, who, m + 1, k, c, f);
      }
    }
  }

  /** Counters are never removed. */
  lemma {:induction false} Grows(r: seq<State>, who: seq<Wid>, i: nat, j: nat, c: Cid)
    requires Execution(r, who) && i <= j < |r| && c < |r[i].counters|
    ensures c < |r[j].counters|
  {
    ZeroIsFinal(r, who, i, j, c);
  }

  // ------------------------------------------------------------------ a wait waits

  /** f is inside its wait on c: on worker w before it is recorded, on c's list, or dropped. */
  predicate Blocked(s: State, w: Wid, f: Fid, c: Cid, checked: bool) {
    || (w in s.workers && (s.workers[w] == Acquire(f, c, checked) || s.workers[w] == Decide(f, c, checked)
                           || s.workers[w] == HandOff(f, c, checked)))
    || Occupies(s, f, Waiting(c)) || Occupies(s, f, Lost)
  }

  /** c's list is full. */
  predicate Full(s: State, c: Cid) {
    Waiting(c) in s.pools && |s.pools[Waiting(c)]| == WAIT_FIBER_LEN
  }

  predicate Running(s: State, f: Fid) {
    exists u :: u in s.workers && s.workers[u] == Run(f)
  }

  lemma OwnStep(s: State, w: Wid, s': State, f: Fid, c: Cid, checked: bool)
    requires Next(s, w, s') && w in s.workers && c < |s.counters|
    requires s.workers[w] == Acquire(f, c, checked) || s.workers[w] == Decide(f, c, checked) || s.workers[w] == HandOff(f, c, checked)
    ensures Blocked(s', w, f, c, checked) || s.counters[c].value == 0
         || (checked && Full(s, c) && w in s'.workers && s'.workers[w] == Run(f))
  {
  }

  lemma LostStays(s: State, w: Wid, s': State, f: Fid)
    requires Next(s, w, s') && Occupies(s, f, Lost)
    ensures Occupies(s', f, Lost)
  {
  }

  /** One step of any worker: f stays in its wait unless the counter is at zero, or the wait was the
      checked one and the list is full. */
  lemma {:induction false} BlockedStep(r: seq<State>, who: seq<Wid>, i: nat, w: Wid, f: Fid, c: Cid, checked: bool)
    requires Execution(r, who) && i < |who| && c < |r[i].counters| && Blocked(r[i], w, f, c, checked)
    ensures Blocked(r[i + 1], w, f, c, checked) || r[i].counters[c].value == 0
         || (checked && Full(r[i], c) && Running(r[i + 1], f))
  {
    var s, u, s' := r[i], who[i], r[i + 1];
    assert Next(s, u, s');
    hide Next, Full;
    SameWorkers(s, u, s');
    NextMild(s, u, s');
    if Occupies(s, f, Lost) {
      LostStays(s, u, s', f);
    } else if Occupies(s, f, Waiting(c)) {
      if !Occupies(s', f, Waiting(c)) { WokenAfterLastChild(r, who, i, c, f); }
    } else if u == w {
      OwnStep(s, w, s', f, c, checked);
    }
  }

  /** Between i and m: f is still in its wait, or the counter has been at zero, or a checked wait
      found the list full and f went on. */
  lemma {:induction false} BlockedUntil(r: seq<State>, who: seq<Wid>, i: nat, m: nat, w: Wid, f: Fid, c: Cid, checked: bool)
    requires Execution(r, who) && i <= m < |r| && c < |r[i].counters| && Blocked(r[i], w, f, c, checked)
    ensures c < |r[m].counters| && forall k :: i <= k <= m ==> c < |r[k].counters|
    ensures || Blocked(r[m], w, f, c, checked)
            || (exists k :: i <= k < m && r[k].counters[c].value == 0)
            || (exists k :: i <= k < m && checked && Full(r[k], c) && Running(r[k + 1], f))
    decreases m
  {
    hide Next, Blocked, Full, Running, Init;
    forall k | i <= k <= m ensures c < |r[k].counters| { Grows(r, who, i, k, c); }
    if i < m {
      BlockedUntil(r, who, i, m - 1, w, f, c, checked);
      if Blocked(r[m - 1], w, f, c, checked) { BlockedStep(r, who, m - 1, w, f, c, checked); }
    }
  }

  /** A fiber that runs is not in a wait. */
  lemma {:induction false} RunsOrWaits(r: seq<State>, who: seq<Wid>, j: nat, w: Wid, f: Fid, c: Cid, checked: bool)
    requires Execution(r, who) && j < |r| && Running(r[j], f)
    ensures !Blocked(r[j], w, f, c, checked)
  {
    var s := r[j];
    var u :| u in s.workers && s.workers[u] == Run(f);
    RunFiber(r, who, j, u, f);
    OnePlace(r, who, j, f);
    hide Execution, Occupies, Blocked;
    if Blocked(s, w, f, c, checked) { BlockedPlace(s, w, f, c, checked); }
  }

  lemma {:induction false} BlockedPlace(s: State, w: Wid, f: Fid, c: Cid, checked: bool)
    requires Blocked(s, w, f, c, checked)
    ensures || Occupies(s, f, Waiting(c)) || Occupies(s, f, Lost)
            || (Occupies(s, f, OnWorker(w)) && w in s.workers && !s.workers[w].Run?)
  {
  }

  lemma {:induction false} RunFiber(r: seq<State>, who: seq<Wid>, j: nat, u: Wid, f: Fid)
    requires Execution(r, who) && j < |r| && u in r[j].workers && r[j].workers[u] == Run(f)
    ensures f < r[j].size && Occupies(r[j], f, OnWorker(u))
  {
    ExecutionInv(r, who, j);
    hide Next;
    assert HandsOk(r[j], u) && Held(r[j].workers[u])[0] == f;
  }

  /** A wait waits: when a fiber that called a wait on c runs again for the first time, the counter
      has been at zero since the call, or the wait was the checked one and found the list full. */
  lemma {:induction false} WaitWaits(r: seq<State>, who: seq<Wid>, i: nat, j: nat, w: Wid, f: Fid, c: Cid, checked: bool)
    requires Execution(r, who) && i < j < |r| && w in r[i].workers && r[i].workers[w] == Acquire(f, c, checked)
    requires Running(r[j], f) && forall m :: i < m < j ==> !Running(r[m], f)
    ensures forall k :: i <= k < j ==> c < |r[k].counters|
    ensures (exists k :: i <= k < j && r[k].counters[c].value == 0) || (checked && Full(r[j - 1], c))
  {
    hide Next, Init, Full, Running;
    AcquireCounter(r, who, i, w);
    BlockedUntil(r, who, i, j, w, f, c, checked);
    RunsOrWaits(r, who, j, w, f, c, checked);
  }

  lemma {:induction false} AcquireCounter(r: seq<State>, who: seq<Wid>, i: nat, w: Wid)
    requires Execution(r, who) && i < |r| && w in r[i].workers && r[i].workers[w].Acquire?
    ensures r[i].workers[w].c < |r[i].counters|
  {
    ExecutionInv(r, who, i);
    hide Next;
    assert WorkerOk(r[i], w);
  }

  // -------------------------------------------------- every fiber where its job belongs

  /** A queued fiber is in the queue of its job's priority, one about to be queued carries the job
      at hand, a retired one has no counter to report to, and one on its way back to the pool has. */
  predicate Tagged(s: State, f: Fid)
    requires f < |s.at| && f < |s.fibers|
  {
    match s.at[f]
    case Queued(p) => s.fibers[f].prio == p
    case Retired => s.fibers[f].parent == None
    case OnWorker(w) =>
      w in s.workers ==>
        (match s.workers[w]
         case Start(_, cnt, jobs, g) => g == f ==> jobs != [] && s.fibers[f] == Fiber(jobs[0], cnt)
         case Finish(g) => g == f ==> s.fibers[f].parent.Some?
         case Decrement(g, c) => g == f ==> s.fibers[f].parent.Some?
         case Wake(g, c) => g == f ==> s.fibers[f].parent.Some?
         case Release(g, c) => g == f ==> s.fibers[f].parent.Some?
         case Recycle(g) => g == f ==> s.fibers[f].parent.Some?
         case _ => true)
    case _ => true
  }

  ghost predicate AllTagged(s: State) {
    |s.at| == |s.fibers| && forall f :: 0 <= f < |s.at| ==> Tagged(s, f)
  }

  /** What the step lemmas below need to know of the stepping worker and of f. */
  predicate Placed(s: State, w: Wid, f: Fid) {
    && |s.at| == |s.fibers| && f < |s.at| && w in s.workers && HandsOk(s, w) && PlaceOk(s, f)
    && Tagged(s, f)
  }

  lemma BeginTagged(s: State, w: Wid, s': State, f: Fid)
    requires Begin(s, w, s') && Placed(s, w, f)
    ensures f < |s'.at| && f < |s'.fibers| && Tagged(s', f)
  {
  }

  lemma EndTagged(s: State, w: Wid, s': State, f: Fid)
    requires ScheduleEnd(s, w, s') && Placed(s, w, f)
    ensures f < |s'.at| && f < |s'.fibers| && Tagged(s', f)
  {
  }

  lemma AssignTagged(s: State, w: Wid, s': State, f: Fid)
    requires Assign(s, w, s') && Placed(s, w, f) && PoolOk(s, Free)
    ensures f < |s'.at| && f < |s'.fibers| && Tagged(s', f)
  {
    assert s.at[s.pools[Free][0]] == Free;
  }

  lemma QueueTagged(s: State, w: Wid, s': State, f: Fid)
    requires QueueStep(s, w, s') && Placed(s, w, f) && w in s'.workers && s'.workers[w] != Panic
    requires s.workers[w].Start? ==> s.workers[w].g < |s.at| && Placed(s, w, s.workers[w].g)
    ensures f < |s'.at| && f < |s'.fibers| && Tagged(s', f)
  {
    if s.workers[w].Start? {
      var h := Held(s.workers[w]);
      assert h[|h| - 1] == s.workers[w].g;
    }
  }

  lemma WaitTagged(s: State, w: Wid, s': State, f: Fid)
    requires WaitStep(s, w, s') && Placed(s, w, f)
    ensures f < |s'.at| && f < |s'.fibers| && Tagged(s', f)
  {
  }

  lemma FinishTagged(s: State, w: Wid, s': State, f: Fid)
    requires Done(s, w, s') && Placed(s, w, f)
    ensures f < |s'.at| && f < |s'.fibers| && Tagged(s', f)
  {
  }

  lemma LockParentTagged(s: State, w: Wid, s': State, f: Fid)
    requires LockParent(s, w, s') && Placed(s, w, f)
    ensures f < |s'.at| && f < |s'.fibers| && Tagged(s', f)
  {
  }

  lemma DecrementTagged(s: State, w: Wid, s': State, f: Fid)
    requires DecrementStep(s, w, s') && Placed(s, w, f)
    ensures f < |s'.at| && f < |s'.fibers| && Tagged(s', f)
  {
  }

  lemma DoneTagged(s: State, w: Wid, s': State, f: Fid)
    requires DoneStep(s, w, s') && Placed(s, w, f)
    ensures f < |s'.at| && f < |s'.fibers| && Tagged(s', f)
  {
    hide Done, LockParent, DecrementStep, Placed, Tagged;
    if Done(s, w, s') { FinishTagged(s, w, s', f); }
    else if LockParent(s, w, s') { LockParentTagged(s, w, s', f); }
    else { DecrementTagged(s, w, s', f); }
  }

  lemma WakeTagged(s: State, w: Wid, s': State, f: Fid)
    requires WakeStep(s, w, s') && Placed(s, w, f) && w in s'.workers && s'.workers[w] != Panic
    ensures f < |s'.at| && f < |s'.fibers| && Tagged(s', f)
  {
  }

  lemma ReleaseTagged(s: State, w: Wid, s': State, f: Fid)
    requires ReleaseStep(s, w, s') && Placed(s, w, f) && w in s'.workers && s'.workers[w] != Panic
    ensures f < |s'.at| && f < |s'.fibers| && Tagged(s', f)
  {
  }

  lemma RecycleTagged(s: State, w: Wid, s': State, f: Fid)
    requires RecycleStep(s, w, s') && Placed(s, w, f) && w in s'.workers && s'.workers[w] != Panic
    ensures f < |s'.at| && f < |s'.fibers| && Tagged(s', f)
  {
  }

  lemma ExitTagged(s: State, w: Wid, s': State, f: Fid)
    requires ExitStep(s, w, s') && Placed(s, w, f) && w in s'.workers && s'.workers[w] != Panic
    ensures f < |s'.at| && f < |s'.fibers| && Tagged(s', f)
  {
    hide WakeStep, ReleaseStep, RecycleStep, Placed, Tagged;
    if WakeStep(s, w, s') { WakeTagged(s, w, s', f); }
    else if ReleaseStep(s, w, s') { ReleaseTagged(s, w, s', f); }
    else { RecycleTagged(s, w, s', f); }
  }

  lemma {:induction false} TaggedStep(r: seq<State>, who: seq<Wid>, i: nat, f: Fid)
    requires Execution(r, who) && i < |who| && f < |r[i].at|
    requires AllTagged(r[i])
    ensures f < |r[i + 1].at| && f < |r[i + 1].fibers| && Tagged(r[i + 1], f)
  {
    var s, w, s' := r[i], who[i], r[i + 1];
    assert Next(s, w, s');
    SameWorkers(s, w, s');
    NoErrorExit(r, who, i + 1, w);
    ExecutionInv(r, who, i);
    StepFacts(s, w, f);
    hide Inv, Placed, Tagged, Begin, ScheduleEnd, Assign, QueueStep, WaitStep, DoneStep, ExitStep, Execution;
    if Begin(s, w, s') { BeginTagged(s, w, s', f); }
    else if ScheduleEnd(s, w, s') { EndTagged(s, w, s', f); }
    else if Assign(s, w, s') { AssignTagged(s, w, s', f); }
    else if QueueStep(s, w, s') { QueueTagged(s, w, s', f); }
    else if WaitStep(s, w, s') { WaitTagged(s, w, s', f); }
    else if DoneStep(s, w, s') { DoneTagged(s, w, s', f); }
    else { ExitTagged(s, w, s', f); }
  }

  lemma {:induction false} StepFacts(s: State, w: Wid, f: Fid)
    requires Inv(s) && w in s.workers && f < |s.at| && AllTagged(s)
    ensures Placed(s, w, f) && Free in s.pools && PoolOk(s, Free)
    ensures s.workers[w].Start? ==> s.workers[w].g < |s.at| && Placed(s, w, s.workers[w].g)
  {
    assert HandsOk(s, w) && PlaceOk(s, f) && PoolOk(s, Free);
    if s.workers[w].Start? {
      var h := Held(s.workers[w]);
      assert h[|h| - 1] == s.workers[w].g;
      assert PlaceOk(s, s.workers[w].g);
    }
  }

  /** In every execution every fiber is where its job belongs. */
  lemma {:induction false} WhereJobsBelong(r: seq<State>, who: seq<Wid>, i: nat)
    requires Execution(r, who) && i < |r|
    ensures AllTagged(r[i])
  {
    hide Next, Init, Inv, AllTagged;
    if i == 0 {
      InitTagged(r[0]);
    } else {
      WhereJobsBelong(r, who, i - 1);
      AllTaggedStep(r, who, i - 1);
    }
  }

  lemma {:induction false} AllTaggedStep(r: seq<State>, who: seq<Wid>, i: nat)
    requires Execution(r, who) && i < |who| && AllTagged(r[i])
    ensures AllTagged(r[i + 1])
  {
    hide Next, Init, Inv, Tagged;
    var s' := r[i + 1];
    ExecutionInv(r, who, i);
    ExecutionInv(r, who, i + 1);
    assert Next(r[i], who[i], s');
    SameFibers(r[i], who[i], s');
    forall f | 0 <= f < |s'.at| ensures Tagged(s', f) { TaggedStep(r, who, i, f); }
  }

  lemma InitTagged(s: State)
    requires Init(s)
    ensures AllTagged(s)
  {
  }

  lemma {:induction false} SameFibers(s: State, w: Wid, s': State)
    requires Next(s, w, s') && Inv(s) && Inv(s')
    ensures |s'.at| == |s.at| && |s'.at| == |s'.fibers|
  {
    NextMild(s, w, s');
  }

  /** Read off the queues: a queued fiber has the priority of its queue, and a retired one never had
      a counter to report to. */
  lemma {:induction false} QueuedByPriority(r: seq<State>, who: seq<Wid>, i: nat, f: Fid)
    requires Execution(r, who) && i < |r|
    ensures forall p :: Occupies(r[i], f, Queued(p)) ==> f < |r[i].fibers| && r[i].fibers[f].prio == p
    ensures Occupies(r[i], f, Retired) ==> f < |r[i].fibers| && r[i].fibers[f].parent == None
  {
    hide Next, Init, Inv;
    WhereJobsBelong(r, who, i);
    ExecutionInv(r, who, i);
    forall p | Occupies(r[i], f, Queued(p)) ensures f < |r[i].fibers| && r[i].fibers[f].prio == p {
      PoolPlace(r[i], f, Queued(p));
      assert Tagged(r[i], f);
    }
    if Occupies(r[i], f, Retired) {
      PoolPlace(r[i], f, Retired);
      assert Tagged(r[i], f);
    }
  }

  lemma {:induction false} PoolPlace(s: State, f: Fid, pl: Place)
    requires Inv(s) && !pl.OnWorker? && Occupies(s, f, pl)
    ensures f < |s.at| && s.at[f] == pl
  {
    assert PoolOk(s, pl);
  }

  /** A queue or list only gains at its end and loses at its front. */
  predicate Fifo(q: seq<Fid>, q': seq<Fid>) {
    q' == q || (q != [] && q' == q[1..]) || (|q'| == |q| + 1 && q' == q + [q'[|q|]])
  }

  lemma JobsFifo(s: State, w: Wid, s': State, pl: Place)
    requires Begin(s, w, s') || ScheduleEnd(s, w, s') || Assign(s, w, s') || QueueStep(s, w, s')
    requires pl in s.pools && (forall c: nat :: Waiting(c) in s.pools ==> c < |s.counters|)
    ensures pl in s'.pools && Fifo(s.pools[pl], s'.pools[pl])
  {
  }

  lemma RestFifo(s: State, w: Wid, s': State, pl: Place)
    requires WaitStep(s, w, s') || DoneStep(s, w, s') || ExitStep(s, w, s')
    requires pl in s.pools && w in s.workers
    requires s.workers[w].Wake? ==> Waiting(s.workers[w].c) in s.pools && PoolOk(s, Waiting(s.workers[w].c))
    ensures pl in s'.pools && Fifo(s.pools[pl], s'.pools[pl])
  {
  }

  /** In every execution each queue, the pool and each waiter list is first in, first out. */
  lemma {:induction false} PoolsAreFifo(r: seq<State>, who: seq<Wid>, i: nat, pl: Place)
    requires Execution(r, who) && i < |who| && pl in r[i].pools
    ensures pl in r[i + 1].pools && Fifo(r[i].pools[pl], r[i + 1].pools[pl])
  {
    var s, w, s' := r[i], who[i], r[i + 1];
    assert Next(s, w, s');
    ExecutionInv(r, who, i);
    SameWorkers(s, w, s');
    WakingPool(s, w);
    hide Execution, Fifo, Begin, ScheduleEnd, Assign, QueueStep, WaitStep, DoneStep, ExitStep;
    if WaitStep(s, w, s') || DoneStep(s, w, s') || ExitStep(s, w, s') { RestFifo(s, w, s', pl); } else { JobsFifo(s, w, s', pl); }
  }

  lemma {:induction false} WakingPool(s: State, w: Wid)
    requires Inv(s) && w in s.workers
    ensures s.workers[w].Wake? ==> Waiting(s.workers[w].c) in s.pools && PoolOk(s, Waiting(s.workers[w].c))
  {
    assert WorkerOk(s, w);
    if s.workers[w].Wake? { assert CounterOk(s, s.workers[w].c) && PoolOk(s, Waiting(s.workers[w].c)); }
  }

  lemma FreedStep(s: State, w: Wid, s': State, f: Fid)
    requires Next(s, w, s') && w in s.workers && Occupies(s', f, Free) && !Occupies(s, f, Free)
    ensures s.workers[w] == Recycle(f)
  {
  }

  /** A fiber returns to the pool only if its job had a counter to report to: one that had none is
      never used again. */
  lemma {:induction false} RecycledOnlyWithParent(r: seq<State>, who: seq<Wid>, i: nat, f: Fid)
    requires Execution(r, who) && i < |who| && Occupies(r[i + 1], f, Free) && !Occupies(r[i], f, Free)
    ensures f < |r[i].fibers| && r[i].fibers[f].parent.Some?
  {
    hide Init, Inv;
    assert Next(r[i], who[i], r[i + 1]);
    SameWorkers(r[i], who[i], r[i + 1]);
    FreedStep(r[i], who[i], r[i + 1], f);
    hide Next;
    WhereJobsBelong(r, who, i);
    ExecutionInv(r, who, i);
    InHand(r[i], who[i], f);
    assert Tagged(r[i], f);
  }

  lemma {:induction false} InHand(s: State, w: Wid, f: Fid)
    requires Inv(s) && w in s.workers && s.workers[w] == Recycle(f)
    ensures f < |s.at| && s.at[f] == OnWorker(w)
  {
    assert HandsOk(s, w) && Held(s.workers[w])[0] == f;
  }

  /** Jobs that worker w has queued in steps i to m. */
  function JobsQueued(r: seq<State>, who: seq<Wid>, w: Wid, i: nat, m: nat): nat
    requires i <= m <= |who| <= |r|
  {
    if i == m then 0
    else JobsQueued(r, who, w, i, m - 1) +
         (if who[m - 1] == w && w in r[m - 1].workers && r[m - 1].workers[w].Start? then 1 else 0)
  }

  predicate Looping(pc: PC, caller: Option<Fid>, cnt: Option<Cid>, rest: seq<Priority>) {
    pc == Sched(caller, cnt, rest) || (pc.Start? && pc == Start(caller, cnt, rest, pc.g) && rest != [])
  }

  lemma OwnLoopStep(s: State, w: Wid, s': State, caller: Option<Fid>, cnt: Option<Cid>, rest: seq<Priority>)
    requires Next(s, w, s') && w in s.workers && Looping(s.workers[w], caller, cnt, rest)
    requires w in s'.workers && (s'.workers[w].Sched? || s'.workers[w].Start?)
    ensures Looping(s'.workers[w], caller, cnt, if s.workers[w].Start? then rest[1..] else rest)
  {
    if s.workers[w].Start? { assert EnqueueJob(s, w, s'); } else { assert Assign(s, w, s') || ScheduleEnd(s, w, s'); }
  }

  lemma LoopStep(s: State, u: Wid, s': State, w: Wid, caller: Option<Fid>, cnt: Option<Cid>, rest: seq<Priority>)
    requires Next(s, u, s') && w in s.workers && Looping(s.workers[w], caller, cnt, rest)
    requires w in s'.workers && (s'.workers[w].Sched? || s'.workers[w].Start?)
    ensures if u == w && s.workers[w].Start? then Looping(s'.workers[w], caller, cnt, rest[1..]) else Looping(s'.workers[w], caller, cnt, rest)
  {
    NextMild(s, u, s');
    if u == w { OwnLoopStep(s, w, s', caller, cnt, rest); }
    hide Next;
  }

  /** The scheduling loop takes the jobs in order, skipping none: after n of them are queued, the
      rest is what follows the first n. */
  lemma {:induction false} JobsInOrder(r: seq<State>, who: seq<Wid>, i: nat, m: nat, w: Wid, caller: Option<Fid>, cnt: Option<Cid>, jobs: seq<Priority>)
    requires Execution(r, who) && i <= m < |r| && w in r[i].workers && r[i].workers[w] == Sched(caller, cnt, jobs)
    requires forall k :: i <= k <= m ==> w in r[k].workers && (r[k].workers[w].Sched? || r[k].workers[w].Start?)
    ensures JobsQueued(r, who, w, i, m) <= |jobs|
    ensures Looping(r[m].workers[w], caller, cnt, jobs[JobsQueued(r, who, w, i, m)..])
    decreases m
  {
    hide Next, Init;
    if i < m {
      JobsInOrder(r, who, i, m - 1, w, caller, cnt, jobs);
      assert Next(r[m - 1], who[m - 1], r[m]);
      LoopStep(r[m - 1], who[m - 1], r[m], w, caller, cnt, jobs[JobsQueued(r, who, w, i, m - 1)..]);
    } else {
      assert jobs[0..] == jobs;
    }
  }

  /** And the job queued at step m is a fiber of that job's priority and counter, at the end of the
      queue of that priority. */
  lemma {:induction false} JobIsQueued(r: seq<State>, who: seq<Wid>, i: nat, m: nat, w: Wid, caller: Option<Fid>, cnt: Option<Cid>, jobs: seq<Priority>)
    requires Execution(r, who) && i <= m < |who| && w in r[i].workers && r[i].workers[w] == Sched(caller, cnt, jobs)
    requires forall k :: i <= k <= m ==> w in r[k].workers && (r[k].workers[w].Sched? || r[k].workers[w].Start?)
    requires who[m] == w && r[m].workers[w].Start?
    ensures JobsQueued(r, who, w, i, m) < |jobs|
    ensures var p, g := jobs[JobsQueued(r, who, w, i, m)], r[m].workers[w].g;
      && g < |r[m].fibers| && r[m].fibers[g] == Fiber(p, cnt) && Queued(p) in r[m].pools
      && Queued(p) in r[m + 1].pools && r[m + 1].pools[Queued(p)] == r[m].pools[Queued(p)] + [g]
  {
    hide Next, Init, Inv;
    JobsInOrder(r, who, i, m, w, caller, cnt, jobs);
    WhereJobsBelong(r, who, m);
    ExecutionInv(r, who, m);
    HeldAt(r[m], w);
    assert Next(r[m], w, r[m + 1]) && Tagged(r[m], r[m].workers[w].g);
    SameWorkers(r[m], w, r[m + 1]);
    NoErrorExit(r, who, m + 1, w);
    EnqueueEffect(r[m], w, r[m + 1]);
  }

  lemma {:induction false} HeldAt(s: State, w: Wid)
    requires Inv(s) && w in s.workers && s.workers[w].Start?
    ensures s.workers[w].g < |s.at| && s.at[s.workers[w].g] == OnWorker(w)
  {
    var h := Held(s.workers[w]);
    assert HandsOk(s, w) && h[|h| - 1] == s.workers[w].g;
  }

  lemma EnqueueEffect(s: State, w: Wid, s': State)
    requires Next(s, w, s') && w in s.workers && s.workers[w].Start? && w in s'.workers && s'.workers[w] != Panic
    ensures s.workers[w].jobs != []
    ensures var p := Queued(s.workers[w].jobs[0]);
      p in s.pools && p in s'.pools && s'.pools[p] == s.pools[p] + [s.workers[w].g]
  {
  }

  // ------------------------------------------------------------- a fiber is lost

  /** An execution that has reached s. */
  ghost predicate Ends(r: seq<State>, who: seq<Wid>, s: State) {
    Execution(r, who) && r[|who|] == s
  }

  lemma {:induction false} Extend(r: seq<State>, who: seq<Wid>, s: State, s': State)
    requires Ends(r, who, s) && Next(s, 0, s')
    ensures Ends(r + [s'], who + [0], s')
  {
    hide Next, Init;
    var r', who' := r + [s'], who + [0];
    forall i {:trigger who'[i]} | 0 <= i < |who'| ensures Next(r'[i], who'[i], r'[i + 1]) {
      if i < |who| { assert Next(r[i], who[i], r[i + 1]); }
    }
  }

  /** What matters of a state in the execution below: worker 0 is at pc, so many fibers are free
      and in the two queues used, and the one counter, if it is there yet, is at 1 with so many
      waiters. */
  predicate At(s: State, pc: PC, free: nat, lo: nat, hi: nat, lock: Option<Wid>, counters: nat, waiters: nat) {
    && 0 in s.workers && s.workers[0] == pc
    && Free in s.pools && Queued(Lo) in s.pools && Queued(Hi) in s.pools && Lost in s.pools
    && |s.pools[Free]| == free && |s.pools[Queued(Lo)]| == lo && |s.pools[Queued(Hi)]| == hi
    && |s.counters| == counters && s.pools[Lost] == []
    && (counters == 1 ==>
          && Waiting(0) in s.pools && |s.pools[Waiting(0)]| == waiters
          && s.counters[0].value == 1 && s.counters[0].lock == lock)
  }

  function Start0(size: nat): State {
    State(size,
          map[Free := seq(size, i => i), Queued(Lo) := [], Queued(Mid) := [], Queued(Hi) := [], Retired := [], Lost := []],
          seq(size, _ => Fiber(Lo, None)), [], map[0 := Poll], seq(size, _ => Free))
  }

  lemma {:induction false} Started(size: nat)
    ensures Ends([Start0(size)], [], Start0(size)) && At(Start0(size), Poll, size, 0, 0, None, 0, 0)
  {
  }

  /** vgc_schedule_jobs is entered. */
  lemma {:induction false} Scheduling(r: seq<State>, who: seq<Wid>, s: State, jobs: seq<Priority>, free: nat, lo: nat, hi: nat, n: nat)
    returns (s': State)
    requires Ends(r, who, s) && At(s, Poll, free, lo, hi, None, n, 0) && n <= 1 && (n == 0 ==> |jobs| == 1)
    ensures Ends(r + [s'], who + [0], s') && s'.size == s.size
    ensures At(s', Sched(None, if n == 0 then Some(0) else None, jobs), free, lo, hi, None, 1, 0)
  {
    if n == 0 {
      s' := Go(s, 0, Sched(None, Some(0), jobs)).(
              counters := s.counters + [Counter(None, |jobs|, {}, |jobs|, Some(0), false)],
              pools := s.pools[Waiting(0) := []]);
      assert Schedule(s, 0, jobs, true, s');
    } else {
      s' := Go(s, 0, Sched(None, None, jobs));
      assert Schedule(s, 0, jobs, false, s');
    }
    assert Begin(s, 0, s');
    Extend(r, who, s, s');
  }

  /** One job: a free fiber is assigned and enqueued. */
  lemma {:induction false} Job(r: seq<State>, who: seq<Wid>, s: State, cnt: Option<Cid>, p: Priority, rest: seq<Priority>, free: nat, lo: nat, hi: nat)
    returns (r': seq<State>, who': seq<Wid>, s': State)
    requires Ends(r, who, s) && At(s, Sched(None, cnt, [p] + rest), free, lo, hi, None, 1, 0) && free > 0 && p != Mid && lo + hi < s.size
    requires cnt.Some? ==> cnt.value == 0
    ensures Ends(r', who', s') && s'.size == s.size
    ensures At(s', Sched(None, cnt, rest), free - 1, if p == Lo then lo + 1 else lo, if p == Hi then hi + 1 else hi, None, 1, 0)
  {
    hide At, Next, Ends;
    var s1 := Assigned(r, who, s, cnt, [p] + rest, free, lo, hi);
    s' := Enqueues(s1, cnt, p, rest, s.pools[Free][0], free - 1, lo, hi);
    r', who' := r + [s1], who + [0];
    Extend(r', who', s1, s');
    r', who' := r' + [s'], who' + [0];
  }

  lemma {:induction false} Assigned(r: seq<State>, who: seq<Wid>, s: State, cnt: Option<Cid>, jobs: seq<Priority>, free: nat, lo: nat, hi: nat)
    returns (s': State)
    requires Ends(r, who, s) && At(s, Sched(None, cnt, jobs), free, lo, hi, None, 1, 0) && free > 0 && jobs != []
    requires cnt.Some? ==> cnt.value == 0
    ensures Free in s.pools && s.pools[Free] != []
    ensures Ends(r + [s'], who + [0], s') && s'.size == s.size
    ensures At(s', Start(None, cnt, jobs, s.pools[Free][0]), free - 1, lo, hi, None, 1, 0)
  {
    ExecutionInv(r, who, |who|);
    assert PoolOk(s, Free);
    hide Inv, Next, Ends;
    s' := Assigns(s, cnt, jobs, free, lo, hi);
    Extend(r, who, s, s');
  }

  lemma {:induction false} Assigns(s: State, cnt: Option<Cid>, jobs: seq<Priority>, free: nat, lo: nat, hi: nat) returns (s': State)
    requires At(s, Sched(None, cnt, jobs), free, lo, hi, None, 1, 0) && free > 0 && jobs != [] && (cnt.Some? ==> cnt.value == 0)
    requires s.pools[Free][0] < |s.fibers|
    ensures Next(s, 0, s') && s'.size == s.size
    ensures At(s', Start(None, cnt, jobs, s.pools[Free][0]), free - 1, lo, hi, None, 1, 0)
  {
    var g := s.pools[Free][0];
    var s1 := Go(Take(s, 0, Free), 0, Start(None, cnt, jobs, g)).(fibers := s.fibers[g := Fiber(jobs[0], cnt)]);
    s' := s1;
    if cnt.Some? {
      var k := s.counters[0];
      s' := SetCounter(s1, 0, k.(pending := k.pending + {g}, unstarted := k.unstarted - 1));
    }
    assert Assign(s, 0, s');
  }

  lemma {:induction false} Enqueues(s: State, cnt: Option<Cid>, p: Priority, rest: seq<Priority>, g: Fid, free: nat, lo: nat, hi: nat) returns (s': State)
    requires At(s, Start(None, cnt, [p] + rest, g), free, lo, hi, None, 1, 0) && p != Mid && lo + hi < s.size
    ensures Next(s, 0, s') && s'.size == s.size
    ensures At(s', Sched(None, cnt, rest), free, if p == Lo then lo + 1 else lo, if p == Hi then hi + 1 else hi, None, 1, 0)
  {
    s' := Go(Give(s, g, Queued(p)), 0, Sched(None, cnt, rest));
    assert ([p] + rest)[1..] == rest;
    assert EnqueueJob(s, 0, s') && QueueStep(s, 0, s');
  }

  lemma {:induction false} LoopDone(r: seq<State>, who: seq<Wid>, s: State, cnt: Option<Cid>, free: nat, lo: nat, hi: nat) returns (s': State)
    requires Ends(r, who, s) && At(s, Sched(None, cnt, []), free, lo, hi, None, 1, 0) && (cnt.Some? ==> cnt.value == 0)
    ensures Ends(r + [s'], who + [0], s') && At(s', Poll, free, lo, hi, None, 1, 0) && s'.size == s.size
  {
    s' := EndLoop(Go(s, 0, Poll), cnt, false);
    assert ScheduleEnd(s, 0, s');
    Extend(r, who, s, s');
  }

  /** A fiber from the high queue runs and waits, unchecked, up to the point where the worker
      records it. */
  lemma {:induction false} Waits(r: seq<State>, who: seq<Wid>, s: State, free: nat, lo: nat, hi: nat, waiters: nat)
    returns (r': seq<State>, who': seq<Wid>, s': State)
    requires Ends(r, who, s) && At(s, Poll, free, lo, hi, None, 1, waiters) && hi > 0
    ensures Queued(Hi) in s.pools && s.pools[Queued(Hi)] != [] && Ends(r', who', s') && s'.size == s.size
    ensures At(s', HandOff(s.pools[Queued(Hi)][0], 0, false), free, lo, hi - 1, Some(0), 1, waiters)
  {
    hide At, Next, Ends;
    HighThere(s, free, lo, hi, waiters);
    var f := s.pools[Queued(Hi)][0];
    var s1 := Dequeued(s, free, lo, hi, waiters);
    Extend(r, who, s, s1);
    var s2 := Calls(s1, f, free, lo, hi - 1, waiters);
    Extend(r + [s1], who + [0], s1, s2);
    var s3 := Locks(s2, f, free, lo, hi - 1, waiters);
    Extend(r + [s1] + [s2], who + [0] + [0], s2, s3);
    s' := Decides(s3, f, free, lo, hi - 1, waiters);
    Extend(r + [s1] + [s2] + [s3], who + [0] + [0] + [0], s3, s');
    r', who' := r + [s1] + [s2] + [s3] + [s'], who + [0] + [0] + [0] + [0];
  }

  lemma {:induction false} Dequeued(s: State, free: nat, lo: nat, hi: nat, waiters: nat) returns (s': State)
    requires At(s, Poll, free, lo, hi, None, 1, waiters) && hi > 0
    ensures Next(s, 0, s') && s'.size == s.size && At(s', Run(s.pools[Queued(Hi)][0]), free, lo, hi - 1, None, 1, waiters)
  {
    s' := Go(Take(s, 0, Queued(Hi)), 0, Run(s.pools[Queued(Hi)][0]));
    assert Dequeue(s, 0, Hi, s') && QueueStep(s, 0, s');
  }

  lemma {:induction false} Calls(s: State, f: Fid, free: nat, lo: nat, hi: nat, waiters: nat) returns (s': State)
    requires At(s, Run(f), free, lo, hi, None, 1, waiters)
    ensures Next(s, 0, s') && s'.size == s.size && At(s', Acquire(f, 0, false), free, lo, hi, None, 1, waiters)
  {
    s' := Go(s, 0, Acquire(f, 0, false));
    assert CallWait(s, 0, 0, false, s') && WaitStep(s, 0, s');
  }

  lemma {:induction false} Locks(s: State, f: Fid, free: nat, lo: nat, hi: nat, waiters: nat) returns (s': State)
    requires At(s, Acquire(f, 0, false), free, lo, hi, None, 1, waiters)
    ensures Next(s, 0, s') && s'.size == s.size && At(s', Decide(f, 0, false), free, lo, hi, Some(0), 1, waiters)
  {
    s' := SetCounter(Go(s, 0, Decide(f, 0, false)), 0, s.counters[0].(lock := Some(0)));
    assert LockForWait(s, 0, s') && WaitStep(s, 0, s');
  }

  lemma {:induction false} Decides(s: State, f: Fid, free: nat, lo: nat, hi: nat, waiters: nat) returns (s': State)
    requires At(s, Decide(f, 0, false), free, lo, hi, Some(0), 1, waiters)
    ensures Next(s, 0, s') && s'.size == s.size && At(s', HandOff(f, 0, false), free, lo, hi, Some(0), 1, waiters)
  {
    s' := Go(s, 0, HandOff(f, 0, false));
    assert DecideWait(s, 0, s') && WaitStep(s, 0, s');
  }

  lemma {:induction false} Recorded(r: seq<State>, who: seq<Wid>, s: State, f: Fid, free: nat, lo: nat, hi: nat, waiters: nat) returns (s': State)
    requires Ends(r, who, s) && At(s, HandOff(f, 0, false), free, lo, hi, Some(0), 1, waiters) && waiters < WAIT_FIBER_LEN
    ensures Ends(r + [s'], who + [0], s') && At(s', Poll, free, lo, hi, None, 1, waiters + 1) && s'.size == s.size
  {
    s' := SetCounter(Go(Give(s, f, Waiting(0)), 0, Poll), 0, s.counters[0].(lock := None));
    assert AddWaiter(s, 0, s') && WaitStep(s, 0, s');
    Extend(r, who, s, s');
  }

  /** hi jobs are put in the high queue, one after the other. */
  lemma {:induction false} HighJobs(r: seq<State>, who: seq<Wid>, s: State, k: nat, free: nat, hi: nat)
    returns (r': seq<State>, who': seq<Wid>, s': State)
    requires Ends(r, who, s) && At(s, Sched(None, None, seq(k, _ => Hi)), free, 1, hi, None, 1, 0) && free >= k && 1 + hi + k <= s.size
    ensures Ends(r', who', s') && At(s', Poll, free - k, 1, hi + k, None, 1, 0) && s'.size == s.size
    decreases k
  {
    hide Ends, At;
    if k == 0 {
      assert seq(0, _ => Hi) == [];
      s' := LoopDone(r, who, s, None, free, 1, hi);
      r', who' := r + [s'], who + [0];
    } else {
      assert seq(k, _ => Hi) == [Hi] + seq(k - 1, _ => Hi);
      var r1, who1, s1 := Job(r, who, s, None, Hi, seq(k - 1, _ => Hi), free, 1, hi);
      r', who', s' := HighJobs(r1, who1, s1, k - 1, free - 1, hi + 1);
    }
  }

  /** Fibers from the high queue wait until the list is full. */
  lemma {:induction false} FillList(r: seq<State>, who: seq<Wid>, s: State, free: nat, hi: nat, waiters: nat)
    returns (r': seq<State>, who': seq<Wid>, s': State)
    requires Ends(r, who, s) && At(s, Poll, free, 1, hi, None, 1, waiters) && waiters + hi == WAIT_FIBER_LEN + 1 && hi > 0
    ensures Ends(r', who', s') && At(s', Poll, free, 1, 1, None, 1, WAIT_FIBER_LEN) && s'.size == s.size
    decreases hi
  {
    hide Ends, At;
    if hi == 1 {
      r', who', s' := r, who, s;
    } else {
      var r1, who1, s1 := Waits(r, who, s, free, 1, hi, waiters);
      var s2 := Recorded(r1, who1, s1, s.pools[Queued(Hi)][0], free, 1, hi - 1, waiters);
      r', who', s' := FillList(r1 + [s2], who1 + [0], s2, free, hi - 1, waiters + 1);
    }
  }

  lemma {:induction false} HighThere(s: State, free: nat, lo: nat, hi: nat, waiters: nat)
    requires At(s, Poll, free, lo, hi, None, 1, waiters)
    ensures Queued(Hi) in s.pools && |s.pools[Queued(Hi)]| == hi
  {
  }

  /** Recording a waiter on the full list. */
  lemma {:induction false} Dropped(r: seq<State>, who: seq<Wid>, s: State, f: Fid, free: nat, lo: nat, hi: nat) returns (s': State)
    requires Ends(r, who, s) && At(s, HandOff(f, 0, false), free, lo, hi, Some(0), 1, WAIT_FIBER_LEN)
    ensures Ends(r + [s'], who + [0], s') && s'.size == s.size
    ensures Overflows(s, 0) && Lost in s.pools && s.pools[Lost] == [] && Lost in s'.pools && s'.pools[Lost] == [f]
  {
    s' := SetCounter(Go(Give(s, f, Lost), 0, Poll), 0, s.counters[0].(lock := None));
    assert AddWaiter(s, 0, s') && WaitStep(s, 0, s');
    Extend(r, who, s, s');
  }

  /** With six fibers or more, one worker and one counter, a fiber can be lost: five of them wait
      on the counter of one job with the unchecked call, and recording the fifth drops it. */
  lemma {:induction false} FiberCanBeLost(size: nat) returns (r: seq<State>, who: seq<Wid>, s: State, s': State)
    requires size >= 6
    ensures Execution(r, who) && |who| > 0 && s == r[|who| - 1] && s' == r[|who|] && who[|who| - 1] == 0 && s'.size == size
    ensures Overflows(s, 0) && Lost in s.pools && s.pools[Lost] == [] && Lost in s'.pools && |s'.pools[Lost]| == 1
  {
    hide At, Ends;
    Started(size);
    s := Start0(size);
    r, who := [s], [];
    var s1 := Scheduling(r, who, s, [Lo], size, 0, 0, 0);
    var none: seq<Priority> := [];
    assert [Lo] + none == [Lo];
    var r2, who2, s2 := Job(r + [s1], who + [0], s1, Some(0), Lo, none, size, 0, 0);
    var s3 := LoopDone(r2, who2, s2, Some(0), size - 1, 1, 0);
    var s4 := Scheduling(r2 + [s3], who2 + [0], s3, seq(5, _ => Hi), size - 1, 1, 0, 1);
    var r5, who5, s5 := HighJobs(r2 + [s3] + [s4], who2 + [0] + [0], s4, 5, size - 1, 0);
    var r6, who6, s6 := FillList(r5, who5, s5, size - 6, 5, 0);
    var r7, who7, s7 := Waits(r6, who6, s6, size - 6, 1, 1, WAIT_FIBER_LEN);
    var s8 := Dropped(r7, who7, s7, s6.pools[Queued(Hi)][0], size - 6, 1, 0);
    LastTwo(r7, who7, s7, s8);
    r, who, s, s' := r7 + [s8], who7 + [0], s7, s8;
  }

  lemma {:induction false} LastTwo(r: seq<State>, who: seq<Wid>, s: State, s': State)
    requires Ends(r, who, s) && Ends(r + [s'], who + [0], s')
    ensures var r', who' := r + [s'], who + [0];
      Execution(r', who') && r'[|who'| - 1] == s && r'[|who'|] == s' && who'[|who'| - 1] == 0
  {
  }
}
