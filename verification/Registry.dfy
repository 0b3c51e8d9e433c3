/** The event registry of src/event/sb_event.c, one call at a time: a name index over an array
    of events, and in each event an array of callback slots with a stack of free handles. */
module Registry {

  type Name = string
  type Callback = nat

  datatype Slot = Empty | Filled(cb: Callback)

  /** `cbs` and `freeHandles` are the allocated arrays; only their first `cur` and `freeCur`
      elements are in use. */
  datatype Event = Event(
    nomen: Name, handle: nat,
    cbs: seq<Slot>, cur: nat,
    freeHandles: seq<nat>, freeCur: nat)

  /** `sbev_init_event_entry`. */
  function NewEvent(nomen: Name, handle: nat): Event {
    Event(nomen, handle, seq(20, _ => Empty), 0, seq(20, _ => 0), 0)
  }

  // ------------------------------------------------------------ one event's slots

  function FreeStack(e: Event): seq<nat>
    requires e.freeCur <= |e.freeHandles|
  {
    e.freeHandles[..e.freeCur]
  }

  predicate NoDup(q: seq<nat>) {
    forall i, j :: 0 <= i < j < |q| ==> q[i] != q[j]
  }

  /** The stack holds distinct handles below `cur`; the slots below `cur` that hold a callback are
      exactly the others, so an unregistered callback is not there to be called any more. */
  predicate EventOk(e: Event) {
    && e.cur <= |e.cbs| && 0 < |e.cbs|
    && e.freeCur <= |e.freeHandles| && 0 < |e.freeHandles|
    && NoDup(FreeStack(e))
    && (forall i :: 0 <= i < e.freeCur ==> e.freeHandles[i] < e.cur)
    && (forall h :: 0 <= h < e.cur ==> (e.cbs[h].Filled? <==> h !in FreeStack(e)))
  }

  predicate LiveHandle(e: Event, h: nat)
    requires EventOk(e)
  {
    h < e.cur && h !in FreeStack(e)
  }

  /** The callbacks by handle, as they stand in the slot array: what an emission would call. */
  function Live(e: Event): (m: map<nat, Callback>)
    requires EventOk(e)
    ensures forall h :: h in m <==> LiveHandle(e, h)
  {
    map h: nat | 0 <= h < e.cur && e.cbs[h].Filled? :: e.cbs[h].cb
  }

  /** What the calls need in order not to leave their arrays, whatever the handles on the stack. */
  predicate Shaped(e: Event) {
    && e.cur <= |e.cbs| && 0 < |e.cbs|
    && e.freeCur <= |e.freeHandles| && 0 < |e.freeHandles|
    && forall i :: 0 <= i < e.freeCur ==> e.freeHandles[i] < |e.cbs|
  }

  /** `sbev_reg_cb` on one event: reuse the last freed handle, or take the next one. */
  function Register(e: Event, cb: Callback): (r: (Event, nat))
    requires Shaped(e)
    ensures Shaped(r.0) && r.1 < |r.0.cbs| && r.0.cbs[r.1] == Filled(cb)
    ensures r.0.nomen == e.nomen && r.0.handle == e.handle
  {
    if e.freeCur > 0 then
      var h := e.freeHandles[e.freeCur - 1];
      (e.(freeCur := e.freeCur - 1, cbs := e.cbs[h := Filled(cb)]), h)
    else
      var room := if e.cur == |e.cbs| then e.cbs + seq(|e.cbs|, _ => Empty) else e.cbs;
      (e.(cur := e.cur + 1, cbs := room[e.cur := Filled(cb)]), e.cur)
  }

  /** On consistent slots the new callback gets a handle no live one has, and the others stay. */
  lemma RegisterLive(e: Event, cb: Callback)
    requires EventOk(e)
    ensures var r := Register(e, cb); EventOk(r.0) && r.1 !in Live(e) && Live(r.0) == Live(e)[r.1 := cb]
  {
    if e.freeCur > 0 { ReuseKeeps(e, cb); }
  }

  lemma ReuseKeeps(e: Event, cb: Callback)
    requires EventOk(e) && e.freeCur > 0
    ensures var r := Register(e, cb); EventOk(r.0) && r.1 !in Live(e) && Live(r.0) == Live(e)[r.1 := cb]
  {
    var h, e' := e.freeHandles[e.freeCur - 1], Register(e, cb).0;
    assert FreeStack(e) == FreeStack(e') + [h];
    assert forall i :: 0 <= i < e.freeCur - 1 ==> FreeStack(e)[i] != FreeStack(e)[e.freeCur - 1];
    assert h !in FreeStack(e');
  }

  /** `sbev_unreg_cb` on one event, for any handle inside the callback array. */
  function Unregister(e: Event, h: nat): (r: Event)
    requires Shaped(e) && h < |e.cbs|
    ensures Shaped(r)
  {
    var room := if e.freeCur == |e.freeHandles| then e.freeHandles + seq(|e.freeHandles|, _ => 0) else e.freeHandles;
    e.(cbs := e.cbs[h := Empty], freeHandles := room[e.freeCur := h], freeCur := e.freeCur + 1)
  }

  lemma UnregisterLive(e: Event, h: nat)
    requires EventOk(e) && LiveHandle(e, h)
    ensures EventOk(Unregister(e, h)) && Live(Unregister(e, h)) == Live(e) - {h}
    ensures Unregister(e, h).cur == e.cur && Unregister(e, h).cbs == e.cbs[h := Empty]
  {
    var e' := Unregister(e, h);
    assert FreeStack(e') == FreeStack(e) + [h];
  }

  /** Unregistering keeps the slots consistent exactly when the handle is live. */
  lemma UnregisterIff(e: Event, h: nat)
    requires EventOk(e) && h < |e.cbs|
    ensures EventOk(Unregister(e, h)) <==> LiveHandle(e, h)
  {
    var e' := Unregister(e, h);
    assert FreeStack(e') == FreeStack(e) + [h];
    if LiveHandle(e, h) {
      UnregisterLive(e, h);
    } else if h < e.cur {
      var i :| 0 <= i < e.freeCur && FreeStack(e)[i] == h;
      assert FreeStack(e')[i] == FreeStack(e')[e.freeCur];
    } else {
      assert e'.freeHandles[e.freeCur] == h;
    }
  }

  // ----------------------------------------------- handles of callbacks yet to come

  /** The handle the k-th of the next registrations gets: the stack from its top, then new ones. */
  function NthHandle(e: Event, k: nat): nat
    requires e.freeCur <= |e.freeHandles|
  {
    if k < e.freeCur then e.freeHandles[e.freeCur - 1 - k] else e.cur + (k - e.freeCur)
  }

  /** One registration after the other, with the handles returned. */
  function RegisterAll(e: Event, cbs: seq<Callback>): (r: (Event, seq<nat>))
    requires Shaped(e)
    ensures Shaped(r.0)
    decreases |cbs|
  {
    if cbs == [] then (e, [])
    else
      var (e', h) := Register(e, cbs[0]);
      var (e'', hs) := RegisterAll(e', cbs[1..]);
      (e'', [h] + hs)
  }

  lemma {:induction false} HandlesAre(e: Event, cbs: seq<Callback>)
    requires Shaped(e)
    ensures |RegisterAll(e, cbs).1| == |cbs|
    ensures forall k :: 0 <= k < |cbs| ==> RegisterAll(e, cbs).1[k] == NthHandle(e, k)
    decreases |cbs|
  {
    if cbs != [] {
      var e' := Register(e, cbs[0]).0;
      HandlesAre(e', cbs[1..]);
      NextHandles(e, cbs[0]);
      hide Register, NthHandle;
      forall k | 0 <= k < |cbs| ensures RegisterAll(e, cbs).1[k] == NthHandle(e, k) {
        if k > 0 { assert RegisterAll(e, cbs).1[k] == RegisterAll(e', cbs[1..]).1[k - 1]; }
      }
    }
  }

  lemma {:induction false} NextHandles(e: Event, cb: Callback)
    requires Shaped(e)
    ensures Register(e, cb).1 == NthHandle(e, 0)
    ensures forall k: nat :: NthHandle(Register(e, cb).0, k) == NthHandle(e, k + 1)
  {
  }

  lemma {:induction false} HandlesDiffer(e: Event, j: nat, k: nat)
    requires EventOk(e) && j < k
    ensures NthHandle(e, j) != NthHandle(e, k)
  {
    if k < e.freeCur { assert FreeStack(e)[e.freeCur - 1 - k] != FreeStack(e)[e.freeCur - 1 - j]; }
  }

  /** A handle that was not live is handed out by the next registration, and again g registrations
      later, with nothing unregistered in between. */
  lemma {:induction false} DeadHandleComesTwice(e: Event, h: nat) returns (g: nat)
    requires EventOk(e) && h < |e.cbs| && !LiveHandle(e, h)
    ensures g > 0 && NthHandle(Unregister(e, h), 0) == h == NthHandle(Unregister(e, h), g)
  {
    var e' := Unregister(e, h);
    assert e'.freeHandles[e.freeCur] == h;
    if h < e.cur {
      var i :| 0 <= i < e.freeCur && FreeStack(e)[i] == h;
      assert e'.freeHandles[i] == h;
      g := e.freeCur - i;
    } else {
      g := 1 + e.freeCur + (h - e.cur);
    }
  }

  /** After h is unregistered, the registrations that follow get distinct handles if and only if
      h was live. */
  lemma {:induction false} SharedHandleIff(e: Event, h: nat)
    requires EventOk(e) && h < |e.cbs|
    ensures (forall j: nat, k: nat :: j < k ==> NthHandle(Unregister(e, h), j) != NthHandle(Unregister(e, h), k))
            <==> LiveHandle(e, h)
  {
    if LiveHandle(e, h) {
      UnregisterLive(e, h);
      forall j: nat, k: nat | j < k ensures NthHandle(Unregister(e, h), j) != NthHandle(Unregister(e, h), k) {
        HandlesDiffer(Unregister(e, h), j, k);
      }
    } else {
      var g := DeadHandleComesTwice(e, h);
    }
  }

  /** The last callback registered is in the slot of its handle. */
  lemma {:induction false} LastIsThere(e: Event, cbs: seq<Callback>)
    requires Shaped(e) && cbs != []
    ensures |RegisterAll(e, cbs).1| == |cbs|
    ensures var (e', hs) := RegisterAll(e, cbs); hs[|cbs| - 1] < |e'.cbs| && e'.cbs[hs[|cbs| - 1]] == Filled(cbs[|cbs| - 1])
    decreases |cbs|
  {
    var e1 := Register(e, cbs[0]).0;
    if |cbs| == 1 {
      assert cbs[1..] == [];
    } else {
      hide Register;
      LastIsThere(e1, cbs[1..]);
    }
  }

  /** Of g + 1 callbacks registered on e, the first and the last get h, and the last is in its slot. */
  predicate Overwrites(e: Event, h: nat, g: nat, cbs: seq<Callback>)
    requires Shaped(e) && |cbs| == g + 1
  {
    var (e', hs) := RegisterAll(e, cbs);
    |hs| == g + 1 && hs[0] == h == hs[g] && h < |e'.cbs| && e'.cbs[h] == Filled(cbs[g])
  }

  lemma {:induction false} Overwritten(e: Event, h: nat, g: nat, cbs: seq<Callback>)
    requires Shaped(e) && |cbs| == g + 1 && NthHandle(e, 0) == h == NthHandle(e, g)
    ensures Overwrites(e, h, g, cbs)
  {
    hide RegisterAll, NthHandle;
    HandlesAre(e, cbs);
    LastIsThere(e, cbs);
  }

  /** The harm: of the callbacks registered after unregistering a handle that was not live, two
      get that handle, and the later one has taken the slot of the earlier. */
  lemma {:induction false} CallbackIsOverwritten(e: Event, h: nat) returns (g: nat)
    requires EventOk(e) && h < |e.cbs| && !LiveHandle(e, h)
    ensures g > 0 && forall cbs: seq<Callback> :: |cbs| == g + 1 ==> Overwrites(Unregister(e, h), h, g, cbs)
  {
    hide Overwrites, NthHandle;
    g := DeadHandleComesTwice(e, h);
    forall cbs: seq<Callback> | |cbs| == g + 1 ensures Overwrites(Unregister(e, h), h, g, cbs) {
      Overwritten(Unregister(e, h), h, g, cbs);
    }
  }

  /** In particular, unregistering twice makes the next two callers share one handle. */
  lemma {:induction false} DoubleUnregister(e: Event, h: nat, first: Callback, second: Callback)
    requires EventOk(e) && LiveHandle(e, h)
    ensures var a := Register(Unregister(Unregister(e, h), h), first); var b := Register(a.0, second);
      a.1 == h == b.1 && b.0.cbs[h] == Filled(second)
  {
    var e1 := Unregister(e, h);
    var e2 := Unregister(e1, h);
    assert e2.freeCur == e.freeCur + 2 && e2.freeHandles[e.freeCur] == h && e2.freeHandles[e.freeCur + 1] == h;
  }

  // ------------------------------------------------------------------ the registry

  class Eventcore {
    var events: seq<Event>
    var max: nat
    var index: map<Name, nat>

    /** A name maps to h exactly when event h has that name. */
    ghost predicate Valid()
      reads this
    {
      && |events| <= max && 0 < max
      && (forall h :: 0 <= h < |events| ==> EventOk(events[h]) && events[h].handle == h)
      && (forall h :: 0 <= h < |events| ==> events[h].nomen in index && index[events[h].nomen] == h)
      && (forall n :: n in index ==> index[n] < |events| && events[index[n]].nomen == n)
    }

    /** `sbev_init_event`. */
    constructor ()
      ensures Valid() && events == [NewEvent("start", 0), NewEvent("tick", 1), NewEvent("kill", 2)]
    {
      events, max, index := [], 20, map[];
      new;
      assert Valid();
      hide NewEvent, Eventcore.Valid;
      assert "start"[0] != "tick"[0] && "start"[0] != "kill"[0] && "tick"[0] != "kill"[0];
      RegBuiltIn("start", "tick", "kill");
    }

    /** Three different names on an empty registry. */
    method RegBuiltIn(a: Name, b: Name, c: Name)
      requires Valid() && events == [] && index == map[] && a != b && a != c && b != c
      modifies this
      ensures Valid() && events == [NewEvent(a, 0), NewEvent(b, 1), NewEvent(c, 2)]
    {
      hide NewEvent, Eventcore.Valid;
      var ha := RegEvent(a);
      var hb := RegEvent(b);
      var hc := RegEvent(c);
    }

    /** `sbev_reg_event`: the handle a name already has, or the next one; when the array is full
        it is doubled and the index rebuilt, since its entries have moved. */
    method RegEvent(nomen: Name) returns (handle: nat)
      requires Valid()
      modifies this
      ensures Valid() && nomen in index && index[nomen] == handle
      ensures nomen in old(index) ==> unchanged(this)
      ensures nomen !in old(index) ==>
        events == old(events) + [NewEvent(nomen, |old(events)|)] && index == old(index)[nomen := |old(events)|]
    {
      if nomen in index { return index[nomen]; }
      if |events| == max { Rebuild(); }
      handle := |events|;
      events := events + [NewEvent(nomen, handle)];
      index := index[nomen := handle];
    }

    /** Double the array, clear the index and add every entry again. */
    method Rebuild()
      requires Valid()
      modifies this`max, this`index
      ensures Valid() && index == old(index) && max == 2 * old(max)
    {
      max := 2 * max;
      index := map[];
      for i := 0 to |events|
        invariant max == 2 * old(max)
        invariant forall n :: n in index <==> n in old(index) && old(index)[n] < i
        invariant forall n :: n in index ==> index[n] == old(index)[n]
      {
        index := index[events[i].nomen := i];
      }
    }

    /** `sbev_reg_cb`. */
    method RegCb(ev: nat, cb: Callback) returns (h: nat)
      requires Valid() && ev < |events|
      modifies this`events
      ensures Valid() && |events| == |old(events)|
      ensures h !in Live(old(events)[ev]) && Live(events[ev]) == Live(old(events)[ev])[h := cb]
      ensures h < |events[ev].cbs| && events[ev].cbs[h] == Filled(cb)
      ensures forall k :: 0 <= k < |events| && k != ev ==> events[k] == old(events)[k]
      ensures events[ev].nomen == old(events)[ev].nomen
    {
      RegisterLive(events[ev], cb);
      hide Register;
      var r := Register(events[ev], cb);
      events := events[ev := r.0];
      h := r.1;
    }

    /** `sbev_unreg_cb` on a live handle. */
    method UnregCb(ev: nat, h: nat)
      requires Valid() && ev < |events| && LiveHandle(events[ev], h)
      modifies this`events
      ensures Valid() && |events| == |old(events)|
      ensures Live(events[ev]) == Live(old(events)[ev]) - {h}
      ensures events[ev].cur == old(events)[ev].cur && events[ev].cbs == old(events)[ev].cbs[h := Empty]
      ensures forall k :: 0 <= k < |events| && k != ev ==> events[k] == old(events)[k]
      ensures events[ev].nomen == old(events)[ev].nomen
    {
      UnregisterLive(events[ev], h);
      events := events[ev := Unregister(events[ev], h)];
    }
  }

  // ------------------------------------------------------------------------- runs

  /** What callers see of an event: its name and its callbacks by handle. */
  datatype Ev = Ev(nomen: Name, live: map<nat, Callback>)

  predicate AllOk(events: seq<Event>) {
    forall i :: 0 <= i < |events| ==> EventOk(events[i])
  }

  function Abs(events: seq<Event>): (a: seq<Ev>)
    requires AllOk(events)
    ensures |a| == |events|
    ensures forall i :: 0 <= i < |events| ==> a[i] == Ev(events[i].nomen, Live(events[i]))
  {
    seq(|events|, i requires 0 <= i < |events| => Ev(events[i].nomen, Live(events[i])))
  }

  datatype Op = OpEvent(nomen: Name) | OpRegister(ev: nat, cb: Callback) | OpUnregister(ev: nat, h: nat)

  /** Callers use handles they were given, and unregister only what is registered. */
  predicate Allowed(a: seq<Ev>, op: Op) {
    match op
    case OpEvent(_) => true
    case OpRegister(ev, _) => ev < |a|
    case OpUnregister(ev, h) => ev < |a| && h in a[ev].live
  }

  /** What one call means: an event keeps the handle it first got, a new callback gets a handle
      that no live callback has, and no other callback is touched. */
  predicate Does(a: seq<Ev>, op: Op, res: nat, a': seq<Ev>)
    requires Allowed(a, op)
  {
    match op
    case OpEvent(n) =>
      if exists i :: 0 <= i < |a| && a[i].nomen == n
      then a' == a && res < |a| && a[res].nomen == n
      else a' == a + [Ev(n, map[])] && res == |a|
    case OpRegister(ev, cb) => res !in a[ev].live && a' == a[ev := Ev(a[ev].nomen, a[ev].live[res := cb])]
    case OpUnregister(ev, h) => a' == a[ev := Ev(a[ev].nomen, a[ev].live - {h})]
  }

  predicate Called(a: seq<Ev>, op: Op, res: nat, a': seq<Ev>) {
    if Allowed(a, op) then Does(a, op, res, a') else a' == a
  }

  predicate NamesDistinct(a: seq<Ev>) {
    forall i, j :: 0 <= i < j < |a| ==> a[i].nomen != a[j].nomen
  }

  method Step(core: Eventcore, op: Op) returns (res: nat)
    requires core.Valid() && Allowed(Abs(core.events), op)
    modifies core
    ensures core.Valid() && Does(old(Abs(core.events)), op, res, Abs(core.events))
  {
    Distinctness(core);
    hide Does, Abs, Eventcore.Valid, NewEvent, AllOk;
    ghost var es := core.events;
    res := 0;
    match op {
      case OpEvent(n) => {
        EventIndexed(core, n);
        res := core.RegEvent(n);
        Distinctness(core);
        EventDoes(es, n, res, core.events);
      }
      case OpRegister(ev, cb) => {
        AbsSize(es);
        res := core.RegCb(ev, cb);
        Distinctness(core);
        RegisterDoes(es, ev, cb, res, core.events);
      }
      case OpUnregister(ev, h) => {
        AbsSize(es);
        core.UnregCb(ev, h);
        Distinctness(core);
        UnregisterDoes(es, ev, h, core.events);
      }
    }
  }

  lemma AbsSize(es: seq<Event>)
    requires AllOk(es)
    ensures |Abs(es)| == |es|
    ensures forall ev :: 0 <= ev < |es| ==> EventOk(es[ev]) && Abs(es)[ev].live == Live(es[ev])
  {
  }

  lemma NewIsEmpty(n: Name, h: nat)
    ensures EventOk(NewEvent(n, h)) && Live(NewEvent(n, h)) == map[]
  {
  }

  lemma EventIndexed(core: Eventcore, n: Name)
    requires core.Valid()
    ensures n in core.index <==> exists i :: 0 <= i < |core.events| && core.events[i].nomen == n
    ensures n in core.index ==> core.index[n] < |core.events| && core.events[core.index[n]].nomen == n
  {
  }

  lemma EventDoes(es: seq<Event>, n: Name, res: nat, es': seq<Event>)
    requires AllOk(es) && AllOk(es')
    requires if exists i :: 0 <= i < |es| && es[i].nomen == n then es' == es && res < |es| && es[res].nomen == n
             else es' == es + [NewEvent(n, |es|)] && res == |es|
    ensures Does(Abs(es), OpEvent(n), res, Abs(es'))
  {
    NewIsEmpty(n, |es|);
    hide NewEvent, EventOk, Live;
    assert forall i :: 0 <= i < |es| ==> Abs(es)[i].nomen == es[i].nomen;
    if i :| 0 <= i < |es| && es[i].nomen == n { assert Abs(es)[i].nomen == n; }
  }

  lemma RegisterDoes(es: seq<Event>, ev: nat, cb: Callback, res: nat, es': seq<Event>)
    requires AllOk(es) && AllOk(es') && |es'| == |es| && ev < |es| && es'[ev].nomen == es[ev].nomen
    requires res !in Live(es[ev]) && Live(es'[ev]) == Live(es[ev])[res := cb]
    requires forall k :: 0 <= k < |es| && k != ev ==> es'[k] == es[k]
    ensures Does(Abs(es), OpRegister(ev, cb), res, Abs(es'))
  {
    hide Live, EventOk;
  }

  lemma UnregisterDoes(es: seq<Event>, ev: nat, h: nat, es': seq<Event>)
    requires AllOk(es) && AllOk(es') && |es'| == |es| && ev < |es| && es'[ev].nomen == es[ev].nomen
    requires h in Live(es[ev]) && Live(es'[ev]) == Live(es[ev]) - {h}
    requires forall k :: 0 <= k < |es| && k != ev ==> es'[k] == es[k]
    ensures Does(Abs(es), OpUnregister(ev, h), 0, Abs(es'))
  {
    hide Live, EventOk;
  }

  /** Over every run of calls in which the disallowed ones are not made, every call does what it
      means, handles of events never change, and names stay distinct. */
  method Perform(ops: seq<Op>) returns (results: seq<nat>, ghost trace: seq<seq<Ev>>)
    ensures |trace| == |ops| + 1 && |results| == |ops|
    ensures trace[0] == [Ev("start", map[]), Ev("tick", map[]), Ev("kill", map[])]
    ensures forall i {:trigger ops[i]} :: 0 <= i < |ops| ==> Called(trace[i], ops[i], results[i], trace[i + 1])
    ensures forall i :: 0 <= i < |trace| ==> NamesDistinct(trace[i])
  {
    hide Does, Eventcore.Valid, Allowed, Abs, NamesDistinct;
    var core := new Eventcore();
    results := [];
    Distinctness(core);
    BuiltIn(core.events);
    trace := [Abs(core.events)];
    for k := 0 to |ops|
      invariant |trace| == k + 1 && trace[0] == [Ev("start", map[]), Ev("tick", map[]), Ev("kill", map[])]
      invariant fresh(core) && core.Valid() && |results| == k && AllOk(core.events) && trace[k] == Abs(core.events)
      invariant forall i {:trigger ops[i]} :: 0 <= i < k ==> Called(trace[i], ops[i], results[i], trace[i + 1])
      invariant forall i :: 0 <= i <= k ==> NamesDistinct(trace[i])
    {
      var res := 0;
      if Allowed(Abs(core.events), ops[k]) { res := Step(core, ops[k]); }
      Distinctness(core);
      results, trace := results + [res], trace + [Abs(core.events)];
    }
  }

  lemma BuiltIn(events: seq<Event>)
    requires AllOk(events) && events == [NewEvent("start", 0), NewEvent("tick", 1), NewEvent("kill", 2)]
    ensures Abs(events) == [Ev("start", map[]), Ev("tick", map[]), Ev("kill", map[])]
  {
    assert forall i :: 0 <= i < 3 ==> Live(events[i]) == map[];
  }

  lemma Distinctness(core: Eventcore)
    requires core.Valid()
    ensures AllOk(core.events) && NamesDistinct(Abs(core.events))
  {
  }
}
