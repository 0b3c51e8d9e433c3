/** NBT trees in memory: nodes, and the circular doubly linked lists of include/cNBT/list.h that
    hold their children. */
module NbtHeap {
  import opened Wrappers
  import opened NbtTree

  type Ptr = nat
  const NULL: Ptr := 0

  /** One allocated block: an element or the sentinel of a `struct nbt_list`, or an `nbt_node`
      without or with children. A sentinel's node carries only its type. */
  datatype Cell =
    | Entry(flink: Ptr, blink: Ptr, data: Ptr)
    | Head(flink: Ptr, blink: Ptr, elem: Option<nat>)
    | Leaf(name: Option<Bytes>, body: Payload)
    | Holder(name: Option<Bytes>, isList: bool, list: Ptr)

  /** What is allocated; freeing a block takes it out. */
  type Mem = map<Ptr, Cell>

  // ------------------------------------------------------------ linked segments

  predicate IsLink(m: Mem, q: Ptr) { q in m && (m[q].Entry? || m[q].Head?) }

  /** From a to b over xs, linked both ways. A circular list is a segment from its sentinel to
      itself. */
  predicate Seg(m: Mem, a: Ptr, xs: seq<Ptr>, b: Ptr)
    decreases xs
  {
    if xs == [] then IsLink(m, a) && IsLink(m, b) && m[a].flink == b && m[b].blink == a
    else IsLink(m, a) && IsLink(m, xs[0]) && m[a].flink == xs[0] && m[xs[0]].blink == a && Seg(m, xs[0], xs[1..], b)
  }

  predicate SameLinks(m: Mem, m': Mem, q: Ptr) {
    IsLink(m, q) && IsLink(m', q) && m'[q].flink == m[q].flink && m'[q].blink == m[q].blink
  }

  function Elems(xs: seq<Ptr>): set<Ptr> { set x | x in xs }

  function LastOr(a: Ptr, xs: seq<Ptr>): Ptr { if xs == [] then a else xs[|xs| - 1] }

  function FirstOr(xs: seq<Ptr>, b: Ptr): Ptr { if xs == [] then b else xs[0] }

  lemma {:induction false} SegEnds(m: Mem, a: Ptr, xs: seq<Ptr>, b: Ptr)
    requires Seg(m, a, xs, b)
    ensures IsLink(m, a) && IsLink(m, b)
    ensures m[a].flink == FirstOr(xs, b) && m[b].blink == LastOr(a, xs)
    decreases xs
  {
    if xs != [] { SegEnds(m, xs[0], xs[1..], b); }
  }

  lemma {:induction false} SegIn(m: Mem, a: Ptr, xs: seq<Ptr>, b: Ptr, x: Ptr)
    requires Seg(m, a, xs, b) && x in xs
    ensures IsLink(m, x)
    decreases xs
  {
    if x != xs[0] { SegIn(m, xs[0], xs[1..], b, x); }
  }

  /** A segment depends on the forward link of a, both links in between, the backward link of b. */
  lemma {:induction false} SegFrame(m: Mem, m': Mem, a: Ptr, xs: seq<Ptr>, b: Ptr)
    requires Seg(m, a, xs, b)
    requires IsLink(m', a) && m'[a].flink == FirstOr(xs, b)
    requires IsLink(m', b) && m'[b].blink == LastOr(a, xs)
    requires forall x :: x in xs ==> SameLinks(m, m', x)
    ensures Seg(m', a, xs, b)
    decreases xs
  {
    if xs != [] {
      assert SameLinks(m, m', xs[0]);
      SegEnds(m, xs[0], xs[1..], b);
      SegFrame(m, m', xs[0], xs[1..], b);
    }
  }

  lemma {:induction false} SegSnoc(m: Mem, a: Ptr, xs: seq<Ptr>, y: Ptr, z: Ptr)
    requires Seg(m, a, xs, y) && IsLink(m, y) && IsLink(m, z) && m[y].flink == z && m[z].blink == y
    ensures Seg(m, a, xs + [y], z)
    decreases xs
  {
    SegEnds(m, a, xs, y);
    if xs == [] {
      assert (xs + [y])[1..] == [];
    } else {
      SegSnoc(m, xs[0], xs[1..], y, z);
      assert (xs + [y])[1..] == xs[1..] + [y];
    }
  }

  function SetFlink(m: Mem, q: Ptr, v: Ptr): Mem
    requires IsLink(m, q)
  {
    m[q := m[q].(flink := v)]
  }

  function SetBlink(m: Mem, q: Ptr, v: Ptr): Mem
    requires IsLink(m, q)
  {
    m[q := m[q].(blink := v)]
  }

  /** `list_del`, then `free`: y, between p and z, is gone. */
  function Deleted(m: Mem, p: Ptr, y: Ptr, z: Ptr): Mem
    requires IsLink(m, p) && IsLink(m, z)
  {
    SetFlink(SetBlink(m, z, p), p, z) - {y}
  }

  /** Unlinking y: what ended in y now ends in its successor z. */
  lemma {:induction false} SegCut(m: Mem, m': Mem, a: Ptr, xs: seq<Ptr>, y: Ptr, z: Ptr)
    requires Seg(m, a, xs, y) && IsLink(m, y) && IsLink(m, z) && IsLink(m, m[y].blink) && m' == Deleted(m, m[y].blink, y, z)
    requires y != a && y != z && y !in xs && z !in xs && a !in xs && forall i, j :: 0 <= i < j < |xs| ==> xs[i] != xs[j]
    ensures Seg(m', a, xs, z)
    decreases xs
  {
    SegEnds(m, a, xs, y);
    var p := LastOr(a, xs);
    if xs != [] {
      assert xs[0] != y && p in xs;
      SegEnds(m, xs[0], xs[1..], y);
      SegCut(m, m', xs[0], xs[1..], y, z);
      if |xs| > 1 { assert p == xs[1..][|xs| - 2]; }
    }
  }

  // ------------------------------------------------------------ trees in memory

  /** Where the blocks of a tree are. */
  datatype Obj =
    | Flat(at: Ptr, name: Option<Bytes>, body: Payload)
    | Branch(at: Ptr, name: Option<Bytes>, isList: bool, head: Ptr, elem: Option<nat>, entries: seq<Ptr>, kids: seq<Obj>)

  /** The tree an object stands for. */
  function TreeOf(o: Obj): Node
    decreases o, 0
  {
    match o
    case Flat(_, name, body) => Node(name, body)
    case Branch(_, name, isList, _, elem, _, kids) =>
      Node(name, if isList then List(elem, TreesOf(kids)) else Compound(TreesOf(kids)))
  }

  function TreesOf(kids: seq<Obj>): seq<Node>
    decreases kids, 1
  {
    if kids == [] then [] else [TreeOf(kids[0])] + TreesOf(kids[1..])
  }

  /** Its blocks. */
  function Foot(o: Obj): set<Ptr>
    decreases o, 0
  {
    match o
    case Flat(at, _, _) => {at}
    case Branch(at, _, _, head, _, entries, kids) => {at, head} + Elems(entries) + FootAll(kids)
  }

  function FootAll(kids: seq<Obj>): set<Ptr>
    decreases kids, 1
  {
    if kids == [] then {} else Foot(kids[0]) + FootAll(kids[1..])
  }

  predicate Distinct(xs: seq<Ptr>) {
    forall i, j :: 0 <= i < j < |xs| ==> xs[i] != xs[j]
  }

  /** No block is used twice. */
  predicate Sep(o: Obj)
    decreases o, 0
  {
    match o
    case Flat(at, _, body) => at != NULL && !body.List? && !body.Compound?
    case Branch(at, _, _, head, _, entries, kids) =>
      && at != NULL && at != head && at !in entries && at !in FootAll(kids)
      && head !in entries && Distinct(entries) && head !in FootAll(kids) && Elems(entries) !! FootAll(kids)
      && SepAll(kids)
  }

  predicate SepAll(kids: seq<Obj>)
    decreases kids, 1
  {
    kids == [] || (Sep(kids[0]) && Foot(kids[0]) !! FootAll(kids[1..]) && SepAll(kids[1..]))
  }

  /** Each entry holds its kid. */
  predicate Datas(m: Mem, entries: seq<Ptr>, kids: seq<Obj>) {
    |entries| == |kids| && forall i :: 0 <= i < |entries| ==> entries[i] in m && m[entries[i]].Entry? && m[entries[i]].data == kids[i].at
  }

  /** Memory holds the object. */
  predicate Holds(m: Mem, o: Obj)
    decreases o, 0
  {
    match o
    case Flat(at, name, body) => at in m && m[at] == Leaf(name, body)
    case Branch(at, name, isList, head, elem, entries, kids) =>
      && at in m && m[at] == Holder(name, isList, head)
      && head in m && m[head].Head? && m[head].elem == elem
      && Seg(m, head, entries, head) && Datas(m, entries, kids) && HoldsAll(m, kids)
  }

  predicate HoldsAll(m: Mem, kids: seq<Obj>)
    decreases kids, 1
  {
    kids == [] || (Holds(m, kids[0]) && HoldsAll(m, kids[1..]))
  }

  predicate Agree(m: Mem, m': Mem, foot: set<Ptr>) {
    forall q :: q in foot && q in m ==> q in m' && m'[q] == m[q]
  }

  lemma {:induction false} HoldsFrame(m: Mem, m': Mem, o: Obj)
    requires Holds(m, o) && Agree(m, m', Foot(o))
    ensures Holds(m', o)
    decreases o, 0
  {
    if o.Branch? {
      var head, entries := o.head, o.entries;
      SegEnds(m, head, entries, head);
      forall x | x in entries ensures SameLinks(m, m', x) {
        SegIn(m, head, entries, head, x);
        assert x in Elems(entries);
      }
      SegFrame(m, m', head, entries, head);
      forall i | 0 <= i < |entries| ensures entries[i] in m' && m'[entries[i]] == m[entries[i]] {
        assert entries[i] in Elems(entries);
      }
      hide Seg, SameLinks;
      HoldsAllFrame(m, m', o.kids);
    }
  }

  lemma {:induction false} HoldsAllFrame(m: Mem, m': Mem, kids: seq<Obj>)
    requires HoldsAll(m, kids) && Agree(m, m', FootAll(kids))
    ensures HoldsAll(m', kids)
    decreases kids, 1
  {
    if kids != [] {
      hide Holds, Foot;
      HoldsFrame(m, m', kids[0]);
      HoldsAllFrame(m, m', kids[1..]);
    }
  }

  /** A held object is allocated. */
  lemma {:induction false} FootAllocated(m: Mem, o: Obj)
    requires Holds(m, o)
    ensures Foot(o) <= m.Keys
    decreases o, 0
  {
    if o.Branch? {
      forall x | x in o.entries ensures x in m { SegIn(m, o.head, o.entries, o.head, x); }
      FootAllAllocated(m, o.kids);
    }
  }

  lemma {:induction false} FootAllAllocated(m: Mem, kids: seq<Obj>)
    requires HoldsAll(m, kids)
    ensures FootAll(kids) <= m.Keys
    decreases kids, 1
  {
    if kids != [] {
      FootAllocated(m, kids[0]);
      FootAllAllocated(m, kids[1..]);
    }
  }

  // One more kid at the end.

  lemma {:induction false} KidsSnoc(m: Mem, kids: seq<Obj>, k: Obj)
    ensures FootAll(kids + [k]) == FootAll(kids) + Foot(k)
    ensures TreesOf(kids + [k]) == TreesOf(kids) + [TreeOf(k)]
    ensures HoldsAll(m, kids + [k]) <==> HoldsAll(m, kids) && Holds(m, k)
  {
    hide Foot, TreeOf, Holds;
    if kids == [] {
      assert (kids + [k])[1..] == [];
    } else {
      assert (kids + [k])[1..] == kids[1..] + [k];
      KidsSnoc(m, kids[1..], k);
    }
  }

  lemma {:induction false} SepSnoc(m: Mem, kids: seq<Obj>, k: Obj)
    requires SepAll(kids) && Sep(k) && FootAll(kids) !! Foot(k)
    ensures SepAll(kids + [k])
  {
    hide Foot, Sep;
    if kids == [] {
      assert (kids + [k])[1..] == [];
    } else {
      assert (kids + [k])[1..] == kids[1..] + [k];
      SepSnoc(m, kids[1..], k);
      KidsSnoc(m, kids[1..], k);
    }
  }
}
