/** nbt_filter and filter_list of src/cNBT/nbt_treeops.c: the filter that builds a new tree. */
module NbtCopy {
  import opened Wrappers
  import opened NbtTree
  import opened NbtOps
  import opened NbtHeap
  import opened NbtFilter

  /** Memory gained the blocks `more` and lost or changed none. */
  ghost predicate Grown(m: Mem, m': Mem, more: set<Ptr>) {
    Agree(m, m', m.Keys) && more !! m.Keys && m'.Keys == m.Keys + more
  }

  lemma {:induction false} GrownTwice(m: Mem, m': Mem, m'': Mem, a: set<Ptr>, b: set<Ptr>)
    requires Grown(m, m', a) && Grown(m', m'', b)
    ensures Grown(m, m'', a + b) && a !! b
  {
  }

  lemma {:induction false} Unused(m: Mem)
    ensures exists p: Ptr :: p != NULL && p !in m
  {
    var n := Above(m.Keys);
    assert n !in m;
  }

  lemma {:induction false} Above(s: set<Ptr>) returns (n: Ptr)
    ensures n > 0 && forall x :: x in s ==> x < n
  {
    n := 1;
    if s != {} {
      var x :| x in s;
      var k := Above(s - {x});
      n := if x < k then k else x + 1;
      assert s == (s - {x}) + {x};
    }
  }

  /** malloc: some block that is not in use. */
  method Alloc(h: Heap, c: Cell) returns (p: Ptr)
    modifies h
    ensures p != NULL && p !in old(h.mem) && h.mem == old(h.mem)[p := c]
  {
    Unused(h.mem);
    p :| p != NULL && p !in h.mem;
    h.mem := h.mem[p := c];
  }

  /** list_add_tail of an unlinked entry x. */
  function AddedTail(m: Mem, x: Ptr, head: Ptr): Mem
    requires x in m && m[x].Entry? && IsLink(m, head) && IsLink(m, m[head].blink) && x != head && x != m[head].blink
  {
    SetFlink(SetBlink(m[x := Entry(head, m[head].blink, m[x].data)], head, x), m[head].blink, x)
  }

  method ListAddTail(h: Heap, x: Ptr, head: Ptr)
    requires x in h.mem && h.mem[x].Entry? && IsLink(h.mem, head) && IsLink(h.mem, h.mem[head].blink) && x != head && x != h.mem[head].blink
    modifies h
    ensures h.mem == AddedTail(old(h.mem), x, head)
  {
    var last := h.mem[head].blink;
    h.mem := SetFlink(h.mem, x, head);
    h.mem := SetBlink(h.mem, x, h.mem[head].blink);
    assert h.mem == old(h.mem)[x := Entry(head, last, old(h.mem)[x].data)];
    h.mem := SetBlink(h.mem, h.mem[x].flink, x);
    h.mem := SetFlink(h.mem, h.mem[x].blink, x);
  }

  lemma {:induction false} SegExtend(m: Mem, m': Mem, a: Ptr, xs: seq<Ptr>, head: Ptr, x: Ptr)
    requires Seg(m, a, xs, head) && x in m && m[x].Entry? && IsLink(m, head) && m[head].blink == LastOr(a, xs)
    requires IsLink(m, m[head].blink) && x != head && x != m[head].blink && m' == AddedTail(m, x, head)
    requires head !in xs && a !in xs && x != a && x !in xs && Distinct(xs)
    ensures Seg(m', a, xs, x)
    decreases xs
  {
    if xs != [] {
      SegEnds(m, xs[0], xs[1..], head);
      SegExtend(m, m', xs[0], xs[1..], head, x);
      assert xs[|xs| - 1] in xs;
    }
  }

  lemma {:induction false} SegAddTail(m: Mem, m': Mem, head: Ptr, xs: seq<Ptr>, x: Ptr)
    requires Seg(m, head, xs, head) && x in m && m[x].Entry? && IsLink(m, head)
    requires IsLink(m, m[head].blink) && x != head && x != m[head].blink && m' == AddedTail(m, x, head)
    requires head !in xs && x !in xs && Distinct(xs)
    ensures Seg(m', head, xs + [x], head)
  {
    SegEnds(m, head, xs, head);
    SegExtend(m, m', head, xs, head, x);
    SegSnoc(m', head, xs, x, head);
  }

  /** Half-way through filter_list: the new list so far. */
  ghost predicate Copying(m0: Mem, m: Mem, ret: Ptr, de: seq<Ptr>, dk: seq<Obj>) {
    && Grown(m0, m, {ret} + Elems(de) + FootAll(dk))
    && ret in m && m[ret].Head? && m[ret].elem == None
    && Seg(m, ret, de, ret) && Datas(m, de, dk) && HoldsAll(m, dk)
    && SepAll(dk) && Distinct(de) && ret !in de && ret !in FootAll(dk) && Elems(de) !! FootAll(dk)
  }

  lemma {:induction false} StartCopying(m0: Mem, m: Mem, ret: Ptr)
    requires ret !in m0 && m == m0[ret := Head(ret, ret, None)]
    ensures Copying(m0, m, ret, [], [])
  {
  }

  /** A new block or a new kid does not disturb the list. */
  lemma {:induction false} ListStays(m: Mem, m': Mem, ret: Ptr, de: seq<Ptr>, dk: seq<Obj>)
    requires ret in m && m[ret].Head? && Seg(m, ret, de, ret) && Datas(m, de, dk) && HoldsAll(m, dk) && Agree(m, m', m.Keys)
    ensures ret in m' && m'[ret] == m[ret] && Seg(m', ret, de, ret) && Datas(m', de, dk) && HoldsAll(m', dk)
  {
    SegAgree(m, m', ret, de, ret);
    HoldsAllFrame(m, m', dk);
    hide Seg, HoldsAll;
  }

  /** The filtered kid and a block for its entry are there, the list is as it was. */
  lemma {:induction false} BeforeAdd(m0: Mem, m: Mem, m1: Mem, m2: Mem, ret: Ptr, de: seq<Ptr>, dk: seq<Obj>, kid: Obj, x: Ptr)
    requires Copying(m0, m, ret, de, dk) && Grown(m, m1, Foot(kid)) && Holds(m1, kid)
    requires x !in m1 && m2 == m1[x := Entry(NULL, NULL, kid.at)]
    ensures ret in m2 && m2[ret].Head? && m2[ret].elem == None
    ensures Seg(m2, ret, de, ret) && Datas(m2, de, dk) && HoldsAll(m2, dk) && Holds(m2, kid)
    ensures IsLink(m2, m2[ret].blink) && m2[ret].blink in {ret} + Elems(de) && x != ret && x != m2[ret].blink
    ensures x !in Elems(de) && x !in FootAll(dk) && x !in Foot(kid) && Foot(kid) !! {ret} + Elems(de) + FootAll(dk)
    ensures Grown(m0, m2, {ret} + Elems(de) + FootAll(dk) + Foot(kid) + {x})
  {
    hide SepAll, Foot, FootAll, Holds, HoldsAll, Seg, Elems, Distinct, Datas;
    GrownThrice(m0, m, m1, m2, {ret} + Elems(de) + FootAll(dk), Foot(kid), x);
    ListStays(m, m2, ret, de, dk);
    BlockStays(m1, m2, kid);
    LastLink(m2, ret, de);
    hide Grown, Agree, IsLink;
  }

  lemma {:induction false} GrownThrice(m0: Mem, m: Mem, m1: Mem, m2: Mem, a: set<Ptr>, b: set<Ptr>, x: Ptr)
    requires Grown(m0, m, a) && Grown(m, m1, b) && x !in m1 && m2.Keys == m1.Keys + {x} && Agree(m1, m2, m1.Keys)
    ensures Grown(m0, m2, a + b + {x}) && a !! b && x !in a && x !in b && Agree(m, m2, m.Keys) && Agree(m1, m2, m1.Keys)
  {
    assert Grown(m1, m2, {x});
    GrownTwice(m, m1, m2, b, {x});
    GrownTwice(m0, m, m2, a, b + {x});
    assert a + (b + {x}) == a + b + {x};
  }

  lemma {:induction false} BlockStays(m: Mem, m': Mem, kid: Obj)
    requires Holds(m, kid) && Agree(m, m', m.Keys)
    ensures Holds(m', kid)
  {
    HoldsFrame(m, m', kid);
  }

  lemma {:induction false} LastLink(m: Mem, ret: Ptr, de: seq<Ptr>)
    requires Seg(m, ret, de, ret)
    ensures IsLink(m, ret) && IsLink(m, m[ret].blink) && m[ret].blink in {ret} + Elems(de)
  {
    SegEnds(m, ret, de, ret);
    if de != [] { SegIn(m, ret, de, ret, de[|de| - 1]); }
  }

  /** The entry is added. */
  lemma {:induction false} AddStep(m0: Mem, m2: Mem, m3: Mem, ret: Ptr, de: seq<Ptr>, dk: seq<Obj>, kid: Obj, x: Ptr)
    requires ret in m2 && m2[ret].Head? && m2[ret].elem == None && x in m2 && m2[x] == Entry(NULL, NULL, kid.at)
    requires Seg(m2, ret, de, ret) && Datas(m2, de, dk) && HoldsAll(m2, dk) && Holds(m2, kid)
    requires IsLink(m2, m2[ret].blink) && m2[ret].blink in {ret} + Elems(de) && x != ret && x != m2[ret].blink && m3 == AddedTail(m2, x, ret)
    requires x !in Elems(de) && x !in FootAll(dk) && x !in Foot(kid) && Foot(kid) !! {ret} + Elems(de) + FootAll(dk)
    requires Grown(m0, m2, {ret} + Elems(de) + FootAll(dk) + Foot(kid) + {x})
    requires SepAll(dk) && Sep(kid) && Distinct(de) && ret !in de && ret !in FootAll(dk) && Elems(de) !! FootAll(dk)
    ensures Copying(m0, m3, ret, de + [x], dk + [kid])
  {
    hide SepAll, Foot, FootAll, Holds, HoldsAll, Seg, Sep, Elems, Distinct, Datas;
    NotElem(de, x);
    SegAddTail(m2, m3, ret, de, x);
    KidsAfterAdd(m2, m3, ret, de, dk, kid, x);
    KidsSnoc(m3, dk, kid);
    SepSnoc(m3, dk, kid);
    EntriesAfterAdd(m2, m3, ret, de, dk, kid, x);
    EntriesSnoc(de, x);
    GrownByAdd(m0, m2, m3, {ret} + Elems(de) + FootAll(dk) + Foot(kid) + {x}, ret, x);
    hide AddedTail, Grown;
    assert {ret} + Elems(de + [x]) + FootAll(dk + [kid]) == {ret} + Elems(de) + FootAll(dk) + Foot(kid) + {x};
  }

  lemma {:induction false} GrownByAdd(m0: Mem, m2: Mem, m3: Mem, more: set<Ptr>, ret: Ptr, x: Ptr)
    requires Grown(m0, m2, more) && ret in more && x in more && x in m2 && m2[x].Entry? && IsLink(m2, ret)
    requires IsLink(m2, m2[ret].blink) && m2[ret].blink in more && x != ret && x != m2[ret].blink && m3 == AddedTail(m2, x, ret)
    ensures Grown(m0, m3, more)
  {
    assert m3.Keys == m2.Keys;
  }

  lemma {:induction false} KidsAfterAdd(m2: Mem, m3: Mem, ret: Ptr, de: seq<Ptr>, dk: seq<Obj>, kid: Obj, x: Ptr)
    requires IsLink(m2, ret) && x in m2 && m2[x].Entry? && HoldsAll(m2, dk) && Holds(m2, kid)
    requires IsLink(m2, m2[ret].blink) && m2[ret].blink in {ret} + Elems(de) && x != ret && x != m2[ret].blink && m3 == AddedTail(m2, x, ret)
    requires x !in FootAll(dk) && x !in Foot(kid) && Foot(kid) !! {ret} + Elems(de) && ret !in FootAll(dk) && Elems(de) !! FootAll(dk)
    ensures HoldsAll(m3, dk) && Holds(m3, kid)
  {
    hide Foot, FootAll, Holds, HoldsAll, Elems;
    HoldsFrame(m2, m3, kid);
    HoldsAllFrame(m2, m3, dk);
  }

  lemma {:induction false} EntriesAfterAdd(m2: Mem, m3: Mem, ret: Ptr, de: seq<Ptr>, dk: seq<Obj>, kid: Obj, x: Ptr)
    requires IsLink(m2, ret) && x in m2 && m2[x] == Entry(NULL, NULL, kid.at) && Datas(m2, de, dk) && x !in de
    requires IsLink(m2, m2[ret].blink) && x != ret && x != m2[ret].blink && m3 == AddedTail(m2, x, ret)
    ensures Datas(m3, de + [x], dk + [kid])
    ensures ret in m3 && m3[ret].Head? == m2[ret].Head? && (m2[ret].Head? ==> m3[ret].elem == m2[ret].elem)
  {
  }

  /** nbt_filter: a new tree in new blocks, the original untouched, nothing left over. `garble`
      is what a copied int array ends up with. */
  method FilterCopy(h: Heap, test: (Mem, Ptr) -> bool, garble: seq<nat> -> seq<nat>, p: Ptr, ghost keep: Node -> bool, ghost o: Obj)
    returns (r: Ptr, ghost o': Obj)
    requires Looks(test, keep) && Holds(h.mem, o) && Sep(o) && p == o.at
    modifies h
    ensures r == NULL <==> Copy(keep, garble, TreeOf(o)) == None
    ensures r == NULL ==> h.mem == old(h.mem)
    ensures r != NULL ==> Holds(h.mem, o') && Sep(o') && o'.at == r && Some(TreeOf(o')) == Copy(keep, garble, TreeOf(o))
    ensures r != NULL ==> Grown(old(h.mem), h.mem, Foot(o'))
    decreases o, 2
  {
    hide Looks, Foot, Holds, Sep, Copy, TreeOf, CopyName, CopyLeaf, Grown, Copying, TreesOf, CopyAll;
    o' := o;
    Looked(test, keep, h.mem, o);
    CopyCases(keep, garble, h.mem, o);
    if !test(h.mem, p) {
      return NULL, o;
    }
    var name := CopyName(h.mem[p].name);
    if h.mem[p].Leaf? {
      var body := CopyLeaf(garble, h.mem[p].body);
      ghost var m0 := h.mem;
      r := Alloc(h, Leaf(name, body));
      o' := Flat(r, name, body);
      NewLeaf(m0, h.mem, o');
    } else {
      ghost var m0, de, dk := h.mem, [], [];
      var list;
      r := Alloc(h, Holder(name, h.mem[p].isList, NULL));
      BlockStays(m0, h.mem, o);
      ghost var m1 := h.mem;
      list, de, dk := FilterList(h, test, garble, h.mem[p].list, keep, o);
      o' := Branch(r, name, o.isList, list, None, de, dk);
      NewBranch(m0, m1, h.mem, o');
      h.mem := h.mem[r := h.mem[r].(list := list)];
      CopyOfBranch(keep, garble, o, o');
    }
  }

  lemma {:induction false} CopyCases(keep: Node -> bool, garble: seq<nat> -> seq<nat>, m: Mem, o: Obj)
    requires Holds(m, o) && Sep(o)
    ensures !keep(TreeOf(o)) ==> Copy(keep, garble, TreeOf(o)) == None
    ensures o.at in m && m[o.at] == if o.Flat? then Leaf(o.name, o.body) else Holder(o.name, o.isList, o.head)
    ensures keep(TreeOf(o)) && o.Flat? ==>
      (forall r :: Some(TreeOf(Flat(r, CopyName(o.name), CopyLeaf(garble, o.body)))) == Copy(keep, garble, TreeOf(o)))
    ensures o.Flat? ==> !CopyLeaf(garble, o.body).List? && !CopyLeaf(garble, o.body).Compound?
  {
  }

  lemma {:induction false} CopyOfBranch(keep: Node -> bool, garble: seq<nat> -> seq<nat>, o: Obj, o': Obj)
    requires o.Branch? && o'.Branch? && keep(TreeOf(o)) && o'.name == CopyName(o.name) && o'.isList == o.isList && o'.elem == None
    requires TreesOf(o'.kids) == CopyAll(keep, garble, TreesOf(o.kids))
    ensures Some(TreeOf(o')) == Copy(keep, garble, TreeOf(o))
  {
  }

  lemma {:induction false} NewLeaf(m0: Mem, m: Mem, o: Obj)
    requires o.Flat? && o.at != NULL && !o.body.List? && !o.body.Compound? && o.at !in m0 && m == m0[o.at := Leaf(o.name, o.body)]
    ensures Holds(m, o) && Sep(o) && Grown(m0, m, Foot(o))
  {
  }

  /** A new list below a new node is a new object. */
  lemma {:induction false} NewBranch(m0: Mem, m1: Mem, m2: Mem, o: Obj)
    requires o.Branch? && o.at != NULL && o.elem == None && o.at !in m0 && m1 == m0[o.at := Holder(o.name, o.isList, NULL)]
    requires Copying(m1, m2, o.head, o.entries, o.kids)
    ensures o.at in m2 && m2[o.at] == Holder(o.name, o.isList, NULL)
    ensures var m3 := m2[o.at := Holder(o.name, o.isList, o.head)]; Holds(m3, o) && Sep(o) && Grown(m0, m3, Foot(o))
  {
    var m3 := m2[o.at := Holder(o.name, o.isList, o.head)];
    assert o.at in m1 && o.at in m2 && m2[o.at] == m1[o.at];
    assert o.at != o.head && o.at !in Elems(o.entries) && o.at !in FootAll(o.kids);
    hide SepAll, FootAll, HoldsAll, Seg, Elems, Foot;
    NotElem(o.entries, o.at);
    BranchHolds(m2, m3, o);
    assert Sep(o);
    NewFoot(m0, m1, m2, m3, o);
  }

  lemma {:induction false} BranchHolds(m: Mem, m': Mem, o: Obj)
    requires o.Branch? && o.at !in {o.head} + Elems(o.entries) + FootAll(o.kids) && m' == m[o.at := Holder(o.name, o.isList, o.head)]
    requires o.head in m && m[o.head].Head? && m[o.head].elem == o.elem
    requires Seg(m, o.head, o.entries, o.head) && Datas(m, o.entries, o.kids) && HoldsAll(m, o.kids)
    ensures Holds(m', o)
  {
    NotElem(o.entries, o.at);
    SegAgree(m, m', o.head, o.entries, o.head);
    HoldsAllFrame(m, m', o.kids);
    hide HoldsAll, Seg, FootAll, Elems;
  }

  lemma {:induction false} NewFoot(m0: Mem, m1: Mem, m2: Mem, m3: Mem, o: Obj)
    requires o.Branch? && o.at !in m0 && m1 == m0[o.at := Holder(o.name, o.isList, NULL)]
    requires Grown(m1, m2, {o.head} + Elems(o.entries) + FootAll(o.kids)) && m3 == m2[o.at := Holder(o.name, o.isList, o.head)]
    ensures Grown(m0, m3, Foot(o))
  {
    hide FootAll, Elems;
    assert Foot(o) == {o.at} + ({o.head} + Elems(o.entries) + FootAll(o.kids));
    hide Foot;
  }

  /** filter_list: the survivors of a list, in order, in a new list without a sentinel type. */
  method FilterList(h: Heap, test: (Mem, Ptr) -> bool, garble: seq<nat> -> seq<nat>, list: Ptr, ghost keep: Node -> bool, ghost o: Obj)
    returns (ret: Ptr, ghost de: seq<Ptr>, ghost dk: seq<Obj>)
    requires Looks(test, keep) && o.Branch? && list == o.head && Holds(h.mem, o) && Sep(o)
    modifies h
    ensures Copying(old(h.mem), h.mem, ret, de, dk) && TreesOf(dk) == CopyAll(keep, garble, TreesOf(o.kids))
    decreases o, 1
  {
    AheadStart(h.mem, o);
    assert |o.entries| == |o.kids|;
    hide Ahead, Copying, Holds, Sep, Looks, TreesOf, CopyAll;
    ghost var m0, k := h.mem, 0;
    ret := Alloc(h, Head(NULL, NULL, None));
    h.mem := h.mem[ret := Head(ret, ret, None)];
    StartCopying(m0, h.mem, ret);
    de, dk := [], [];
    var pos := h.mem[list].flink;
    assert o.entries[0..] == o.entries && o.kids[0..] == o.kids;
    CopiesStart(keep, garble, o.kids);
    while pos != list
      invariant 0 <= k <= |o.entries| == |o.kids|
      invariant Ahead(m0, pos, o.entries[k..], o.kids[k..], list) && Copying(m0, h.mem, ret, de, dk)
      invariant TreesOf(dk) + CopyAll(keep, garble, TreesOf(o.kids[k..])) == CopyAll(keep, garble, TreesOf(o.kids))
      decreases |o.entries| - k
    {
      AheadEnd(m0, pos, o.entries[k..], o.kids[k..], list);
      pos, de, dk := CopyEntry(h, test, garble, pos, ret, keep, o, m0, k, de, dk);
      k := k + 1;
    }
    AheadEnd(m0, pos, o.entries[k..], o.kids[k..], list);
    CopiesEnd(keep, garble, dk);
  }

  /** One turn of that loop. */
  method CopyEntry(h: Heap, test: (Mem, Ptr) -> bool, garble: seq<nat> -> seq<nat>, pos: Ptr, ret: Ptr, ghost keep: Node -> bool, ghost o: Obj,
                   ghost m0: Mem, ghost k: nat, ghost de: seq<Ptr>, ghost dk: seq<Obj>)
    returns (n: Ptr, ghost de': seq<Ptr>, ghost dk': seq<Obj>)
    requires Looks(test, keep) && o.Branch? && k < |o.entries| == |o.kids|
    requires Ahead(m0, pos, o.entries[k..], o.kids[k..], o.head) && Copying(m0, h.mem, ret, de, dk)
    modifies h
    ensures Ahead(m0, n, o.entries[k + 1..], o.kids[k + 1..], o.head) && Copying(m0, h.mem, ret, de', dk')
    ensures TreesOf(dk') + CopyAll(keep, garble, TreesOf(o.kids[k + 1..])) == TreesOf(dk) + CopyAll(keep, garble, TreesOf(o.kids[k..]))
    decreases o, 0
  {
    hide Ahead, Copying, Holds, Sep, Looks, TreesOf, CopyAll, Copy, IsLink, Foot, Grown, Elems, FootAll, Seg, Datas, HoldsAll, AddedTail;
    ghost var es, ks, m := o.entries[k..], o.kids[k..], h.mem;
    AheadStep(m0, pos, es, ks, o.head);
    assert es[1..] == o.entries[k + 1..] && ks[1..] == o.kids[k + 1..] && ks[0] == o.kids[k];
    Source(m0, m, ret, de, dk, pos, ks[0]);
    CopiesStep(keep, garble, dk, ks);
    var r;
    ghost var kid;
    r, kid := FilterCopy(h, test, garble, h.mem[pos].data, keep, ks[0]);
    if r == NULL {
      de', dk' := de, dk;
    } else {
      ghost var m1 := h.mem;
      var x := Alloc(h, Entry(NULL, NULL, r));
      BeforeAdd(m0, m, m1, h.mem, ret, de, dk, kid, x);
      Parts(m0, m, ret, de, dk);
      LinkOf(h.mem, ret);
      AddStep(m0, h.mem, AddedTail(h.mem, x, ret), ret, de, dk, kid, x);
      ListAddTail(h, x, ret);
      CopiesKeep(keep, garble, dk, ks, kid);
      de', dk' := de + [x], dk + [kid];
    }
    Source(m0, h.mem, ret, de', dk', pos, ks[0]);
    n := h.mem[pos].flink;
  }

  lemma {:induction false} LinkOf(m: Mem, q: Ptr)
    requires q in m && m[q].Head?
    ensures IsLink(m, q)
  {
  }

  /** The original is still where it was. */
  lemma {:induction false} Source(m0: Mem, m: Mem, ret: Ptr, de: seq<Ptr>, dk: seq<Obj>, pos: Ptr, kid: Obj)
    requires Copying(m0, m, ret, de, dk) && IsLink(m0, pos) && Holds(m0, kid)
    ensures pos in m && m[pos] == m0[pos] && Holds(m, kid)
  {
    BlockStays(m0, m, kid);
  }

  lemma {:induction false} Parts(m0: Mem, m: Mem, ret: Ptr, de: seq<Ptr>, dk: seq<Obj>)
    requires Copying(m0, m, ret, de, dk)
    ensures SepAll(dk) && Distinct(de) && ret !in de && ret !in FootAll(dk) && Elems(de) !! FootAll(dk)
  {
  }

  lemma {:induction false} CopiesStart(keep: Node -> bool, garble: seq<nat> -> seq<nat>, ks: seq<Obj>)
    ensures TreesOf([]) + CopyAll(keep, garble, TreesOf(ks)) == CopyAll(keep, garble, TreesOf(ks))
  {
  }

  lemma {:induction false} CopiesEnd(keep: Node -> bool, garble: seq<nat> -> seq<nat>, dk: seq<Obj>)
    ensures TreesOf(dk) + CopyAll(keep, garble, TreesOf([])) == TreesOf(dk)
  {
  }

  lemma {:induction false} CopiesFirst(keep: Node -> bool, garble: seq<nat> -> seq<nat>, ks: seq<Obj>)
    requires ks != []
    ensures var first := Copy(keep, garble, TreeOf(ks[0]));
      CopyAll(keep, garble, TreesOf(ks)) == (if first.Some? then [first.value] else []) + CopyAll(keep, garble, TreesOf(ks[1..]))
  {
    assert TreesOf(ks)[0] == TreeOf(ks[0]) && TreesOf(ks)[1..] == TreesOf(ks[1..]);
    hide Copy, TreeOf;
  }

  lemma {:induction false} CopiesStep(keep: Node -> bool, garble: seq<nat> -> seq<nat>, dk: seq<Obj>, ks: seq<Obj>)
    requires ks != []
    ensures Copy(keep, garble, TreeOf(ks[0])) == None ==>
      TreesOf(dk) + CopyAll(keep, garble, TreesOf(ks)) == TreesOf(dk) + CopyAll(keep, garble, TreesOf(ks[1..]))
  {
    CopiesFirst(keep, garble, ks);
    hide Copy, TreeOf, TreesOf, CopyAll;
    assert [] + CopyAll(keep, garble, TreesOf(ks[1..])) == CopyAll(keep, garble, TreesOf(ks[1..]));
  }

  lemma {:induction false} CopiesKeep(keep: Node -> bool, garble: seq<nat> -> seq<nat>, dk: seq<Obj>, ks: seq<Obj>, kid: Obj)
    requires ks != [] && Copy(keep, garble, TreeOf(ks[0])) == Some(TreeOf(kid))
    ensures TreesOf(dk) + CopyAll(keep, garble, TreesOf(ks)) == TreesOf(dk + [kid]) + CopyAll(keep, garble, TreesOf(ks[1..]))
  {
    CopiesFirst(keep, garble, ks);
    KidsSnoc(map[], dk, kid);
    hide Copy, TreeOf, TreesOf, CopyAll, FootAll, HoldsAll;
    RegroupNodes(TreesOf(dk), TreeOf(kid), CopyAll(keep, garble, TreesOf(ks[1..])));
  }

  /** Both filters on one tree, the copying one first: the two results, side by side in memory,
      are the same tree up to list sentinels. */
  method BothFilters(h: Heap, test: (Mem, Ptr) -> bool, garble: seq<nat> -> seq<nat>, p: Ptr, ghost keep: Node -> bool, ghost o: Obj)
    returns (c: Ptr, r: Ptr, ghost oc: Obj, ghost or: Obj)
    requires Looks(test, keep) && Holds(h.mem, o) && Sep(o) && p == o.at && Plain(TreeOf(o))
    modifies h
    ensures c == NULL <==> r == NULL
    ensures r != NULL ==> Holds(h.mem, or) && or.at == r && Holds(h.mem, oc) && oc.at == c && Foot(oc) !! Foot(or)
    ensures r != NULL ==> TreeOf(oc) == Bare(TreeOf(or)) && Some(TreeOf(or)) == Filter(keep, TreeOf(o))
  {
    hide Looks, Foot, Holds, Sep, Copy, Filter, TreeOf, Grown, Within, Plain, Bare;
    CopyIsBareFilter(keep, garble, TreeOf(o));
    ghost var m0 := h.mem;
    ObjFacts(m0, o);
    c, oc := FilterCopy(h, test, garble, p, keep, o);
    ghost var m1 := h.mem;
    if c != NULL { StillThere(m0, m1, oc, o); }
    r, or := h.FilterInPlace(test, p, keep, o);
    if c != NULL { Separate(m0, m1, h.mem, oc, o, or); }
  }

  lemma {:induction false} StillThere(m0: Mem, m1: Mem, oc: Obj, o: Obj)
    requires Grown(m0, m1, Foot(oc)) && Holds(m0, o)
    ensures Holds(m1, o)
  {
    BlockStays(m0, m1, o);
  }

  lemma {:induction false} Separate(m0: Mem, m1: Mem, m2: Mem, oc: Obj, o: Obj, or: Obj)
    requires Holds(m0, o) && Grown(m0, m1, Foot(oc)) && Holds(m1, oc) && Within(m1, m2, Foot(o), Foot(or))
    ensures Holds(m2, oc) && Foot(oc) !! Foot(or)
  {
    FootAllocated(m0, o);
    hide Foot, Holds;
    HoldsFrame(m1, m2, oc);
  }
}
