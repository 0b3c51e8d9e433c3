/** nbt_free and nbt_filter_inplace of src/cNBT/nbt_treeops.c as they work on memory. */
module NbtFilter {
  import opened Wrappers
  import opened NbtTree
  import opened NbtOps
  import opened NbtHeap

  /** The part of a list that an iteration still has in front of it. */
  ghost predicate Ahead(m: Mem, pos: Ptr, es: seq<Ptr>, ks: seq<Obj>, list: Ptr) {
    && IsLink(m, list) && pos == FirstOr(es, list) && (es != [] ==> Seg(m, pos, es[1..], list))
    && Datas(m, es, ks) && HoldsAll(m, ks) && SepAll(ks)
    && Distinct(es) && list !in es && list !in FootAll(ks) && Elems(es) !! FootAll(ks)
  }

  lemma {:induction false} AheadStart(m: Mem, o: Obj)
    requires o.Branch? && Holds(m, o) && Sep(o)
    ensures IsLink(m, o.head) && Ahead(m, m[o.head].flink, o.entries, o.kids, o.head)
  {
    SegEnds(m, o.head, o.entries, o.head);
  }

  lemma {:induction false} AheadStep(m: Mem, pos: Ptr, es: seq<Ptr>, ks: seq<Obj>, list: Ptr)
    requires Ahead(m, pos, es, ks, list) && es != []
    ensures |es| == |ks| && IsLink(m, pos) && m[pos].Entry? && m[pos].data == ks[0].at && pos != list
    ensures Ahead(m, m[pos].flink, es[1..], ks[1..], list)
    ensures pos !in es[1..] && pos !in FootAll(ks) && Holds(m, ks[0]) && Sep(ks[0]) && Foot(ks[0]) !! FootAll(ks[1..])
    ensures Foot(ks[0]) !! Elems(es) && list !in Foot(ks[0])
    ensures IsLink(m, m[pos].flink) && m[m[pos].flink].blink == pos && m[pos].flink == FirstOr(es[1..], list)
    ensures Elems(es) == {pos} + Elems(es[1..]) && FootAll(ks) == Foot(ks[0]) + FootAll(ks[1..])
  {
    assert es == [pos] + es[1..];
    SegEnds(m, pos, es[1..], list);
    hide Holds, Foot, Sep;
  }

  lemma {:induction false} AheadEnd(m: Mem, pos: Ptr, es: seq<Ptr>, ks: seq<Obj>, list: Ptr)
    requires Ahead(m, pos, es, ks, list)
    ensures pos == list <==> es == []
    ensures |es| == |ks| && IsLink(m, pos) && (es == [] ==> FootAll(ks) == {} && Elems(es) == {})
  {
    if es != [] { SegEnds(m, pos, es[1..], list); }
  }

  lemma {:induction false} Minus(m: Mem, m': Mem, gone: set<Ptr>, o: Obj)
    requires m' == m - gone && Holds(m, o) && gone !! Foot(o)
    ensures Holds(m', o)
  {
    HoldsFrame(m, m', o);
  }

  class Heap {
    var mem: Mem

    /** nbt_free: exactly the blocks of the tree are released, each once. */
    method Free(p: Ptr, ghost o: Obj)
      requires Holds(mem, o) && Sep(o) && p == o.at
      modifies this
      ensures mem == old(mem) - Foot(o)
      decreases o, 1
    {
      FootAllocated(mem, o);
      if mem[p].Holder? {
        FreeList(mem[p].list, o);
      }
      mem := mem - {p};
    }

    method FreeList(list: Ptr, ghost o: Obj)
      requires o.Branch? && list == o.head && Holds(mem, o) && Sep(o)
      modifies this
      ensures mem == old(mem) - (Foot(o) - {o.at})
      decreases o, 0
    {
      hide Ahead, Freeing, Holds, Sep, IsLink, Foot, FootAll, Elems;
      ghost var m0, k, gone: set<Ptr> := mem, 0, {};
      AheadStart(mem, o);
      FreeingStart(m0, o);
      var pos := mem[list].flink;
      assert o.entries[0..] == o.entries && o.kids[0..] == o.kids;
      while pos != list
        invariant 0 <= k <= |o.entries| == |o.kids| && Ahead(m0, pos, o.entries[k..], o.kids[k..], list)
        invariant Freeing(m0, mem, gone, o.entries[k..], o.kids[k..], o)
        decreases |o.entries| - k
      {
        ghost var es, ks := o.entries[k..], o.kids[k..];
        FreeingStep(m0, mem, gone, pos, es, ks, o);
        assert es[1..] == o.entries[k + 1..] && ks[1..] == o.kids[k + 1..] && ks[0] == o.kids[k];
        var n := mem[pos].flink;
        Free(mem[pos].data, ks[0]);
        mem := mem - {pos};
        gone, k := gone + Foot(ks[0]) + {pos}, k + 1;
        pos := n;
      }
      FreedAll(m0, mem, gone, pos, o.entries[k..], o.kids[k..], o);
      mem := mem - {list};
    }

    /** list_del of include/cNBT/list.h: the neighbours are linked to each other. */
    method ListDel(loc: Ptr)
      requires IsLink(mem, loc) && IsLink(mem, mem[loc].flink) && IsLink(mem, mem[loc].blink)
      requires mem[loc].flink != loc && mem[loc].blink != loc
      modifies this
      ensures loc in mem && mem - {loc} == Deleted(old(mem), old(mem)[loc].blink, loc, old(mem)[loc].flink)
    {
      mem := SetBlink(mem, mem[loc].flink, mem[loc].blink);
      mem := SetFlink(mem, mem[loc].blink, mem[loc].flink);
      mem := SetFlink(mem, loc, NULL);
      mem := SetBlink(mem, loc, NULL);
    }

    /** nbt_filter_inplace. The tree that is left is the filtered tree, in the blocks it had;
        exactly the blocks of what was filtered out are released; nothing else is touched. */
    method FilterInPlace(test: (Mem, Ptr) -> bool, p: Ptr, ghost keep: Node -> bool, ghost o: Obj) returns (r: Ptr, ghost o': Obj)
      requires Looks(test, keep) && Holds(mem, o) && Sep(o) && p == o.at
      modifies this
      ensures r == if Filter(keep, TreeOf(o)).Some? then p else NULL
      ensures r == NULL ==> mem == old(mem) - Foot(o)
      ensures r != NULL ==> Holds(mem, o') && Sep(o') && o'.at == r && Some(TreeOf(o')) == Filter(keep, TreeOf(o))
      ensures r != NULL ==> Within(old(mem), mem, Foot(o), Foot(o'))
      decreases o, 2
    {
      hide Looks, Foot, Within;
      o' := o;
      Looked(test, keep, mem, o);
      if !test(mem, p) {
        Free(p, o);
        return NULL, o;
      }
      ObjFacts(mem, o);
      if !mem[p].Holder? {
        return p, o;
      }
      ghost var de, dk := FilterEntries(test, mem[p].list, keep, o);
      o' := Branch(o.at, o.name, o.isList, o.head, o.elem, de, dk);
      r := p;
    }

    /** The loop over the entries of a list or compound. */
    method FilterEntries(test: (Mem, Ptr) -> bool, list: Ptr, ghost keep: Node -> bool, ghost o: Obj)
      returns (ghost de: seq<Ptr>, ghost dk: seq<Obj>)
      requires Looks(test, keep) && o.Branch? && list == o.head && Holds(mem, o) && Sep(o)
      modifies this
      ensures var o' := Branch(o.at, o.name, o.isList, o.head, o.elem, de, dk);
        Holds(mem, o') && Sep(o') && Within(old(mem), mem, Foot(o), Foot(o')) && TreesOf(dk) == FilterAll(keep, TreesOf(o.kids))
      decreases o, 1
    {
      StartFiltering(mem, o);
      hide Looks, Filtering, Holds, Sep, Foot, Within, IsLink, TreesOf, FilterAll;
      ghost var m0, k := mem, 0;
      var pos := mem[list].flink;
      de, dk := [], [];
      assert o.entries[0..] == o.entries && o.kids[0..] == o.kids;
      TreesStart(keep, o.kids);
      while pos != list
        invariant 0 <= k <= |o.entries| == |o.kids|
        invariant Filtering(m0, mem, o, de, dk, pos, o.entries[k..], o.kids[k..])
        invariant TreesOf(dk) + FilterAll(keep, TreesOf(o.kids[k..])) == FilterAll(keep, TreesOf(o.kids))
        decreases |o.entries| - k
      {
        FilteringAt(m0, mem, o, de, dk, pos, o.entries[k..], o.kids[k..]);
        pos, de, dk := FilterEntry(test, pos, keep, o, m0, k, de, dk);
        k := k + 1;
      }
      EndFiltering(m0, mem, o, de, dk, pos, o.entries[k..], o.kids[k..]);
      TreesEnd(keep, dk);
    }

    /** One turn of that loop; the next entry is read before this one may be freed. */
    method FilterEntry(test: (Mem, Ptr) -> bool, pos: Ptr, ghost keep: Node -> bool, ghost o: Obj, ghost m0: Mem, ghost k: nat,
                       ghost de: seq<Ptr>, ghost dk: seq<Obj>)
      returns (n: Ptr, ghost de': seq<Ptr>, ghost dk': seq<Obj>)
      requires Looks(test, keep) && o.Branch? && k < |o.entries| == |o.kids|
      requires Filtering(m0, mem, o, de, dk, pos, o.entries[k..], o.kids[k..])
      modifies this
      ensures Filtering(m0, mem, o, de', dk', n, o.entries[k + 1..], o.kids[k + 1..])
      ensures TreesOf(dk') + FilterAll(keep, TreesOf(o.kids[k + 1..])) == TreesOf(dk) + FilterAll(keep, TreesOf(o.kids[k..]))
      decreases o, 0
    {
      hide Looks, Filtering, Holds, Sep, Foot, Within, IsLink, Deleted, TreesOf, FilterAll, Filter;
      ghost var es, ks, m := o.entries[k..], o.kids[k..], mem;
      FilteringAt(m0, mem, o, de, dk, pos, es, ks);
      assert es[1..] == o.entries[k + 1..] && ks[1..] == o.kids[k + 1..] && ks[0] == o.kids[k];
      n := mem[pos].flink;
      var r;
      ghost var kid;
      r, kid := FilterInPlace(test, mem[pos].data, keep, ks[0]);
      if r == NULL {
        IterDrop(m0, m, mem, o, de, dk, pos, es, ks);
        mem := mem[pos := mem[pos].(data := r)];
        DropEntry(pos);
        TreesStep(keep, dk, ks);
        de', dk' := de, dk;
      } else {
        IterKeep(m0, m, mem, o, de, dk, pos, es, ks, kid);
        mem := mem[pos := mem[pos].(data := r)];
        TreesKeep(keep, dk, ks, kid);
        de', dk' := de + [pos], dk + [kid];
      }
    }

    method DropEntry(pos: Ptr)
      requires pos in mem && mem[pos].Entry? && IsLink(mem, mem[pos].flink) && IsLink(mem, mem[pos].blink)
      requires mem[pos].flink != pos && mem[pos].blink != pos
      modifies this
      ensures mem == Deleted(old(mem), old(mem)[pos].blink, pos, old(mem)[pos].flink)
    {
      hide Deleted;
      ListDel(pos);
      mem := mem - {pos};
    }
  }

  lemma {:induction false} Looked(test: (Mem, Ptr) -> bool, keep: Node -> bool, m: Mem, o: Obj)
    requires Looks(test, keep) && Holds(m, o)
    ensures test(m, o.at) == keep(TreeOf(o)) && o.at in m
  {
  }

  lemma {:induction false} ObjFacts(m: Mem, o: Obj)
    requires Holds(m, o) && Sep(o)
    ensures o.at in m && o.at != NULL && (m[o.at].Holder? <==> o.Branch?) && Within(m, m, Foot(o), Foot(o))
    ensures o.Branch? ==> m[o.at].list == o.head
    ensures o.Flat? ==> !o.body.List? && !o.body.Compound?
  {
  }

  lemma {:induction false} TreesStart(keep: Node -> bool, ks: seq<Obj>)
    ensures TreesOf([]) + FilterAll(keep, TreesOf(ks)) == FilterAll(keep, TreesOf(ks))
  {
  }

  lemma {:induction false} TreesEnd(keep: Node -> bool, dk: seq<Obj>)
    ensures TreesOf(dk) + FilterAll(keep, TreesOf([])) == TreesOf(dk)
  {
  }

  lemma {:induction false} TreesFirst(keep: Node -> bool, ks: seq<Obj>)
    requires ks != []
    ensures var first := Filter(keep, TreeOf(ks[0]));
      FilterAll(keep, TreesOf(ks)) == (if first.Some? then [first.value] else []) + FilterAll(keep, TreesOf(ks[1..]))
  {
    assert TreesOf(ks)[0] == TreeOf(ks[0]) && TreesOf(ks)[1..] == TreesOf(ks[1..]);
    hide Filter, TreeOf;
  }

  lemma {:induction false} TreesStep(keep: Node -> bool, dk: seq<Obj>, ks: seq<Obj>)
    requires ks != []
    ensures Filter(keep, TreeOf(ks[0])) == None ==>
      TreesOf(dk) + FilterAll(keep, TreesOf(ks)) == TreesOf(dk) + FilterAll(keep, TreesOf(ks[1..]))
  {
    TreesFirst(keep, ks);
    hide Filter, TreeOf, TreesOf, FilterAll;
    assert [] + FilterAll(keep, TreesOf(ks[1..])) == FilterAll(keep, TreesOf(ks[1..]));
  }

  lemma {:induction false} TreesKeep(keep: Node -> bool, dk: seq<Obj>, ks: seq<Obj>, kid: Obj)
    requires ks != [] && Filter(keep, TreeOf(ks[0])) == Some(TreeOf(kid))
    ensures TreesOf(dk) + FilterAll(keep, TreesOf(ks)) == TreesOf(dk + [kid]) + FilterAll(keep, TreesOf(ks[1..]))
  {
    TreesFirst(keep, ks);
    KidsSnoc(map[], dk, kid);
    hide Filter, TreeOf, TreesOf, FilterAll, FootAll, HoldsAll;
    RegroupNodes(TreesOf(dk), TreeOf(kid), FilterAll(keep, TreesOf(ks[1..])));
  }

  lemma {:induction false} RegroupNodes(a: seq<Node>, x: Node, more: seq<Node>)
    ensures a + ([x] + more) == a + [x] + more
  {
  }

  /** What the loop needs to know to take a step. */
  lemma {:induction false} FilteringAt(m0: Mem, m: Mem, o: Obj, de: seq<Ptr>, dk: seq<Obj>, pos: Ptr, es: seq<Ptr>, ks: seq<Obj>)
    requires Filtering(m0, m, o, de, dk, pos, es, ks)
    ensures |es| == |ks| && (pos == o.head <==> es == [])
    ensures es != [] ==> pos in m && m[pos].Entry? && m[pos].data == ks[0].at && Holds(m, ks[0]) && Sep(ks[0])
  {
    AheadEnd(m, pos, es, ks, o.head);
    if es != [] { AheadStep(m, pos, es, ks, o.head); }
  }

  /** Half-way through nbt_free_list: `gone` is released, es and ks are left. */
  ghost predicate Freeing(m0: Mem, m: Mem, gone: set<Ptr>, es: seq<Ptr>, ks: seq<Obj>, o: Obj)
    requires o.Branch?
  {
    && m == m0 - gone && gone !! FootAll(ks) + Elems(es)
    && gone + FootAll(ks) + Elems(es) == FootAll(o.kids) + Elems(o.entries) && o.head !in gone
  }

  lemma {:induction false} FreeingStart(m: Mem, o: Obj)
    requires o.Branch? && Holds(m, o) && Sep(o)
    ensures Freeing(m, m, {}, o.entries, o.kids, o) && o.head in m && |o.entries| == |o.kids|
  {
    assert m - {} == m;
    hide HoldsAll, SepAll, Seg, FootAll, Elems;
  }

  lemma {:induction false} FreeingStep(m0: Mem, m: Mem, gone: set<Ptr>, pos: Ptr, es: seq<Ptr>, ks: seq<Obj>, o: Obj)
    requires o.Branch? && Freeing(m0, m, gone, es, ks, o) && Ahead(m0, pos, es, ks, o.head) && pos != o.head
    ensures es != [] && ks != [] && pos in m && m[pos].Entry? && m[pos].data == ks[0].at && Holds(m, ks[0]) && Sep(ks[0])
    ensures Ahead(m0, m[pos].flink, es[1..], ks[1..], o.head)
    ensures Freeing(m0, m - Foot(ks[0]) - {pos}, gone + Foot(ks[0]) + {pos}, es[1..], ks[1..], o)
  {
    AheadEnd(m0, pos, es, ks, o.head);
    AheadStep(m0, pos, es, ks, o.head);
    hide Ahead, Holds, Sep, Foot, FootAll, Elems;
    assert pos in Elems(es);
    Minus(m0, m, gone, ks[0]);
    assert m - Foot(ks[0]) - {pos} == m0 - (gone + Foot(ks[0]) + {pos});
  }

  lemma {:induction false} FreedAll(m0: Mem, m: Mem, gone: set<Ptr>, pos: Ptr, es: seq<Ptr>, ks: seq<Obj>, o: Obj)
    requires o.Branch? && Sep(o) && Freeing(m0, m, gone, es, ks, o) && Ahead(m0, pos, es, ks, o.head) && pos == o.head
    ensures m - {o.head} == m0 - (Foot(o) - {o.at})
  {
    AheadEnd(m0, pos, es, ks, o.head);
    hide Ahead, FootAll, Elems, SepAll;
    assert o.at !in Elems(o.entries) by { hide FootAll; assert o.at !in o.entries; NotElem(o.entries, o.at); }
    assert gone == FootAll(o.kids) + Elems(o.entries);
  }

  lemma {:induction false} NotElem(xs: seq<Ptr>, x: Ptr)
    ensures x in xs <==> x in Elems(xs)
  {
  }

  // ------------------------------------------------------- filtering in place

  /** The predicate looks at nothing but the tree it is given. */
  ghost predicate Looks(test: (Mem, Ptr) -> bool, keep: Node -> bool) {
    forall m, o :: Holds(m, o) ==> test(m, o.at) == keep(TreeOf(o))
  }

  /** Memory changed only inside `foot`, of which `foot'` is still allocated. */
  ghost predicate Within(m: Mem, m': Mem, foot: set<Ptr>, foot': set<Ptr>) {
    && foot' <= foot && m'.Keys == m.Keys - (foot - foot')
    && forall q :: q in m' && q !in foot ==> m'[q] == m[q]
  }

  /** Half-way through the loop of nbt_filter_inplace, the finished entries (de, dk) and those
      ahead (es, ks) lie in separate blocks of the original list. */
  ghost predicate Regions(o: Obj, de: seq<Ptr>, dk: seq<Obj>, es: seq<Ptr>, ks: seq<Obj>)
    requires o.Branch?
  {
    var D, E, X, Y := Elems(de), Elems(es), FootAll(dk), FootAll(ks);
    && o.at != o.head && o.at !in D + E + X + Y && o.head !in D + E + X + Y
    && D !! E && D + E !! X + Y && X !! Y
    && Distinct(de) && SepAll(dk) && D + E + X + Y <= Elems(o.entries) + FootAll(o.kids)
  }

  /** The finished part in memory. */
  predicate Behind(m: Mem, o: Obj, de: seq<Ptr>, dk: seq<Obj>, pos: Ptr)
    requires o.Branch?
  {
    && o.at in m && m[o.at] == Holder(o.name, o.isList, o.head)
    && o.head in m && m[o.head].Head? && m[o.head].elem == o.elem
    && Seg(m, o.head, de, pos) && Datas(m, de, dk) && HoldsAll(m, dk)
  }

  function Live(o: Obj, de: seq<Ptr>, dk: seq<Obj>, es: seq<Ptr>, ks: seq<Obj>): set<Ptr>
    requires o.Branch?
  {
    {o.at, o.head} + Elems(de) + Elems(es) + FootAll(dk) + FootAll(ks)
  }

  lemma {:induction false} AheadFrame(m: Mem, m': Mem, pos: Ptr, es: seq<Ptr>, ks: seq<Obj>, list: Ptr)
    requires Ahead(m, pos, es, ks, list) && Agree(m, m', FootAll(ks))
    requires IsLink(m', list) && (es != [] ==> m'[list].blink == m[list].blink)
    requires forall x :: x in es ==> x in m && x in m' && m[x].Entry? && m'[x].Entry?
    requires forall x :: x in es ==> m'[x].data == m[x].data && m'[x].flink == m[x].flink
    requires forall i :: 1 <= i < |es| ==> m'[es[i]].blink == m[es[i]].blink
    ensures Ahead(m', pos, es, ks, list)
  {
    if es != [] {
      SegEnds(m, pos, es[1..], list);
      forall x | x in es[1..] ensures SameLinks(m, m', x) {
        var i :| 0 <= i < |es[1..]| && es[1..][i] == x;
        assert es[i + 1] == x && x in es;
      }
      SegFrame(m, m', pos, es[1..], list);
    }
    HoldsAllFrame(m, m', ks);
    hide Seg, HoldsAll, SepAll, FootAll;
  }

  lemma {:induction false} BehindFrame(m: Mem, m': Mem, o: Obj, de: seq<Ptr>, dk: seq<Obj>, pos: Ptr, pos': Ptr)
    requires o.Branch? && Behind(m, o, de, dk, pos) && Agree(m, m', FootAll(dk) + {o.at})
    requires o.head in m' && m'[o.head].Head? && m'[o.head].elem == m[o.head].elem
    requires forall x :: x in de ==> x in m' && m'[x].Entry? && m'[x].data == m[x].data
    requires Seg(m', o.head, de, pos')
    ensures Behind(m', o, de, dk, pos')
  {
    HoldsAllFrame(m, m', dk);
    hide Seg, HoldsAll, FootAll;
  }

  lemma {:induction false} Compose(m0: Mem, m: Mem, m': Mem, foot: set<Ptr>, a: set<Ptr>, part: set<Ptr>, part': set<Ptr>)
    requires Within(m0, m, foot, a + part) && Within(m, m', part, part') && a !! part
    ensures Within(m0, m', foot, a + part')
  {
  }

  /** What is not in the blocks of the kid being filtered stays. */
  lemma {:induction false} Untouched(m: Mem, m': Mem, foot: set<Ptr>, foot': set<Ptr>, others: set<Ptr>)
    requires Within(m, m', foot, foot') && others !! foot
    ensures Agree(m, m', others)
  {
  }

  lemma {:induction false} SegAgree(m: Mem, m': Mem, a: Ptr, xs: seq<Ptr>, b: Ptr)
    requires Seg(m, a, xs, b) && Agree(m, m', {a, b} + Elems(xs))
    ensures Seg(m', a, xs, b)
  {
    SegEnds(m, a, xs, b);
    forall x | x in xs ensures SameLinks(m, m', x) { SegIn(m, a, xs, b, x); }
    SegFrame(m, m', a, xs, b);
  }

  /** Filtering the next kid leaves the rest of the list alone. */
  lemma {:induction false} KidFiltered(m: Mem, m': Mem, o: Obj, de: seq<Ptr>, dk: seq<Obj>, pos: Ptr, es: seq<Ptr>, ks: seq<Obj>)
    requires o.Branch? && Behind(m, o, de, dk, pos) && Ahead(m, pos, es, ks, o.head) && es != [] && ks != []
    requires Regions(o, de, dk, es, ks) && Agree(m, m', {o.at, o.head} + Elems(de) + Elems(es) + FootAll(dk) + FootAll(ks[1..]))
    ensures pos in m && pos in m' && m[pos].Entry? && m'[pos] == m[pos]
    ensures Behind(m', o, de, dk, pos) && Ahead(m', m[pos].flink, es[1..], ks[1..], o.head)
  {
    AheadStep(m, pos, es, ks, o.head);
    KidBehind(m, m', o, de, dk, pos);
    KidAhead(m, m', m[pos].flink, es[1..], ks[1..], o.head);
  }

  lemma {:induction false} KidBehind(m: Mem, m': Mem, o: Obj, de: seq<Ptr>, dk: seq<Obj>, pos: Ptr)
    requires o.Branch? && Behind(m, o, de, dk, pos) && Agree(m, m', {o.at, o.head, pos} + Elems(de) + FootAll(dk))
    ensures Behind(m', o, de, dk, pos)
  {
    SegAgree(m, m', o.head, de, pos);
    hide Seg, FootAll, HoldsAll;
    forall x | x in de ensures x in m && m[x].Entry? && x in m' && m'[x] == m[x] {
      assert x in Elems(de);
    }
    BehindFrame(m, m', o, de, dk, pos, pos);
  }

  lemma {:induction false} KidAhead(m: Mem, m': Mem, pos: Ptr, es: seq<Ptr>, ks: seq<Obj>, list: Ptr)
    requires Ahead(m, pos, es, ks, list) && Agree(m, m', {list} + Elems(es) + FootAll(ks))
    ensures Ahead(m', pos, es, ks, list)
  {
    hide Seg, FootAll, HoldsAll, SepAll;
    forall x | x in es ensures x in m && m[x].Entry? && x in m' && m'[x] == m[x] {
      assert x in Elems(es);
    }
    forall i | 1 <= i < |es| ensures m'[es[i]].blink == m[es[i]].blink { assert es[i] in es; }
    AheadFrame(m, m', pos, es, ks, list);
  }

  /** Keeping an entry: it moves behind, with what became of its kid. */
  lemma {:induction false} KeepStep(m: Mem, o: Obj, de: seq<Ptr>, dk: seq<Obj>, pos: Ptr, n: Ptr, es: seq<Ptr>, ks: seq<Obj>, kid: Obj)
    requires o.Branch? && Behind(m, o, de, dk, pos) && Ahead(m, n, es, ks, o.head)
    requires pos in m && m[pos].Entry? && m[pos].flink == n && m[pos].data == kid.at && IsLink(m, n) && m[n].blink == pos && Holds(m, kid)
    ensures Behind(m, o, de + [pos], dk + [kid], n)
  {
    SegSnoc(m, o.head, de, pos, n);
    KidsSnoc(m, dk, kid);
    hide Seg, HoldsAll, Holds;
  }

  lemma {:induction false} KeepRegions(m: Mem, o: Obj, de: seq<Ptr>, dk: seq<Obj>, pos: Ptr, es: seq<Ptr>, ks: seq<Obj>, kid: Obj, first: set<Ptr>)
    requires o.Branch? && first !! FootAll(ks) && Foot(kid) <= first
    requires o.at != o.head && o.at !in Elems(de) + Elems(es) + FootAll(dk) + FootAll(ks) + {pos} + first
    requires o.head !in Elems(de) + Elems(es) + FootAll(dk) + FootAll(ks) + {pos} + first
    requires var D, E, X, Y := Elems(de), Elems(es) + {pos}, FootAll(dk), FootAll(ks) + first;
      D !! E && D + E !! X + Y && X !! Y && D + E + X + Y <= Elems(o.entries) + FootAll(o.kids)
    requires pos !in es && Distinct(de) && SepAll(dk) && Sep(kid)
    ensures Regions(o, de + [pos], dk + [kid], es, ks)
    ensures Live(o, de + [pos], dk + [kid], es, ks) == {o.at, o.head} + Elems(de) + {pos} + Elems(es) + FootAll(dk) + FootAll(ks) + Foot(kid)
  {
    hide SepAll, FootAll, Foot, Sep, Elems, Distinct;
    KidsSnoc(m, dk, kid);
    SepSnoc(m, dk, kid);
    EntriesSnoc(de, pos);
    NotElem(es, pos);
  }

  lemma {:induction false} EntriesSnoc(de: seq<Ptr>, pos: Ptr)
    requires Distinct(de) && pos !in Elems(de)
    ensures Elems(de + [pos]) == Elems(de) + {pos} && Distinct(de + [pos])
  {
    assert forall x :: x in de ==> x in Elems(de);
  }

  /** Deleting an entry: its neighbours are linked to each other, all else stays. */
  lemma {:induction false} DelStep(m: Mem, m': Mem, o: Obj, de: seq<Ptr>, dk: seq<Obj>, pos: Ptr, n: Ptr, es: seq<Ptr>, ks: seq<Obj>)
    requires o.Branch? && Behind(m, o, de, dk, pos) && Ahead(m, n, es, ks, o.head)
    requires pos in m && m[pos].Entry? && m[pos].flink == n && IsLink(m, n)
    requires IsLink(m, m[pos].blink) && m' == Deleted(m, m[pos].blink, pos, n)
    requires Regions(o, de, dk, [pos] + es, ks) && pos !in es
    ensures Behind(m', o, de, dk, n) && Ahead(m', n, es, ks, o.head)
  {
    SegEnds(m, o.head, de, pos);
    var p := LastOr(o.head, de);
    assert pos in Elems([pos] + es) && pos in [pos] + es;
    assert forall x :: x in es ==> x in Elems([pos] + es) && x !in de by {
      forall x | x in es ensures x in Elems([pos] + es) && x !in de {
        assert x in [pos] + es;
        NotElem(de, x);
      }
    }
    assert pos !in de && o.head !in de && pos != o.head by {
      assert pos !in Elems(de) && o.head !in Elems(de);
    }
    DelBehind(m, m', o, de, dk, pos, n, p);
    DelAhead(m, m', o.head, pos, n, p, es, ks);
  }

  lemma {:induction false} DelBehind(m: Mem, m': Mem, o: Obj, de: seq<Ptr>, dk: seq<Obj>, pos: Ptr, n: Ptr, p: Ptr)
    requires o.Branch? && Behind(m, o, de, dk, pos) && IsLink(m, pos) && IsLink(m, n) && IsLink(m, p) && p == m[pos].blink == LastOr(o.head, de)
    requires m' == Deleted(m, p, pos, n) && pos != o.head && pos != n && pos !in de && n !in de && o.head !in de && Distinct(de)
    requires pos !in FootAll(dk) + {o.at} && p !in FootAll(dk) + {o.at} && n !in FootAll(dk) + {o.at}
    ensures Behind(m', o, de, dk, n)
  {
    SegCut(m, m', o.head, de, pos, n);
    hide Seg, FootAll, HoldsAll;
    forall x | x in de ensures x in m' && m'[x].Entry? && m'[x].data == m[x].data {
      var i :| 0 <= i < |de| && de[i] == x;
    }
    BehindFrame(m, m', o, de, dk, pos, n);
  }

  lemma {:induction false} DelAhead(m: Mem, m': Mem, list: Ptr, pos: Ptr, n: Ptr, p: Ptr, es: seq<Ptr>, ks: seq<Obj>)
    requires Ahead(m, n, es, ks, list) && IsLink(m, pos) && IsLink(m, n) && IsLink(m, p) && m' == Deleted(m, p, pos, n)
    requires pos != list && pos !in es && p !in es
    requires pos !in FootAll(ks) && p !in FootAll(ks) && n !in FootAll(ks)
    ensures Ahead(m', n, es, ks, list)
  {
    hide Seg, FootAll, HoldsAll, SepAll;
    forall x | x in es ensures x in m && m[x].Entry? && x in m' && m'[x].Entry? && m'[x].data == m[x].data && m'[x].flink == m[x].flink {
      var i :| 0 <= i < |es| && es[i] == x;
    }
    forall i | 1 <= i < |es| ensures m'[es[i]].blink == m[es[i]].blink { assert es[i] in es && es[i] != es[0]; }
    AheadFrame(m, m', n, es, ks, list);
  }

  /** Where the loop of nbt_filter_inplace is. */
  ghost predicate Filtering(m0: Mem, m: Mem, o: Obj, de: seq<Ptr>, dk: seq<Obj>, pos: Ptr, es: seq<Ptr>, ks: seq<Obj>) {
    && o.Branch? && Behind(m, o, de, dk, pos) && Ahead(m, pos, es, ks, o.head)
    && Regions(o, de, dk, es, ks) && Within(m0, m, Foot(o), Live(o, de, dk, es, ks))
  }

  lemma {:induction false} StartFiltering(m: Mem, o: Obj)
    requires o.Branch? && Holds(m, o) && Sep(o)
    ensures o.head in m && IsLink(m, o.head) && |o.entries| == |o.kids| && Filtering(m, m, o, [], [], m[o.head].flink, o.entries, o.kids)
  {
    AheadStart(m, o);
    SegEnds(m, o.head, o.entries, o.head);
    NotElem(o.entries, o.at);
    NotElem(o.entries, o.head);
    hide Ahead;
    StartBehind(m, o);
    assert Foot(o) == Live(o, [], [], o.entries, o.kids);
    hide Behind, HoldsAll, Seg, SepAll;
  }

  lemma {:induction false} StartBehind(m: Mem, o: Obj)
    requires o.Branch? && Holds(m, o) && IsLink(m, o.head)
    ensures Behind(m, o, [], [], m[o.head].flink)
  {
  }

  /** Everything but the blocks of the next kid. */
  function Others(o: Obj, de: seq<Ptr>, dk: seq<Obj>, es: seq<Ptr>, ks: seq<Obj>): set<Ptr>
    requires o.Branch? && ks != []
  {
    {o.at, o.head} + Elems(de) + Elems(es) + FootAll(dk) + FootAll(ks[1..])
  }

  lemma {:induction false} OthersApart(m: Mem, o: Obj, de: seq<Ptr>, dk: seq<Obj>, pos: Ptr, es: seq<Ptr>, ks: seq<Obj>)
    requires o.Branch? && Ahead(m, pos, es, ks, o.head) && Regions(o, de, dk, es, ks) && es != [] && ks != []
    ensures Others(o, de, dk, es, ks) !! Foot(ks[0])
    ensures Live(o, de, dk, es, ks) == Others(o, de, dk, es, ks) + Foot(ks[0])
    ensures pos in Others(o, de, dk, es, ks)
  {
    AheadStep(m, pos, es, ks, o.head);
    hide Ahead, Foot, FootAll, SepAll, Elems, Distinct, Holds;
  }

  /** Filtering the next kid, then writing its entry's data pointer. */
  lemma {:induction false} IterData(m: Mem, m1: Mem, o: Obj, de: seq<Ptr>, dk: seq<Obj>, pos: Ptr, es: seq<Ptr>, ks: seq<Obj>, foot': set<Ptr>, r: Ptr)
    requires o.Branch? && Behind(m, o, de, dk, pos) && Ahead(m, pos, es, ks, o.head) && es != [] && ks != []
    requires Regions(o, de, dk, es, ks) && Within(m, m1, Foot(ks[0]), foot')
    ensures pos in m && pos in m1 && m[pos].Entry? && m1[pos] == m[pos]
    ensures var m2 := m1[pos := m1[pos].(data := r)]; var n := m[pos].flink;
      && Behind(m2, o, de, dk, pos) && Ahead(m2, n, es[1..], ks[1..], o.head)
      && IsLink(m2, n) && m2[n].blink == pos && IsLink(m2, m2[pos].blink)
  {
    OthersApart(m, o, de, dk, pos, es, ks);
    Untouched(m, m1, Foot(ks[0]), foot', Others(o, de, dk, es, ks));
    hide Within, Live;
    KidFiltered(m, m1, o, de, dk, pos, es, ks);
    AheadStep(m, pos, es, ks, o.head);
    var n := m[pos].flink;
    PosApart(o, de, dk, pos, es, ks);
    hide Regions;
    SetData(m1, m1[pos := m1[pos].(data := r)], o, de, dk, pos, n, es[1..], ks[1..], r);
    hide Behind, Foot, FootAll, SepAll, Elems, Holds;
    assert n in {o.head} || n in es[1..];
    SegEnds(m1[pos := m1[pos].(data := r)], o.head, de, pos) by { hide Ahead; }
  }

  lemma {:induction false} PosApart(o: Obj, de: seq<Ptr>, dk: seq<Obj>, pos: Ptr, es: seq<Ptr>, ks: seq<Obj>)
    requires o.Branch? && Regions(o, de, dk, es, ks) && pos in es
    ensures pos != o.at && pos != o.head && pos !in de && pos !in FootAll(dk) && pos !in FootAll(ks)
  {
    NotElem(es, pos);
    NotElem(de, pos);
    hide FootAll, SepAll, Elems;
  }

  /** Writing the data pointer of the current entry. */
  lemma {:induction false} SetData(m: Mem, m': Mem, o: Obj, de: seq<Ptr>, dk: seq<Obj>, pos: Ptr, n: Ptr, es: seq<Ptr>, ks: seq<Obj>, r: Ptr)
    requires o.Branch? && Behind(m, o, de, dk, pos) && Ahead(m, n, es, ks, o.head)
    requires pos in m && m[pos].Entry? && m' == m[pos := m[pos].(data := r)]
    requires pos != o.at && pos != o.head && pos !in de && pos !in es && pos !in FootAll(dk) && pos !in FootAll(ks)
    ensures Behind(m', o, de, dk, pos) && Ahead(m', n, es, ks, o.head)
  {
    SegEnds(m, o.head, de, pos);
    forall x | x in de ensures SameLinks(m, m', x) { SegIn(m, o.head, de, pos, x); }
    SegFrame(m, m', o.head, de, pos);
    BehindFrame(m, m', o, de, dk, pos, pos);
    KidAhead(m, m', n, es, ks, o.head);
  }

  /** The kid survives: its entry is finished. */
  lemma {:induction false} IterKeep(m0: Mem, m: Mem, m1: Mem, o: Obj, de: seq<Ptr>, dk: seq<Obj>, pos: Ptr, es: seq<Ptr>, ks: seq<Obj>, kid: Obj)
    requires Filtering(m0, m, o, de, dk, pos, es, ks) && es != [] && ks != []
    requires Within(m, m1, Foot(ks[0]), Foot(kid)) && Holds(m1, kid) && Sep(kid)
    ensures pos in m && pos in m1 && m[pos].Entry? && m1[pos] == m[pos]
    ensures Filtering(m0, m1[pos := m1[pos].(data := kid.at)], o, de + [pos], dk + [kid], m[pos].flink, es[1..], ks[1..])
  {
    hide Ahead, Behind, Foot, FootAll, SepAll, Holds, Sep, Elems, Seg, HoldsAll, Regions, Within, Live, Others, IsLink;
    IterData(m, m1, o, de, dk, pos, es, ks, Foot(kid), kid.at);
    var m2, n := m1[pos := m1[pos].(data := kid.at)], m[pos].flink;
    AheadStep(m, pos, es, ks, o.head);
    WithinFoot(m, m1, Foot(ks[0]), Foot(kid));
    KidStays(m1, m2, pos, kid, Foot(ks[0]), FootAll(ks));
    KeepStep(m2, o, de, dk, pos, n, es[1..], ks[1..], kid);
    IterRegions(m, o, de, dk, pos, es, ks, kid);
    OthersApart(m, o, de, dk, pos, es, ks);
    Compose(m0, m, m1, Foot(o), Others(o, de, dk, es, ks), Foot(ks[0]), Foot(kid));
    WithinSet(m0, m1, m2, Foot(o), Others(o, de, dk, es, ks) + Foot(kid), pos);
  }

  lemma {:induction false} WithinFoot(m: Mem, m': Mem, foot: set<Ptr>, foot': set<Ptr>)
    requires Within(m, m', foot, foot')
    ensures foot' <= foot
  {
  }

  lemma {:induction false} WithinSet(m0: Mem, m: Mem, m': Mem, foot: set<Ptr>, live: set<Ptr>, pos: Ptr)
    requires Within(m0, m, foot, live) && pos in m && pos in live && pos in m' && m' == m[pos := m'[pos]]
    ensures Within(m0, m', foot, live)
  {
  }

  lemma {:induction false} KidStays(m: Mem, m': Mem, pos: Ptr, kid: Obj, first: set<Ptr>, all: set<Ptr>)
    requires Holds(m, kid) && Foot(kid) <= first <= all && pos !in all && pos in m && pos in m' && m' == m[pos := m'[pos]]
    ensures Holds(m', kid)
  {
    HoldsFrame(m, m', kid);
  }

  lemma {:induction false} IterRegions(m: Mem, o: Obj, de: seq<Ptr>, dk: seq<Obj>, pos: Ptr, es: seq<Ptr>, ks: seq<Obj>, kid: Obj)
    requires o.Branch? && Ahead(m, pos, es, ks, o.head) && Regions(o, de, dk, es, ks) && es != [] && ks != []
    requires Foot(kid) <= Foot(ks[0]) && Sep(kid)
    ensures Regions(o, de + [pos], dk + [kid], es[1..], ks[1..])
    ensures Live(o, de + [pos], dk + [kid], es[1..], ks[1..]) == Others(o, de, dk, es, ks) + Foot(kid)
  {
    AheadStep(m, pos, es, ks, o.head);
    hide Ahead, Foot, FootAll, SepAll, Holds, Sep, Elems;
    KeepRegions(m, o, de, dk, pos, es[1..], ks[1..], kid, Foot(ks[0]));
  }

  /** The kid is gone: its entry is unlinked and freed. */
  lemma {:induction false} IterDrop(m0: Mem, m: Mem, m1: Mem, o: Obj, de: seq<Ptr>, dk: seq<Obj>, pos: Ptr, es: seq<Ptr>, ks: seq<Obj>)
    requires Filtering(m0, m, o, de, dk, pos, es, ks) && es != [] && ks != [] && m1 == m - Foot(ks[0])
    ensures pos in m && pos in m1 && m[pos].Entry? && m1[pos] == m[pos]
    ensures var m2 := m1[pos := m1[pos].(data := NULL)]; var p, n := m2[pos].blink, m2[pos].flink;
      && IsLink(m2, p) && IsLink(m2, n) && p != pos && n != pos
      && Filtering(m0, Deleted(m2, p, pos, n), o, de, dk, n, es[1..], ks[1..])
  {
    hide Ahead, Behind, Foot, FootAll, SepAll, Elems, Regions, Within, Live, Others, IsLink, Deleted;
    GoneWithin(m, m1, Foot(ks[0]));
    IterData(m, m1, o, de, dk, pos, es, ks, {}, NULL);
    var m2 := m1[pos := m1[pos].(data := NULL)];
    var p, n := m2[pos].blink, m2[pos].flink;
    DropRegions(m, m2, o, de, dk, pos, es, ks);
    DelStep(m2, Deleted(m2, p, pos, n), o, de, dk, pos, n, es[1..], ks[1..]);
    DropWithin(m0, m, m1, m2, o, de, dk, pos, es, ks, p, n);
  }

  lemma {:induction false} DropWithin(m0: Mem, m: Mem, m1: Mem, m2: Mem, o: Obj, de: seq<Ptr>, dk: seq<Obj>, pos: Ptr, es: seq<Ptr>, ks: seq<Obj>, p: Ptr, n: Ptr)
    requires o.Branch? && Ahead(m, pos, es, ks, o.head) && Regions(o, de, dk, es, ks) && es != [] && ks != []
    requires Within(m0, m, Foot(o), Live(o, de, dk, es, ks)) && Within(m, m1, Foot(ks[0]), {})
    requires pos in m1 && pos in m2 && m2 == m1[pos := m2[pos]] && IsLink(m2, p) && IsLink(m2, n) && p != pos && n != pos
    requires p in Others(o, de, dk, es, ks) && n in Others(o, de, dk, es, ks)
    ensures Within(m0, Deleted(m2, p, pos, n), Foot(o), Others(o, de, dk, es, ks) - {pos})
  {
    OthersApart(m, o, de, dk, pos, es, ks);
    hide Ahead, Foot, FootAll, Regions, Within, Live, Others, IsLink, Deleted;
    var others := Others(o, de, dk, es, ks);
    Compose(m0, m, m1, Foot(o), others, Foot(ks[0]), {});
    assert others + {} == others;
    WithinSet(m0, m1, m2, Foot(o), others, pos);
    WithinDel(m0, m2, Deleted(m2, p, pos, n), Foot(o), others, p, pos, n);
  }

  lemma {:induction false} GoneWithin(m: Mem, m': Mem, foot: set<Ptr>)
    requires m' == m - foot
    ensures Within(m, m', foot, {})
  {
  }

  lemma {:induction false} WithinDel(m0: Mem, m: Mem, m': Mem, foot: set<Ptr>, live: set<Ptr>, p: Ptr, pos: Ptr, n: Ptr)
    requires Within(m0, m, foot, live) && p in live && pos in live && n in live && p != pos && n != pos
    requires IsLink(m, p) && IsLink(m, n) && m' == Deleted(m, p, pos, n)
    ensures Within(m0, m', foot, live - {pos})
  {
  }

  lemma {:induction false} DropRegions(m: Mem, m2: Mem, o: Obj, de: seq<Ptr>, dk: seq<Obj>, pos: Ptr, es: seq<Ptr>, ks: seq<Obj>)
    requires o.Branch? && Ahead(m, pos, es, ks, o.head) && Regions(o, de, dk, es, ks) && es != [] && ks != []
    requires Behind(m2, o, de, dk, pos) && pos in m && pos in m2 && m[pos].Entry? && m2[pos].Entry? && m2[pos].flink == m[pos].flink
    ensures pos !in es[1..] && Regions(o, de, dk, [pos] + es[1..], ks[1..]) && Regions(o, de, dk, es[1..], ks[1..])
    ensures var p, n, others := m2[pos].blink, m2[pos].flink, Others(o, de, dk, es, ks);
      && p in others && n in others && p != pos && n != pos && Live(o, de, dk, es[1..], ks[1..]) == others - {pos}
  {
    AheadStep(m, pos, es, ks, o.head);
    assert [pos] + es[1..] == es;
    SegEnds(m2, o.head, de, pos);
    PosApart(o, de, dk, pos, es, ks);
    hide Ahead, Behind, Foot, FootAll, SepAll, Holds, Seg, Elems, LastOr, FirstOr, Distinct;
    LastIn(de, o.head);
    FirstIn(es[1..], o.head);
    NotElem(es[1..], pos);
    NotElem(de, pos);
  }

  lemma {:induction false} LastIn(xs: seq<Ptr>, a: Ptr)
    ensures LastOr(a, xs) in {a} + Elems(xs)
  {
  }

  lemma {:induction false} FirstIn(xs: seq<Ptr>, b: Ptr)
    ensures FirstOr(xs, b) in {b} + Elems(xs)
  {
  }

  /** The loop is done: what is left is an object again. */
  lemma {:induction false} EndFiltering(m0: Mem, m: Mem, o: Obj, de: seq<Ptr>, dk: seq<Obj>, pos: Ptr, es: seq<Ptr>, ks: seq<Obj>)
    requires Filtering(m0, m, o, de, dk, pos, es, ks) && pos == o.head && o.at != NULL
    ensures es == [] && ks == []
    ensures var o' := Branch(o.at, o.name, o.isList, o.head, o.elem, de, dk);
      Holds(m, o') && Sep(o') && Within(m0, m, Foot(o), Foot(o'))
  {
    AheadEnd(m, pos, es, ks, o.head);
    NotElem(de, o.at);
    NotElem(de, o.head);
    hide Ahead, SepAll, HoldsAll, Seg, Elems, FootAll;
    assert Foot(Branch(o.at, o.name, o.isList, o.head, o.elem, de, dk)) == Live(o, de, dk, es, ks);
  }
}
