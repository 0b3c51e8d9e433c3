/** HASH_SRT of include/uthash.h as it runs: a bottom-up mergesort that relinks the
    insertion-order list in place, with no other storage. */
module UtSort {
  import opened UtList
  import S = UtSortSpec

  predicate Apart(a: seq<Ptr>, b: seq<Ptr>) {
    forall i :: 0 <= i < |a| ==> a[i] !in b
  }

  /** Consecutive items are linked; what the last one points to does not matter. */
  predicate Inner(next: Links, xs: seq<Ptr>) {
    Mapped(next, xs) && forall i {:trigger next[xs[i]]} :: 0 <= i < |xs| - 1 ==> next[xs[i]] == xs[i + 1]
  }

  /** During a pass: the merged output, the rest of the left run, and everything behind it. */
  predicate Merging(next: Links, prev: Links, out: seq<Ptr>, p: seq<Ptr>, rest: seq<Ptr>) {
    && Distinct(out) && Distinct(p) && Distinct(rest)
    && Apart(out, p) && Apart(out, rest) && Apart(p, rest)
    && Inner(next, out) && Backward(prev, out)
    && Inner(next, p) && Mapped(prev, p)
    && Forward(next, rest) && Mapped(prev, rest)
  }

  function Last(xs: seq<Ptr>): Ptr { Item(xs, |xs| - 1) }

  // The two ways an item moves to the output, part by part.

  lemma {:induction false} OutGrows(next: Links, prev: Links, out: seq<Ptr>, e: Ptr)
    requires Distinct(out) && Inner(next, out) && Backward(prev, out) && e !in out && e != NULL && e in next
    ensures var next', prev' := Link(next, Last(out), e), prev[e := Last(out)];
      Distinct(out + [e]) && Inner(next', out + [e]) && Backward(prev', out + [e])
  {
    var xs, next', prev' := out + [e], Link(next, Last(out), e), prev[e := Last(out)];
    forall i | 0 <= i < |xs| ensures xs[i] in next' && (i < |xs| - 1 ==> next'[xs[i]] == xs[i + 1]) {
      if i < |out| - 1 { Differ(out, i, |out| - 1); }
    }
    forall i | 0 <= i < |xs| ensures xs[i] in prev' && prev'[xs[i]] == Item(xs, i - 1) {
      if i < |out| { assert out[i] in out; BackwardAt(prev, out, i); }
    }
  }

  lemma {:induction false} InnerFrame(next: Links, xs: seq<Ptr>, x: Ptr, y: Ptr)
    requires Inner(next, xs) && x !in xs
    ensures Inner(Link(next, x, y), xs)
  {
  }

  lemma {:induction false} InnerTail(next: Links, xs: seq<Ptr>)
    requires Inner(next, xs) && Distinct(xs) && xs != []
    ensures Inner(next, xs[1..]) && Distinct(xs[1..]) && xs[0] !in xs[1..] && (|xs| > 1 ==> next[xs[0]] == xs[1])
  {
  }

  lemma {:induction false} LastNotIn(out: seq<Ptr>, b: seq<Ptr>)
    requires Apart(out, b) && NULL !in b
    ensures Last(out) !in b
  {
  }

  lemma {:induction false} EmitLeft(next: Links, prev: Links, out: seq<Ptr>, p: seq<Ptr>, rest: seq<Ptr>)
    requires Merging(next, prev, out, p, rest) && p != []
    ensures Merging(Link(next, Last(out), p[0]), prev[p[0] := Last(out)], out + [p[0]], p[1..], rest)
    ensures p[0] in next && (|p| > 1 ==> next[p[0]] == p[1])
  {
    var e := p[0];
    InnerTail(next, p);
    LastNotIn(out, p);
    LastNotIn(out, rest);
    OutGrows(next, prev, out, e);
    assert Last(out) !in p[1..];
    InnerFrame(next, p[1..], Last(out), e);
    ForwardFrame(next, rest, Last(out), e);
    hide Inner, Forward, Backward, Distinct, Link, Last;
  }

  lemma {:induction false} EmitRight(next: Links, prev: Links, out: seq<Ptr>, p: seq<Ptr>, rest: seq<Ptr>)
    requires Merging(next, prev, out, p, rest) && rest != []
    ensures Merging(Link(next, Last(out), rest[0]), prev[rest[0] := Last(out)], out + [rest[0]], p, rest[1..])
    ensures rest[0] in next && next[rest[0]] == Item(rest, 1)
  {
    var e := rest[0];
    ForwardTail(next, rest);
    LastNotIn(out, p);
    LastNotIn(out, rest);
    OutGrows(next, prev, out, e);
    assert Last(out) !in rest[1..];
    InnerFrame(next, p, Last(out), e);
    ForwardFrame(next, rest[1..], Last(out), e);
    hide Inner, Forward, Backward, Distinct, Link, Last;
  }

  /** Looking at the first m items as the left run changes nothing. */
  lemma {:induction false} CutRun(next: Links, prev: Links, out: seq<Ptr>, xs: seq<Ptr>, m: nat)
    requires Merging(next, prev, out, [], xs) && m <= |xs|
    ensures Merging(next, prev, out, xs[..m], xs[m..]) && Item(xs, m) == Item(xs[m..], 0)
  {
    CutForward(next, xs, m);
    hide Forward, Inner;
  }

  lemma {:induction false} CutForward(next: Links, xs: seq<Ptr>, m: nat)
    requires Forward(next, xs) && m <= |xs|
    ensures Inner(next, xs[..m]) && Forward(next, xs[m..])
  {
    forall i | 0 <= i < |xs| - m ensures xs[m..][i] in next && next[xs[m..][i]] == Item(xs[m..], i + 1) {
      assert xs[m..][i] == xs[m + i];
    }
  }

  lemma {:induction false} MergeLeft(le: (Ptr, Ptr) -> bool, p: seq<Ptr>, q: seq<Ptr>)
    requires p != [] && (q == [] || le(p[0], q[0]))
    ensures S.Merge(le, p, q) == [p[0]] + S.Merge(le, p[1..], q)
  {
    if q == [] { assert p == [p[0]] + p[1..]; }
  }

  lemma {:induction false} MergeRight(le: (Ptr, Ptr) -> bool, p: seq<Ptr>, q: seq<Ptr>)
    requires q != [] && (p == [] || !le(p[0], q[0]))
    ensures S.Merge(le, p, q) == [q[0]] + S.Merge(le, p, q[1..])
  {
    if p == [] { assert q == [q[0]] + q[1..]; }
  }

  lemma {:induction false} Shift(out: seq<Ptr>, x: Ptr, more: seq<Ptr>)
    ensures out + ([x] + more) == out + [x] + more
  {
  }

  /** The insertion-order list: `next` and `prev` of every item, the user's head pointer and
      the table's tail. `order` is the list it represents. */
  class AppOrder {
    var next: Links
    var prev: Links
    var head: Ptr
    var tail: Ptr
    ghost var order: seq<Ptr>

    ghost predicate Valid()
      reads this
    {
      Linked(next, prev, order) && head == Item(order, 0) && tail == Last(order)
    }

    constructor ()
      ensures Valid() && order == []
    {
      next, prev, head, tail, order := map[], map[], NULL, NULL, [];
    }

    /** The first item of a table, or HASH_APPEND_LIST. */
    method Append(x: Ptr)
      requires Valid() && x != NULL && x !in order
      modifies this
      ensures Valid() && order == old(order) + [x]
    {
      AppendLinked(next, prev, order, x);
      if order != [] { NotNull(order, 0); NotNull(order, |order| - 1); }
      if head == NULL {
        next, prev, head, tail := next[x := NULL], prev[x := NULL], x, x;
      } else {
        assert tail in order && next[x := NULL][tail := x] == Link(next, tail, x)[x := NULL];
        next, prev := next[x := NULL], prev[x := tail];
        next := next[tail := x];
        tail := x;
      }
      hide Linked;
      order := order + [x];
    }

    /** The app-order half of HASH_DELETE_HH; `emptied` when x was the only item. */
    method Remove(x: Ptr, ghost k: nat) returns (emptied: bool)
      requires Valid() && k < |order| && order[k] == x
      modifies this
      ensures Valid() && order == Without(old(order), k) && emptied == (order == [])
    {
      hide Linked, Item, Last, Without, Link;
      Unlinked(next, prev, order, k);
      emptied := prev[x] == NULL && next[x] == NULL;
      if emptied {
        head, tail := NULL, NULL;
      } else {
        if x == tail { tail := prev[x]; }
        if prev[x] == NULL { head := next[x]; }
        Skip(prev[x], next[x]);
      }
      order := Without(order, k);
    }

    /** Link the neighbours p and n of a deleted item to each other. */
    method Skip(p: Ptr, n: Ptr)
      modifies this`next, this`prev
      ensures next == Link(old(next), p, n) && prev == Link(old(prev), n, p)
    {
      if p != NULL { next := next[p := n]; }
      if n != NULL { prev := prev[n := p]; }
    }

    /** Hook e behind t. */
    method Attach(t: Ptr, e: Ptr)
      modifies this`next, this`prev
      ensures next == Link(old(next), t, e) && prev == old(prev)[e := t]
    {
      if t != NULL { next := next[t := e]; }
      prev := prev[e := t];
    }

    /** Step over at most k items, counting them. */
    method WalkRun(p: Ptr, k: nat, ghost xs: seq<Ptr>) returns (q: Ptr, psize: nat)
      requires Forward(next, xs) && Distinct(xs) && xs != [] && p == xs[0] && k > 0
      ensures psize == S.Min(k, |xs|) && q == Item(xs, psize)
    {
      q, psize := p, 0;
      for i := 0 to k
        invariant psize == i && i < |xs| && q == xs[i]
      {
        psize := psize + 1;
        ForwardAt(next, xs, i);
        q := next[q];
        if q == NULL {
          if psize < |xs| { NotNull(xs, psize); }
          return;
        }
      }
    }

    /** One merge: the run of psize items at p with the run of at most k items at q, appended
        to the output that ends in `last`. */
    method MergeRuns(le: (Ptr, Ptr) -> bool, p0: Ptr, psize0: nat, q0: Ptr, k: nat, list0: Ptr, last0: Ptr,
                     ghost out0: seq<Ptr>, ghost left: seq<Ptr>, ghost rest: seq<Ptr>)
      returns (q: Ptr, list: Ptr, last: Ptr)
      requires Merging(next, prev, out0, left, rest) && left != []
      requires p0 == left[0] && psize0 == |left| && q0 == Item(rest, 0)
      requires list0 == Item(out0, 0) && last0 == Last(out0)
      modifies this`next, this`prev
      ensures var n := S.Min(k, |rest|); var out := out0 + S.Merge(le, left, rest[..n]);
        && Merging(next, prev, out, [], rest[n..]) && q == Item(rest[n..], 0)
        && list == Item(out, 0) && last == Last(out)
    {
      hide Merging, S.Merge, Link;
      ghost var out, a, b, t := out0, left, rest[..S.Min(k, |rest|)], rest[S.Min(k, |rest|)..];
      assert b + t == rest;
      var p, psize, qsize := p0, psize0, k;
      q, list, last := q0, list0, last0;
      while psize != 0 || (qsize != 0 && q != NULL)
        invariant Merging(next, prev, out, a, b + t)
        invariant psize == |a| && (a != [] ==> p == a[0]) && q == Item(b + t, 0)
        invariant |b| <= qsize && (|b| < qsize ==> t == [])
        invariant out + S.Merge(le, a, b) == out0 + S.Merge(le, left, rest[..S.Min(k, |rest|)])
        invariant t == rest[S.Min(k, |rest|)..] && list == Item(out, 0) && last == Last(out)
        decreases |a| + |b|
      {
        RestNotNull(next, prev, out, a, b, t);
        var e;
        if psize == 0 || (qsize != 0 && q != NULL && !le(p, q)) {
          assert b != [] && (b + t)[0] == b[0] && (b + t)[1..] == b[1..] + t;
          EmitRight(next, prev, out, a, b + t);
          MergeRight(le, a, b);
          Shift(out, b[0], S.Merge(le, a, b[1..]));
          e, q, qsize := q, next[q], qsize - 1;
          Attach(last, e);
          out, b := out + [e], b[1..];
        } else {
          EmitLeft(next, prev, out, a, b + t);
          MergeLeft(le, a, b);
          Shift(out, a[0], S.Merge(le, a[1..], b));
          e, p, psize := p, next[p], psize - 1;
          Attach(last, e);
          out, a := out + [e], a[1..];
        }
        if last == NULL { list := e; }
        last := e;
      }
      RestNotNull(next, prev, out, a, b, t);
      MergeNothing(le);
      assert a == [] && b == [] && b + t == t && out + [] == out;
    }

    /** One turn of a pass: the next two runs of k items, merged behind the output. */
    method MergeNext(le: (Ptr, Ptr) -> bool, p0: Ptr, k: nat, list0: Ptr, last0: Ptr, ghost out0: seq<Ptr>, ghost r0: seq<Ptr>)
      returns (p: Ptr, list: Ptr, last: Ptr, ghost out: seq<Ptr>, ghost r: seq<Ptr>)
      requires Merging(next, prev, out0, [], r0) && r0 != [] && p0 == Item(r0, 0) && k > 0
      requires list0 == Item(out0, 0) && last0 == Last(out0)
      modifies this`next, this`prev
      ensures Merging(next, prev, out, [], r) && p == Item(r, 0) && list == Item(out, 0) && last == Last(out)
      ensures out + S.Pass(le, r, k) == out0 + S.Pass(le, r0, k) && |r| == |r0| - S.Min(2 * k, |r0|)
    {
      hide Merging, S.Pass, S.Merge, Item, Last, Forward, Distinct;
      RestIs(next, prev, out0, r0);
      var q, psize := WalkRun(p0, k, r0);
      CutRun(next, prev, out0, r0, psize);
      ghost var n := S.Min(k, |r0| - psize);
      Slices(r0, psize, n);
      S.PassStep(le, r0, k, psize, psize + n);
      ghost var merged := S.Merge(le, r0[..psize], r0[psize..psize + n]);
      out, r := out0 + merged, r0[psize + n..];
      Regroup(out0, merged, S.Pass(le, r, k));
      p, list, last := MergeRuns(le, p0, psize, q, k, list0, last0, out0, r0[..psize], r0[psize..]);
    }

    /** One pass over the list at `first`, merging neighbouring runs of k items. */
    method RunPass(le: (Ptr, Ptr) -> bool, first: Ptr, k: nat, ghost xs: seq<Ptr>)
      returns (list: Ptr, last: Ptr, nmerges: nat)
      requires Linked(next, prev, xs) && first == Item(xs, 0) && k > 0
      modifies this`next, this`prev
      ensures Linked(next, prev, S.Pass(le, xs, k))
      ensures list == Item(S.Pass(le, xs, k), 0) && last == Last(S.Pass(le, xs, k))
      ensures nmerges <= 1 <==> |xs| <= 2 * k
    {
      NoItem();
      hide Merging, Linked, S.Pass, S.Merge, Item, Last, Forward, Distinct;
      ghost var out: seq<Ptr>, r := [], xs;
      var p := first;
      list, last, nmerges := NULL, NULL, 0;
      StartMerging(next, prev, xs);
      assert [] + S.Pass(le, xs, k) == S.Pass(le, xs, k);
      while p != NULL
        invariant Merging(next, prev, out, [], r) && p == Item(r, 0)
        invariant list == Item(out, 0) && last == Last(out)
        invariant out + S.Pass(le, r, k) == S.Pass(le, xs, k)
        invariant if nmerges == 0 then r == xs else if nmerges == 1 then |r| == |xs| - S.Min(2 * k, |xs|) else |xs| > 2 * k
        invariant |r| <= |xs|
        decreases |r|
      {
        nmerges := nmerges + 1;
        RestIs(next, prev, out, r);
        p, list, last, out, r := MergeNext(le, p, k, list, last, out, r);
      }
      RestIs(next, prev, out, r);
      PassNothing(le, k);
      assert r == [] && out + [] == out;
      EndMerging(next, prev, out);
      if last != NULL { next := next[last := NULL]; }
    }

    /** HASH_SRT: passes with runs of 1, 2, 4, ... items until one merge suffices. The list ends
        up sorted, with both links, head and tail in place, and equal items in their old order. */
    method Sort(le: (Ptr, Ptr) -> bool)
      requires Valid() && S.TotalPreorder(le)
      modifies this
      ensures Valid() && order == S.Sort(le, old(order))
      ensures S.Sorted(le, order) && multiset(order) == multiset(old(order))
      ensures forall c :: S.Class(le, c, order) == S.Class(le, c, old(order))
    {
      hide Linked, S.Pass, S.Sorted, S.Class, S.TotalPreorder;
      S.SortIsStable(le, order);
      if head == NULL {
        EmptySort(le, next, prev, order);
        return;
      }
      ghost var xs := order;
      var insize, looping, list, last := 1, true, head, NULL;
      while looping
        invariant insize > 0 && Linked(next, prev, order) && list == Item(order, 0)
        invariant if looping then S.SortFrom(le, order, insize) == S.Sort(le, xs) else order == S.Sort(le, xs) && last == Last(order)
        decreases looping, |xs| - insize
        invariant |order| == |xs|
      {
        var nmerges;
        S.PassLength(le, order, insize);
        list, last, nmerges := RunPass(le, list, insize, order);
        order := S.Pass(le, order, insize);
        if nmerges <= 1 { looping := false; }
        insize := 2 * insize;
      }
      head, tail := list, last;
    }
  }

  lemma {:induction false} ItemNull(xs: seq<Ptr>, i: int)
    requires Distinct(xs)
    ensures Item(xs, i) == NULL <==> !(0 <= i < |xs|)
  {
    if 0 <= i < |xs| { NotNull(xs, i); }
  }

  lemma {:induction false} NoItem()
    ensures Item([], 0) == NULL && Last([]) == NULL
  {
  }

  lemma {:induction false} Slices(xs: seq<Ptr>, m: nat, n: nat)
    requires m + n <= |xs|
    ensures xs[m..][n..] == xs[m + n..] && xs[m..][..n] == xs[m..m + n]
  {
  }

  lemma {:induction false} Regroup(a: seq<Ptr>, b: seq<Ptr>, c: seq<Ptr>)
    ensures a + (b + c) == a + b + c
  {
  }

  lemma {:induction false} Unlinked(next: Links, prev: Links, xs: seq<Ptr>, k: nat)
    requires Linked(next, prev, xs) && k < |xs|
    ensures var x, ys := xs[k], Without(xs, k);
      && x in next && x in prev
      && Linked(Link(next, prev[x], next[x]), Link(prev, next[x], prev[x]), ys)
      && (ys == [] <==> prev[x] == NULL && next[x] == NULL)
      && (ys == [] ==> Linked(next, prev, ys) && Last(ys) == NULL)
      && Item(ys, 0) == (if prev[x] == NULL then next[x] else Item(xs, 0))
      && Last(ys) == (if x == Last(xs) then prev[x] else Last(xs))
  {
    ForwardAt(next, xs, k);
    BackwardAt(prev, xs, k);
    RemoveLinked(next, prev, xs, k);
    EndsWithout(xs, k);
    NoLinks(next, prev);
    hide Linked, Distinct, Without, Forward, Backward, Item, Last;
  }

  lemma {:induction false} NoLinks(next: Links, prev: Links)
    ensures Linked(next, prev, []) && Last([]) == NULL
  {
  }

  /** The two ends of a list without its item at k. */
  lemma {:induction false} EndsWithout(xs: seq<Ptr>, k: nat)
    requires Distinct(xs) && k < |xs|
    ensures var ys := Without(xs, k);
      && (ys == [] <==> Item(xs, k - 1) == NULL && Item(xs, k + 1) == NULL)
      && Item(ys, 0) == (if Item(xs, k - 1) == NULL then Item(xs, k + 1) else Item(xs, 0))
      && Last(ys) == (if xs[k] == Last(xs) then Item(xs, k - 1) else Last(xs))
  {
    ItemNull(xs, k - 1);
    ItemNull(xs, k + 1);
    WithoutAt(xs, k, 0);
    WithoutAt(xs, k, |xs| - 2);
    if k != |xs| - 1 { Differ(xs, k, |xs| - 1); }
    hide Distinct, Without;
  }

  lemma {:induction false} EmptySort(le: (Ptr, Ptr) -> bool, next: Links, prev: Links, xs: seq<Ptr>)
    requires Linked(next, prev, xs) && Item(xs, 0) == NULL
    ensures xs == [] && S.Sort(le, xs) == xs
  {
    if xs != [] { NotNull(xs, 0); }
  }

  lemma {:induction false} PassNothing(le: (Ptr, Ptr) -> bool, k: nat)
    requires k > 0
    ensures S.Pass(le, [], k) == []
  {
  }

  lemma {:induction false} StartMerging(next: Links, prev: Links, xs: seq<Ptr>)
    requires Linked(next, prev, xs)
    ensures Merging(next, prev, [], [], xs)
  {
  }

  lemma {:induction false} RestIs(next: Links, prev: Links, out: seq<Ptr>, r: seq<Ptr>)
    requires Merging(next, prev, out, [], r)
    ensures Forward(next, r) && Distinct(r) && (Item(r, 0) == NULL <==> r == []) && (r != [] ==> Item(r, 0) == r[0])
  {
    if r != [] { NotNull(r, 0); }
  }

  lemma {:induction false} EndAt(next: Links, prev: Links, out: seq<Ptr>, i: nat)
    requires Distinct(out) && Inner(next, out) && i < |out|
    ensures out[i] in Link(next, Last(out), NULL) && Link(next, Last(out), NULL)[out[i]] == Item(out, i + 1)
  {
    NotNull(out, i);
    NotNull(out, |out| - 1);
    if i < |out| - 1 { Differ(out, i, |out| - 1); }
    hide Distinct;
  }

  /** Terminating the output makes it a proper list. */
  lemma {:induction false} EndMerging(next: Links, prev: Links, out: seq<Ptr>)
    requires Merging(next, prev, out, [], [])
    ensures Linked(Link(next, Last(out), NULL), prev, out)
  {
    forall i: nat | i < |out| ensures out[i] in Link(next, Last(out), NULL) && Link(next, Last(out), NULL)[out[i]] == Item(out, i + 1) {
      EndAt(next, prev, out, i);
    }
    hide Link, Last, Inner, Item;
  }

  /** While anything is left to merge, the cursor is not NULL. */
  lemma {:induction false} RestNotNull(next: Links, prev: Links, out: seq<Ptr>, a: seq<Ptr>, b: seq<Ptr>, t: seq<Ptr>)
    requires Merging(next, prev, out, a, b + t)
    ensures Item(b + t, 0) == NULL <==> b + t == []
    ensures Last(out) == NULL <==> out == []
  {
    if b + t != [] { NotNull(b + t, 0); }
    if out != [] { NotNull(out, |out| - 1); }
  }

  lemma {:induction false} MergeNothing(le: (Ptr, Ptr) -> bool)
    ensures S.Merge(le, [], []) == []
  {
  }
}
