/** Bottom-up mergesort as the hash table's HASH_SRT performs it (include/uthash.h), on
    sequences: it terminates and is a stable sort for every total preorder. */
module UtSortSpec {

  type Ptr = nat

  ghost predicate TotalPreorder(le: (Ptr, Ptr) -> bool) {
    && (forall a, b :: le(a, b) || le(b, a))
    && (forall a, b, c :: le(a, b) && le(b, c) ==> le(a, c))
  }

  ghost predicate Sorted(le: (Ptr, Ptr) -> bool, xs: seq<Ptr>) {
    forall i, j :: 0 <= i < j < |xs| ==> le(xs[i], xs[j])
  }

  /** Items that compare equal to c, in order. */
  function Class(le: (Ptr, Ptr) -> bool, c: Ptr, xs: seq<Ptr>): seq<Ptr> {
    if xs == [] then [] else One(le, c, xs[0]) + Class(le, c, xs[1..])
  }

  function One(le: (Ptr, Ptr) -> bool, c: Ptr, x: Ptr): seq<Ptr> {
    if le(c, x) && le(x, c) then [x] else []
  }

  function Min(a: nat, b: nat): nat { if a < b then a else b }

  /** On a tie the left run goes first. */
  function Merge(le: (Ptr, Ptr) -> bool, p: seq<Ptr>, q: seq<Ptr>): seq<Ptr>
    decreases |p| + |q|
  {
    if p == [] then q
    else if q == [] then p
    else if le(p[0], q[0]) then [p[0]] + Merge(le, p[1..], q)
    else [q[0]] + Merge(le, p, q[1..])
  }

  /** One pass: merge neighbouring runs of k items. */
  function Pass(le: (Ptr, Ptr) -> bool, xs: seq<Ptr>, k: nat): seq<Ptr>
    requires k > 0
    decreases |xs|
  {
    if xs == [] then []
    else
      var m := Min(k, |xs|);
      var n := m + Min(k, |xs| - m);
      Merge(le, xs[..m], xs[m..n]) + Pass(le, xs[n..], k)
  }

  function SortFrom(le: (Ptr, Ptr) -> bool, xs: seq<Ptr>, k: nat): seq<Ptr>
    requires k > 0
    decreases if |xs| <= 2 * k then 0 else |xs| - 2 * k
  {
    PassLength(le, xs, k);
    if |xs| <= 2 * k then Pass(le, xs, k) else SortFrom(le, Pass(le, xs, k), 2 * k)
  }

  function Sort(le: (Ptr, Ptr) -> bool, xs: seq<Ptr>): seq<Ptr> {
    SortFrom(le, xs, 1)
  }

  lemma {:induction false} MergeContents(le: (Ptr, Ptr) -> bool, p: seq<Ptr>, q: seq<Ptr>)
    ensures multiset(Merge(le, p, q)) == multiset(p) + multiset(q)
    ensures |Merge(le, p, q)| == |p| + |q|
    decreases |p| + |q|
  {
    if p != [] && q != [] {
      var m := Merge(le, p, q);
      if le(p[0], q[0]) {
        MergeContents(le, p[1..], q);
        assert m == [p[0]] + Merge(le, p[1..], q);
        hide Merge;
        assert multiset(m) == multiset{p[0]} + multiset(Merge(le, p[1..], q));
        FirstOf(p);
      } else {
        MergeContents(le, p, q[1..]);
        assert m == [q[0]] + Merge(le, p, q[1..]);
        hide Merge;
        assert multiset(m) == multiset{q[0]} + multiset(Merge(le, p, q[1..]));
        FirstOf(q);
      }
    }
  }

  lemma {:induction false} FirstOf(p: seq<Ptr>)
    requires p != []
    ensures multiset(p) == multiset{p[0]} + multiset(p[1..])
  {
    assert p == [p[0]] + p[1..];
  }

  lemma {:induction false} PassLength(le: (Ptr, Ptr) -> bool, xs: seq<Ptr>, k: nat)
    requires k > 0
    ensures |Pass(le, xs, k)| == |xs| && multiset(Pass(le, xs, k)) == multiset(xs)
    decreases |xs|
  {
    if xs != [] {
      hide Merge, Pass;
      var m := Min(k, |xs|);
      var n := m + Min(k, |xs| - m);
      PassStep(le, xs, k, m, n);
      MergeContents(le, xs[..m], xs[m..n]);
      PassLength(le, xs[n..], k);
    }
  }

  // ------------------------------------------------------------------ sorted

  lemma {:induction false} SortedCons(le: (Ptr, Ptr) -> bool, x: Ptr, xs: seq<Ptr>)
    requires Sorted(le, xs) && forall i :: 0 <= i < |xs| ==> le(x, xs[i])
    ensures Sorted(le, [x] + xs)
  {
  }

  lemma {:induction false} MergeBound(le: (Ptr, Ptr) -> bool, x: Ptr, p: seq<Ptr>, q: seq<Ptr>)
    requires forall i :: 0 <= i < |p| ==> le(x, p[i])
    requires forall i :: 0 <= i < |q| ==> le(x, q[i])
    ensures forall i :: 0 <= i < |Merge(le, p, q)| ==> le(x, Merge(le, p, q)[i])
    decreases |p| + |q|
  {
    if p != [] && q != [] {
      if le(p[0], q[0]) { MergeBound(le, x, p[1..], q); } else { MergeBound(le, x, p, q[1..]); }
    }
  }

  lemma {:induction false} MergeSorted(le: (Ptr, Ptr) -> bool, p: seq<Ptr>, q: seq<Ptr>)
    requires TotalPreorder(le) && Sorted(le, p) && Sorted(le, q)
    ensures Sorted(le, Merge(le, p, q))
    decreases |p| + |q|
  {
    if p != [] && q != [] {
      if le(p[0], q[0]) {
        MergeSorted(le, p[1..], q);
        forall i | 0 <= i < |q| ensures le(p[0], q[i]) { if i > 0 { assert le(q[0], q[i]); } }
        MergeBound(le, p[0], p[1..], q);
        SortedCons(le, p[0], Merge(le, p[1..], q));
      } else {
        MergeSorted(le, p, q[1..]);
        assert le(q[0], p[0]);
        forall i | 0 <= i < |p| ensures le(q[0], p[i]) { if i > 0 { assert le(p[0], p[i]); } }
        MergeBound(le, q[0], p, q[1..]);
        SortedCons(le, q[0], Merge(le, p, q[1..]));
      }
    }
  }

  /** Cut into runs of k items, each run is sorted. */
  ghost predicate RunsSorted(le: (Ptr, Ptr) -> bool, xs: seq<Ptr>, k: nat)
    requires k > 0
    decreases |xs|
  {
    xs != [] ==> Sorted(le, xs[..Min(k, |xs|)]) && RunsSorted(le, xs[Min(k, |xs|)..], k)
  }

  lemma {:induction false} SingleRuns(le: (Ptr, Ptr) -> bool, xs: seq<Ptr>)
    ensures RunsSorted(le, xs, 1)
  {
    if xs != [] { SingleRuns(le, xs[1..]); }
  }

  lemma {:induction false} PassStep(le: (Ptr, Ptr) -> bool, xs: seq<Ptr>, k: nat, m: nat, n: nat)
    requires k > 0 && xs != [] && m == Min(k, |xs|) && n == m + Min(k, |xs| - m)
    ensures Pass(le, xs, k) == Merge(le, xs[..m], xs[m..n]) + Pass(le, xs[n..], k)
    ensures xs == xs[..m] + xs[m..n] + xs[n..]
  {
    hide Merge;
  }

  lemma {:induction false} TwoRuns(le: (Ptr, Ptr) -> bool, xs: seq<Ptr>, k: nat, m: nat, n: nat)
    requires k > 0 && RunsSorted(le, xs, k) && xs != [] && m == Min(k, |xs|) && n == m + Min(k, |xs| - m)
    ensures Sorted(le, xs[..m]) && Sorted(le, xs[m..n]) && RunsSorted(le, xs[n..], k)
  {
    var t := xs[m..];
    assert RunsSorted(le, t, k);
    if t == [] {
      assert xs[m..n] == [] && xs[n..] == [];
    } else {
      hide Sorted;
      assert t[..n - m] == xs[m..n] && t[n - m..] == xs[n..];
      assert Min(k, |t|) == n - m;
    }
  }

  lemma {:induction false} PassSorts(le: (Ptr, Ptr) -> bool, xs: seq<Ptr>, k: nat)
    requires k > 0 && TotalPreorder(le) && RunsSorted(le, xs, k)
    ensures RunsSorted(le, Pass(le, xs, k), 2 * k)
    decreases |xs|
  {
    if xs != [] {
      hide TotalPreorder, Sorted, Merge, Pass, RunsSorted;
      var m := Min(k, |xs|);
      var n := m + Min(k, |xs| - m);
      PassStep(le, xs, k, m, n);
      TwoRuns(le, xs, k, m, n);
      MergeSorted(le, xs[..m], xs[m..n]);
      MergeContents(le, xs[..m], xs[m..n]);
      PassSorts(le, xs[n..], k);
      PassLength(le, xs[n..], k);
      FrontRun(le, Merge(le, xs[..m], xs[m..n]), Pass(le, xs[n..], k), 2 * k);
    }
  }

  lemma {:induction false} FrontRun(le: (Ptr, Ptr) -> bool, a: seq<Ptr>, b: seq<Ptr>, k: nat)
    requires k > 0 && Sorted(le, a) && RunsSorted(le, b, k) && |a| <= k && (b != [] ==> |a| == k)
    ensures RunsSorted(le, a + b, k)
  {
    if a + b != [] {
      assert (a + b)[..Min(k, |a + b|)] == a;
      assert (a + b)[Min(k, |a + b|)..] == b;
    }
  }

  // ------------------------------------------------------------------ stable

  lemma {:induction false} ClassCons(le: (Ptr, Ptr) -> bool, c: Ptr, x: Ptr, xs: seq<Ptr>)
    ensures Class(le, c, [x] + xs) == One(le, c, x) + Class(le, c, xs)
  {
    assert ([x] + xs)[1..] == xs;
  }

  lemma {:induction false} ClassCat(le: (Ptr, Ptr) -> bool, c: Ptr, a: seq<Ptr>, b: seq<Ptr>)
    ensures Class(le, c, a + b) == Class(le, c, a) + Class(le, c, b)
  {
    if a == [] {
      assert a + b == b && Class(le, c, a) == [];
    } else {
      hide Class, One;
      ClassCat(le, c, a[1..], b);
      assert [a[0]] + a[1..] == a && [a[0]] + (a[1..] + b) == a + b;
      ClassCons(le, c, a[0], a[1..]);
      ClassCons(le, c, a[0], a[1..] + b);
      Assoc(One(le, c, a[0]), Class(le, c, a[1..]), Class(le, c, b));
    }
  }

  lemma {:induction false} Assoc(a: seq<Ptr>, b: seq<Ptr>, c: seq<Ptr>)
    ensures a + b + c == a + (b + c)
  {
  }

  lemma {:induction false} ClassNone(le: (Ptr, Ptr) -> bool, c: Ptr, a: seq<Ptr>)
    requires forall i :: 0 <= i < |a| ==> !(le(c, a[i]) && le(a[i], c))
    ensures Class(le, c, a) == []
  {
    if a != [] { ClassNone(le, c, a[1..]); }
  }

  /** If an item equal to c comes strictly before a sorted run, the run has none. */
  lemma {:induction false} NoneAbove(le: (Ptr, Ptr) -> bool, c: Ptr, p: seq<Ptr>, x: Ptr)
    requires TotalPreorder(le) && Sorted(le, p) && p != [] && !le(p[0], x) && le(c, x) && le(x, c)
    ensures Class(le, c, p) == []
  {
    forall i | 0 <= i < |p| ensures !(le(c, p[i]) && le(p[i], c)) {
      assert i > 0 ==> le(p[0], p[i]);
    }
    ClassNone(le, c, p);
  }

  /** Merging keeps the order of equal items, left run first. */
  lemma {:induction false} MergeStable(le: (Ptr, Ptr) -> bool, c: Ptr, p: seq<Ptr>, q: seq<Ptr>)
    requires TotalPreorder(le) && Sorted(le, p) && Sorted(le, q)
    ensures Class(le, c, Merge(le, p, q)) == Class(le, c, p) + Class(le, c, q)
    decreases |p| + |q|
  {
    if p == [] || q == [] {
      assert Class(le, c, []) == [];
    } else if le(p[0], q[0]) {
      SortedTail(le, p);
      MergeStable(le, c, p[1..], q);
      LeftStable(le, c, p, q);
    } else {
      SortedTail(le, q);
      MergeStable(le, c, p, q[1..]);
      if le(c, q[0]) && le(q[0], c) { NoneAbove(le, c, p, q[0]); }
      RightStable(le, c, p, q);
    }
  }

  lemma {:induction false} LeftStable(le: (Ptr, Ptr) -> bool, c: Ptr, p: seq<Ptr>, q: seq<Ptr>)
    requires p != [] && q != [] && le(p[0], q[0])
    requires Class(le, c, Merge(le, p[1..], q)) == Class(le, c, p[1..]) + Class(le, c, q)
    ensures Class(le, c, Merge(le, p, q)) == Class(le, c, p) + Class(le, c, q)
  {
    hide Class, One;
    ClassCons(le, c, p[0], Merge(le, p[1..], q));
    ClassCons(le, c, p[0], p[1..]);
    assert [p[0]] + p[1..] == p;
    Assoc(One(le, c, p[0]), Class(le, c, p[1..]), Class(le, c, q));
  }

  lemma {:induction false} RightStable(le: (Ptr, Ptr) -> bool, c: Ptr, p: seq<Ptr>, q: seq<Ptr>)
    requires p != [] && q != [] && !le(p[0], q[0])
    requires le(c, q[0]) && le(q[0], c) ==> Class(le, c, p) == []
    requires Class(le, c, Merge(le, p, q[1..])) == Class(le, c, p) + Class(le, c, q[1..])
    ensures Class(le, c, Merge(le, p, q)) == Class(le, c, p) + Class(le, c, q)
  {
    hide Class;
    ClassCons(le, c, q[0], Merge(le, p, q[1..]));
    ClassCons(le, c, q[0], q[1..]);
    assert [q[0]] + q[1..] == q;
  }

  lemma {:induction false} SortedTail(le: (Ptr, Ptr) -> bool, p: seq<Ptr>)
    requires Sorted(le, p) && p != []
    ensures Sorted(le, p[1..])
  {
  }

  lemma {:induction false} PassStable(le: (Ptr, Ptr) -> bool, c: Ptr, xs: seq<Ptr>, k: nat)
    requires k > 0 && TotalPreorder(le) && RunsSorted(le, xs, k)
    ensures Class(le, c, Pass(le, xs, k)) == Class(le, c, xs)
    decreases |xs|
  {
    if xs != [] {
      hide TotalPreorder, Sorted, Merge, Pass, RunsSorted, Class;
      var m := Min(k, |xs|);
      var n := m + Min(k, |xs| - m);
      var p, q, t := xs[..m], xs[m..n], xs[n..];
      PassStep(le, xs, k, m, n);
      TwoRuns(le, xs, k, m, n);
      MergeStable(le, c, p, q);
      PassStable(le, c, t, k);
      ClassCat(le, c, Merge(le, p, q), Pass(le, t, k));
      ClassCat(le, c, p + q, t);
      ClassCat(le, c, p, q);
    }
  }

  lemma {:induction false} SortFromStable(le: (Ptr, Ptr) -> bool, xs: seq<Ptr>, k: nat)
    requires k > 0 && TotalPreorder(le) && RunsSorted(le, xs, k)
    ensures Sorted(le, SortFrom(le, xs, k)) && multiset(SortFrom(le, xs, k)) == multiset(xs)
    ensures forall c :: Class(le, c, SortFrom(le, xs, k)) == Class(le, c, xs)
    decreases if |xs| <= 2 * k then 0 else |xs| - 2 * k
  {
    var ys := Pass(le, xs, k);
    PassSorts(le, xs, k);
    PassLength(le, xs, k);
    forall c ensures Class(le, c, ys) == Class(le, c, xs) { PassStable(le, c, xs, k); }
    if |xs| <= 2 * k {
      if ys != [] { assert ys[..Min(2 * k, |ys|)] == ys; }
    } else {
      SortFromStable(le, ys, 2 * k);
    }
  }

  /** For every total preorder: sorted, a permutation, and equal items keep their order. */
  lemma {:induction false} SortIsStable(le: (Ptr, Ptr) -> bool, xs: seq<Ptr>)
    requires TotalPreorder(le)
    ensures Sorted(le, Sort(le, xs)) && multiset(Sort(le, xs)) == multiset(xs)
    ensures forall c :: Class(le, c, Sort(le, xs)) == Class(le, c, xs)
  {
    SingleRuns(le, xs);
    SortFromStable(le, xs, 1);
  }
}
