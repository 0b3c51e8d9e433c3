/** Doubly linked lists threaded through memory, as uthash uses them twice: in insertion order
    and inside each bucket. Links are maps from item to item, 0 being NULL. */
module UtList {

  type Ptr = nat
  type Links = map<Ptr, Ptr>

  const NULL: Ptr := 0

  predicate Distinct(xs: seq<Ptr>) {
    NULL !in xs && forall i, j :: 0 <= i < j < |xs| ==> xs[i] != xs[j]
  }

  predicate Mapped(m: Links, xs: seq<Ptr>) {
    forall i :: 0 <= i < |xs| ==> xs[i] in m
  }

  /** The item at index i, NULL outside. */
  function Item(xs: seq<Ptr>, i: int): Ptr {
    if 0 <= i < |xs| then xs[i] else NULL
  }

  predicate Forward(next: Links, xs: seq<Ptr>) {
    Mapped(next, xs) && forall i {:trigger next[xs[i]]} :: 0 <= i < |xs| ==> next[xs[i]] == Item(xs, i + 1)
  }

  predicate Backward(prev: Links, xs: seq<Ptr>) {
    Mapped(prev, xs) && forall i {:trigger prev[xs[i]]} :: 0 <= i < |xs| ==> prev[xs[i]] == Item(xs, i - 1)
  }

  /** xs is a doubly linked list. */
  predicate Linked(next: Links, prev: Links, xs: seq<Ptr>) {
    Distinct(xs) && Forward(next, xs) && Backward(prev, xs)
  }

  function Link(m: Links, from: Ptr, to: Ptr): Links {
    if from == NULL then m else m[from := to]
  }

  function Without(xs: seq<Ptr>, k: nat): seq<Ptr>
    requires k < |xs|
  {
    xs[..k] + xs[k + 1..]
  }

  /** Only the links of the list matter. */
  lemma {:induction false} LinkedFrame(next: Links, prev: Links, next': Links, prev': Links, xs: seq<Ptr>)
    requires Linked(next, prev, xs)
    requires forall i :: 0 <= i < |xs| ==> xs[i] in next' && xs[i] in prev'
    requires forall i :: 0 <= i < |xs| ==> next'[xs[i]] == next[xs[i]] && prev'[xs[i]] == prev[xs[i]]
    ensures Linked(next', prev', xs)
  {
  }

  lemma {:induction false} ForwardFrame(next: Links, xs: seq<Ptr>, x: Ptr, y: Ptr)
    requires Forward(next, xs) && x !in xs
    ensures Forward(Link(next, x, y), xs)
  {
  }

  lemma {:induction false} ForwardTail(next: Links, xs: seq<Ptr>)
    requires Forward(next, xs) && Distinct(xs) && xs != []
    ensures Forward(next, xs[1..]) && Distinct(xs[1..]) && xs[0] !in xs[1..] && next[xs[0]] == Item(xs, 1)
  {
    forall i | 0 <= i < |xs| - 1 ensures xs[1..][i] in next && next[xs[1..][i]] == Item(xs[1..], i + 1) {
      assert xs[1..][i] == xs[i + 1];
    }
  }

  /** Append: x after the last item. */
  lemma {:induction false} AppendLinked(next: Links, prev: Links, xs: seq<Ptr>, x: Ptr)
    requires Linked(next, prev, xs) && x != NULL && x !in xs
    ensures Linked(Link(next, Item(xs, |xs| - 1), x)[x := NULL], prev[x := Item(xs, |xs| - 1)], xs + [x])
  {
  }

  /** Push: x before the first item. */
  lemma {:induction false} PushLinked(next: Links, prev: Links, xs: seq<Ptr>, x: Ptr)
    requires Linked(next, prev, xs) && x != NULL && x !in xs
    ensures Linked(next[x := Item(xs, 0)], Link(prev[x := NULL], Item(xs, 0), x), [x] + xs)
  {
  }

  lemma {:induction false} WithoutAt(xs: seq<Ptr>, k: nat, i: int)
    requires k < |xs|
    ensures |Without(xs, k)| == |xs| - 1
    ensures Item(Without(xs, k), i) == Item(xs, if i < k then i else i + 1)
  {
  }

  lemma {:induction false} RemoveForward(next: Links, xs: seq<Ptr>, k: nat, i: nat)
    requires Distinct(xs) && Forward(next, xs) && k < |xs| && i < |xs| - 1
    ensures var ys := Without(xs, k); var next' := Link(next, Item(xs, k - 1), Item(xs, k + 1));
      ys[i] in next' && next'[ys[i]] == Item(ys, i + 1)
  {
    hide Without, Forward, Distinct;
    var j := if i < k then i else i + 1;
    WithoutAt(xs, k, i);
    WithoutAt(xs, k, i + 1);
    assert Without(xs, k)[i] == xs[j];
    ForwardAt(next, xs, j);
    NotNull(xs, j);
    if j != k - 1 && k > 0 { Differ(xs, j, k - 1); }
  }

  lemma {:induction false} ForwardAt(next: Links, xs: seq<Ptr>, j: nat)
    requires Forward(next, xs) && j < |xs|
    ensures xs[j] in next && next[xs[j]] == Item(xs, j + 1)
  {
  }

  lemma {:induction false} BackwardAt(prev: Links, xs: seq<Ptr>, j: nat)
    requires Backward(prev, xs) && j < |xs|
    ensures xs[j] in prev && prev[xs[j]] == Item(xs, j - 1)
  {
  }

  lemma {:induction false} NotNull(xs: seq<Ptr>, j: nat)
    requires Distinct(xs) && j < |xs|
    ensures xs[j] != NULL
  {
  }

  lemma {:induction false} Differ(xs: seq<Ptr>, i: nat, j: nat)
    requires Distinct(xs) && i < |xs| && j < |xs| && i != j
    ensures xs[i] != xs[j]
  {
    if i < j { assert xs[i] != xs[j]; } else { assert xs[j] != xs[i]; }
  }

  lemma {:induction false} RemoveBackward(prev: Links, xs: seq<Ptr>, k: nat, i: nat)
    requires Distinct(xs) && Backward(prev, xs) && k < |xs| && i < |xs| - 1
    ensures var ys := Without(xs, k); var prev' := Link(prev, Item(xs, k + 1), Item(xs, k - 1));
      ys[i] in prev' && prev'[ys[i]] == Item(ys, i - 1)
  {
    hide Without, Backward, Distinct;
    var j := if i < k then i else i + 1;
    WithoutAt(xs, k, i);
    WithoutAt(xs, k, i - 1);
    assert Without(xs, k)[i] == xs[j];
    BackwardAt(prev, xs, j);
    NotNull(xs, j);
    if j != k + 1 && k + 1 < |xs| { Differ(xs, j, k + 1); }
  }

  /** Unlink the item at k: its neighbours skip over it. */
  lemma {:induction false} RemoveLinked(next: Links, prev: Links, xs: seq<Ptr>, k: nat)
    requires Linked(next, prev, xs) && k < |xs|
    ensures Linked(Link(next, Item(xs, k - 1), Item(xs, k + 1)), Link(prev, Item(xs, k + 1), Item(xs, k - 1)), Without(xs, k))
  {
    var ys := Without(xs, k);
    var next' := Link(next, Item(xs, k - 1), Item(xs, k + 1));
    var prev' := Link(prev, Item(xs, k + 1), Item(xs, k - 1));
    RemoveDistinct(xs, k);
    forall i: nat | i < |ys| ensures ys[i] in next' && next'[ys[i]] == Item(ys, i + 1) { RemoveForward(next, xs, k, i); }
    forall i: nat | i < |ys| ensures ys[i] in prev' && prev'[ys[i]] == Item(ys, i - 1) { RemoveBackward(prev, xs, k, i); }
    hide Without, Link, Item;
  }

  lemma {:induction false} RemoveDistinct(xs: seq<Ptr>, k: nat)
    requires Distinct(xs) && k < |xs|
    ensures Distinct(Without(xs, k)) && xs[k] !in Without(xs, k)
    ensures forall x :: x in xs <==> x in Without(xs, k) || x == xs[k]
  {
    var ys := Without(xs, k);
    assert forall i :: 0 <= i < |ys| ==> ys[i] == xs[if i < k then i else i + 1];
    assert xs == xs[..k] + [xs[k]] + xs[k + 1..];
  }
}
