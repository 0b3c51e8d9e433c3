/** The bucket chains of a uthash table (include/uthash.h) as values: what adding to, deleting
    from and doubling them keeps. */
module UtBuckets {
  import opened Bits
  import opened UtList

  /** UT_hash_bucket: head of the chain, its length, and how far past the threshold it may grow. */
  datatype Bkt = Bkt(head: Ptr, count: nat, mult: nat)

  predicate Bucket(next: Links, prev: Links, b: Bkt, chain: seq<Ptr>) {
    Linked(next, prev, chain) && b.head == Item(chain, 0) && b.count == |chain|
  }

  ghost predicate Buckets(next: Links, prev: Links, bkts: seq<Bkt>, chains: seq<seq<Ptr>>) {
    && |bkts| == |chains| > 0
    && forall b :: 0 <= b < |chains| ==> Bucket(next, prev, bkts[b], chains[b])
  }

  /** HASH_TO_BKT for n buckets. */
  function Home(hashv: map<Ptr, nat>, x: Ptr, n: nat): nat
    requires n > 0 && x in hashv
  {
    Slot(hashv[x], n)
  }

  /** Every member is in the bucket of its hash, and nothing else is in any bucket. */
  ghost predicate Placed(chains: seq<seq<Ptr>>, members: set<Ptr>, hashv: map<Ptr, nat>) {
    && |chains| > 0
    && (forall x :: x in members ==> x in hashv && x in chains[Home(hashv, x, |chains|)])
    && (forall b, x :: 0 <= b < |chains| && x in chains[b] ==>
          x in members && x in hashv && Home(hashv, x, |chains|) == b)
  }

  /** Items counted in all buckets. */
  function Total(bkts: seq<Bkt>): nat {
    if bkts == [] then 0 else bkts[0].count + Total(bkts[1..])
  }

  lemma {:induction false} TotalUpdate(bkts: seq<Bkt>, b: nat, v: Bkt)
    requires b < |bkts|
    ensures Total(bkts[b := v]) == Total(bkts) - bkts[b].count + v.count
  {
    if b == 0 {
      assert bkts[b := v][1..] == bkts[1..];
    } else {
      TotalUpdate(bkts[1..], b - 1, v);
      assert bkts[b := v][1..] == bkts[1..][b - 1 := v];
    }
  }

  lemma {:induction false} TotalEmpty(n: nat)
    ensures Total(seq(n, _ => Bkt(NULL, 0, 0))) == 0
  {
    if n > 0 {
      TotalEmpty(n - 1);
      assert seq(n, _ => Bkt(NULL, 0, 0))[1..] == seq(n - 1, _ => Bkt(NULL, 0, 0));
    }
  }

  lemma {:induction false} Null(next: Links, prev: Links, b: Bkt, chain: seq<Ptr>)
    requires Bucket(next, prev, b, chain)
    ensures NULL !in chain && (b.head == NULL <==> chain == []) && (b.head != NULL ==> b.head in chain)
  {
  }

  /** Chains are disjoint. */
  lemma {:induction false} Elsewhere(chains: seq<seq<Ptr>>, members: set<Ptr>, hashv: map<Ptr, nat>, b: nat, c: nat, y: Ptr)
    requires Placed(chains, members, hashv) && b < |chains| && c < |chains| && b != c
    requires y == NULL || y in chains[b]
    ensures NULL !in chains[c] ==> y !in chains[c]
  {
    if y != NULL { assert Home(hashv, y, |chains|) == b; }
  }

  // ------------------------------------------------------------------- adding

  function Pushed(b: Bkt, x: Ptr, mult: nat): Bkt { Bkt(x, b.count + 1, mult) }

  lemma {:induction false} PushOther(next: Links, prev: Links, x: Ptr, h: Ptr, b: Bkt, chain: seq<Ptr>)
    requires Bucket(next, prev, b, chain) && x !in chain && h !in chain
    ensures Bucket(next[x := h], Link(prev[x := NULL], h, x), b, chain)
  {
    LinkedFrame(next, prev, next[x := h], Link(prev[x := NULL], h, x), chain);
  }

  lemma {:induction false} PushOwn(next: Links, prev: Links, x: Ptr, b: Bkt, mult: nat, chain: seq<Ptr>)
    requires Bucket(next, prev, b, chain) && x !in chain && x != NULL
    ensures Bucket(next[x := b.head], Link(prev[x := NULL], b.head, x), Pushed(b, x, mult), [x] + chain)
  {
    PushLinked(next, prev, chain, x);
  }

  /** HASH_ADD_TO_BKT: x goes in front of its chain, and no other chain is disturbed. */
  lemma {:induction false} PushBuckets(next: Links, prev: Links, bkts: seq<Bkt>, chains: seq<seq<Ptr>>,
                                       members: set<Ptr>, hashv: map<Ptr, nat>, x: Ptr, b: nat, mult: nat)
    requires Buckets(next, prev, bkts, chains) && Placed(chains, members, hashv)
    requires x != NULL && x !in members && b < |chains|
    ensures Buckets(next[x := bkts[b].head], Link(prev[x := NULL], bkts[b].head, x),
                    bkts[b := Pushed(bkts[b], x, mult)], chains[b := [x] + chains[b]])
  {
    hide Bucket, Link;
    var h := bkts[b].head;
    var next', prev' := next[x := h], Link(prev[x := NULL], h, x);
    var bkts', chains' := bkts[b := Pushed(bkts[b], x, mult)], chains[b := [x] + chains[b]];
    Null(next, prev, bkts[b], chains[b]);
    forall c | 0 <= c < |chains| ensures Bucket(next', prev', bkts'[c], chains'[c]) {
      Null(next, prev, bkts[c], chains[c]);
      if c == b {
        PushOwn(next, prev, x, bkts[b], mult, chains[b]);
      } else {
        Elsewhere(chains, members, hashv, b, c, h);
        PushOther(next, prev, x, h, bkts[c], chains[c]);
      }
    }
  }

  lemma {:induction false} PushPlaced(chains: seq<seq<Ptr>>, members: set<Ptr>, hashv: map<Ptr, nat>, x: Ptr)
    requires Placed(chains, members, hashv) && x in hashv
    ensures var b := Home(hashv, x, |chains|); Placed(chains[b := [x] + chains[b]], members + {x}, hashv)
  {
    var b := Home(hashv, x, |chains|);
    var chains' := chains[b := [x] + chains[b]];
    forall y | y in members + {x} ensures y in hashv && y in chains'[Home(hashv, y, |chains'|)] {
      if y == x { assert chains'[b][0] == x; }
    }
    forall c, y | 0 <= c < |chains'| && y in chains'[c]
      ensures y in members + {x} && y in hashv && Home(hashv, y, |chains'|) == c
    {
      if c == b && y != x { assert y in chains[b]; }
    }
  }

  // ----------------------------------------------------------------- deleting

  /** The bucket after x, whose successor is `after`, left it. */
  function Dropped(b: Bkt, x: Ptr, after: Ptr): Bkt
    requires b.count > 0
  {
    Bkt(if b.head == x then after else b.head, b.count - 1, b.mult)
  }

  lemma {:induction false} DropOwn(next: Links, prev: Links, b: Bkt, chain: seq<Ptr>, k: nat)
    requires Bucket(next, prev, b, chain) && k < |chain|
    ensures chain[k] in next && chain[k] in prev
    ensures var n, p := next[chain[k]], prev[chain[k]];
      Bucket(Link(next, p, n), Link(prev, n, p), Dropped(b, chain[k], n), Without(chain, k))
  {
    ForwardAt(next, chain, k);
    BackwardAt(prev, chain, k);
    RemoveLinked(next, prev, chain, k);
    if k > 0 { Differ(chain, 0, k); }
    hide Linked, Distinct, Forward, Backward;
  }

  lemma {:induction false} DropOther(next: Links, prev: Links, p: Ptr, n: Ptr, b: Bkt, chain: seq<Ptr>)
    requires Bucket(next, prev, b, chain) && p !in chain && n !in chain
    ensures Bucket(Link(next, p, n), Link(prev, n, p), b, chain)
  {
    LinkedFrame(next, prev, Link(next, p, n), Link(prev, n, p), chain);
  }

  lemma {:induction false} Neighbours(next: Links, prev: Links, b: Bkt, chain: seq<Ptr>, k: nat)
    requires Bucket(next, prev, b, chain) && k < |chain|
    ensures chain[k] in next && (next[chain[k]] == NULL || next[chain[k]] in chain)
    ensures chain[k] in prev && (prev[chain[k]] == NULL || prev[chain[k]] in chain)
  {
    ForwardAt(next, chain, k);
    BackwardAt(prev, chain, k);
  }

  /** HASH_DEL_IN_BKT: the item at place k of chain b is unlinked, and no other chain is disturbed. */
  lemma {:induction false} DropBuckets(next: Links, prev: Links, bkts: seq<Bkt>, chains: seq<seq<Ptr>>,
                                       members: set<Ptr>, hashv: map<Ptr, nat>, b: nat, k: nat)
    requires Buckets(next, prev, bkts, chains) && Placed(chains, members, hashv)
    requires b < |chains| && k < |chains[b]|
    ensures chains[b][k] in next && chains[b][k] in prev && bkts[b].count == |chains[b]|
    ensures var x := chains[b][k]; var n, p := next[x], prev[x];
      Buckets(Link(next, p, n), Link(prev, n, p), bkts[b := Dropped(bkts[b], x, n)], chains[b := Without(chains[b], k)])
  {
    var x := chains[b][k];
    assert Bucket(next, prev, bkts[b], chains[b]);
    Neighbours(next, prev, bkts[b], chains[b], k);
    hide Bucket, Link, Without, Dropped, Placed;
    var n, p := next[x], prev[x];
    var bkts', chains' := bkts[b := Dropped(bkts[b], x, n)], chains[b := Without(chains[b], k)];
    forall c | 0 <= c < |chains| ensures Bucket(Link(next, p, n), Link(prev, n, p), bkts'[c], chains'[c]) {
      Null(next, prev, bkts[c], chains[c]);
      if c == b {
        DropOwn(next, prev, bkts[b], chains[b], k);
      } else {
        Elsewhere(chains, members, hashv, b, c, p);
        Elsewhere(chains, members, hashv, b, c, n);
        DropOther(next, prev, p, n, bkts[c], chains[c]);
      }
    }
  }

  lemma {:induction false} DropPlaced(chains: seq<seq<Ptr>>, members: set<Ptr>, hashv: map<Ptr, nat>, b: nat, k: nat)
    requires Placed(chains, members, hashv) && b < |chains| && k < |chains[b]| && Distinct(chains[b])
    ensures Placed(chains[b := Without(chains[b], k)], members - {chains[b][k]}, hashv)
  {
    RemoveDistinct(chains[b], k);
    hide Without, Distinct;
    var x := chains[b][k];
    assert x in chains[b];
    var chains' := chains[b := Without(chains[b], k)];
    forall c, y | 0 <= c < |chains'| && y in chains'[c]
      ensures y in members - {x} && y in hashv && Home(hashv, y, |chains'|) == c
    {
      assert y in chains[c];
    }
  }

  // ----------------------------------------------------------------- doubling

  /** The part of the old chains that HASH_EXPAND_BUCKETS has not moved yet: what is left of
      chain i, and every later chain. Only the forward links of these still matter. */
  ghost predicate Pending(next: Links, prior: seq<seq<Ptr>>, members: set<Ptr>, hashv: map<Ptr, nat>,
                          i: nat, rest: seq<Ptr>, moved: set<Ptr>)
  {
    && Placed(prior, members, hashv) && moved <= members
    && Forward(next, rest) && Distinct(rest)
    && (forall x :: x in rest ==> x in members && x !in moved && Home(hashv, x, |prior|) == i)
    && (forall c :: i < c < |prior| ==> Forward(next, prior[c]))
    && (forall x :: x in moved ==> Home(hashv, x, |prior|) <= i)
    && (forall x :: x in members ==> x in moved || x in rest || Home(hashv, x, |prior|) > i)
  }

  lemma {:induction false} MovePending(next: Links, prior: seq<seq<Ptr>>, members: set<Ptr>, hashv: map<Ptr, nat>,
                                       i: nat, rest: seq<Ptr>, moved: set<Ptr>, h: Ptr)
    requires Pending(next, prior, members, hashv, i, rest, moved) && rest != []
    ensures rest[0] in next && rest[0] != NULL && next[rest[0]] == Item(rest, 1) && rest[0] in members && rest[0] !in moved
    ensures rest[0] in hashv
    ensures Pending(next[rest[0] := h], prior, members, hashv, i, rest[1..], moved + {rest[0]})
  {
    var x := rest[0];
    NotNull(rest, 0);
    ForwardTail(next, rest);
    ForwardFrame(next, rest[1..], x, h);
    assert Link(next, x, h) == next[x := h];
    forall c | i < c < |prior| ensures Forward(next[x := h], prior[c]) {
      assert x in rest && x !in prior[c];
      ForwardFrame(next, prior[c], x, h);
    }
    hide Forward, Distinct;
    assert rest == [x] + rest[1..];
  }

  lemma {:induction false} NextChain(next: Links, prior: seq<seq<Ptr>>, members: set<Ptr>, hashv: map<Ptr, nat>,
                                     i: nat, moved: set<Ptr>)
    requires Pending(next, prior, members, hashv, i, [], moved) && i + 1 < |prior| && Distinct(prior[i + 1])
    ensures Pending(next, prior, members, hashv, i + 1, prior[i + 1], moved)
  {
    hide Forward, Distinct;
  }

  lemma {:induction false} FirstChain(next: Links, prev: Links, bkts: seq<Bkt>, prior: seq<seq<Ptr>>, members: set<Ptr>, hashv: map<Ptr, nat>)
    requires Buckets(next, prev, bkts, prior) && Placed(prior, members, hashv)
    ensures Pending(next, prior, members, hashv, 0, prior[0], {})
  {
    assert Bucket(next, prev, bkts[0], prior[0]);
    forall c | 0 <= c < |prior| ensures Forward(next, prior[c]) { assert Bucket(next, prev, bkts[c], prior[c]); }
    hide Forward, Distinct, Bucket;
  }

  lemma {:induction false} AllMoved(next: Links, prior: seq<seq<Ptr>>, members: set<Ptr>, hashv: map<Ptr, nat>, moved: set<Ptr>)
    requires |prior| > 0 && Pending(next, prior, members, hashv, |prior| - 1, [], moved)
    ensures moved == members
  {
    hide Forward, Distinct;
  }
}
