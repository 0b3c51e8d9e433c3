/** The uthash table (include/uthash.h): bucket chains, doubling and the insertion-order list,
    all threaded through the same items. It refines a finite map with an order. */
module UtTable {
  import opened Bits
  import opened UtList
  import opened UtBuckets
  import opened UtSort
  import S = UtSortSpec

  type Key = seq<byte>

  const HASH_INITIAL_NUM_BUCKETS_LOG2 := 5
  const HASH_BKT_CAPACITY_THRESH := 10

  function Elems(xs: seq<Ptr>): set<Ptr> { set x | x in xs }

  /** Keys are distinct, `items` finds them, and each cached hash is the key's. */
  ghost predicate Indexed(order: seq<Ptr>, items: map<Key, Ptr>, key: map<Ptr, Key>, hashv: map<Ptr, nat>, hash: Key -> nat) {
    && (forall x :: x in order ==> x in key && x in hashv)
    && (forall x :: x in order ==> key[x] in items && items[key[x]] == x && hashv[x] == hash(key[x]))
    && (forall k :: k in items ==> items[k] in order && key[items[k]] == k)
  }

  lemma {:induction false} AddIndexed(order: seq<Ptr>, items: map<Key, Ptr>, key: map<Ptr, Key>, hashv: map<Ptr, nat>, hash: Key -> nat, k: Key, x: Ptr)
    requires Indexed(order, items, key, hashv, hash) && x !in order && k !in items
    ensures Indexed(order + [x], items[k := x], key[x := k], hashv[x := hash(k)], hash)
  {
    assert (order + [x])[|order|] == x;
  }

  lemma {:induction false} RemoveIndexed(order: seq<Ptr>, items: map<Key, Ptr>, key: map<Ptr, Key>, hashv: map<Ptr, nat>, hash: Key -> nat, k: nat)
    requires Indexed(order, items, key, hashv, hash) && Distinct(order) && k < |order|
    ensures order[k] in key && Indexed(Without(order, k), items - {key[order[k]]}, key, hashv, hash)
  {
    RemoveDistinct(order, k);
    assert order[k] in order;
    hide Distinct, Without;
  }

  lemma {:induction false} ElemsGrow(xs: seq<Ptr>, x: Ptr)
    ensures Elems(xs + [x]) == Elems(xs) + {x}
  {
  }

  lemma {:induction false} NotElem(xs: seq<Ptr>, x: Ptr)
    requires x !in xs
    ensures x !in Elems(xs) && (xs == [] ==> Elems(xs) == {})
  {
  }

  lemma {:induction false} ElemsShrink(xs: seq<Ptr>, k: nat)
    requires Distinct(xs) && k < |xs|
    ensures Elems(Without(xs, k)) == Elems(xs) - {xs[k]}
  {
    RemoveDistinct(xs, k);
    hide Distinct, Without;
  }

  lemma {:induction false} ElemsSame(xs: seq<Ptr>, ys: seq<Ptr>)
    requires multiset(xs) == multiset(ys)
    ensures Elems(xs) == Elems(ys) && |xs| == |ys| && forall x :: x in xs <==> x in ys
  {
    assert |multiset(xs)| == |xs| && |multiset(ys)| == |ys|;
    forall x ensures x in xs <==> x in ys {
      assert x in xs <==> x in multiset(xs);
      assert x in ys <==> x in multiset(ys);
    }
  }

  /** The buckets hold exactly the listed items, each in bucket hashv & (num_buckets - 1), and
      every count is right: the conditions HASH_FSCK looks for. */
  ghost predicate Hashed(next: Links, prev: Links, bkts: seq<Bkt>, chains: seq<seq<Ptr>>, log2: nat,
                         members: set<Ptr>, hashv: map<Ptr, nat>, numItems: nat)
  {
    && Buckets(next, prev, bkts, chains) && Placed(chains, members, hashv)
    && |bkts| == Pow2(log2) && Total(bkts) == numItems
  }

  lemma {:induction false} FreshHashed(next: Links, prev: Links, bkts: seq<Bkt>, chains: seq<seq<Ptr>>, log2: nat, hashv: map<Ptr, nat>)
    requires bkts == seq(Pow2(log2), _ => Bkt(NULL, 0, 0)) && chains == seq(Pow2(log2), _ => [])
    ensures Hashed(next, prev, bkts, chains, log2, {}, hashv, 0)
  {
    TotalEmpty(Pow2(log2));
  }

  lemma ThirtyTwo()
    ensures Pow2(HASH_INITIAL_NUM_BUCKETS_LOG2) == 32
  {
  }

  /** x pushed in front of its chain. */
  lemma {:induction false} PushHashed(next: Links, prev: Links, bkts: seq<Bkt>, chains: seq<seq<Ptr>>, log2: nat,
                                      members: set<Ptr>, hashv: map<Ptr, nat>, numItems: nat, x: Ptr, mult: nat)
    requires Hashed(next, prev, bkts, chains, log2, members, hashv, numItems) && x != NULL && x !in members && x in hashv
    ensures var b := Home(hashv, x, |bkts|);
      Hashed(next[x := bkts[b].head], Link(prev[x := NULL], bkts[b].head, x), bkts[b := Pushed(bkts[b], x, mult)],
             chains[b := [x] + chains[b]], log2, members + {x}, hashv, numItems + 1)
  {
    hide Link, Placed, Bucket, Home;
    assert |bkts| == |chains| by { hide Placed; }
    var b := Home(hashv, x, |bkts|);
    PushHome(hashv, x, |bkts|);
    PushBuckets(next, prev, bkts, chains, members, hashv, x, b, mult);
    PushPlaced(chains, members, hashv, x);
    TotalUpdate(bkts, b, Pushed(bkts[b], x, mult));
  }

  lemma {:induction false} PushHome(hashv: map<Ptr, nat>, x: Ptr, n: nat)
    requires n > 0 && x in hashv
    ensures Home(hashv, x, n) < n
  {
  }

  lemma {:induction false} DropHashed(next: Links, prev: Links, bkts: seq<Bkt>, chains: seq<seq<Ptr>>, log2: nat,
                                      members: set<Ptr>, hashv: map<Ptr, nat>, numItems: nat, b: nat, k: nat)
    requires Hashed(next, prev, bkts, chains, log2, members, hashv, numItems) && b < |chains| && k < |chains[b]|
    ensures b < |bkts| && bkts[b].count > 0 && chains[b][k] in next && chains[b][k] in prev && numItems > 0
    ensures var x := chains[b][k]; var n, p := next[x], prev[x];
      Hashed(Link(next, p, n), Link(prev, n, p), bkts[b := Dropped(bkts[b], x, n)], chains[b := Without(chains[b], k)],
             log2, members - {x}, hashv, numItems - 1)
  {
    assert Bucket(next, prev, bkts[b], chains[b]);
    hide Link, Placed, Bucket, Without;
    DropBuckets(next, prev, bkts, chains, members, hashv, b, k);
    DropPlaced(chains, members, hashv, b, k);
    var x := chains[b][k];
    TotalUpdate(bkts, b, Dropped(bkts[b], x, next[x]));
  }

  /** New items do not look at hashes of non-members. */
  lemma {:induction false} HashedNewKey(next: Links, prev: Links, bkts: seq<Bkt>, chains: seq<seq<Ptr>>, log2: nat,
                                        members: set<Ptr>, hashv: map<Ptr, nat>, numItems: nat, x: Ptr, h: nat)
    requires Hashed(next, prev, bkts, chains, log2, members, hashv, numItems) && x !in members
    ensures Hashed(next, prev, bkts, chains, log2, members, hashv[x := h], numItems)
  {
    hide Bucket;
  }

  class Table {
    const hash: Key -> nat
    const app: AppOrder
    var hhNext: Links
    var hhPrev: Links
    var key: map<Ptr, Key>
    var hashv: map<Ptr, nat>
    var bkts: seq<Bkt>
    var numBuckets: nat
    var log2: nat
    var numItems: nat
    var idealMax: nat
    var nonideal: nat
    var ineff: nat
    var noexpand: bool
    ghost var chains: seq<seq<Ptr>>
    ghost var items: map<Key, Ptr>

    ghost predicate BucketsOk()
      reads this, app
    {
      Hashed(hhNext, hhPrev, bkts, chains, log2, Elems(app.order), hashv, numItems) && numBuckets == |bkts|
    }

    ghost predicate Valid()
      reads this, app
    {
      && app.Valid()
      && Indexed(app.order, items, key, hashv, hash)
      && (app.order != [] ==> BucketsOk() && numItems == |app.order|)
    }

    /** A NULL head pointer: no table yet. */
    constructor (hash: Key -> nat)
      ensures Valid() && fresh(app) && app.order == [] && items == map[] && this.hash == hash
    {
      this.hash := hash;
      app := new AppOrder();
      items, key, hashv, hhNext, hhPrev := map[], map[], map[], map[], map[];
      bkts, chains := [], [];
    }

    /** HASH_FIND: exactly the stored item of key k, NULL when there is none. */
    method Find(k: Key) returns (out: Ptr)
      requires Valid()
      ensures out == if k in items then items[k] else NULL
    {
      hide Hashed, Indexed, Item, Linked, Last, And, Slot;
      NoItems(app.next, app.prev, app.order, items, key, hashv, hash);
      out := NULL;
      if app.head != NULL {
        var h := hash(k);
        ChainAt(hhNext, hhPrev, bkts, chains, log2, Elems(app.order), hashv, numItems, h);
        var b := And(h, numBuckets - 1);
        ghost var j, chain := 0, chains[b];
        out := bkts[b].head;
        while out != NULL
          invariant j <= |chain| && out == Item(chain, j)
          invariant forall i :: 0 <= i < j ==> chain[i] in key && key[chain[i]] != k
          decreases |chain| - j
        {
          Probe(hhNext, hhPrev, bkts, chains, log2, app.order, hashv, numItems, items, key, hash, b, j);
          if hashv[out] == h && key[out] == k {
            return;
          }
          out := hhNext[out];
          j := j + 1;
        }
        Missed(hhNext, hhPrev, bkts, chains, log2, app.order, hashv, numItems, items, key, hash, k, j);
      }
    }

    /** HASH_MAKE_TABLE: 32 empty buckets. */
    method MakeTable()
      modifies this`bkts, this`numBuckets, this`log2, this`numItems, this`idealMax, this`nonideal, this`ineff, this`noexpand, this`chains
      ensures Hashed(hhNext, hhPrev, bkts, chains, log2, {}, hashv, numItems) && numBuckets == |bkts| && numItems == 0
    {
      ThirtyTwo();
      hide Hashed, Pow2;
      log2, numBuckets := HASH_INITIAL_NUM_BUCKETS_LOG2, 32;
      numItems, idealMax, nonideal, ineff, noexpand := 0, 0, 0, 0, false;
      bkts, chains := seq(numBuckets, _ => Bkt(NULL, 0, 0)), seq(numBuckets, _ => []);
      FreshHashed(hhNext, hhPrev, bkts, chains, log2, hashv);
      HashedSize(hhNext, hhPrev, bkts, chains, log2, {}, hashv, 0);
    }

    /** Link x in front of a chain that starts at h. */
    method Hook(x: Ptr, h: Ptr)
      modifies this`hhNext, this`hhPrev
      ensures hhNext == old(hhNext)[x := h] && hhPrev == Link(old(hhPrev)[x := NULL], h, x)
    {
      hhNext, hhPrev := hhNext[x := h], hhPrev[x := NULL];
      if h != NULL { hhPrev := hhPrev[h := x]; }
    }

    /** Move what is left of old chain i to the new buckets. */
    method MoveChain(i: nat, into: seq<Bkt>, ghost members: set<Ptr>, ghost into': seq<seq<Ptr>>, ghost moved0: set<Ptr>)
      returns (fr: seq<Bkt>, ghost fr': seq<seq<Ptr>>, ghost moved: set<Ptr>)
      requires i < |bkts| == |chains| && bkts[i].head == Item(chains[i], 0) && Pow2(log2) == numBuckets
      requires Pending(hhNext, chains, members, hashv, i, chains[i], moved0)
      requires Hashed(hhNext, hhPrev, into, into', log2 + 1, moved0, hashv, |moved0|) && Judged(into, idealMax, nonideal)
      modifies this`hhNext, this`hhPrev, this`nonideal
      ensures Pending(hhNext, chains, members, hashv, i, [], moved)
      ensures Hashed(hhNext, hhPrev, fr, fr', log2 + 1, moved, hashv, |moved|) && Judged(fr, idealMax, nonideal)
    {
      hide Pending, Hashed, And, Link, Home, Judged, MultAfter;
      var thh := bkts[i].head;
      ghost var rest := chains[i];
      fr, fr', moved := into, into', moved0;
      PendingNull(hhNext, chains, members, hashv, i, rest, moved);
      while thh != NULL
        invariant Pending(hhNext, chains, members, hashv, i, rest, moved) && thh == Item(rest, 0)
        invariant Hashed(hhNext, hhPrev, fr, fr', log2 + 1, moved, hashv, |moved|) && Judged(fr, idealMax, nonideal)
        invariant thh == NULL <==> rest == []
        decreases |rest|
      {
        MovePending(hhNext, chains, members, hashv, i, rest, moved, NULL);
        var nxt := hhNext[thh];
        var b := And(hashv[thh], numBuckets * 2 - 1);
        HomeAt(hhNext, hhPrev, fr, fr', log2 + 1, moved, hashv, |moved|, thh);
        var bk := fr[b];
        JudgedPush(fr, idealMax, nonideal, b, thh);
        var mult := bk.mult;
        if bk.count + 1 > idealMax {
          nonideal := nonideal + 1;
          if bk.count + 1 > mult * idealMax { mult := mult + 1; }
        }
        MovePending(hhNext, chains, members, hashv, i, rest, moved, bk.head);
        PushHashed(hhNext, hhPrev, fr, fr', log2 + 1, moved, hashv, |moved|, thh, mult);
        Hook(thh, bk.head);
        fr, fr' := fr[b := Pushed(bk, thh, mult)], fr'[b := [thh] + fr'[b]];
        moved, rest := moved + {thh}, rest[1..];
        thh := nxt;
        PendingNull(hhNext, chains, members, hashv, i, rest, moved);
      }
    }

    /** Every old chain in turn. */
    method Redistribute(ghost members: set<Ptr>) returns (fr: seq<Bkt>, ghost fr': seq<seq<Ptr>>)
      requires Hashed(hhNext, hhPrev, bkts, chains, log2, members, hashv, numItems) && numBuckets == |bkts|
      requires nonideal == 0
      modifies this`hhNext, this`hhPrev, this`nonideal
      ensures Hashed(hhNext, hhPrev, fr, fr', log2 + 1, members, hashv, |members|) && Judged(fr, idealMax, nonideal)
    {
      hide Hashed, Pending, Item, Pow2, Distinct, Judged;
      ghost var moved: set<Ptr> := {};
      fr, fr' := seq(2 * numBuckets, _ => Bkt(NULL, 0, 0)), seq(2 * numBuckets, _ => []);
      ReadyToMove(hhNext, hhPrev, bkts, chains, log2, members, hashv, numItems, fr, fr');
      JudgedEmpty(2 * numBuckets, idealMax);
      for i := 0 to numBuckets
        invariant i < numBuckets ==> Pending(hhNext, chains, members, hashv, i, chains[i], moved)
        invariant i == numBuckets ==> Pending(hhNext, chains, members, hashv, i - 1, [], moved)
        invariant Hashed(hhNext, hhPrev, fr, fr', log2 + 1, moved, hashv, |moved|) && Judged(fr, idealMax, nonideal)
      {
        fr, fr', moved := MoveChain(i, fr, members, fr', moved);
        if i + 1 < numBuckets { NextChain(hhNext, chains, members, hashv, i, moved); }
      }
      AllMoved(hhNext, chains, members, hashv, moved);
    }

    /** The longest chain that a perfect spread over the doubled buckets would need. */
    method SetIdeal()
      requires numBuckets == Pow2(log2)
      modifies this`idealMax
      ensures IsCeiling(idealMax, numItems, 2 * numBuckets)
    {
      assert 2 * numBuckets == Pow2(log2 + 1);
      hide And, IsCeiling, Shr;
      idealMax := Shr(numItems, log2 + 1) + if And(numItems, 2 * numBuckets - 1) != 0 then 1 else 0;
      IdealIsCeiling(numItems, log2 + 1);
    }

    /** HASH_EXPAND_BUCKETS: twice the buckets, the same items in them, each where its hash
        now says; neither the insertion-order list nor any key is touched. */
    method ExpandBuckets(ghost members: set<Ptr>)
      requires Hashed(hhNext, hhPrev, bkts, chains, log2, members, hashv, numItems) && numBuckets == |bkts| && numItems == |members|
      modifies this`hhNext, this`hhPrev, this`bkts, this`chains, this`numBuckets, this`log2, this`idealMax, this`nonideal, this`ineff, this`noexpand
      ensures Hashed(hhNext, hhPrev, bkts, chains, log2, members, hashv, numItems) && numBuckets == |bkts| == 2 * |old(bkts)|
      ensures IsCeiling(idealMax, numItems, numBuckets) && Judged(bkts, idealMax, nonideal)
      ensures ineff == if nonideal > numItems / 2 then old(ineff) + 1 else 0
      ensures noexpand == (old(noexpand) || ineff >= 2)
    {
      hide Hashed, IsCeiling, Pow2, Judged;
      PowNext(log2);
      HashedSize(hhNext, hhPrev, bkts, chains, log2, members, hashv, numItems);
      SetIdeal();
      nonideal := 0;
      ghost var fr';
      var fr;
      fr, fr' := Redistribute(members);
      numBuckets, log2, bkts, chains := numBuckets * 2, log2 + 1, fr, fr';
      HashedSize(hhNext, hhPrev, bkts, chains, log2, members, hashv, numItems);
      JudgeExpansion();
    }

    /** Two expansions in a row that left most items in overlong chains are the last. */
    method JudgeExpansion()
      modifies this`ineff, this`noexpand
      ensures ineff == if nonideal > numItems / 2 then old(ineff) + 1 else 0
      ensures noexpand == (old(noexpand) || ineff >= 2)
    {
      ineff := if nonideal > numItems / 2 then ineff + 1 else 0;
      if ineff > 1 { noexpand := true; }
    }

    /** HASH_ADD_TO_BKT, with the doubling it may set off. */
    method AddToBkt(x: Ptr, b: nat, ghost members: set<Ptr>)
      requires Hashed(hhNext, hhPrev, bkts, chains, log2, members, hashv, |members|) && numBuckets == |bkts| && numItems == |members| + 1
      requires x != NULL && x !in members && x in hashv && b == And(hashv[x], numBuckets - 1)
      modifies this`hhNext, this`hhPrev, this`bkts, this`chains, this`numBuckets, this`log2, this`idealMax, this`nonideal, this`ineff, this`noexpand
      ensures Hashed(hhNext, hhPrev, bkts, chains, log2, members + {x}, hashv, numItems) && numBuckets == |bkts|
      ensures numBuckets == if Doubles(old(bkts), b, old(noexpand)) then 2 * old(numBuckets) else old(numBuckets)
      ensures b < |old(bkts)| && (numBuckets == old(numBuckets) ==>
        bkts == old(bkts)[b := Pushed(old(bkts)[b], x, old(bkts)[b].mult)] && noexpand == old(noexpand))
    {
      hide Hashed, Link, Home;
      HomeAt(hhNext, hhPrev, bkts, chains, log2, members, hashv, |members|, x);
      PushHashed(hhNext, hhPrev, bkts, chains, log2, members, hashv, |members|, x, bkts[b].mult);
      var bk := bkts[b];
      Hook(x, bk.head);
      bkts, chains := bkts[b := Pushed(bk, x, bk.mult)], chains[b := [x] + chains[b]];
      if bkts[b].count >= (bkts[b].mult + 1) * HASH_BKT_CAPACITY_THRESH && !noexpand {
        ExpandBuckets(members + {x});
      }
    }

    /** HASH_ADD_KEYPTR of a new item under a new key: the map gains it, the order ends with it. */
    method Add(x: Ptr, k: Key)
      requires Valid() && x != NULL && x !in app.order && k !in items
      modifies this, app
      ensures Valid() && app.order == old(app.order) + [x] && items == old(items)[k := x]
    {
      hide Hashed, Indexed, Linked, Item, Last, And, Elems;
      NoItems(app.next, app.prev, app.order, items, key, hashv, hash);
      OrderFacts(app.next, app.prev, app.order, x);
      ghost var members := Elems(app.order);
      AddKey(x, k, members);
      app.Append(x);
      AddToTable(x, members);
    }

    /** The item's own fields, and a table if there is none yet. */
    method AddKey(x: Ptr, k: Key, ghost members: set<Ptr>)
      requires Indexed(app.order, items, key, hashv, hash) && x !in app.order && k !in items && x !in members
      requires if app.head == NULL then members == {} else
        Hashed(hhNext, hhPrev, bkts, chains, log2, members, hashv, numItems) && numBuckets == |bkts| && numItems == |members|
      modifies this
      ensures Indexed(app.order + [x], items, key, hashv, hash) && items == old(items)[k := x] && x in hashv
      ensures Hashed(hhNext, hhPrev, bkts, chains, log2, members, hashv, numItems) && numBuckets == |bkts| && numItems == |members|
    {
      hide Hashed, Indexed;
      AddIndexed(app.order, items, key, hashv, hash, k, x);
      hashv, key, items := hashv[x := hash(k)], key[x := k], items[k := x];
      if app.head == NULL {
        MakeTable();
      } else {
        HashedNewKey(hhNext, hhPrev, bkts, chains, log2, members, old(hashv), numItems, x, hash(k));
      }
    }

    /** HASH_ADD_TO_TABLE */
    method AddToTable(x: Ptr, ghost members: set<Ptr>)
      requires Hashed(hhNext, hhPrev, bkts, chains, log2, members, hashv, numItems) && numBuckets == |bkts| && numItems == |members|
      requires x != NULL && x !in members && x in hashv
      modifies this`numItems, this`hhNext, this`hhPrev, this`bkts, this`chains, this`numBuckets, this`log2, this`idealMax, this`nonideal, this`ineff, this`noexpand
      ensures Hashed(hhNext, hhPrev, bkts, chains, log2, members + {x}, hashv, numItems) && numBuckets == |bkts| && numItems == |members| + 1
      ensures old(numBuckets) > 0 && numBuckets ==
        if Doubles(old(bkts), And(hashv[x], old(numBuckets) - 1), old(noexpand)) then 2 * old(numBuckets) else old(numBuckets)
    {
      hide Hashed, And;
      BucketCount(hhNext, hhPrev, bkts, chains, log2, members, hashv, numItems);
      numItems := numItems + 1;
      AddToBkt(x, And(hashv[x], numBuckets - 1), members);
    }

    /** HASH_DEL_IN_BKT */
    method DelInBkt(x: Ptr, b: nat, ghost k: nat, ghost members: set<Ptr>)
      requires Hashed(hhNext, hhPrev, bkts, chains, log2, members, hashv, numItems)
      requires b < |chains| && k < |chains[b]| && chains[b][k] == x
      modifies this`hhNext, this`hhPrev, this`bkts, this`chains
      ensures numItems > 0 && Hashed(hhNext, hhPrev, bkts, chains, log2, members - {x}, hashv, numItems - 1)
      ensures |bkts| == |old(bkts)|
    {
      hide Hashed, Link, Without;
      DropHashed(hhNext, hhPrev, bkts, chains, log2, members, hashv, numItems, b, k);
      var n, p := hhNext[x], hhPrev[x];
      bkts := bkts[b := Bkt(if bkts[b].head == x then n else bkts[b].head, bkts[b].count - 1, bkts[b].mult)];
      chains := chains[b := Without(chains[b], k)];
      Skip(p, n);
    }

    /** Link the neighbours p and n of a deleted item to each other. */
    method Skip(p: Ptr, n: Ptr)
      modifies this`hhNext, this`hhPrev
      ensures hhNext == Link(old(hhNext), p, n) && hhPrev == Link(old(hhPrev), n, p)
    {
      if p != NULL { hhNext := hhNext[p := n]; }
      if n != NULL { hhPrev := hhPrev[n := p]; }
    }

    /** HASH_DELETE_HH: x leaves the map and the order, and nothing else does; deleting the
        last item frees the table. */
    method Delete(x: Ptr)
      requires Valid() && x in app.order
      modifies this, app
      ensures Valid() && app.order == Erase(old(app.order), x) && items == Unmapped(old(items), x)
    {
      hide Hashed, Indexed, Linked, Item, Last, And, Elems, Without, Erase, Unmapped, Home;
      ghost var i :| 0 <= i < |app.order| && app.order[i] == x;
      ghost var members := Elems(app.order);
      Forgotten(app.next, app.prev, app.order, items, key, hashv, hash, i);
      ghost var k := ChainPlace(hhNext, hhPrev, bkts, chains, log2, app.order, hashv, numItems, x);
      items := Unmapped(items, x);
      var emptied := app.Remove(x, i);
      if !emptied {
        DelInBkt(x, And(hashv[x], numBuckets - 1), k, members);
        numItems := numItems - 1;
      }
    }

    /** HASH_SRT on the table: only the order changes; the buckets, which are not in the
        frame, and so every find, stay as they are. */
    method Sort(le: (Ptr, Ptr) -> bool)
      requires Valid() && S.TotalPreorder(le)
      modifies app
      ensures Valid() && app.order == S.Sort(le, old(app.order))
      ensures S.Sorted(le, app.order) && multiset(app.order) == multiset(old(app.order))
      ensures forall c :: S.Class(le, c, app.order) == S.Class(le, c, old(app.order))
    {
      hide Hashed, Linked, S.Sorted, S.Class, S.TotalPreorder, Indexed, Elems;
      ghost var before := app.order;
      app.Sort(le);
      ElemsSame(before, app.order);
      SortIndexed(before, app.order, items, key, hashv, hash);
    }
  }

  lemma {:induction false} SortIndexed(order: seq<Ptr>, order': seq<Ptr>, items: map<Key, Ptr>, key: map<Ptr, Key>, hashv: map<Ptr, nat>, hash: Key -> nat)
    requires Indexed(order, items, key, hashv, hash) && forall x :: x in order <==> x in order'
    ensures Indexed(order', items, key, hashv, hash)
  {
  }

  /** The list without x. */
  function Erase(xs: seq<Ptr>, x: Ptr): seq<Ptr> {
    if xs == [] then [] else if xs[0] == x then xs[1..] else [xs[0]] + Erase(xs[1..], x)
  }

  /** The map without the key of x. */
  ghost function Unmapped(items: map<Key, Ptr>, x: Ptr): map<Key, Ptr> {
    map k | k in items && items[k] != x :: items[k]
  }

  lemma {:induction false} EraseIs(xs: seq<Ptr>, k: nat)
    requires Distinct(xs) && k < |xs|
    ensures Erase(xs, xs[k]) == Without(xs, k)
  {
    if k > 0 {
      Differ(xs, 0, k);
      assert xs[1..][k - 1] == xs[k];
      EraseIs(xs[1..], k - 1);
      assert Without(xs, k) == [xs[0]] + Without(xs[1..], k - 1);
    }
  }

  /** What deleting the item at place i means for the order and the map. */
  lemma {:induction false} Forgotten(next: Links, prev: Links, order: seq<Ptr>, items: map<Key, Ptr>, key: map<Ptr, Key>,
                                     hashv: map<Ptr, nat>, hash: Key -> nat, i: nat)
    requires Linked(next, prev, order) && Indexed(order, items, key, hashv, hash) && i < |order|
    ensures Indexed(Without(order, i), Unmapped(items, order[i]), key, hashv, hash)
    ensures Without(order, i) == Erase(order, order[i]) && |Without(order, i)| == |order| - 1
    ensures Elems(Without(order, i)) == Elems(order) - {order[i]}
  {
    EraseIs(order, i);
    RemoveIndexed(order, items, key, hashv, hash, i);
    ElemsShrink(order, i);
    UnmappedIs(order, items, key, hashv, hash, order[i]);
    hide Linked, Without, Erase, Indexed, Unmapped, Elems;
  }

  lemma {:induction false} UnmappedIs(order: seq<Ptr>, items: map<Key, Ptr>, key: map<Ptr, Key>, hashv: map<Ptr, nat>, hash: Key -> nat, x: Ptr)
    requires Indexed(order, items, key, hashv, hash) && x in order
    ensures x in key && Unmapped(items, x) == items - {key[x]}
  {
  }

  lemma {:induction false} OrderFacts(next: Links, prev: Links, order: seq<Ptr>, x: Ptr)
    requires Linked(next, prev, order) && x !in order
    ensures |Elems(order)| == |order| && x !in Elems(order) && Elems(order + [x]) == Elems(order) + {x}
    ensures order == [] ==> Elems(order) == {}
  {
    OrderCard(next, prev, order);
    ElemsGrow(order, x);
    NotElem(order, x);
  }

  lemma {:induction false} OrderCard(next: Links, prev: Links, order: seq<Ptr>)
    requires Linked(next, prev, order)
    ensures |Elems(order)| == |order|
  {
    DistinctCard(order);
  }

  lemma {:induction false} DistinctCard(xs: seq<Ptr>)
    requires Distinct(xs)
    ensures |Elems(xs)| == |xs|
  {
    if xs != [] {
      var n := |xs| - 1;
      DistinctCard(xs[..n]);
      assert xs == xs[..n] + [xs[n]];
      ElemsGrow(xs[..n], xs[n]);
    }
  }

  lemma {:induction false} BucketCount(next: Links, prev: Links, bkts: seq<Bkt>, chains: seq<seq<Ptr>>, log2: nat,
                                       members: set<Ptr>, hashv: map<Ptr, nat>, numItems: nat)
    requires Hashed(next, prev, bkts, chains, log2, members, hashv, numItems)
    ensures |bkts| == |chains| > 0
  {
  }

  /** Where in its chain a member is. */
  ghost function ChainPlace(next: Links, prev: Links, bkts: seq<Bkt>, chains: seq<seq<Ptr>>, log2: nat, order: seq<Ptr>,
                            hashv: map<Ptr, nat>, numItems: nat, x: Ptr): (k: nat)
    requires Hashed(next, prev, bkts, chains, log2, Elems(order), hashv, numItems) && x in order
    ensures x in hashv && |bkts| == |chains| > 0
    ensures And(hashv[x], |bkts| - 1) < |chains|
    ensures var c := chains[And(hashv[x], |bkts| - 1)]; k < |c| && c[k] == x
  {
    assert x in Elems(order);
    HomeAt(next, prev, bkts, chains, log2, Elems(order), hashv, numItems, x);
    var c := chains[Home(hashv, x, |bkts|)];
    var k :| 0 <= k < |c| && c[k] == x;
    k
  }

  /** One more item in bucket b sets off a doubling: the chain reaches ten items, or as many tens
      more as the bucket has been allowed, and doubling has not been given up. */
  predicate Doubles(bkts: seq<Bkt>, b: nat, noexpand: bool) {
    b < |bkts| && !noexpand && bkts[b].count + 1 >= 10 * (bkts[b].mult + 1)
  }

  /** Items beyond the first `ideal` of each chain. */
  function Excess(bkts: seq<Bkt>, ideal: nat): nat {
    if bkts == [] then 0
    else (if bkts[0].count > ideal then bkts[0].count - ideal else 0) + Excess(bkts[1..], ideal)
  }

  /** The multiplier of a bucket that c items were moved to. */
  function MultAfter(c: nat, ideal: nat): nat {
    if c == 0 then 0
    else
      var m := MultAfter(c - 1, ideal);
      if c > ideal && c > m * ideal then m + 1 else m
  }

  /** nonideal_items counts the items beyond the ideal chain length, and every multiplier depends
      only on the number of items in its bucket. */
  ghost predicate Judged(bkts: seq<Bkt>, ideal: nat, nonideal: nat) {
    nonideal == Excess(bkts, ideal) && forall b :: 0 <= b < |bkts| ==> bkts[b].mult == MultAfter(bkts[b].count, ideal)
  }

  lemma {:induction false} ExcessUpdate(bkts: seq<Bkt>, b: nat, v: Bkt, ideal: nat)
    requires b < |bkts| && v.count == bkts[b].count + 1
    ensures Excess(bkts[b := v], ideal) == Excess(bkts, ideal) + if v.count > ideal then 1 else 0
  {
    if b == 0 {
      assert bkts[b := v][1..] == bkts[1..];
    } else {
      ExcessUpdate(bkts[1..], b - 1, v, ideal);
      assert bkts[b := v][1..] == bkts[1..][b - 1 := v];
    }
  }

  lemma {:induction false} JudgedPush(bkts: seq<Bkt>, ideal: nat, nonideal: nat, b: nat, x: Ptr)
    requires Judged(bkts, ideal, nonideal) && b < |bkts|
    ensures var c, m := bkts[b].count + 1, bkts[b].mult;
      Judged(bkts[b := Pushed(bkts[b], x, if c > ideal && c > m * ideal then m + 1 else m)], ideal,
             nonideal + if c > ideal then 1 else 0)
  {
    var c, m := bkts[b].count + 1, bkts[b].mult;
    var m' := if c > ideal && c > m * ideal then m + 1 else m;
    ExcessUpdate(bkts, b, Pushed(bkts[b], x, m'), ideal);
    assert m' == MultAfter(c, ideal);
    hide MultAfter, Excess;
  }

  lemma {:induction false} JudgedEmpty(n: nat, ideal: nat)
    ensures Judged(seq(n, _ => Bkt(NULL, 0, 0)), ideal, 0)
  {
    if n > 0 {
      JudgedEmpty(n - 1, ideal);
      assert seq(n, _ => Bkt(NULL, 0, 0))[1..] == seq(n - 1, _ => Bkt(NULL, 0, 0));
    }
  }

  /** ideal_chain_maxlen: n / b rounded up. */
  predicate IsCeiling(r: nat, n: nat, b: nat) {
    (r - 1) * b < n <= r * b
  }

  lemma {:induction false} IdealIsCeiling(n: nat, k: nat)
    ensures IsCeiling(Shr(n, k) + (if And(n, Pow2(k) - 1) != 0 then 1 else 0), n, Pow2(k))
  {
    MaskIsSlot(n, k);
    ShrRest(n, k);
    hide Shr, And, Slot, Pow2;
    var q: int, b: int := Shr(n, k), Pow2(k);
    assert (q + 1) * b == q * b + b && (q - 1) * b == q * b - b;
  }

  /** n >> k */
  function Shr(n: nat, k: nat): nat {
    if k == 0 then n else Shr(n / 2, k - 1)
  }

  lemma {:induction false} ShrRest(n: nat, k: nat)
    ensures n == Shr(n, k) * Pow2(k) + Slot(n, Pow2(k))
  {
    if k == 0 {
      SlotOne(n);
    } else {
      ShrRest(n / 2, k - 1);
      HalveSlot(n, Pow2(k - 1));
      TwiceTimes(Shr(n, k), Pow2(k - 1));
      hide Slot;
      assert Shr(n, k) == Shr(n / 2, k - 1) && Pow2(k) == 2 * Pow2(k - 1);
      hide Shr, Pow2;
    }
  }

  lemma TwiceTimes(q: nat, m: nat)
    ensures q * (2 * m) == 2 * (q * m)
  {
  }

  lemma {:induction false} PendingNull(next: Links, chains: seq<seq<Ptr>>, members: set<Ptr>, hashv: map<Ptr, nat>,
                                       i: nat, rest: seq<Ptr>, moved: set<Ptr>)
    requires Pending(next, chains, members, hashv, i, rest, moved)
    ensures Item(rest, 0) == NULL <==> rest == []
  {
    ItemNull(rest, 0);
  }

  /** Before the first old chain is moved. */
  lemma {:induction false} ReadyToMove(next: Links, prev: Links, bkts: seq<Bkt>, chains: seq<seq<Ptr>>, log2: nat,
                                       members: set<Ptr>, hashv: map<Ptr, nat>, numItems: nat, fr: seq<Bkt>, fr': seq<seq<Ptr>>)
    requires Hashed(next, prev, bkts, chains, log2, members, hashv, numItems)
    requires fr == seq(2 * |bkts|, _ => Bkt(NULL, 0, 0)) && fr' == seq(2 * |bkts|, _ => [])
    ensures |bkts| == |chains| == Pow2(log2) > 0
    ensures Hashed(next, prev, fr, fr', log2 + 1, {}, hashv, 0)
    ensures Pending(next, chains, members, hashv, 0, chains[0], {})
    ensures forall i :: 0 <= i < |bkts| ==> bkts[i].head == Item(chains[i], 0) && Distinct(chains[i])
  {
    FreshHashed(next, prev, fr, fr', log2 + 1, hashv);
    FirstChain(next, prev, bkts, chains, members, hashv);
    HeadsOf(next, prev, bkts, chains);
    hide Placed, Pending, Bucket, Total, Item, Distinct;
  }

  lemma {:induction false} HeadsOf(next: Links, prev: Links, bkts: seq<Bkt>, chains: seq<seq<Ptr>>)
    requires Buckets(next, prev, bkts, chains)
    ensures forall i :: 0 <= i < |bkts| ==> bkts[i].head == Item(chains[i], 0) && Distinct(chains[i])
  {
    forall i | 0 <= i < |bkts| ensures bkts[i].head == Item(chains[i], 0) && Distinct(chains[i]) {
      assert Bucket(next, prev, bkts[i], chains[i]);
    }
  }

  lemma PowNext(k: nat)
    ensures Pow2(k + 1) == 2 * Pow2(k)
  {
  }

  lemma {:induction false} HashedSize(next: Links, prev: Links, bkts: seq<Bkt>, chains: seq<seq<Ptr>>, log2: nat,
                                      members: set<Ptr>, hashv: map<Ptr, nat>, numItems: nat)
    requires Hashed(next, prev, bkts, chains, log2, members, hashv, numItems)
    ensures |bkts| == Pow2(log2)
  {
  }

  lemma {:induction false} HomeAt(next: Links, prev: Links, bkts: seq<Bkt>, chains: seq<seq<Ptr>>, log2: nat,
                                  members: set<Ptr>, hashv: map<Ptr, nat>, numItems: nat, x: Ptr)
    requires Hashed(next, prev, bkts, chains, log2, members, hashv, numItems) && x in hashv
    ensures |bkts| == |chains| == Pow2(log2)
    ensures And(hashv[x], |bkts| - 1) == Home(hashv, x, |bkts|) < |bkts|
  {
    MaskIsSlot(hashv[x], log2);
  }

  lemma {:induction false} ChainAt(next: Links, prev: Links, bkts: seq<Bkt>, chains: seq<seq<Ptr>>, log2: nat,
                                   members: set<Ptr>, hashv: map<Ptr, nat>, numItems: nat, h: nat)
    requires Hashed(next, prev, bkts, chains, log2, members, hashv, numItems)
    ensures |bkts| == |chains| > 0 && And(h, |bkts| - 1) == Slot(h, |chains|)
    ensures bkts[And(h, |bkts| - 1)].head == Item(chains[Slot(h, |chains|)], 0)
  {
    MaskIsSlot(h, log2);
    var b := Slot(h, |chains|);
    assert Bucket(next, prev, bkts[b], chains[b]);
  }

  /** What a probe at place j of chain b sees. */
  lemma {:induction false} Probe(next: Links, prev: Links, bkts: seq<Bkt>, chains: seq<seq<Ptr>>, log2: nat, order: seq<Ptr>,
                                 hashv: map<Ptr, nat>, numItems: nat, items: map<Key, Ptr>, key: map<Ptr, Key>, hash: Key -> nat,
                                 b: nat, j: nat)
    requires Hashed(next, prev, bkts, chains, log2, Elems(order), hashv, numItems) && Indexed(order, items, key, hashv, hash)
    requires b < |chains| && j <= |chains[b]| && Item(chains[b], j) != NULL
    ensures j < |chains[b]|
    ensures var x := Item(chains[b], j);
      && x == chains[b][j] && x in hashv && x in key && x in next && next[x] == Item(chains[b], j + 1)
      && key[x] in items && items[key[x]] == x && hashv[x] == hash(key[x])
  {
    assert Bucket(next, prev, bkts[b], chains[b]);
    ForwardAt(next, chains[b], j);
    assert chains[b][j] in chains[b] && chains[b][j] in Elems(order);
    hide Bucket;
  }

  /** A whole chain without key k: no item has it. */
  lemma {:induction false} Missed(next: Links, prev: Links, bkts: seq<Bkt>, chains: seq<seq<Ptr>>, log2: nat, order: seq<Ptr>,
                                  hashv: map<Ptr, nat>, numItems: nat, items: map<Key, Ptr>, key: map<Ptr, Key>, hash: Key -> nat,
                                  k: Key, j: nat)
    requires Hashed(next, prev, bkts, chains, log2, Elems(order), hashv, numItems) && Indexed(order, items, key, hashv, hash)
    requires var b := Slot(hash(k), |chains|); j <= |chains[b]| && Item(chains[b], j) == NULL
    requires var b := Slot(hash(k), |chains|); forall i :: 0 <= i < j ==> chains[b][i] in key && key[chains[b][i]] != k
    ensures k !in items
  {
    var b := Slot(hash(k), |chains|);
    assert Bucket(next, prev, bkts[b], chains[b]);
    if j < |chains[b]| { NotNull(chains[b], j); }
    hide Hashed, Indexed, Bucket, Slot, Item;
    if k in items { InHome(next, prev, bkts, chains, log2, order, hashv, numItems, items, key, hash, k); }
  }

  lemma {:induction false} InHome(next: Links, prev: Links, bkts: seq<Bkt>, chains: seq<seq<Ptr>>, log2: nat, order: seq<Ptr>,
                                  hashv: map<Ptr, nat>, numItems: nat, items: map<Key, Ptr>, key: map<Ptr, Key>, hash: Key -> nat, k: Key)
    requires Hashed(next, prev, bkts, chains, log2, Elems(order), hashv, numItems) && Indexed(order, items, key, hashv, hash) && k in items
    ensures items[k] in chains[Slot(hash(k), |chains|)] && items[k] in key && key[items[k]] == k
  {
    var x := items[k];
    assert x in order && x in Elems(order) && hashv[x] == hash(k);
    assert Home(hashv, x, |chains|) == Slot(hash(k), |chains|);
  }

  lemma {:induction false} NoItems(next: Links, prev: Links, order: seq<Ptr>, items: map<Key, Ptr>, key: map<Ptr, Key>,
                                   hashv: map<Ptr, nat>, hash: Key -> nat)
    requires Linked(next, prev, order) && Indexed(order, items, key, hashv, hash)
    ensures Item(order, 0) == NULL <==> order == []
    ensures order == [] ==> items == map[]
  {
    ItemNull(order, 0);
    hide Linked;
    if k :| k in items { assert items[k] in order; }
  }

  // --------------------------------------------------------------------- runs

  datatype Op = OpAdd(x: Ptr, k: Key) | OpDelete(x: Ptr) | OpFind(k: Key) | OpSort(le: (Ptr, Ptr) -> bool)

  /** What the table stands for: a finite map and an order on its items. */
  datatype Dict = Dict(order: seq<Ptr>, items: map<Key, Ptr>)

  /** What uthash asks of its callers: an item and a key are added only when not there, and
      only an item that is there is deleted. */
  ghost predicate Allowed(d: Dict, op: Op) {
    match op
    case OpAdd(x, k) => x != NULL && x !in d.order && k !in d.items
    case OpDelete(x) => x in d.order
    case OpFind(_) => true
    case OpSort(le) => S.TotalPreorder(le)
  }

  ghost function Meaning(d: Dict, op: Op): Dict {
    match op
    case OpAdd(x, k) => Dict(d.order + [x], d.items[k := x])
    case OpDelete(x) => Dict(Erase(d.order, x), Unmapped(d.items, x))
    case OpFind(_) => d
    case OpSort(le) => Dict(S.Sort(le, d.order), d.items)
  }

  ghost function Answer(d: Dict, op: Op): seq<Ptr> {
    if op.OpFind? then [if op.k in d.items then d.items[op.k] else NULL] else []
  }

  ghost predicate AllowedRun(d: Dict, ops: seq<Op>)
    decreases |ops|
  {
    |ops| == 0 || (Allowed(d, ops[0]) && AllowedRun(Meaning(d, ops[0]), ops[1..]))
  }

  ghost function Final(d: Dict, ops: seq<Op>): Dict
    decreases |ops|
  {
    if |ops| == 0 then d else Final(Meaning(d, ops[0]), ops[1..])
  }

  ghost function Answers(d: Dict, ops: seq<Op>): seq<Ptr>
    decreases |ops|
  {
    if |ops| == 0 then [] else Answer(d, ops[0]) + Answers(Meaning(d, ops[0]), ops[1..])
  }

  /** One operation on the table is that operation on the map. */
  method Step(t: Table, op: Op) returns (found: seq<Ptr>)
    requires t.Valid() && Allowed(Dict(t.app.order, t.items), op)
    modifies t, t.app
    ensures t.Valid() && found == Answer(old(Dict(t.app.order, t.items)), op)
    ensures Dict(t.app.order, t.items) == Meaning(old(Dict(t.app.order, t.items)), op)
  {
    hide Table.Valid, S.TotalPreorder, S.Sort, Erase, Unmapped;
    found := [];
    match op {
      case OpAdd(x, k) => { t.Add(x, k); }
      case OpDelete(x) => { t.Delete(x); }
      case OpFind(k) => { var out := t.Find(k); found := [out]; }
      case OpSort(le) => { t.Sort(le); }
    }
  }

  /** Over every run of adds with distinct keys, deletes, finds and sorts, through every
      doubling, the table is the map with its order, and each find answers for it. */
  method Perform(hash: Key -> nat, ops: seq<Op>) returns (t: Table, found: seq<Ptr>)
    requires AllowedRun(Dict([], map[]), ops)
    ensures t.Valid() && Dict(t.app.order, t.items) == Final(Dict([], map[]), ops) && found == Answers(Dict([], map[]), ops)
  {
    hide Table.Valid, Allowed, Meaning, Answer;
    t := new Table(hash);
    found := [];
    ghost var start := Dict([], map[]);
    var i := 0;
    while i < |ops|
      invariant 0 <= i <= |ops| && t.Valid() && fresh(t) && fresh(t.app)
      invariant AllowedRun(Dict(t.app.order, t.items), ops[i..])
      invariant Final(Dict(t.app.order, t.items), ops[i..]) == Final(start, ops)
      invariant found + Answers(Dict(t.app.order, t.items), ops[i..]) == Answers(start, ops)
    {
      assert ops[i..][0] == ops[i] && ops[i..][1..] == ops[i + 1..];
      var f := Step(t, ops[i]);
      found := found + f;
      i := i + 1;
    }
  }
}
