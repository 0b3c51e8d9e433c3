/** Bytes, masks and cyclic slots: the machine arithmetic the other modules share. */
module Bits {

  /** One octet of a buffer. */
  type byte = b: int | 0 <= b < 256

  function Pow2(k: nat): (p: nat)
    ensures p >= 1
  {
    if k == 0 then 1 else 2 * Pow2(k - 1)
  }

  /** Bitwise `a & b` on naturals, one bit at a time. */
  function And(a: nat, b: nat): nat {
    if a == 0 || b == 0 then 0
    else 2 * And(a / 2, b / 2) + (if a % 2 == 1 && b % 2 == 1 then 1 else 0)
  }

  /** Index of position `p` in a cyclic buffer of `n` cells. */
  function Slot(p: nat, n: nat): (i: nat)
    requires n > 0
    ensures i < n
  {
    if p < n then p else Slot(p - n, n)
  }

  lemma {:induction false} HalveSlot(x: nat, m: nat)
    requires m > 0
    ensures Slot(x, 2 * m) == 2 * Slot(x / 2, m) + x % 2
  {
    if x >= 2 * m {
      HalveSlot(x - 2 * m, m);
      assert (x - 2 * m) / 2 == x / 2 - m;
    }
  }

  /** `x & (size - 1)` is the remainder whenever `size` is a power of two:
      the indexing idiom of both the ring buffer and the hash table. */
  lemma {:induction false} MaskIsSlot(x: nat, k: nat)
    ensures And(x, Pow2(k) - 1) == Slot(x, Pow2(k))
  {
    if k == 0 {
      SlotOne(x);
    } else {
      var m := Pow2(k - 1);
      MaskIsSlot(x / 2, k - 1);
      HalveSlot(x, m);
      assert (2 * m - 1) / 2 == m - 1 && (2 * m - 1) % 2 == 1;
      if x == 0 {
      } else if x / 2 == 0 {
        assert And(x / 2, m - 1) == 0;
      }
    }
  }

  lemma {:induction false} SlotOne(x: nat)
    ensures Slot(x, 1) == 0
  {
    if x > 0 { SlotOne(x - 1); }
  }

  /** Positions that share a slot are either equal or at least a whole lap apart. */
  lemma {:induction false} SlotGap(p: nat, q: nat, n: nat)
    requires n > 0 && p < q && Slot(p, n) == Slot(q, n)
    ensures p + n <= q
    decreases q
  {
    if p >= n { SlotGap(p - n, q - n, n); }
  }

  lemma SlotNext(p: nat, n: nat)
    requires n >= 2
    ensures Slot(p + 1, n) != Slot(p, n)
  {
    if Slot(p + 1, n) == Slot(p, n) { SlotGap(p, p + 1, n); }
  }

  lemma SlotLap(p: nat, n: nat)
    requires n > 0
    ensures Slot(p + n, n) == Slot(p, n)
  {
  }

  /** Number of values that fit in w bytes. */
  function Pow256(w: nat): (p: nat)
    ensures p >= 1
  {
    if w == 0 then 1 else 256 * Pow256(w - 1)
  }

  /** Big-endian encoding of v in w bytes. */
  function BE(v: nat, w: nat): (s: seq<byte>)
    ensures |s| == w
  {
    if w == 0 then [] else BE(v / 256, w - 1) + [v % 256]
  }

  function FromBE(s: seq<byte>): nat {
    if s == [] then 0 else FromBE(s[..|s| - 1]) * 256 + s[|s| - 1]
  }

  lemma {:induction false} FromBEFits(s: seq<byte>)
    ensures FromBE(s) < Pow256(|s|)
  {
    if s != [] { FromBEFits(s[..|s| - 1]); }
  }

  lemma {:induction false} FromBEofBE(v: nat, w: nat)
    requires v < Pow256(w)
    ensures FromBE(BE(v, w)) == v
  {
    if w > 0 {
      FromBEofBE(v / 256, w - 1);
      assert BE(v, w)[..w - 1] == BE(v / 256, w - 1);
    }
  }

  /** Bitwise `a | b` on naturals. */
  function Or(a: nat, b: nat): nat {
    if a == 0 then b
    else if b == 0 then a
    else 2 * Or(a / 2, b / 2) + (if a % 2 == 1 || b % 2 == 1 then 1 else 0)
  }

  /** Or-ing in bits above those already set is adding. */
  lemma {:induction false} OrDisjoint(a: nat, c: nat, i: nat)
    requires a < Pow2(i)
    ensures Or(a, c * Pow2(i)) == a + c * Pow2(i)
  {
    if a > 0 && c * Pow2(i) > 0 {
      var low := c * Pow2(i - 1);
      assert c * Pow2(i) == 2 * low;
      OrDisjoint(a / 2, c, i - 1);
    }
  }
}
