/** Simple dynamic strings with variable-width headers (src/sds.c, include/sds.h): over every
    run of operations the string is a plain byte sequence. */
module SdsString {
  import opened Bits

  type Bytes = seq<byte>

  /** SDS_TYPE_5 .. SDS_TYPE_64, in that order. */
  datatype Kind = T5 | T8 | T16 | T32 | T64

  const SDS_MAX_PREALLOC: nat := 0x10_0000
  const SIZE_MAX: nat := 0x1_0000_0000_0000_0000

  /** First value a length field of this header cannot hold. */
  function Limit(k: Kind): nat {
    match k
    case T5 => 0x20
    case T8 => 0x100
    case T16 => 0x1_0000
    case T32 => 0x1_0000_0000
    case T64 => SIZE_MAX
  }

  /** Storing n in a length field of this header. */
  function Cut(n: nat, k: Kind): (r: nat)
    ensures n < Limit(k) ==> r == n
  {
    if n < Limit(k) then n else n % Limit(k)
  }

  /** `sdsReqType`. */
  function ReqType(size: nat): (k: Kind)
    ensures size < SIZE_MAX ==> size < Limit(k)
  {
    if size < 0x20 then T5
    else if size < 0x100 then T8
    else if size < 0x1_0000 then T16
    else if size < 0x1_0000_0000 then T32
    else T64
  }

  /** `newlen` of `sdsMakeRoomFor`. */
  function Grown(size: nat): nat {
    if size < SDS_MAX_PREALLOC then 2 * size else size + SDS_MAX_PREALLOC
  }

  function Zeros(n: nat): Bytes {
    seq(n, _ => 0)
  }

  /** The header fields are as stored, so writing them cuts to the header's width; `buf` is the
      memory behind the header. Type 5 keeps its length in the flags byte and has no alloc. */
  class Sds {
    var kind: Kind
    var lenField: nat
    var allocField: nat
    var buf: array<byte>

    ghost predicate Valid()
      reads this, buf
    {
      && lenField < Limit(kind)
      && (kind != T5 ==> lenField <= allocField < Limit(kind))
      && Alloc() + 1 <= buf.Length
      && buf[lenField] == 0
    }

    function Len(): nat
      reads this
    {
      lenField
    }

    function Alloc(): nat
      reads this
    {
      if kind == T5 then lenField else allocField
    }

    /** `sdsavail`. */
    function Avail(): int
      reads this
    {
      if kind == T5 then 0 else allocField - lenField
    }

    ghost function Value(): Bytes
      requires Valid()
      reads this, buf
    {
      buf[..lenField]
    }

    /** `sdssetlen`, `sdssetalloc`. */
    method SetLen(n: nat)
      modifies this`lenField
      ensures lenField == Cut(n, kind)
    {
      lenField := Cut(n, kind);
    }

    method SetAlloc(n: nat)
      modifies this`allocField
      ensures allocField == if kind == T5 then old(allocField) else Cut(n, kind)
    {
      if kind != T5 { allocField := Cut(n, kind); }
    }

    /** `sdsnewlen` from a buffer. */
    constructor (init: Bytes)
      requires |init| < SIZE_MAX
      ensures Valid() && fresh(buf) && Value() == init && Alloc() == |init|
      ensures kind == if init == [] then T8 else ReqType(|init|)
    {
      var k := ReqType(|init|);
      if k == T5 && init == [] { k := T8; }
      kind := k;
      lenField := |init|;
      allocField := |init|;
      var b := new byte[|init| + 1];
      forall i | 0 <= i < |init| { b[i] := init[i]; }
      b[|init|] := 0;
      assert b[..|init|] == init;
      buf := b;
    }

    /** Copy the string and its NUL into a new block with room for n bytes. */
    method Reallocate(k: Kind, n: nat)
      requires Valid() && lenField <= n && lenField < Limit(k)
      modifies this`buf, this`kind, this`lenField
      ensures fresh(buf) && buf.Length == n + 1 && kind == k && lenField == old(lenField)
      ensures buf[..lenField] == old(Value()) && buf[lenField] == 0
    {
      var len := lenField;
      var b := new byte[n + 1];
      forall i | 0 <= i <= len { b[i] := buf[i]; }
      assert b[..len] == buf[..len];
      buf := b;
      kind := k;
      SetLen(len);
    }

    /** `sdsMakeRoomFor`: room for addlen more bytes, the string itself unchanged. */
    method MakeRoomFor(addlen: nat)
      requires Valid() && Len() + addlen + SDS_MAX_PREALLOC < SIZE_MAX
      modifies this
      ensures Valid() && (buf == old(buf) || fresh(buf))
      ensures Value() == old(Value()) && Avail() >= addlen
      ensures old(Avail()) >= addlen ==> buf == old(buf) && kind == old(kind) && Alloc() == old(Alloc())
      ensures old(Avail()) < addlen ==>
        var n := |old(Value())| + addlen;
        var room := if n < 0x10_0000 then 2 * n else n + 0x10_0000;
        Alloc() == room && kind == if room < 32 then T8 else ReqType(room)
    {
      if Avail() >= addlen { return; }
      var newlen := Grown(Len() + addlen);
      var k := ReqType(newlen);
      if k == T5 { k := T8; }
      Reallocate(k, newlen);
      SetAlloc(newlen);
    }

    /** `sdsRemoveFreeSpace`. */
    method RemoveFreeSpace()
      requires Valid()
      modifies this
      ensures Valid() && fresh(buf)
      ensures Value() == old(Value()) && Alloc() == Len()
      ensures kind == if |old(Value())| < 256 then ReqType(|old(Value())|) else old(kind)
    {
      var len := Len();
      var k := ReqType(len);
      if kind == k || k == T16 || k == T32 || k == T64 {
        Reallocate(kind, len);
      } else {
        Reallocate(k, len);
      }
      SetAlloc(len);
    }

    /** Write t at offset `at`, end the string there and NUL-terminate it. */
    method Store(at: nat, t: Bytes)
      requires Valid() && at <= Len() && at + |t| <= Alloc()
      modifies this`lenField, buf
      ensures Valid() && Value() == old(Value())[..at] + t
      ensures kind == T5 || Alloc() == old(Alloc())
    {
      hide Limit;
      ghost var before := Value();
      forall i | 0 <= i < |t| { buf[at + i] := t[i]; }
      buf[at + |t|] := 0;
      SetLen(at + |t|);
      assert buf[..at] == before[..at] && buf[at..at + |t|] == t;
    }

    /** `sdscatlen`. */
    method CatLen(t: Bytes)
      requires Valid() && Len() + |t| + SDS_MAX_PREALLOC < SIZE_MAX
      modifies this, buf
      ensures Valid() && (buf == old(buf) || fresh(buf))
      ensures Value() == old(Value()) + t
    {
      hide Limit;
      MakeRoomFor(|t|);
      assert Value()[..Len()] == Value();
      Store(Len(), t);
    }

    /** `sdscpylen`. */
    method CpyLen(t: Bytes)
      requires Valid() && Len() + |t| + SDS_MAX_PREALLOC < SIZE_MAX
      modifies this, buf
      ensures Valid() && (buf == old(buf) || fresh(buf))
      ensures Value() == t
    {
      hide Limit;
      if Alloc() < |t| { MakeRoomFor(|t| - Len()); }
      Store(0, t);
      assert [] + t == t;
    }

    /** `sdsgrowzero`. */
    method GrowZero(n: nat)
      requires Valid() && n + SDS_MAX_PREALLOC < SIZE_MAX
      modifies this, buf
      ensures Valid() && (buf == old(buf) || fresh(buf))
      ensures Value() == if n <= |old(Value())| then old(Value()) else old(Value()) + Zeros(n - |old(Value())|)
    {
      hide Limit;
      var curlen := Len();
      if n <= curlen { return; }
      MakeRoomFor(n - curlen);
      assert Value()[..curlen] == Value();
      Store(curlen, Zeros(n - curlen));
    }
  }

  function Width(k: Kind): nat {
    match k case T5 => 5 case T8 => 8 case T16 => 16 case T32 => 32 case T64 => 64
  }

  /** The header chosen for a size is the one with the fewest bits in its length field that holds it. */
  lemma HeaderIsSmallest(n: nat, k: Kind)
    requires n < SIZE_MAX
    ensures n < Limit(ReqType(n)) && (n < Limit(k) ==> Width(ReqType(n)) <= Width(k))
    ensures Limit(k) == Pow2(Width(k))
  {
    Powers();
    hide Pow2;
  }

  lemma {:induction false} Powers()
    ensures Pow2(5) == 0x20 && Pow2(8) == 0x100 && Pow2(16) == 0x1_0000 && Pow2(32) == 0x1_0000_0000 && Pow2(64) == SIZE_MAX
  {
    assert Pow2(8) == 0x100;
    assert Pow2(16) == 0x100 * Pow2(8);
    assert Pow2(24) == 0x100 * Pow2(16);
    assert Pow2(32) == 0x100 * Pow2(24);
    assert Pow2(40) == 0x100 * Pow2(32);
    assert Pow2(48) == 0x100 * Pow2(40);
    assert Pow2(56) == 0x100 * Pow2(48);
    assert Pow2(64) == 0x100 * Pow2(56);
  }

  // ---------------------------------------------------------------------- runs

  datatype Op = Cat(text: Bytes) | Cpy(text: Bytes) | Grow(n: nat) | Room(n: nat) | Shrink

  /** What an operation means for the byte sequence. */
  function Meaning(v: Bytes, op: Op): Bytes {
    match op
    case Cat(t) => v + t
    case Cpy(t) => t
    case Grow(n) => if n <= |v| then v else v + Zeros(n - |v|)
    case Room(_) => v
    case Shrink => v
  }

  function Run(v: Bytes, ops: seq<Op>): Bytes
    decreases |ops|
  {
    if ops == [] then v else Run(Meaning(v, ops[0]), ops[1..])
  }

  function Size(op: Op): nat {
    match op
    case Cat(t) => |t|
    case Cpy(t) => |t|
    case Grow(n) => n
    case Room(n) => n
    case Shrink => 0
  }

  /** No step asks for more memory than a size_t can count. */
  predicate Addressable(v: Bytes, ops: seq<Op>)
    decreases |ops|
  {
    && |v| < SIZE_MAX
    && (ops != [] ==> |v| + Size(ops[0]) + SDS_MAX_PREALLOC < SIZE_MAX && Addressable(Meaning(v, ops[0]), ops[1..]))
  }

  /** Over every run of operations, through every change of header, the string holds exactly
      the bytes the operations mean. */
  method Perform(init: Bytes, ops: seq<Op>) returns (s: Sds)
    requires Addressable(init, ops)
    ensures fresh(s) && fresh(s.buf) && s.Valid() && s.Value() == Run(init, ops)
  {
    hide Limit;
    s := new Sds(init);
    ghost var v := init;
    for i := 0 to |ops|
      invariant fresh(s) && fresh(s.buf) && s.Valid() && s.Value() == v
      invariant Addressable(v, ops[i..]) && Run(v, ops[i..]) == Run(init, ops)
    {
      assert ops[i..][1..] == ops[i + 1..] && ops[i..][0] == ops[i];
      match ops[i] {
        case Cat(t) => s.CatLen(t);
        case Cpy(t) => s.CpyLen(t);
        case Grow(n) => s.GrowZero(n);
        case Room(n) => s.MakeRoomFor(n);
        case Shrink => s.RemoveFreeSpace();
      }
      v := Meaning(v, ops[i]);
    }
  }
}
