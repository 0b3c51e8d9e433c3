/** The independent length walker of src/datautils.c: how many bytes an encoded tag takes.
    `src` is the memory from the cursor on; a read beyond it is a `Fault`. Sizes stay below
    2^31 for every limit up to 2^30, the limit the decoder uses. */
module NbtWalk {
  import opened Bits
  import opened Wrappers
  import opened NbtTree
  import opened NbtCodec

  datatype Walk = Ok(n: nat) | Bad | Fault

  const TAG_LONG_ARRAY := 12

  /** Moving the cursor; past the end there is nothing to read. */
  function Drop(src: Bytes, n: nat): (r: Bytes)
    ensures |r| <= |src|
  {
    if n <= |src| then src[n..] else []
  }

  function WalkString(src: Bytes, max: nat): Walk {
    if max < 2 then Bad
    else if |src| < 2 then Fault
    else
      var len := FromBE(src[..2]);
      if max < 2 + len then Bad else Ok(2 + len)
  }

  /** The element count in front of an array. */
  function Count(src: Bytes): nat {
    if |src| < 4 then 0 else FromBE(src[..4])
  }

  /** An array whose elements take `bytes` bytes together. */
  function WalkArray(src: Bytes, max: nat, bytes: nat): Walk {
    if max < 4 then Bad
    else if |src| < 4 then Fault
    else if max < 4 + bytes then Bad
    else Ok(4 + bytes)
  }

  /** Fixed-size tags, arrays and strings. */
  function WalkLeaf(tag: nat, src: Bytes, max: nat): Walk {
    if Width(tag) > 0 then Ok(Width(tag))
    else if tag == TAG_BYTE_ARRAY then WalkArray(src, max, Count(src))
    else if tag == TAG_INT_ARRAY then WalkArray(src, max, 4 * Count(src))
    else if tag == TAG_LONG_ARRAY then WalkArray(src, max, 8 * Count(src))
    else if tag == TAG_STRING then WalkString(src, max)
    else Bad
  }

  function Within(r: Walk, max: nat): (r': Walk)
    ensures r'.Ok? ==> r == r' && r.n <= max
  {
    if r.Ok? && max < r.n then Bad else r
  }

  function WalkPayload(tag: nat, src: Bytes, max: nat): (r: Walk)
    ensures r.Ok? ==> 1 <= r.n <= max
    decreases |src|, 3
  {
    if tag == TAG_LIST then Within(WalkList(src, max), max)
    else if tag == TAG_COMPOUND then Within(WalkCompound(src, max), max)
    else Within(WalkLeaf(tag, src, max), max)
  }

  /** The five header bytes are not taken off the limit passed on to the elements. */
  function WalkList(src: Bytes, max: nat): (r: Walk)
    ensures r.Ok? ==> 1 <= r.n
    decreases |src|, 2
  {
    if max < 5 then Bad
    else if |src| < 5 then Fault
    else
      match WalkItems(src[0], Signed32(FromBE(src[1..5])), src[5..], max)
      case Ok(n) => Ok(5 + n)
      case f => f
  }

  function WalkItems(elem: nat, count: int, src: Bytes, max: nat): (r: Walk)
    decreases |src|, 4, count
  {
    if count <= 0 then Ok(0)
    else
      match WalkPayload(elem, src, max)
      case Ok(step) =>
        (match WalkItems(elem, count - 1, Drop(src, step), max - step)
         case Ok(n) => Ok(step + n)
         case f => f)
      case f => f
  }

  function WalkCompound(src: Bytes, max: nat): (r: Walk)
    ensures r.Ok? ==> 1 <= r.n
    decreases |src|, 1
  {
    if max == 0 then Bad
    else if src == [] then Fault
    else if src[0] == 0 then Ok(1)
    else
      match WalkString(src[1..], max - 1)
      case Ok(a) =>
        (match WalkPayload(src[0], Drop(src[1..], a), max - 1 - a)
         case Ok(b) =>
           (match WalkCompound(Drop(Drop(src[1..], a), b), max - 1 - a - b)
            case Ok(c) => Ok(1 + a + b + c)
            case f => f)
         case f => f)
      case f => f
  }

  /** `walk_nbt`. */
  function WalkNbt(src: Bytes, max: nat): (r: Walk)
    ensures r.Ok? ==> r.n <= max
  {
    if max == 0 then Bad
    else if src == [] then Fault
    else
      match WalkString(src[1..], max - 1)
      case Ok(a) =>
        (match WalkPayload(src[0], Drop(src[1..], a), max - 1 - a)
         case Ok(b) => Ok(1 + a + b)
         case f => f)
      case f => f
  }

  // ------------------------------------------------- the loops that compute it

  function Plus(a: nat, w: Walk): Walk {
    if w.Ok? then Ok(a + w.n) else w
  }

  /** `walk_unnamed_nbt`. */
  method WalkUnnamedNbt(tag: nat, src: Bytes, max: nat) returns (r: Walk)
    ensures r == WalkPayload(tag, src, max)
    decreases |src|, 2
  {
    hide WalkLeaf, WalkList, WalkCompound;
    if tag == TAG_LIST {
      r := WalkNbtList(src, max);
    } else if tag == TAG_COMPOUND {
      r := WalkNbtCompound(src, max);
    } else {
      r := WalkLeaf(tag, src, max);
    }
    if r.Ok? && max < r.n { r := Bad; }
  }

  /** `walk_nbt_list`: the cursor and the limit move together, the size counts up. */
  method WalkNbtList(src: Bytes, max: nat) returns (r: Walk)
    ensures r == WalkList(src, max)
    decreases |src|, 1
  {
    hide WalkPayload, FromBE;
    if max < 5 { return Bad; }
    if |src| < 5 { return Fault; }
    var elem, count := src[0], Signed32(FromBE(src[1..5]));
    var source: Bytes, left: nat, size: nat, i: nat := src[5..], max, 5, 0;
    while i < count
      invariant size >= 5 && |source| <= |src| - 5
      invariant Plus(5, WalkItems(elem, count, src[5..], max)) == Plus(size, WalkItems(elem, count - i, source, left))
    {
      var step := WalkUnnamedNbt(elem, source, left);
      if !step.Ok? { return step; }
      source, left, size, i := Drop(source, step.n), left - step.n, size + step.n, i + 1;
    }
    r := Ok(size);
  }

  /** `walk_nbt_compound`. */
  method WalkNbtCompound(src: Bytes, max: nat) returns (r: Walk)
    ensures r == WalkCompound(src, max)
    decreases |src|, 1
  {
    hide WalkPayload, WalkString, WalkCompound, Drop;
    var source: Bytes, left: nat, total: nat := src, max, 0;
    while true
      invariant |source| <= |src|
      invariant WalkCompound(src, max) == Plus(total, WalkCompound(source, left))
      decreases |source|
    {
      CompoundEnds(source, left);
      if left == 0 { return Bad; }
      if source == [] { return Fault; }
      if source[0] == 0 { return Ok(total + 1); }
      WalkMember(source, left);
      NameFits(source[1..], left - 1);
      var name := WalkString(source[1..], left - 1);
      if !name.Ok? { return name; }
      var rest := Drop(source[1..], name.n);
      var body := WalkUnnamedNbt(source[0], rest, left - 1 - name.n);
      if !body.Ok? { return body; }
      source, left, total := Drop(rest, body.n), left - 1 - name.n - body.n, total + 1 + name.n + body.n;
    }
  }

  lemma {:induction false} CompoundEnds(s: Bytes, max: nat)
    ensures max == 0 ==> WalkCompound(s, max) == Bad
    ensures max > 0 && s == [] ==> WalkCompound(s, max) == Fault
    ensures max > 0 && s != [] && s[0] == 0 ==> WalkCompound(s, max) == Ok(1)
  {
  }

  /** One member in front of a compound. */
  lemma {:induction false} WalkMember(s: Bytes, max: nat)
    requires max > 0 && s != [] && s[0] != 0
    ensures var name := WalkString(s[1..], max - 1);
      WalkCompound(s, max) ==
        if !name.Ok? || name.n > max - 1 then name
        else
          var rest, m := Drop(s[1..], name.n), max - 1 - name.n;
          var body := WalkPayload(s[0], rest, m);
          if !body.Ok? then body else Plus(1 + name.n + body.n, WalkCompound(Drop(rest, body.n), m - body.n))
  {
    NameFits(s[1..], max - 1);
    hide WalkPayload, WalkString, Drop;
  }

  lemma {:induction false} CompoundNext(s: Bytes, max: nat, a: nat, b: nat)
    requires s != [] && s[0] != 0 && max >= 1 + a + b
    requires WalkString(s[1..], max - 1) == Ok(a)
    requires WalkPayload(s[0], Drop(s[1..], a), max - 1 - a) == Ok(b)
    ensures WalkCompound(s, max) == Plus(1 + a + b, WalkCompound(Drop(Drop(s[1..], a), b), max - 1 - a - b))
  {
    hide WalkPayload, WalkString, Drop;
  }

  lemma {:induction false} NameFits(src: Bytes, max: nat)
    ensures WalkString(src, max).Ok? ==> WalkString(src, max).n <= max
  {
  }

  // -------------------------------------------------------------- agreement

  lemma {:induction false} StringAgrees(s: Bytes, max: nat)
    requires ReadString(s).Got? && |s| - |ReadString(s).rest| <= max
    ensures var n := |s| - |ReadString(s).rest|;
      WalkString(s, max) == Ok(n) && Drop(s, n) == ReadString(s).rest
  {
  }

  lemma {:induction false} LeafAgrees(tag: nat, s: Bytes, max: nat)
    requires ReadPayload(tag, s).Got? && |s| - |ReadPayload(tag, s).rest| <= max
    requires tag != TAG_LIST && tag != TAG_COMPOUND
    ensures WalkLeaf(tag, s, max) == Ok(|s| - |ReadPayload(tag, s).rest|)
  {
  }

  /** Wherever the parser accepts a payload, the walker, given any limit that admits the
      bytes consumed, counts exactly those bytes. */
  lemma {:induction false} PayloadAgrees(tag: nat, s: Bytes, max: nat)
    requires ReadPayload(tag, s).Got? && |s| - |ReadPayload(tag, s).rest| <= max
    ensures WalkPayload(tag, s, max) == Ok(|s| - |ReadPayload(tag, s).rest|)
    decreases |s|, 2
  {
    hide FromBE, WalkList, WalkCompound, WalkLeaf, ReadItems;
    if tag == TAG_LIST {
      ListAgrees(s, max);
    } else if tag == TAG_COMPOUND {
      MembersAgree(s, max);
    } else {
      LeafAgrees(tag, s, max);
    }
  }

  lemma {:induction false} ListAgrees(s: Bytes, max: nat)
    requires ReadPayload(TAG_LIST, s).Got? && |s| - |ReadPayload(TAG_LIST, s).rest| <= max
    ensures WalkList(s, max) == Ok(|s| - |ReadPayload(TAG_LIST, s).rest|)
    decreases |s|, 1
  {
    hide FromBE, WalkItems, ReadItems;
    ItemsAgree(s[0], Signed32(FromBE(s[1..5])), s[5..], max);
  }

  lemma {:induction false} PayloadDrop(tag: nat, s: Bytes)
    requires ReadPayload(tag, s).Got?
    ensures Drop(s, |s| - |ReadPayload(tag, s).rest|) == ReadPayload(tag, s).rest
  {
    hide FromBE, ReadPayload, GoodBody, Size, Tag;
    PayloadNormal(tag, s);
  }

  lemma {:induction false} ItemsAgree(elem: nat, count: int, s: Bytes, max: nat)
    requires ReadItems(elem, count, s).Got? && |s| - |ReadItems(elem, count, s).rest| <= max
    ensures WalkItems(elem, count, s, max) == Ok(|s| - |ReadItems(elem, count, s).rest|)
    decreases |s|, 3
  {
    hide FromBE, WalkPayload, ReadPayload, Drop;
    if count > 0 {
      var r := ReadPayload(elem, s).rest;
      PayloadAgrees(elem, s, max);
      PayloadDrop(elem, s);
      ItemsAgree(elem, count - 1, r, max - (|s| - |r|));
      ItemStep(elem, count, s, max, |s| - |r|, r, |r| - |ReadItems(elem, count - 1, r).rest|);
    }
  }

  lemma {:induction false} ItemStep(elem: nat, count: int, s: Bytes, max: nat, step: nat, r: Bytes, n: nat)
    requires count > 0 && max >= step && WalkPayload(elem, s, max) == Ok(step) && Drop(s, step) == r
    requires WalkItems(elem, count - 1, r, max - step) == Ok(n)
    ensures WalkItems(elem, count, s, max) == Ok(step + n)
  {
    hide FromBE, WalkPayload, Drop;
  }

  lemma {:induction false} MembersAgree(s: Bytes, max: nat)
    requires ReadMembers(s).Got? && |s| - |ReadMembers(s).rest| <= max
    ensures WalkCompound(s, max) == Ok(|s| - |ReadMembers(s).rest|)
    decreases |s|, 1
  {
    hide FromBE, WalkPayload, ReadPayload, ReadString, Drop;
    if s[0] != 0 {
      var t := s[1..];
      var r := ReadString(t).rest;
      var r' := ReadPayload(s[0], r).rest;
      StringAgrees(t, max - 1);
      PayloadAgrees(s[0], r, max - 1 - (|t| - |r|));
      PayloadDrop(s[0], r);
      MembersAgree(r', max - 1 - (|t| - |r'|));
      CompoundNext(s, max, |t| - |r|, |r| - |r'|);
    }
  }

  /** The two agree: if the parser accepts and leaves `rest` unread, the walker, limited to the
      buffer's length, returns the number of bytes consumed and reads nothing outside it. */
  lemma {:induction false} ParserAndWalkerAgree(s: Bytes)
    requires Parse(s).Got?
    ensures WalkNbt(s, |s|) == Ok(|s| - |Parse(s).rest|)
  {
    hide FromBE, WalkPayload, ReadPayload, ReadString;
    var t := s[1..];
    StringAgrees(t, |t|);
    var r := ReadString(t).rest;
    PayloadAgrees(s[0], r, |r|);
  }

  /** The converse fails: the walker also measures long arrays, which the parser rejects. */
  lemma {:induction false} WalkerAcceptsMore()
    ensures var s: Bytes := [TAG_LONG_ARRAY, 0, 0, 0, 0, 0, 0]; WalkNbt(s, |s|) == Ok(7) && Parse(s) == Fail
  {
    var s: Bytes := [TAG_LONG_ARRAY, 0, 0, 0, 0, 0, 0];
    assert s[1..][..2] == [0, 0] && s[1..][2..] == [0, 0, 0, 0];
    assert s[1..][2..][..4] == [0, 0, 0, 0];
    ZeroWords();
    hide FromBE;
  }

  lemma {:induction false} ZeroWords()
    ensures FromBE([0, 0]) == 0 && FromBE([0, 0, 0, 0]) == 0
  {
    assert FromBE([0]) == 0 && FromBE([0, 0]) == 0 && FromBE([0, 0, 0]) == 0;
    assert [0, 0, 0, 0][..3] == [0, 0, 0] && [0, 0, 0][..2] == [0, 0];
  }
}
