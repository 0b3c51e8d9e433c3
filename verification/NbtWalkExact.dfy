/** Exactly when the length walker of src/datautils.c accepts what the parser accepts, and exactly
    when it reads outside its buffer. */
module NbtWalkExact {
  import opened Bits
  import opened NbtTree
  import opened NbtCodec
  import opened NbtWalk

  // ------------------------------------------------- what the walker lets through

  /** Along the walk, every string length and array count has a clear sign bit, and there is no
      long array: what the parser asks for and the walker does not. */
  predicate NarrowLeaf(tag: nat, s: Bytes) {
    && tag != TAG_LONG_ARRAY
    && (tag == TAG_STRING ==> NarrowString(s))
    && (tag == TAG_BYTE_ARRAY || tag == TAG_INT_ARRAY ==> Count(s) < INT_LIMIT)
  }

  predicate NarrowString(s: Bytes) {
    |s| >= 2 ==> FromBE(s[..2]) < SHORT_LIMIT
  }

  predicate NarrowPayload(tag: nat, s: Bytes, max: nat)
    decreases |s|, 3
  {
    if tag == TAG_LIST then |s| >= 5 ==> NarrowItems(s[0], Signed32(FromBE(s[1..5])), s[5..], max)
    else if tag == TAG_COMPOUND then NarrowCompound(s, max)
    else NarrowLeaf(tag, s)
  }

  predicate NarrowItems(elem: nat, count: int, s: Bytes, max: nat)
    decreases |s|, 4, count
  {
    if count <= 0 then true
    else
      && NarrowPayload(elem, s, max)
      && match WalkPayload(elem, s, max)
         case Ok(step) => NarrowItems(elem, count - 1, Drop(s, step), max - step)
         case _ => true
  }

  predicate NarrowCompound(s: Bytes, max: nat)
    decreases |s|, 1
  {
    if max == 0 || s == [] || s[0] == 0 then true
    else
      && NarrowString(s[1..])
      && match WalkString(s[1..], max - 1)
         case Ok(a) =>
           NameFits(s[1..], max - 1);
           && NarrowPayload(s[0], Drop(s[1..], a), max - 1 - a)
           && (match WalkPayload(s[0], Drop(s[1..], a), max - 1 - a)
               case Ok(b) => NarrowCompound(Drop(Drop(s[1..], a), b), max - 1 - a - b)
               case _ => true)
         case _ => true
  }

  /** The same for a whole named tag. */
  predicate Narrow(s: Bytes) {
    s != [] ==>
      && NarrowString(s[1..])
      && match WalkString(s[1..], |s| - 1)
         case Ok(a) =>
           NameFits(s[1..], |s| - 1);
           NarrowPayload(s[0], Drop(s[1..], a), |s| - 1 - a)
         case _ => true
  }

  lemma {:induction false} StringParses(s: Bytes, max: nat)
    requires WalkString(s, max).Ok? && WalkString(s, max).n <= |s|
    ensures var n := WalkString(s, max).n;
      (ReadString(s).Got? <==> NarrowString(s)) && (ReadString(s).Got? ==> ReadString(s).rest == s[n..])
  {
  }

  lemma {:induction false} LeafParses(tag: nat, s: Bytes, max: nat)
    requires tag != TAG_LIST && tag != TAG_COMPOUND && WalkLeaf(tag, s, max).Ok? && WalkLeaf(tag, s, max).n <= |s|
    ensures var n := WalkLeaf(tag, s, max).n;
      (ReadPayload(tag, s).Got? <==> NarrowLeaf(tag, s)) && (ReadPayload(tag, s).Got? ==> ReadPayload(tag, s).rest == s[n..])
  {
  }

  /** Where the walker counts n bytes that are really there, the parser accepts the payload if and
      only if it is narrow, and then it consumes those n bytes. */
  lemma {:induction false} PayloadParses(tag: nat, s: Bytes, max: nat)
    requires WalkPayload(tag, s, max).Ok? && WalkPayload(tag, s, max).n <= |s|
    ensures var n := WalkPayload(tag, s, max).n;
      && (ReadPayload(tag, s).Got? <==> NarrowPayload(tag, s, max))
      && (ReadPayload(tag, s).Got? ==> ReadPayload(tag, s).rest == s[n..])
    decreases |s|, 3
  {
    hide FromBE, WalkList, WalkCompound, WalkLeaf, ReadItems, ReadMembers, NarrowLeaf, NarrowCompound, NarrowItems;
    if tag == TAG_LIST {
      ListParses(s, max);
    } else if tag == TAG_COMPOUND {
      MembersParse(s, max);
    } else {
      LeafParses(tag, s, max);
    }
  }

  lemma {:induction false} ListParses(s: Bytes, max: nat)
    requires WalkList(s, max).Ok? && WalkList(s, max).n <= |s|
    ensures var n := WalkList(s, max).n;
      && |s| >= 5
      && (ReadPayload(TAG_LIST, s).Got? <==> NarrowItems(s[0], Signed32(FromBE(s[1..5])), s[5..], max))
      && (ReadPayload(TAG_LIST, s).Got? ==> ReadPayload(TAG_LIST, s).rest == s[n..])
    decreases |s|, 2
  {
    hide FromBE, WalkItems, ReadItems, NarrowItems;
    ItemsParse(s[0], Signed32(FromBE(s[1..5])), s[5..], max);
  }

  lemma {:induction false} ItemsParse(elem: nat, count: int, s: Bytes, max: nat)
    requires WalkItems(elem, count, s, max).Ok? && WalkItems(elem, count, s, max).n <= |s|
    ensures var n := WalkItems(elem, count, s, max).n;
      && (ReadItems(elem, count, s).Got? <==> NarrowItems(elem, count, s, max))
      && (ReadItems(elem, count, s).Got? ==> ReadItems(elem, count, s).rest == s[n..])
    decreases |s|, 4, count
  {
    hide FromBE, WalkPayload, ReadPayload, NarrowPayload;
    if count > 0 {
      var step := WalkPayload(elem, s, max).n;
      PayloadParses(elem, s, max);
      ItemsParse(elem, count - 1, s[step..], max - step);
    }
  }

  lemma {:induction false} MembersParse(s: Bytes, max: nat)
    requires WalkCompound(s, max).Ok? && WalkCompound(s, max).n <= |s|
    ensures var n := WalkCompound(s, max).n;
      && (ReadMembers(s).Got? <==> NarrowCompound(s, max))
      && (ReadMembers(s).Got? ==> ReadMembers(s).rest == s[n..])
    decreases |s|, 1
  {
    hide FromBE, WalkPayload, ReadPayload, NarrowPayload, WalkString, ReadString, NarrowString, NarrowCompound, ReadMembers, WalkCompound, Drop;
    MemberWalk(s, max);
    MemberRead(s);
    MemberNarrow(s, max);
    if s[0] != 0 {
      var t := s[1..];
      var a := WalkString(t, max - 1).n;
      StringParses(t, max - 1);
      DropIs(t, a);
      var b := WalkPayload(s[0], t[a..], max - 1 - a).n;
      PayloadParses(s[0], t[a..], max - 1 - a);
      DropIs(t[a..], b);
      MembersParse(t[a..][b..], max - 1 - a - b);
      Tails(s, a, b, WalkCompound(t[a..][b..], max - 1 - a - b).n);
    }
  }

  lemma {:induction false} DropIs(s: Bytes, n: nat)
    requires n <= |s|
    ensures Drop(s, n) == s[n..]
  {
  }

  lemma {:induction false} Tails(s: Bytes, a: nat, b: nat, c: nat)
    requires 1 + a + b + c <= |s|
    ensures s[1..][a..][b..][c..] == s[1 + a + b + c..]
  {
  }

  lemma {:induction false} MemberWalk(s: Bytes, max: nat)
    requires WalkCompound(s, max).Ok?
    ensures s != [] && max > 0 && (s[0] == 0 ==> WalkCompound(s, max) == Ok(1))
    ensures s[0] != 0 ==>
      && WalkString(s[1..], max - 1).Ok? && WalkString(s[1..], max - 1).n <= max - 1
      && var a := WalkString(s[1..], max - 1).n;
         && WalkPayload(s[0], Drop(s[1..], a), max - 1 - a).Ok?
         && var b := WalkPayload(s[0], Drop(s[1..], a), max - 1 - a).n;
            && WalkCompound(Drop(Drop(s[1..], a), b), max - 1 - a - b).Ok?
            && WalkCompound(s, max).n == 1 + a + b + WalkCompound(Drop(Drop(s[1..], a), b), max - 1 - a - b).n
  {
    NameFits(s[1..], max - 1);
    hide WalkPayload, WalkString, Drop;
  }

  lemma {:induction false} MemberRead(s: Bytes)
    requires s != []
    ensures s[0] == 0 ==> ReadMembers(s).Got? && ReadMembers(s).rest == s[1..]
    ensures s[0] != 0 && !ReadString(s[1..]).Got? ==> ReadMembers(s) == Fail
    ensures s[0] != 0 && ReadString(s[1..]).Got? ==>
      var r := ReadString(s[1..]).rest;
      if !ReadPayload(s[0], r).Got? then ReadMembers(s) == Fail
      else
        var more := ReadMembers(ReadPayload(s[0], r).rest);
        (ReadMembers(s).Got? <==> more.Got?) && (more.Got? ==> ReadMembers(s).rest == more.rest)
  {
    hide ReadPayload, ReadString;
  }

  lemma {:induction false} MemberNarrow(s: Bytes, max: nat)
    requires s != [] && max > 0
    ensures s[0] == 0 ==> NarrowCompound(s, max)
    ensures s[0] != 0 && WalkString(s[1..], max - 1).Ok? && WalkString(s[1..], max - 1).n <= max - 1 ==>
      var a := WalkString(s[1..], max - 1).n;
      WalkPayload(s[0], Drop(s[1..], a), max - 1 - a).Ok? ==>
        var b := WalkPayload(s[0], Drop(s[1..], a), max - 1 - a).n;
        (NarrowCompound(s, max) <==>
           && NarrowString(s[1..]) && NarrowPayload(s[0], Drop(s[1..], a), max - 1 - a)
           && NarrowCompound(Drop(Drop(s[1..], a), b), max - 1 - a - b))
  {
    hide WalkPayload, WalkString, Drop, NarrowPayload, NarrowString;
  }

  /** For every byte string: the parser accepts it if and only if the walker, limited to its
      length, accepts it and it is narrow. */
  lemma {:induction false} ParserAcceptsIff(s: Bytes)
    ensures Parse(s).Got? <==> WalkNbt(s, |s|).Ok? && Narrow(s)
    ensures Parse(s).Got? ==> WalkNbt(s, |s|) == Ok(|s| - |Parse(s).rest|)
  {
    hide FromBE, WalkPayload, ReadPayload, NarrowPayload, WalkString, ReadString, NarrowString, Drop, Parse, WalkNbt, Narrow;
    if Parse(s).Got? {
      ParserAndWalkerAgree(s);
      NarrowEnough(s);
    } else if WalkNbt(s, |s|).Ok? {
      NarrowEnough(s);
    }
  }

  lemma {:induction false} NarrowEnough(s: Bytes)
    requires WalkNbt(s, |s|).Ok?
    ensures Parse(s).Got? <==> Narrow(s)
  {
    hide FromBE, WalkPayload, ReadPayload, NarrowPayload, WalkString, ReadString, NarrowString, Drop;
    var t := s[1..];
    var a := WalkString(t, |s| - 1).n;
    NameFits(t, |s| - 1);
    StringParses(t, |s| - 1);
    DropIs(t, a);
    PayloadParses(s[0], t[a..], |s| - 1 - a);
  }
}
