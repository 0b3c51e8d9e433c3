/** The NBT parser and dumper are inverse to each other on well-formed trees, and everything
    the parser accepts is such a tree. */
module NbtCodec {
  import opened Bits
  import opened Wrappers
  import opened NbtTree

  // -------------------------------------------------------------- round trip

  lemma {:induction false} NumFront(v: nat, w: nat, t: Bytes)
    requires v < Pow256(w)
    ensures ReadNum(w, BE(v, w) + t) == Got(v, t)
  {
    FromBEofBE(v, w);
    assert (BE(v, w) + t)[..w] == BE(v, w) && (BE(v, w) + t)[w..] == t;
  }

  lemma {:induction false} Assoc(a: Bytes, b: Bytes, c: Bytes)
    ensures a + b + c == a + (b + c)
  {
  }

  lemma {:induction false} Split(b: Bytes, t: Bytes)
    ensures (b + t)[..|b|] == b && (b + t)[|b|..] == t
  {
  }

  lemma {:induction false} StringRoundTrip(b: Bytes, suffix: Bytes)
    requires GoodString(b)
    ensures DumpString(b).Some? && ReadString(DumpString(b).value + suffix) == Got(b, suffix)
  {
    CStringId(b);
    Limits();
    NumFront(|b|, 2, b + suffix);
    Split(b, suffix);
    Assoc(BE(|b|, 2), b, suffix);
  }

  lemma {:induction false} WordsRoundTrip(ints: seq<nat>, suffix: Bytes)
    requires forall i :: 0 <= i < |ints| ==> ints[i] < Pow256(4)
    ensures |DumpWords(ints)| == 4 * |ints|
    ensures Words(|ints|, DumpWords(ints) + suffix) == ints
  {
    if ints != [] {
      var rest := DumpWords(ints[1..]) + suffix;
      WordsRoundTrip(ints[1..], suffix);
      NumFront(ints[0], 4, rest);
      Assoc(BE(ints[0], 4), DumpWords(ints[1..]), suffix);
    }
  }

  lemma {:induction false} Limits()
    ensures Pow256(1) == 256 && Pow256(2) == 65536 && Pow256(4) == 2 * INT_LIMIT
  {
    assert Pow256(3) == 256 * Pow256(2);
  }

  lemma {:induction false} ByteArrayRoundTrip(d: Bytes, suffix: Bytes)
    requires |d| < INT_LIMIT
    ensures ReadByteArray(BE(|d|, 4) + d + suffix) == Got(ByteArray(d), suffix)
  {
    Limits();
    NumFront(|d|, 4, d + suffix);
    Split(d, suffix);
    Assoc(BE(|d|, 4), d, suffix);
  }

  lemma {:induction false} IntArrayFrom(s: Bytes, ints: seq<nat>, w: Bytes, suffix: Bytes)
    requires |ints| < INT_LIMIT && ReadNum(4, s) == Got(|ints|, w + suffix)
    requires |w| == 4 * |ints| && Words(|ints|, w + suffix) == ints
    ensures ReadIntArray(s) == Got(IntArray(ints), suffix)
  {
    Split(w, suffix);
  }

  lemma {:induction false} IntArrayRoundTrip(ints: seq<nat>, suffix: Bytes)
    requires |ints| < INT_LIMIT && forall i :: 0 <= i < |ints| ==> ints[i] < Pow256(4)
    ensures ReadIntArray(BE(|ints|, 4) + DumpWords(ints) + suffix) == Got(IntArray(ints), suffix)
  {
    var w := DumpWords(ints);
    Limits();
    WordsRoundTrip(ints, suffix);
    NumFront(|ints|, 4, w + suffix);
    Assoc(BE(|ints|, 4), w, suffix);
    IntArrayFrom(BE(|ints|, 4) + w + suffix, ints, w, suffix);
  }

  /** The list header and its elements, given that the elements come back. */
  lemma {:induction false} ListRoundTrip(elem: nat, items: seq<Node>, d: Bytes, suffix: Bytes)
    requires 0 < elem < 256 && |items| < INT_LIMIT
    requires ReadItems(elem, |items|, d + suffix) == Got(items, suffix)
    ensures ReadPayload(TAG_LIST, [elem] + BE(|items|, 4) + d + suffix) == Got(List(Some(elem), items), suffix)
  {
    Limits();
    FromBEofBE(|items|, 4);
    var s := [elem] + BE(|items|, 4) + d + suffix;
    assert s[1..5] == BE(|items|, 4) && s[5..] == d + suffix;
  }

  lemma {:induction false} LeafRoundTrip(p: Payload, suffix: Bytes)
    requires GoodBody(p) && !p.List? && !p.Compound?
    ensures DumpBody(p).Some? && ReadPayload(Tag(p), DumpBody(p).value + suffix) == Got(p, suffix)
  {
    match p
    case Num(t, v) => NumFront(v, Width(t), suffix);
    case ByteArray(d) => ByteArrayRoundTrip(d, suffix);
    case IntArray(ints) => IntArrayRoundTrip(ints, suffix);
    case Str(t) => StringRoundTrip(t, suffix);
  }

  lemma {:induction false} CompoundFrom(members: seq<Node>, suffix: Bytes)
    requires DumpAll(members, true).Some?
    requires ReadMembers(DumpAll(members, true).value + ([0] + suffix)) == Got(members, suffix)
    ensures var p := Compound(members);
      DumpBody(p).Some? && ReadPayload(TAG_COMPOUND, DumpBody(p).value + suffix) == Got(p, suffix)
  {
    Assoc(DumpAll(members, true).value, [0], suffix);
  }

  lemma {:induction false} OneType(elem: nat, items: seq<Node>)
    requires forall i :: 0 <= i < |items| ==> Tag(items[i].body) == elem
    ensures Homogenous(items, Some(elem)) == elem
  {
  }

  lemma {:induction false} DumpList(elem: nat, items: seq<Node>)
    requires DumpAll(items, false).Some? && 0 < elem < 256 && |items| < INT_LIMIT
    requires Homogenous(items, Some(elem)) == elem
    ensures DumpBody(List(Some(elem), items)) == Cat(Some([elem] + BE(|items|, 4)), DumpAll(items, false))
  {
  }

  lemma {:induction false} ListFrom(elem: nat, items: seq<Node>, suffix: Bytes)
    requires DumpAll(items, false).Some? && 0 < elem < 256 && |items| < INT_LIMIT
    requires Homogenous(items, Some(elem)) == elem
    requires ReadItems(elem, |items|, DumpAll(items, false).value + suffix) == Got(items, suffix)
    ensures var p := List(Some(elem), items);
      DumpBody(p).Some? && ReadPayload(TAG_LIST, DumpBody(p).value + suffix) == Got(p, suffix)
  {
    DumpList(elem, items);
    ListRoundTrip(elem, items, DumpAll(items, false).value, suffix);
  }

  lemma {:induction false} BodyRoundTrip(p: Payload, suffix: Bytes)
    requires GoodBody(p)
    ensures DumpBody(p).Some? && ReadPayload(Tag(p), DumpBody(p).value + suffix) == Got(p, suffix)
    decreases p, 0
  {
    match p
    case List(elem, items) =>
      ItemsRoundTrip(items, elem.value, suffix);
      OneType(elem.value, items);
      ListFrom(elem.value, items, suffix);
    case Compound(members) =>
      MembersRoundTrip(members, suffix);
      CompoundFrom(members, suffix);
    case _ => LeafRoundTrip(p, suffix);
  }

  lemma {:induction false} ItemsRoundTrip(items: seq<Node>, elem: nat, suffix: Bytes)
    requires forall i :: 0 <= i < |items| ==>
      items[i].name == None && Tag(items[i].body) == elem && GoodBody(items[i].body)
    ensures DumpAll(items, false).Some?
    ensures ReadItems(elem, |items|, DumpAll(items, false).value + suffix) == Got(items, suffix)
    decreases items, 1
  {
    if items == [] {
      assert [] + suffix == suffix;
    } else {
      var n, more := items[0], items[1..];
      ItemsRoundTrip(more, elem, suffix);
      NodeRoundTrip(n, DumpAll(more, false).value + suffix);
      ItemFront(n, more, DumpAll(more, false).value, suffix);
      assert [n] + more == items;
    }
  }

  lemma {:induction false} ItemFront(n: Node, more: seq<Node>, d: Bytes, suffix: Bytes)
    requires n.name == None && DumpBody(n.body).Some? && DumpAll(more, false) == Some(d)
    requires ReadItems(Tag(n.body), |more|, d + suffix) == Got(more, suffix)
    requires ReadPayload(Tag(n.body), DumpBody(n.body).value + (d + suffix)) == Got(n.body, d + suffix)
    ensures DumpAll([n] + more, false).Some?
    ensures ReadItems(Tag(n.body), 1 + |more|, DumpAll([n] + more, false).value + suffix) == Got([n] + more, suffix)
  {
    var b := DumpBody(n.body).value;
    assert [] + b == b;
    assert ([n] + more)[1..] == more;
    Assoc(b, d, suffix);
  }

  lemma {:induction false} NodeRoundTrip(n: Node, suffix: Bytes)
    requires GoodBody(n.body)
    ensures DumpBody(n.body).Some?
    ensures ReadPayload(Tag(n.body), DumpBody(n.body).value + suffix) == Got(n.body, suffix)
    decreases n, 2
  {
    BodyRoundTrip(n.body, suffix);
  }

  lemma {:induction false} GoodTag(p: Payload)
    requires GoodBody(p)
    ensures 0 < Tag(p) < 256
  {
  }

  lemma {:induction false} NamedNode(n: Node, tail: Bytes)
    requires GoodTree(n) && DumpBody(n.body).Some?
    ensures DumpNode(n, true).Some?
    ensures var s := DumpNode(n, true).value + tail;
      && s[0] == Tag(n.body)
      && ReadString(s[1..]) == Got(n.name.value, DumpBody(n.body).value + tail)
  {
    GoodTag(n.body);
    var t, b := [Tag(n.body)], DumpBody(n.body).value;
    StringRoundTrip(n.name.value, b + tail);
    var d := DumpString(n.name.value).value;
    Assoc(t, d, b);
    Assoc(t, d + b, tail);
    Assoc(d, b, tail);
    Split(t, d + (b + tail));
    hide DumpBody, ReadString, DumpString;
  }

  /** One more member in front, given that the others come back. */
  lemma {:induction false} MemberStep(n: Node, s: Bytes, more: seq<Node>, rest: Bytes, suffix: Bytes)
    requires GoodTree(n) && s != [] && s[0] == Tag(n.body) && ReadString(s[1..]).Got?
    requires ReadString(s[1..]).value == n.name.value
    requires ReadPayload(Tag(n.body), ReadString(s[1..]).rest) == Got(n.body, rest)
    requires ReadMembers(rest) == Got(more, suffix)
    ensures ReadMembers(s) == Got([n] + more, suffix)
  {
    GoodTag(n.body);
  }

  lemma {:induction false} MembersRoundTrip(members: seq<Node>, suffix: Bytes)
    requires forall i :: 0 <= i < |members| ==> GoodTree(members[i])
    ensures DumpAll(members, true).Some?
    ensures ReadMembers(DumpAll(members, true).value + ([0] + suffix)) == Got(members, suffix)
    decreases members, 1
  {
    if members == [] {
      assert [] + ([0] + suffix) == [0] + suffix;
    } else {
      var n, more := members[0], members[1..];
      MembersRoundTrip(more, suffix);
      var d := DumpAll(more, true).value;
      NodeRoundTrip(n, d + ([0] + suffix));
      MemberFront(n, more, d, suffix);
      assert [n] + more == members;
    }
  }

  lemma {:induction false} MemberFront(n: Node, more: seq<Node>, d: Bytes, suffix: Bytes)
    requires GoodTree(n) && DumpBody(n.body).Some? && DumpAll(more, true) == Some(d)
    requires ReadMembers(d + ([0] + suffix)) == Got(more, suffix)
    requires ReadPayload(Tag(n.body), DumpBody(n.body).value + (d + ([0] + suffix))) == Got(n.body, d + ([0] + suffix))
    ensures DumpAll([n] + more, true).Some?
    ensures ReadMembers(DumpAll([n] + more, true).value + ([0] + suffix)) == Got([n] + more, suffix)
  {
    var tail := d + ([0] + suffix);
    NamedNode(n, tail);
    assert ([n] + more)[1..] == more;
    Assoc(DumpNode(n, true).value, d, [0] + suffix);
    MemberStep(n, DumpNode(n, true).value + tail, more, tail, suffix);
  }

  /** Parsing the dump of a well-formed tree gives the tree back and leaves what follows it. */
  lemma {:induction false} RoundTrip(n: Node, suffix: Bytes)
    requires GoodTree(n)
    ensures DumpNode(n, true).Some? && Parse(DumpNode(n, true).value + suffix) == Got(n, suffix)
  {
    BodyRoundTrip(n.body, suffix);
    NamedNode(n, suffix);
  }

  // ----------------------------------------------------------- normalisation

  lemma {:induction false} WordsFit(n: nat, s: Bytes)
    requires |s| >= 4 * n
    ensures forall i :: 0 <= i < n ==> Words(n, s)[i] < Pow256(4)
  {
    if n > 0 {
      FromBEFits(s[..4]);
      WordsFit(n - 1, s[4..]);
    }
  }

  predicate SuffixOf(r: Bytes, s: Bytes) {
    |r| <= |s| && r == s[|s| - |r|..]
  }

  lemma {:induction false} SuffixTrans(a: Bytes, b: Bytes, c: Bytes)
    requires SuffixOf(a, b) && SuffixOf(b, c)
    ensures SuffixOf(a, c)
  {
    assert c[|c| - |b|..][|b| - |a|..] == c[|c| - |a|..];
  }

  /** Whatever the parser accepts is well formed, of the type asked for, has at most one node
      per byte, and was read from the front of the input. */
  lemma {:induction false} PayloadNormal(tag: nat, s: Bytes)
    ensures ReadPayload(tag, s).Got? ==>
      var p, r := ReadPayload(tag, s).value, ReadPayload(tag, s).rest;
      GoodBody(p) && Tag(p) == tag && Size(Node(None, p)) <= |s| - |r| && SuffixOf(r, s)
    decreases |s|, 2
  {
    if ReadPayload(tag, s).Got? {
      if tag == TAG_LIST {
        ListNormal(s);
      } else if tag == TAG_COMPOUND {
        MembersNormal(s);
      } else {
        LeafNormal(tag, s);
      }
    }
  }

  lemma {:induction false} LeafNormal(tag: nat, s: Bytes)
    requires ReadPayload(tag, s).Got? && tag != TAG_LIST && tag != TAG_COMPOUND
    ensures var p, r := ReadPayload(tag, s).value, ReadPayload(tag, s).rest;
      GoodBody(p) && Tag(p) == tag && Size(Node(None, p)) == 1 && SuffixOf(r, s)
  {
    if tag == TAG_INT_ARRAY { WordsFit(FromBE(s[..4]), s[4..]); }
    else if Width(tag) > 0 { FromBEFits(s[..Width(tag)]); }
  }

  lemma {:induction false} ListNormal(s: Bytes)
    requires ReadPayload(TAG_LIST, s).Got?
    ensures var p, r := ReadPayload(TAG_LIST, s).value, ReadPayload(TAG_LIST, s).rest;
      GoodBody(p) && Tag(p) == TAG_LIST && Size(Node(None, p)) <= |s| - |r| && SuffixOf(r, s)
    decreases |s|, 1
  {
    FromBEFits(s[1..5]);
    Limits();
    assert SuffixOf(s[5..], s);
    hide FromBE, ReadItems, SuffixOf, Pow256;
    var count := Signed32(FromBE(s[1..5]));
    ItemsNormal(s[0], count, s[5..]);
    SuffixTrans(ReadPayload(TAG_LIST, s).rest, s[5..], s);
  }

  lemma {:induction false} ItemsNormal(elem: nat, count: int, s: Bytes)
    ensures ReadItems(elem, count, s).Got? ==>
      var items, r := ReadItems(elem, count, s).value, ReadItems(elem, count, s).rest;
      && |items| == (if count > 0 then count else 0)
      && (forall i :: 0 <= i < |items| ==>
            items[i].name == None && Tag(items[i].body) == elem && GoodBody(items[i].body))
      && SizeAll(items) <= |s| - |r| && SuffixOf(r, s)
    decreases |s|, 3
  {
    if count > 0 && ReadItems(elem, count, s).Got? {
      PayloadNormal(elem, s);
      var p, r := ReadPayload(elem, s).value, ReadPayload(elem, s).rest;
      ItemsNormal(elem, count - 1, r);
      var items := ReadItems(elem, count - 1, r).value;
      SuffixTrans(ReadItems(elem, count - 1, r).rest, r, s);
      assert ([Node(None, p)] + items)[1..] == items;
    }
  }

  lemma {:induction false} MembersNormal(s: Bytes)
    ensures ReadMembers(s).Got? ==>
      var m, r := ReadMembers(s).value, ReadMembers(s).rest;
      GoodMembers(m) && SizeAll(m) < |s| - |r| && SuffixOf(r, s)
    decreases |s|, 1
  {
    if ReadMembers(s).Got? && s[0] != 0 {
      var r := ReadString(s[1..]).rest;
      PayloadNormal(s[0], r);
      MembersNormal(ReadPayload(s[0], r).rest);
      MemberNormal(s);
    }
  }

  lemma {:induction false} StringSuffix(s: Bytes)
    requires s != [] && ReadString(s[1..]).Got?
    ensures SuffixOf(ReadString(s[1..]).rest, s) && GoodString(ReadString(s[1..]).value)
    ensures |ReadString(s[1..]).rest| < |s|
  {
  }

  lemma {:induction false} MemberNormal(s: Bytes)
    requires ReadMembers(s).Got? && s[0] != 0
    requires var r := ReadString(s[1..]).rest;
      var p, r' := ReadPayload(s[0], r).value, ReadPayload(s[0], r).rest;
      var m, r'' := ReadMembers(r').value, ReadMembers(r').rest;
      && GoodBody(p) && Size(Node(None, p)) <= |r| - |r'| && SuffixOf(r', r)
      && GoodMembers(m) && SizeAll(m) < |r'| - |r''| && SuffixOf(r'', r')
    ensures var m, r := ReadMembers(s).value, ReadMembers(s).rest;
      GoodMembers(m) && SizeAll(m) < |s| - |r| && SuffixOf(r, s)
  {
    var name, r := ReadString(s[1..]).value, ReadString(s[1..]).rest;
    var p, r' := ReadPayload(s[0], r).value, ReadPayload(s[0], r).rest;
    var m, r'' := ReadMembers(r').value, ReadMembers(r').rest;
    StringSuffix(s);
    MemberCons(Node(Some(name), p), m);
    SuffixTrans(r', r, s);
    SuffixTrans(r'', r', s);
  }

  ghost predicate GoodMembers(m: seq<Node>) {
    forall i :: 0 <= i < |m| ==> GoodTree(m[i])
  }

  lemma {:induction false} MemberCons(n: Node, m: seq<Node>)
    requires GoodTree(n) && GoodMembers(m)
    ensures GoodMembers([n] + m) && SizeAll([n] + m) == Size(Node(None, n.body)) + SizeAll(m)
  {
    assert ([n] + m)[1..] == m;
  }

  /** On any byte string: if the parser accepts, the tree is well formed, has no more nodes
      than bytes were consumed, and dumping it gives bytes that parse to the same tree. */
  lemma {:induction false} Normalisation(s: Bytes, suffix: Bytes)
    requires Parse(s).Got?
    ensures var n, r := Parse(s).value, Parse(s).rest;
      && GoodTree(n) && Size(n) <= |s| - |r| && SuffixOf(r, s)
      && DumpNode(n, true).Some? && Parse(DumpNode(n, true).value + suffix) == Got(n, suffix)
  {
    var name, r := ReadString(s[1..]).value, ReadString(s[1..]).rest;
    PayloadNormal(s[0], r);
    StringSuffix(s);
    SuffixTrans(Parse(s).rest, r, s);
    var n := Parse(s).value;
    assert Size(n) == Size(Node(None, n.body));
    RoundTrip(n, suffix);
  }
}
