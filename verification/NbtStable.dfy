/** What the NBT parser of src/cNBT/nbt_parsing.c reads does not depend on what follows, so a dump
    that is cut short is refused; and exactly which trees can be dumped. */
module NbtStable {
  import opened Bits
  import opened Wrappers
  import opened NbtTree
  import opened NbtWire

  /** q is what p read, with t behind it. */
  predicate Same<T(==)>(p: Parsed<T>, q: Parsed<T>, t: Bytes) {
    p.Got? ==> q == Got(p.value, p.rest + t)
  }

  lemma {:induction false} NumStable(w: nat, s: Bytes, t: Bytes)
    ensures Same(ReadNum(w, s), ReadNum(w, s + t), t)
  {
    if w <= |s| { assert (s + t)[..w] == s[..w] && (s + t)[w..] == s[w..] + t; }
  }

  lemma {:induction false} StringStable(s: Bytes, t: Bytes)
    ensures Same(ReadString(s), ReadString(s + t), t)
  {
    NumStable(2, s, t);
    if ReadString(s).Got? {
      var n, r := ReadNum(2, s).value, ReadNum(2, s).rest;
      hide ReadNum;
      assert (r + t)[..n] == r[..n] && (r + t)[n..] == r[n..] + t;
    }
  }

  lemma {:induction false} WordsStable(n: nat, s: Bytes, t: Bytes)
    requires 4 * n <= |s|
    ensures Words(n, s + t) == Words(n, s)
  {
    if n > 0 {
      assert (s + t)[..4] == s[..4] && (s + t)[4..] == s[4..] + t;
      WordsStable(n - 1, s[4..], t);
    }
  }

  lemma {:induction false} ArraysStable(s: Bytes, t: Bytes)
    ensures Same(ReadByteArray(s), ReadByteArray(s + t), t) && Same(ReadIntArray(s), ReadIntArray(s + t), t)
  {
    NumStable(4, s, t);
    if ReadNum(4, s).Got? {
      var n, r := ReadNum(4, s).value, ReadNum(4, s).rest;
      hide ReadNum;
      if n <= |r| { assert (r + t)[..n] == r[..n] && (r + t)[n..] == r[n..] + t; }
      if 4 * n <= |r| {
        assert (r + t)[4 * n..] == r[4 * n..] + t;
        WordsStable(n, r, t);
      }
    }
  }

  /** A payload is read alike whatever follows it. */
  lemma {:induction false} PayloadStable(tag: nat, s: Bytes, t: Bytes)
    ensures Same(ReadPayload(tag, s), ReadPayload(tag, s + t), t)
    decreases |s|, 2
  {
    hide ReadItems, ReadMembers, ReadString, ReadByteArray, ReadIntArray, ReadNum, FromBE;
    if tag == TAG_LIST {
      if |s| >= 5 {
        assert (s + t)[0] == s[0] && (s + t)[1..5] == s[1..5] && (s + t)[5..] == s[5..] + t;
        ItemsStable(s[0], Signed32(FromBE(s[1..5])), s[5..], t);
      }
    } else if tag == TAG_COMPOUND {
      MembersStable(s, t);
    } else {
      NumStable(Width(tag), s, t);
      StringStable(s, t);
      ArraysStable(s, t);
    }
  }

  lemma {:induction false} ItemsStable(elem: nat, count: int, s: Bytes, t: Bytes)
    ensures Same(ReadItems(elem, count, s), ReadItems(elem, count, s + t), t)
    decreases |s|, 3
  {
    hide ReadPayload;
    if count > 0 {
      PayloadStable(elem, s, t);
      if ReadPayload(elem, s).Got? { ItemsStable(elem, count - 1, ReadPayload(elem, s).rest, t); }
    }
  }

  lemma {:induction false} MembersStable(s: Bytes, t: Bytes)
    ensures Same(ReadMembers(s), ReadMembers(s + t), t)
    decreases |s|, 1
  {
    hide ReadPayload, ReadString;
    if s != [] {
      assert (s + t)[0] == s[0] && (s + t)[1..] == s[1..] + t;
      if s[0] != 0 {
        StringStable(s[1..], t);
        if ReadString(s[1..]).Got? {
          var r := ReadString(s[1..]).rest;
          PayloadStable(s[0], r, t);
          if ReadPayload(s[0], r).Got? { MembersStable(ReadPayload(s[0], r).rest, t); }
        }
      }
    }
  }

  lemma {:induction false} ParseStable(s: Bytes, t: Bytes)
    ensures Same(Parse(s), Parse(s + t), t)
  {
    hide ReadPayload, ReadString;
    if s != [] {
      assert (s + t)[0] == s[0] && (s + t)[1..] == s[1..] + t;
      StringStable(s[1..], t);
      if ReadString(s[1..]).Got? { PayloadStable(s[0], ReadString(s[1..]).rest, t); }
    }
  }

  /** A dump cut short anywhere is refused. */
  lemma {:induction false} TruncatedIsRefused(n: Node, k: nat)
    requires CarriedTree(n) && k < |WireNode(n)|
    ensures Parse(WireNode(n)[..k]) == Fail
  {
    hide Parse, WireNode, Carried;
    var s, t := WireNode(n)[..k], WireNode(n)[k..];
    ParseStable(s, t);
    WireIsRead(n, []);
    assert s + t == WireNode(n) && WireNode(n) + [] == WireNode(n);
  }

  // ------------------------------------------------------------------ what can be dumped

  /** In plain numbers: strings of at most 32767 bytes before a NUL, lists of fewer than 2^31
      elements of one known type, an empty one with a type in its sentinel. */
  predicate Dumpable(p: Payload)
    decreases p, 0
  {
    match p
    case Num(t, _) => 1 <= t <= 6
    case ByteArray(_) => true
    case IntArray(_) => true
    case Str(t) => |BeforeNul(t)| <= 32767
    case List(elem, items) =>
      && |items| < 0x8000_0000
      && (items == [] ==> elem.Some? && elem.value != 0)
      && (items != [] ==> Number(items[0].body) != 0)
      && (forall i :: 0 <= i < |items| ==> Number(items[i].body) == Number(items[0].body))
      && DumpableAll(items)
    case Compound(members) => DumpableAll(members)
    case Other(_) => false
  }

  predicate DumpableNode(n: Node)
    decreases n, 1
  {
    (n.name.Some? ==> |BeforeNul(n.name.value)| <= 32767) && Dumpable(n.body)
  }

  predicate DumpableAll(nodes: seq<Node>)
    decreases nodes, 2
  {
    nodes == [] || (DumpableNode(nodes[0]) && DumpableAll(nodes[1..]))
  }

  lemma {:induction false} SameTypes(items: seq<Node>, elem: Option<nat>)
    ensures Homogenous(items, elem) ==
      if items == [] then (if elem.Some? then elem.value else 0)
      else if forall i :: 0 <= i < |items| ==> Number(items[i].body) == Number(items[0].body) then Number(items[0].body) else 0
  {
    forall i | 0 <= i < |items| ensures Tag(items[i].body) == Number(items[i].body) { TagIsNumber(items[i].body); }
    hide Tag, Number;
  }

  /** A payload can be dumped if and only if it is one of those. */
  lemma {:induction false} DumpsIff(p: Payload)
    ensures DumpBody(p).Some? <==> Dumpable(p)
    decreases p, 0
  {
    match p {
      case Str(t) => { CStringIs(t); }
      case List(elem, items) => { DumpsAllIff(items, false); SameTypes(items, elem); hide Number, Homogenous, DumpAll, DumpableAll; }
      case Compound(members) => { DumpsAllIff(members, true); }
      case _ => {}
    }
  }

  lemma {:induction false} NodeDumpsIff(n: Node, withType: bool)
    ensures DumpNode(n, withType).Some? <==> DumpableNode(n)
    decreases n, 1
  {
    DumpsIff(n.body);
    if n.name.Some? { CStringIs(n.name.value); }
    hide DumpBody, Dumpable, CString, BeforeNul;
  }

  lemma {:induction false} DumpsAllIff(nodes: seq<Node>, withType: bool)
    ensures DumpAll(nodes, withType).Some? <==> DumpableAll(nodes)
    decreases nodes, 2
  {
    if nodes != [] {
      NodeDumpsIff(nodes[0], withType);
      DumpsAllIff(nodes[1..], withType);
      hide DumpNode, DumpableNode;
    }
  }
}
