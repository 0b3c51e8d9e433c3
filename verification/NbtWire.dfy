/** The NBT wire format in plain numbers: what src/cNBT/nbt_parsing.c has to read and write
    (tags and widths of include/cNBT/nbt.h), independent of how parser and dumper are modelled. */
module NbtWire {
  import opened Bits
  import opened Wrappers
  import opened NbtTree
  import NbtCodec

  // ---------------------------------------------------------------- the format

  /** byte 1, short 2, int 3, long 4, float 5, double 6 */
  function BytesOf(tag: nat): nat {
    if tag == 1 then 1 else if tag == 2 then 2 else if tag == 3 then 4
    else if tag == 4 then 8 else if tag == 5 then 4 else if tag == 6 then 8 else 0
  }

  function Number(p: Payload): nat {
    match p
    case Num(t, _) => t
    case ByteArray(_) => 7
    case Str(_) => 8
    case List(_, _) => 9
    case Compound(_) => 10
    case IntArray(_) => 11
    case Other(t) => t
  }

  /** Two bytes of length, most significant first, and the text. */
  function WireString(t: Bytes): Bytes { [|t| / 256 % 256, |t| % 256] + t }

  function WireWords(ints: seq<nat>): Bytes {
    if ints == [] then [] else BE(ints[0], 4) + WireWords(ints[1..])
  }

  function Wire(p: Payload): Bytes
    decreases p, 0
  {
    match p
    case Num(t, v) => BE(v, BytesOf(t))
    case ByteArray(d) => BE(|d|, 4) + d
    case Str(t) => WireString(t)
    case IntArray(ints) => BE(|ints|, 4) + WireWords(ints)
    case List(elem, items) => [if elem.Some? then elem.value % 256 else 0] + BE(|items|, 4) + WireItems(items)
    case Compound(members) => WireMembers(members) + [0]
    case Other(_) => []
  }

  /** An element of a list: no type, no name. */
  function WireItem(n: Node): Bytes
    decreases n, 1
  {
    Wire(n.body)
  }

  function WireItems(items: seq<Node>): Bytes
    decreases items, 1
  {
    if items == [] then [] else WireItem(items[0]) + WireItems(items[1..])
  }

  function WireNode(n: Node): Bytes
    decreases n, 1
  {
    [Number(n.body) % 256] + (if n.name.Some? then WireString(n.name.value) else []) + Wire(n.body)
  }

  function WireMembers(members: seq<Node>): Bytes
    decreases members, 2
  {
    if members == [] then [] else WireNode(members[0]) + WireMembers(members[1..])
  }

  /** What the format can carry: numbers of their width, strings of at most 32767 bytes without NUL,
      counts below 2^31, lists of unnamed elements of one type, compounds of named members. */
  predicate Carried(p: Payload)
    decreases p
  {
    match p
    case Num(t, v) => 1 <= t <= 6 && v < Pow256(BytesOf(t))
    case ByteArray(d) => |d| < 0x8000_0000
    case Str(t) => |t| <= 32767 && 0 !in t
    case IntArray(ints) => |ints| < 0x8000_0000 && forall i :: 0 <= i < |ints| ==> ints[i] < 0x1_0000_0000
    case List(elem, items) =>
      && elem.Some? && 1 <= elem.value <= 255 && |items| < 0x8000_0000
      && forall i :: 0 <= i < |items| ==> items[i].name == None && Number(items[i].body) == elem.value && Carried(items[i].body)
    case Compound(members) =>
      forall i :: 0 <= i < |members| ==>
        members[i].name.Some? && |members[i].name.value| <= 32767 && 0 !in members[i].name.value && Carried(members[i].body)
    case Other(_) => false
  }

  predicate CarriedTree(n: Node) {
    n.name.Some? && |n.name.value| <= 32767 && 0 !in n.name.value && Carried(n.body)
  }

  // ------------------------------------------------------------- parser and dumper keep to it

  lemma {:induction false} TagIsNumber(p: Payload)
    ensures Tag(p) == Number(p)
  {
  }

  lemma {:induction false} Four()
    ensures Pow256(4) == 0x1_0000_0000
  {
  }

  /** The trees the parser makes and the dumper takes are exactly those the format can carry. */
  lemma {:induction false} CarriedIffGood(p: Payload)
    ensures Carried(p) <==> GoodBody(p)
    decreases p
  {
    match p {
      case List(elem, items) => {
        forall i | 0 <= i < |items| ensures (Carried(items[i].body) <==> GoodBody(items[i].body)) && Tag(items[i].body) == Number(items[i].body) {
          CarriedIffGood(items[i].body);
          TagIsNumber(items[i].body);
        }
      }
      case Compound(members) => {
        forall i | 0 <= i < |members| ensures Carried(members[i].body) <==> GoodBody(members[i].body) { CarriedIffGood(members[i].body); }
      }
      case IntArray(ints) => { Four(); }
      case _ => {}
    }
  }

  lemma {:induction false} TwoBytes(n: nat)
    requires n < 65536
    ensures BE(n, 2) == [n / 256 % 256, n % 256]
  {
    assert BE(n / 256, 1) == [n / 256 % 256];
  }

  lemma {:induction false} StringIsWire(t: Bytes)
    requires |t| <= 32767 && 0 !in t
    ensures DumpString(t) == Some(WireString(t))
  {
    CStringId(t);
    TwoBytes(|t|);
  }

  lemma {:induction false} WordsAreWire(ints: seq<nat>)
    ensures DumpWords(ints) == WireWords(ints)
  {
    if ints != [] { WordsAreWire(ints[1..]); }
  }

  /** The dumper writes the wire format. */
  lemma {:induction false} DumpIsWire(p: Payload)
    requires Carried(p)
    ensures DumpBody(p) == Some(Wire(p))
    decreases p, 0
  {
    match p {
      case Str(t) => { StringIsWire(t); }
      case IntArray(ints) => { WordsAreWire(ints); }
      case List(elem, items) => {
        ItemsAreWire(items);
        OneType(items, elem.value);
      }
      case Compound(members) => { MembersAreWire(members); }
      case _ => {}
    }
  }

  lemma {:induction false} OneType(items: seq<Node>, t: nat)
    requires t != 0 && forall i :: 0 <= i < |items| ==> Number(items[i].body) == t
    ensures Homogenous(items, Some(t)) == t
  {
    forall i | 0 <= i < |items| ensures Tag(items[i].body) == t { TagIsNumber(items[i].body); }
  }

  lemma {:induction false} ItemsAreWire(items: seq<Node>)
    requires forall i :: 0 <= i < |items| ==> items[i].name == None && Carried(items[i].body)
    ensures DumpAll(items, false) == Some(WireItems(items))
    decreases items, 1
  {
    if items != [] {
      ItemIsWire(items[0]);
      ItemsAreWire(items[1..]);
      hide DumpBody, Wire, Carried;
    }
  }

  lemma {:induction false} ItemIsWire(n: Node)
    requires n.name == None && Carried(n.body)
    ensures DumpNode(n, false) == Some(Wire(n.body))
    decreases n, 0
  {
    DumpIsWire(n.body);
    hide DumpBody, Wire, Carried;
    assert [] + Wire(n.body) == Wire(n.body);
  }

  lemma {:induction false} NodeIsWire(n: Node)
    requires CarriedTree(n)
    ensures DumpNode(n, true) == Some(WireNode(n))
    decreases n, 1
  {
    DumpIsWire(n.body);
    StringIsWire(n.name.value);
    TagIsNumber(n.body);
    hide DumpBody, Wire, Carried, DumpString, WireString, Tag, Number;
  }

  lemma {:induction false} MembersAreWire(members: seq<Node>)
    requires forall i :: 0 <= i < |members| ==> CarriedTree(members[i])
    ensures DumpAll(members, true) == Some(WireMembers(members))
    decreases members, 2
  {
    if members != [] {
      NodeIsWire(members[0]);
      MembersAreWire(members[1..]);
      hide DumpNode, WireNode, Carried;
    }
  }

  /** The parser reads the wire format: every tree the format can carry, whatever follows it. */
  lemma {:induction false} WireIsRead(n: Node, suffix: Bytes)
    requires CarriedTree(n)
    ensures DumpNode(n, true) == Some(WireNode(n)) && Parse(WireNode(n) + suffix) == Got(n, suffix)
  {
    CarriedIffGood(n.body);
    NodeIsWire(n);
    NbtCodec.RoundTrip(n, suffix);
    hide *;
  }

  // ------------------------------------------------------------------- by tag number

  /** An unnamed tag, as bytes: type, a name of length 0, payload. */
  function Unnamed(tag: byte, payload: Bytes): Bytes { [tag, 0, 0] + payload }

  lemma {:induction false} UnnamedParse(tag: byte, payload: Bytes)
    ensures Parse(Unnamed(tag, payload)) ==
      match ReadPayload(tag, payload) case Fail => Fail case Got(p, r) => Got(Node(Some([]), p), r)
  {
    var s := Unnamed(tag, payload);
    assert s[1..][..2] == [0, 0] && s[1..][2..] == payload;
    assert FromBE([0]) == 0;
    assert [0, 0][..1] == [0];
    assert FromBE([0, 0]) == 0;
    hide ReadPayload, FromBE;
    assert payload[..0] == [] && payload[0..] == payload;
    assert ReadString(s[1..]) == Got([], payload);
  }

  predicate Takes(tag: byte, w: nat) {
    (tag, w) in {(1, 1), (2, 2), (3, 4), (4, 8), (5, 4), (6, 8)}
  }

  /** Numbers: tags 1 to 6 take 1, 2, 4, 8, 4 and 8 bytes. */
  lemma {:induction false} NumbersRead(tag: byte, w: nat, v: nat, suffix: Bytes)
    requires Takes(tag, w) && v < Pow256(w)
    ensures Parse(Unnamed(tag, BE(v, w) + suffix)) == Got(Node(Some([]), Num(tag, v)), suffix)
  {
    hide Parse, ReadPayload, BE, Takes, Pow256, Width;
    UnnamedParse(tag, BE(v, w) + suffix);
    WidthIs(tag, w);
    NumberFront(tag, w, v, suffix);
  }

  lemma {:induction false} WidthIs(tag: byte, w: nat)
    requires Takes(tag, w)
    ensures Width(tag) == w > 0
  {
  }

  lemma {:induction false} NumberFront(tag: byte, w: nat, v: nat, suffix: Bytes)
    requires Width(tag) == w > 0 && v < Pow256(w)
    ensures ReadPayload(tag, BE(v, w) + suffix) == Got(Num(tag, v), suffix)
  {
    FromBEofBE(v, w);
    assert (BE(v, w) + suffix)[..w] == BE(v, w) && (BE(v, w) + suffix)[w..] == suffix;
    hide FromBE, BE, Pow256, Width;
  }

  /** Tag 7: a count and that many bytes; counts with the sign bit set are refused. */
  lemma {:induction false} ByteArraysRead(n: nat, rest: Bytes)
    requires n < 0x1_0000_0000
    ensures Parse(Unnamed(7, BE(n, 4) + rest)) ==
      if n < 0x8000_0000 && n <= |rest| then Got(Node(Some([]), ByteArray(rest[..n])), rest[n..]) else Fail
  {
    hide Parse, ReadPayload, BE;
    Counted(7, n, rest);
    Dispatch(BE(n, 4) + rest);
  }

  /** Tag 11: a count and that many 32-bit words. */
  lemma {:induction false} IntArraysRead(n: nat, rest: Bytes)
    requires n < 0x1_0000_0000
    ensures Parse(Unnamed(11, BE(n, 4) + rest)) ==
      if n < 0x8000_0000 && 4 * n <= |rest| then Got(Node(Some([]), IntArray(Words(n, rest))), rest[4 * n..]) else Fail
  {
    hide Parse, ReadPayload, BE, Words;
    Counted(11, n, rest);
    Dispatch(BE(n, 4) + rest);
  }

  /** Which reader each of the tags 7, 8, 10 and 11 goes to. */
  lemma {:induction false} Dispatch(s: Bytes)
    ensures ReadPayload(7, s) == ReadByteArray(s) && ReadPayload(11, s) == ReadIntArray(s)
    ensures ReadPayload(8, s) == match ReadString(s) case Fail => Fail case Got(t, r) => Got(Str(t), r)
    ensures ReadPayload(10, s) == match ReadMembers(s) case Fail => Fail case Got(m, r) => Got(Compound(m), r)
  {
    hide ReadString, ReadMembers, ReadByteArray, ReadIntArray;
  }

  lemma {:induction false} Counted(tag: byte, n: nat, rest: Bytes)
    requires n < 0x1_0000_0000
    ensures ReadNum(4, BE(n, 4) + rest) == Got(n, rest)
    ensures Parse(Unnamed(tag, BE(n, 4) + rest)) ==
      match ReadPayload(tag, BE(n, 4) + rest) case Fail => Fail case Got(p, r) => Got(Node(Some([]), p), r)
  {
    UnnamedParse(tag, BE(n, 4) + rest);
    Four();
    FromBEofBE(n, 4);
    hide Parse, ReadPayload;
    assert (BE(n, 4) + rest)[..4] == BE(n, 4) && (BE(n, 4) + rest)[4..] == rest;
  }

  /** Tag 8: a 16-bit length, at most 32767, and that many bytes, of which those before the first
      NUL count. */
  lemma {:induction false} StringsRead(n: nat, rest: Bytes)
    requires n < 65536
    ensures Parse(Unnamed(8, [n / 256, n % 256] + rest)) ==
      if n <= 32767 && n <= |rest| then Got(Node(Some([]), Str(BeforeNul(rest[..n]))), rest[n..]) else Fail
  {
    var s := [n / 256, n % 256] + rest;
    hide Parse, ReadPayload, ReadString, BeforeNul;
    UnnamedParse(8, s);
    ShortString(n, rest);
    Dispatch(s);
  }

  lemma {:induction false} ShortString(n: nat, rest: Bytes)
    requires n < 65536
    ensures ReadString([n / 256, n % 256] + rest) ==
      if n <= 32767 && n <= |rest| then Got(BeforeNul(rest[..n]), rest[n..]) else Fail
  {
    var s := [n / 256, n % 256] + rest;
    TwoBytes(n);
    assert Pow256(2) == 65536;
    FromBEofBE(n, 2);
    assert s[..2] == BE(n, 2) && s[2..] == rest;
    hide FromBE, BE, Pow256;
    if n <= |rest| { CStringIs(rest[..n]); }
  }

  /** The bytes before the first NUL. */
  function BeforeNul(b: Bytes): (c: Bytes)
    ensures c <= b && 0 !in c && (|c| < |b| ==> b[|c|] == 0)
  {
    if b == [] || b[0] == 0 then [] else [b[0]] + BeforeNul(b[1..])
  }

  lemma {:induction false} CStringIs(b: Bytes)
    ensures CString(b) == BeforeNul(b)
  {
    if b != [] && b[0] != 0 { CStringIs(b[1..]); }
  }

  /** Tag 9 without elements: count 0, or any count with the sign bit set, whatever the type; the
      type 0 is kept as 10. */
  lemma {:induction false} EmptyListsRead(elem: byte, n: nat, rest: Bytes)
    requires n == 0 || 0x8000_0000 <= n < 0x1_0000_0000
    ensures Parse(Unnamed(9, [elem] + BE(n, 4) + rest)) ==
      Got(Node(Some([]), List(Some(if elem == 0 then 10 else elem), [])), rest)
  {
    ListHead(elem, n, rest);
  }

  lemma {:induction false} ListHead(elem: byte, n: nat, rest: Bytes)
    requires n < 0x1_0000_0000
    ensures Parse(Unnamed(9, [elem] + BE(n, 4) + rest)) ==
      match ReadItems(elem, if n < 0x8000_0000 then n else n - 0x1_0000_0000, rest)
      case Fail => Fail
      case Got(items, r) => Got(Node(Some([]), List(Some(if elem == 0 then 10 else elem), items)), r)
  {
    var s := [elem] + BE(n, 4) + rest;
    UnnamedParse(9, s);
    Four();
    FromBEofBE(n, 4);
    assert s[0] == elem && s[1..5] == BE(n, 4) && s[5..] == rest;
    hide Parse, FromBE, BE, ReadItems;
  }

  /** Tag 9 of bytes: type 1, a count, and one byte for each element, in order. */
  lemma {:induction false} ByteListsRead(d: Bytes, suffix: Bytes)
    requires |d| < 0x8000_0000
    ensures Parse(Unnamed(9, [1] + BE(|d|, 4) + (d + suffix))) == Got(Node(Some([]), List(Some(1), ByteNodes(d))), suffix)
  {
    ListHead(1, |d|, d + suffix);
    ByteItems(d, suffix);
    hide Parse, ReadItems;
  }

  function ByteNodes(d: Bytes): seq<Node> {
    if d == [] then [] else [Node(None, Num(1, d[0]))] + ByteNodes(d[1..])
  }

  lemma {:induction false} ByteItems(d: Bytes, suffix: Bytes)
    ensures ReadItems(1, |d|, d + suffix) == Got(ByteNodes(d), suffix)
  {
    if d == [] {
      assert d + suffix == suffix;
    } else {
      ByteItems(d[1..], suffix);
      assert (d + suffix)[..1] == [d[0]] && (d + suffix)[1..] == d[1..] + suffix;
      assert [d[0]][..0] == [];
      assert FromBE([]) == 0;
      assert FromBE([d[0]]) == d[0];
      assert ReadPayload(1, d + suffix) == Got(Num(1, d[0]), d[1..] + suffix);
    }
  }

  /** Tag 10: named tags up to a byte 0. */
  lemma {:induction false} CompoundsRead(tag: byte, w: nat, v: nat, suffix: Bytes)
    requires Takes(tag, w) && v < Pow256(w)
    ensures Parse(Unnamed(10, [0] + suffix)) == Got(Node(Some([]), Compound([])), suffix)
    ensures Parse(Unnamed(10, Unnamed(tag, BE(v, w)) + [0] + suffix)) ==
            Got(Node(Some([]), Compound([Node(Some([]), Num(tag, v))])), suffix)
  {
    hide BE, Pow256, Takes, Parse, Unnamed;
    NoMembers(suffix);
    var s, tail := Unnamed(tag, BE(v, w)) + [0] + suffix, [0] + suffix;
    NumbersRead(tag, w, v, tail);
    NotEnd(tag, w);
    Regrouped(tag, BE(v, w), suffix);
    OneMember(s, tail);
  }

  lemma {:induction false} Regrouped(tag: byte, x: Bytes, suffix: Bytes)
    ensures var s, tail := Unnamed(tag, x) + [0] + suffix, [0] + suffix;
      s == Unnamed(tag, x + tail) && s[0] == tag && tail[1..] == suffix
  {
  }

  lemma {:induction false} NotEnd(tag: byte, w: nat)
    requires Takes(tag, w)
    ensures tag != 0
  {
  }

  lemma {:induction false} NoMembers(suffix: Bytes)
    ensures Parse(Unnamed(10, [0] + suffix)) == Got(Node(Some([]), Compound([])), suffix)
  {
    hide Parse, ReadPayload;
    UnnamedParse(10, [0] + suffix);
    Dispatch([0] + suffix);
    assert ([0] + suffix)[1..] == suffix;
  }

  lemma {:induction false} OneMember(s: Bytes, tail: Bytes)
    requires s != [] && s[0] != 0 && Parse(s).Got? && Parse(s).rest == tail && tail != [] && tail[0] == 0
    ensures Parse(Unnamed(10, s)) == Got(Node(Some([]), Compound([Parse(s).value])), tail[1..])
  {
    hide Parse, ReadMembers, ReadPayload;
    UnnamedParse(10, s);
    Dispatch(s);
    MembersFrom(s, tail);
  }

  lemma {:induction false} MembersFrom(s: Bytes, tail: Bytes)
    requires s != [] && s[0] != 0 && Parse(s).Got? && Parse(s).rest == tail && tail != [] && tail[0] == 0
    ensures ReadMembers(s) == Got([Parse(s).value], tail[1..])
  {
    hide ReadString, ReadPayload;
    var none: seq<Node> := [];
    assert ReadMembers(tail) == Got(none, tail[1..]);
    assert [Parse(s).value] + none == [Parse(s).value];
  }

  /** Every other tag is refused: 0, 12 (long array) and beyond, also as the type of a list that
      has elements. */
  lemma {:induction false} OtherTagsRefused(tag: byte, n: nat, rest: Bytes)
    requires (tag == 0 || tag >= 12) && 0 < n < 0x8000_0000
    ensures Parse(Unnamed(tag, rest)) == Fail && Parse(Unnamed(9, [tag] + BE(n, 4) + rest)) == Fail
  {
    UnnamedParse(tag, rest);
    ListHead(tag, n, rest);
    Refused(tag, n, rest);
    hide Parse, BE, ReadPayload, ReadItems;
  }

  lemma {:induction false} Refused(tag: byte, n: nat, rest: Bytes)
    requires (tag == 0 || tag >= 12) && 0 < n
    ensures ReadPayload(tag, rest) == Fail && ReadItems(tag, n, rest) == Fail
  {
  }
}
