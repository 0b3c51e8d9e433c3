/** Minecraft's named binary tags: trees (include/cNBT/nbt.h) and, as functions on byte
    strings, what the parser and the dumper of src/cNBT/nbt_parsing.c compute. */
module NbtTree {
  import opened Bits
  import opened Wrappers

  type Bytes = seq<byte>

  datatype Node = Node(name: Option<Bytes>, body: Payload)

  /** Numbers are kept as bit patterns of their width. `elem` is the type recorded in a list's
      sentinel, absent when the sentinel has no data. `Other` stands for the tags that neither
      the parser nor the dumper supports (TAG_INVALID, TAG_LONG_ARRAY and beyond). */
  datatype Payload =
    | Num(tag: nat, bits: nat)
    | ByteArray(data: Bytes)
    | IntArray(ints: seq<nat>)
    | Str(text: Bytes)
    | List(elem: Option<nat>, items: seq<Node>)
    | Compound(members: seq<Node>)
    | Other(tag: nat)

  const TAG_BYTE := 1
  const TAG_SHORT := 2
  const TAG_INT := 3
  const TAG_LONG := 4
  const TAG_FLOAT := 5
  const TAG_DOUBLE := 6
  const TAG_BYTE_ARRAY := 7
  const TAG_STRING := 8
  const TAG_LIST := 9
  const TAG_COMPOUND := 10
  const TAG_INT_ARRAY := 11

  function Tag(p: Payload): nat {
    match p
    case Num(t, _) => t
    case ByteArray(_) => TAG_BYTE_ARRAY
    case IntArray(_) => TAG_INT_ARRAY
    case Str(_) => TAG_STRING
    case List(_, _) => TAG_LIST
    case Compound(_) => TAG_COMPOUND
    case Other(t) => t
  }

  /** Bytes taken by a numeric tag, 0 for the others. */
  function Width(tag: nat): nat {
    if tag == TAG_BYTE then 1
    else if tag == TAG_SHORT then 2
    else if tag == TAG_INT || tag == TAG_FLOAT then 4
    else if tag == TAG_LONG || tag == TAG_DOUBLE then 8
    else 0
  }

  /** What a C string reader sees of a buffer: everything before the first NUL. */
  function CString(b: Bytes): (c: Bytes)
    ensures |c| <= |b| && 0 !in c
  {
    if b == [] || b[0] == 0 then [] else [b[0]] + CString(b[1..])
  }

  lemma {:induction false} CStringId(b: Bytes)
    requires 0 !in b
    ensures CString(b) == b
  {
    if b != [] { CStringId(b[1..]); }
  }

  // ---------------------------------------------------------------- parsing

  datatype Parsed<+T> = Fail | Got(value: T, rest: Bytes)

  const SHORT_LIMIT := 32768
  const INT_LIMIT := 2147483648

  function ReadNum(w: nat, s: Bytes): Parsed<nat> {
    if |s| < w then Fail else Got(FromBE(s[..w]), s[w..])
  }

  function ReadString(s: Bytes): (r: Parsed<Bytes>)
    ensures r.Got? ==> |r.rest| + 2 + |r.value| <= |s| && |r.value| < SHORT_LIMIT && 0 !in r.value
  {
    match ReadNum(2, s)
    case Fail => Fail
    case Got(len, r) =>
      if len >= SHORT_LIMIT || |r| < len then Fail else Got(CString(r[..len]), r[len..])
  }

  function ReadByteArray(s: Bytes): (r: Parsed<Payload>)
    ensures r.Got? ==> |r.rest| < |s|
  {
    match ReadNum(4, s)
    case Fail => Fail
    case Got(len, r) =>
      if len >= INT_LIMIT || |r| < len then Fail else Got(ByteArray(r[..len]), r[len..])
  }

  /** n big-endian 32-bit words. */
  function Words(n: nat, s: Bytes): (r: seq<nat>)
    requires |s| >= 4 * n
    ensures |r| == n
  {
    if n == 0 then [] else [FromBE(s[..4])] + Words(n - 1, s[4..])
  }

  function ReadIntArray(s: Bytes): (r: Parsed<Payload>)
    ensures r.Got? ==> |r.rest| < |s|
  {
    match ReadNum(4, s)
    case Fail => Fail
    case Got(len, r) =>
      if len >= INT_LIMIT || |r| < 4 * len then Fail else Got(IntArray(Words(len, r)), r[4 * len..])
  }

  /** A 32-bit count read as a signed number. */
  function Signed32(u: nat): int {
    if u >= INT_LIMIT then u - 2 * INT_LIMIT else u
  }

  function ReadPayload(tag: nat, s: Bytes): (r: Parsed<Payload>)
    ensures r.Got? ==> |r.rest| < |s|
    decreases |s|, 2
  {
    if Width(tag) > 0 then
      (match ReadNum(Width(tag), s) case Fail => Fail case Got(v, r) => Got(Num(tag, v), r))
    else if tag == TAG_BYTE_ARRAY then ReadByteArray(s)
    else if tag == TAG_INT_ARRAY then ReadIntArray(s)
    else if tag == TAG_STRING then
      (match ReadString(s) case Fail => Fail case Got(t, r) => Got(Str(t), r))
    else if tag == TAG_LIST then
      if |s| < 5 then Fail
      else
        var elem := s[0];
        (match ReadItems(elem, Signed32(FromBE(s[1..5])), s[5..])
         case Fail => Fail
         case Got(items, r) => Got(List(Some(if elem == 0 then TAG_COMPOUND else elem), items), r))
    else if tag == TAG_COMPOUND then
      (match ReadMembers(s) case Fail => Fail case Got(m, r) => Got(Compound(m), r))
    else Fail
  }

  /** count unnamed elements of one type; none when count is not positive. */
  function ReadItems(elem: nat, count: int, s: Bytes): (r: Parsed<seq<Node>>)
    ensures r.Got? ==> |r.rest| <= |s|
    decreases |s|, 3
  {
    if count <= 0 then Got([], s)
    else
      match ReadPayload(elem, s)
      case Fail => Fail
      case Got(p, r) =>
        match ReadItems(elem, count - 1, r)
        case Fail => Fail
        case Got(items, r') => Got([Node(None, p)] + items, r')
  }

  /** Named tags up to the closing TAG_End. */
  function ReadMembers(s: Bytes): (r: Parsed<seq<Node>>)
    ensures r.Got? ==> |r.rest| < |s|
    decreases |s|, 1
  {
    if s == [] then Fail
    else if s[0] == 0 then Got([], s[1..])
    else
      match ReadString(s[1..])
      case Fail => Fail
      case Got(name, r) =>
        match ReadPayload(s[0], r)
        case Fail => Fail
        case Got(p, r') =>
          match ReadMembers(r')
          case Fail => Fail
          case Got(m, r'') => Got([Node(Some(name), p)] + m, r'')
  }

  /** `nbt_parse`: one named tag; what follows it is left unread. */
  function Parse(s: Bytes): (r: Parsed<Node>) {
    if s == [] then Fail
    else
      match ReadString(s[1..])
      case Fail => Fail
      case Got(name, r) =>
        match ReadPayload(s[0], r)
        case Fail => Fail
        case Got(p, r') => Got(Node(Some(name), p), r')
  }

  // ---------------------------------------------------------------- dumping

  function Cat(a: Option<Bytes>, b: Option<Bytes>): Option<Bytes> {
    if a.Some? && b.Some? then Some(a.value + b.value) else None
  }

  function DumpString(b: Bytes): Option<Bytes> {
    var c := CString(b);
    if |c| >= SHORT_LIMIT then None else Some(BE(|c|, 2) + c)
  }

  function DumpWords(ints: seq<nat>): Bytes {
    if ints == [] then [] else BE(ints[0], 4) + DumpWords(ints[1..])
  }

  /** `list_is_homogenous`: the type of the elements, the sentinel's for an empty list, and 0
      (TAG_INVALID) for a mixed list or one without a type. */
  function Homogenous(items: seq<Node>, elem: Option<nat>): nat {
    if items == [] then (if elem.Some? then elem.value else 0)
    else if forall i :: 0 <= i < |items| ==> Tag(items[i].body) == Tag(items[0].body) then Tag(items[0].body)
    else 0
  }

  function DumpBody(p: Payload): Option<Bytes>
    decreases p, 0
  {
    match p
    case Num(t, v) => if Width(t) > 0 then Some(BE(v, Width(t))) else None
    case ByteArray(d) => Some(BE(|d|, 4) + d)
    case IntArray(ints) => Some(BE(|ints|, 4) + DumpWords(ints))
    case Str(t) => DumpString(t)
    case List(elem, items) =>
      var t := Homogenous(items, elem);
      if |items| >= INT_LIMIT || t == 0 then None
      else Cat(Some([t % 256] + BE(|items|, 4)), DumpAll(items, false))
    case Compound(members) => Cat(DumpAll(members, true), Some([0]))
    case Other(_) => None
  }

  /** The type byte, left out inside lists, and the name, if there is one. */
  function DumpHead(n: Node, withType: bool): Option<Bytes> {
    var head: Bytes := if withType then [Tag(n.body) % 256] else [];
    if n.name.Some? then Cat(Some(head), DumpString(n.name.value)) else Some(head)
  }

  /** `__dump_binary`. */
  function DumpNode(n: Node, withType: bool): Option<Bytes>
    decreases n, 1
  {
    Cat(DumpHead(n, withType), DumpBody(n.body))
  }

  function DumpAll(nodes: seq<Node>, withType: bool): Option<Bytes>
    decreases nodes, 2
  {
    if nodes == [] then Some([])
    else Cat(DumpNode(nodes[0], withType), DumpAll(nodes[1..], withType))
  }

  // ------------------------------------------------------------ well-formed

  predicate GoodString(b: Bytes) {
    |b| < SHORT_LIMIT && 0 !in b
  }

  /** Trees the format can carry: compound members named, list elements unnamed and all of the
      sentinel's type, strings NUL-free and at most 32767 bytes, counts within an int32. */
  predicate GoodBody(p: Payload)
    decreases p
  {
    match p
    case Num(t, v) => Width(t) > 0 && v < Pow256(Width(t))
    case ByteArray(d) => |d| < INT_LIMIT
    case IntArray(ints) => |ints| < INT_LIMIT && forall i :: 0 <= i < |ints| ==> ints[i] < Pow256(4)
    case Str(t) => GoodString(t)
    case List(elem, items) =>
      && elem.Some? && 0 < elem.value < 256 && |items| < INT_LIMIT
      && forall i :: 0 <= i < |items| ==>
           items[i].name == None && Tag(items[i].body) == elem.value && GoodBody(items[i].body)
    case Compound(members) =>
      forall i :: 0 <= i < |members| ==>
        members[i].name.Some? && GoodString(members[i].name.value) && GoodBody(members[i].body)
    case Other(_) => false
  }

  predicate GoodTree(n: Node) {
    n.name.Some? && GoodString(n.name.value) && GoodBody(n.body)
  }

  /** `nbt_size`. */
  function Size(n: Node): (k: nat)
    ensures k >= 1
    decreases n, 0
  {
    match n.body
    case List(_, items) => SizeAll(items) + 1
    case Compound(members) => SizeAll(members) + 1
    case _ => 1
  }

  function SizeAll(nodes: seq<Node>): nat
    decreases nodes, 1
  {
    if nodes == [] then 0 else Size(nodes[0]) + SizeAll(nodes[1..])
  }
}
