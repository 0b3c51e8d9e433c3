/** The size functions for NBT in src/datautils.c against what the dumper writes. */
module NbtSize {
  import opened Bits
  import opened Wrappers
  import opened NbtTree
  import NbtCodec

  /** `size_unnamed_nbt`, with `size_nbt_list` and `size_nbt_compound`. */
  function SizeUnnamed(n: Node): nat
    decreases n, 0
  {
    match n.body
    case Num(t, _) => Width(t)
    case ByteArray(d) => 4 + |d|
    case IntArray(ints) => 4 + 4 * |ints|
    case Str(t) => 2 + |CString(t)|
    case List(_, items) => SizeItems(items)
    case Compound(members) => 1 + SizeMembers(members)
    case Other(_) => 0
  }

  function SizeItems(items: seq<Node>): nat
    decreases items, 1
  {
    if items == [] then 0 else SizeUnnamed(items[0]) + SizeItems(items[1..])
  }

  function SizeMembers(members: seq<Node>): nat
    decreases members, 1
  {
    if members == [] then 0
    else 3 + NameLength(members[0]) + SizeUnnamed(members[0]) + SizeMembers(members[1..])
  }

  function NameLength(n: Node): nat {
    if n.name.Some? then |CString(n.name.value)| else 0
  }

  /** `size_nbt`. */
  function SizeNbt(n: Node): nat {
    3 + NameLength(n) + SizeUnnamed(n)
  }

  /** List tags in a tree. */
  function Lists(n: Node): nat
    decreases n, 0
  {
    match n.body
    case List(_, items) => 1 + ListsAll(items)
    case Compound(members) => ListsAll(members)
    case _ => 0
  }

  function ListsAll(nodes: seq<Node>): nat
    decreases nodes, 1
  {
    if nodes == [] then 0 else Lists(nodes[0]) + ListsAll(nodes[1..])
  }

  lemma {:induction false} WordsLength(ints: seq<nat>)
    ensures |DumpWords(ints)| == 4 * |ints|
  {
    if ints != [] { WordsLength(ints[1..]); }
  }

  lemma {:induction false} BodySize(n: Node)
    requires GoodBody(n.body)
    ensures DumpBody(n.body).Some? && |DumpBody(n.body).value| == SizeUnnamed(n) + 5 * Lists(n)
    decreases n, 0
  {
    NbtCodec.BodyRoundTrip(n.body, []);
    match n.body {
      case List(elem, items) => { ItemsSize(items); }
      case Compound(members) => { MembersSize(members); }
      case IntArray(ints) => { WordsLength(ints); }
      case _ => {}
    }
  }

  lemma {:induction false} ItemsSize(items: seq<Node>)
    requires forall i :: 0 <= i < |items| ==> items[i].name == None && GoodBody(items[i].body)
    ensures DumpAll(items, false).Some? && |DumpAll(items, false).value| == SizeItems(items) + 5 * ListsAll(items)
    decreases items, 1
  {
    if items != [] {
      BodySize(items[0]);
      ItemsSize(items[1..]);
      hide SizeUnnamed, Lists, DumpBody, GoodBody;
    }
  }

  lemma {:induction false} NodeSize(n: Node)
    requires GoodTree(n)
    ensures DumpBody(n.body).Some? && |DumpBody(n.body).value| == SizeUnnamed(n) + 5 * Lists(n) ==>
      DumpNode(n, true).Some? && |DumpNode(n, true).value| == SizeNbt(n) + 5 * Lists(n)
  {
    hide SizeUnnamed, Lists, DumpBody, GoodBody;
    CStringId(n.name.value);
  }

  lemma {:induction false} MembersSize(members: seq<Node>)
    requires forall i :: 0 <= i < |members| ==> GoodTree(members[i])
    ensures DumpAll(members, true).Some? && |DumpAll(members, true).value| == SizeMembers(members) + 5 * ListsAll(members)
    decreases members, 1
  {
    if members != [] {
      BodySize(members[0]);
      NodeSize(members[0]);
      MembersSize(members[1..]);
      hide SizeUnnamed, Lists, DumpNode, GoodBody;
    }
  }

  /** The dump of a well-formed tree is longer than `size_nbt` says by five bytes for every list
      in it, the header `size_nbt_list` leaves out; so the two agree exactly on trees without lists. */
  lemma {:induction false} SizeLaw(n: Node)
    requires GoodTree(n)
    ensures DumpNode(n, true).Some? && |DumpNode(n, true).value| == SizeNbt(n) + 5 * Lists(n)
    ensures |DumpNode(n, true).value| == SizeNbt(n) <==> Lists(n) == 0
  {
    BodySize(n);
    NodeSize(n);
  }
}
