/** The binary dumper of src/cNBT/nbt_parsing.c, appending to a growing buffer. */
module NbtDumper {
  import opened Bits
  import opened Wrappers
  import opened NbtTree
  import opened Endian
  import opened Buffer

  /** What a dumper promises: it succeeds exactly when `spec` has bytes, and has appended them. */
  twostate predicate Dumped(b: Buf, spec: Option<Bytes>, ok: bool)
    requires old(b.Valid())
    reads b, b.data
  {
    && b.Valid() && (b.data == old(b.data) || fresh(b.data))
    && (ok <==> spec.Some?)
    && (ok ==> b.Contents() == old(b.Contents()) + spec.value)
  }

  method DumpNumber(v: nat, w: nat, b: Buf)
    requires b.Valid()
    modifies b, b.data
    ensures Dumped(b, Some(BE(v, w)), true)
  {
    var bytes := SwapToWrite(v, w);
    b.Append(bytes);
  }

  method DumpStringBinary(text: Bytes, b: Buf) returns (ok: bool)
    requires b.Valid()
    modifies b, b.data
    ensures Dumped(b, DumpString(text), ok)
  {
    var c := CString(text);
    if |c| >= SHORT_LIMIT { return false; }
    DumpNumber(|c|, 2, b);
    b.Append(c);
    ok := true;
  }

  /** The loop of `list_is_homogenous`. */
  method ListIsHomogenous(items: seq<Node>, elem: Option<nat>) returns (t: nat)
    ensures t == Homogenous(items, elem)
  {
    t := 0;
    for i := 0 to |items|
      invariant if i == 0 then t == 0 else t != 0
      invariant forall k :: 0 <= k < i ==> Tag(items[k].body) == t
    {
      if Tag(items[i].body) == 0 { return 0; }
      if t == 0 { t := Tag(items[i].body); }
      if t != Tag(items[i].body) {
        assert Tag(items[0].body) == t != Tag(items[i].body);
        return 0;
      }
    }
    if t == 0 && elem.Some? { t := elem.value; }
  }

  lemma {:induction false} WordsStep(ints: seq<nat>, i: nat, done: Bytes)
    requires i < |ints| && DumpWords(ints) == done + DumpWords(ints[i..])
    ensures DumpWords(ints) == done + BE(ints[i], 4) + DumpWords(ints[i + 1..])
  {
    hide BE;
    assert ints[i..][1..] == ints[i + 1..];
  }

  method DumpWordsBinary(ints: seq<nat>, b: Buf)
    requires b.Valid()
    modifies b, b.data
    ensures Dumped(b, Some(DumpWords(ints)), true)
  {
    hide BE, DumpWords;
    ghost var start := b.Contents();
    ghost var done: Bytes := [];
    for i := 0 to |ints|
      invariant b.Valid() && (b.data == old(b.data) || fresh(b.data))
      invariant b.Contents() == start + done
      invariant DumpWords(ints) == done + DumpWords(ints[i..])
    {
      DumpNumber(ints[i], 4, b);
      WordsStep(ints, i, done);
      done := done + BE(ints[i], 4);
    }
    NoWords();
    assert ints[|ints|..] == [] && DumpWords(ints) == done + [] == done;
  }

  lemma {:induction false} NoWords()
    ensures DumpWords([]) == []
  {
  }

  method DumpIntArray(ints: seq<nat>, b: Buf)
    requires b.Valid()
    modifies b, b.data
    ensures Dumped(b, Some(BE(|ints|, 4) + DumpWords(ints)), true)
  {
    hide BE, DumpWords;
    DumpNumber(|ints|, 4, b);
    DumpWordsBinary(ints, b);
  }

  method DumpHeadBinary(n: Node, withType: bool, b: Buf) returns (ok: bool)
    requires b.Valid()
    modifies b, b.data
    ensures Dumped(b, DumpHead(n, withType), ok)
  {
    hide DumpString, Tag;
    ghost var start := b.Contents();
    ghost var head: Bytes := if withType then [Tag(n.body) % 256] else [];
    DumpTypeBinary(n, withType, b);
    ok := true;
    if n.name.Some? {
      ok := DumpStringBinary(n.name.value, b);
      ghost var name := DumpString(n.name.value);
      if ok { assert start + head + name.value == start + (head + name.value); }
    }
  }

  /** The type byte, left out inside lists. */
  method DumpTypeBinary(n: Node, withType: bool, b: Buf)
    requires b.Valid()
    modifies b, b.data
    ensures Dumped(b, Some(if withType then [Tag(n.body) % 256] else []), true)
  {
    hide Tag;
    ghost var start := b.Contents();
    if withType { b.Append([Tag(n.body) % 256]); } else { assert start + [] == start; }
  }

  method DumpNodeBinary(n: Node, withType: bool, b: Buf) returns (ok: bool)
    requires b.Valid()
    modifies b, b.data
    ensures Dumped(b, DumpNode(n, withType), ok)
    decreases n, 2
  {
    hide DumpHead, DumpBody;
    ok := DumpHeadBinary(n, withType, b);
    if ok { ok := DumpPayloadBinary(n.body, b); }
  }

  method DumpPayloadBinary(p: Payload, b: Buf) returns (ok: bool)
    requires b.Valid()
    modifies b, b.data
    ensures Dumped(b, DumpBody(p), ok)
    decreases p, 1
  {
    match p
    case Num(t, v) =>
      if Width(t) == 0 { return false; }
      DumpNumber(v, Width(t), b);
      ok := true;
    case ByteArray(d) =>
      DumpNumber(|d|, 4, b);
      b.Append(d);
      ok := true;
    case IntArray(ints) =>
      DumpIntArray(ints, b);
      ok := true;
    case Str(t) => ok := DumpStringBinary(t, b);
    case List(elem, items) => ok := DumpListBinary(p, b);
    case Compound(members) =>
      ok := DumpAllBinary(members, true, b);
      if ok { b.Append([0]); }
    case Other(_) => ok := false;
  }

  method DumpListBinary(p: Payload, b: Buf) returns (ok: bool)
    requires b.Valid() && p.List?
    modifies b, b.data
    ensures Dumped(b, DumpBody(p), ok)
    decreases p, 0
  {
    hide BE, DumpAll, Homogenous, Buf.Contents, Buf.Valid;
    var t := ListIsHomogenous(p.items, p.elem);
    if |p.items| >= INT_LIMIT || t == 0 { return false; }
    b.Append([t % 256]);
    DumpNumber(|p.items|, 4, b);
    ok := DumpAllBinary(p.items, false, b);
  }

  lemma {:induction false} AllStep(nodes: seq<Node>, withType: bool, i: nat, done: Bytes)
    requires i < |nodes| && DumpAll(nodes, withType) == Cat(Some(done), DumpAll(nodes[i..], withType))
    ensures var d := DumpNode(nodes[i], withType);
      if d.Some? then DumpAll(nodes, withType) == Cat(Some(done + d.value), DumpAll(nodes[i + 1..], withType))
      else DumpAll(nodes, withType) == None
  {
    hide DumpNode;
    assert nodes[i..][1..] == nodes[i + 1..];
    var d := DumpNode(nodes[i], withType);
    if d.Some? { CatMore(done, d.value, DumpAll(nodes[i + 1..], withType)); }
  }

  lemma {:induction false} NoNodes(done: Bytes, withType: bool)
    ensures Cat(Some(done), DumpAll([], withType)) == Some(done)
  {
    assert done + [] == done;
  }

  /** The loop over the entries of a list or compound. */
  method DumpAllBinary(nodes: seq<Node>, withType: bool, b: Buf) returns (ok: bool)
    requires b.Valid()
    modifies b, b.data
    ensures Dumped(b, DumpAll(nodes, withType), ok)
    decreases nodes, 3
  {
    hide DumpNode, DumpAll, Cat, Buf.Contents, Buf.Valid;
    ghost var start := b.Contents();
    ghost var done: Bytes := [];
    CatNothing(DumpAll(nodes, withType));
    for i := 0 to |nodes|
      invariant b.Valid() && (b.data == old(b.data) || fresh(b.data))
      invariant b.Contents() == start + done
      invariant DumpAll(nodes, withType) == Cat(Some(done), DumpAll(nodes[i..], withType))
    {
      ok := DumpNodeBinary(nodes[i], withType, b);
      AllStep(nodes, withType, i, done);
      if !ok { return; }
      done := done + DumpNode(nodes[i], withType).value;
    }
    ok := true;
    NoNodes(done, withType);
    assert nodes[|nodes|..] == [] && DumpAll(nodes, withType) == Some(done);
  }

  lemma {:induction false} CatNothing(x: Option<Bytes>)
    ensures Cat(Some([]), x) == x
  {
    if x.Some? { assert [] + x.value == x.value; }
  }

  lemma {:induction false} CatMore(a: Bytes, b: Bytes, x: Option<Bytes>)
    ensures Cat(Some(a), Cat(Some(b), x)) == Cat(Some(a + b), x)
  {
    if x.Some? { assert a + b + x.value == a + (b + x.value); }
  }

  /** `nbt_dump_binary`: on success the buffer holds exactly the dump. */
  method NbtDumpBinary(n: Node) returns (b: Buf, ok: bool)
    ensures fresh(b) && b.Valid() && (ok <==> DumpNode(n, true).Some?)
    ensures ok ==> b.Contents() == DumpNode(n, true).value
  {
    hide DumpNode;
    b := new Buf();
    ok := DumpNodeBinary(n, true, b);
    if ok { assert [] + DumpNode(n, true).value == DumpNode(n, true).value; }
  }
}
