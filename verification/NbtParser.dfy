/** The parser of src/cNBT/nbt_parsing.c as it runs: readers that advance a shared cursor and
    report through a sticky error flag. */
module NbtParser {
  import opened Bits
  import opened Wrappers
  import opened NbtTree
  import opened Endian

  /** `*memory`, `*length` and `errno` (only whether it is NBT_OK). */
  class Cursor {
    const mem: Bytes
    var memory: nat
    var length: nat
    var failed: bool

    ghost predicate Valid()
      reads this
    {
      memory + length <= |mem|
    }

    ghost function Rest(): Bytes
      requires Valid()
      reads this
    {
      mem[memory..memory + length]
    }

    constructor (mem: Bytes)
      ensures Valid() && !failed && this.mem == mem && Rest() == mem
    {
      this.mem, memory, length, failed := mem, 0, |mem|, false;
    }

    /** READ_GENERIC with `memscan`. */
    method Scan(n: nat) returns (out: Option<Bytes>)
      requires Valid()
      modifies this
      ensures Valid()
      ensures |old(Rest())| < n ==> out == None && failed && length == old(length)
      ensures |old(Rest())| >= n ==> out == Some(old(Rest())[..n]) && Rest() == old(Rest())[n..] && failed == old(failed)
    {
      if length < n {
        failed := true;
        return None;
      }
      out := Some(mem[memory..memory + n]);
      assert mem[memory..memory + n] == Rest()[..n];
      memory, length := memory + n, length - n;
    }

    /** READ_GENERIC with `swapped_memscan`. */
    method ScanSwapped(n: nat) returns (out: Option<nat>)
      requires Valid()
      modifies this
      ensures Valid() && After(old(Rest()), old(failed), ReadNum(n, old(Rest())), out)
    {
      var bytes := Scan(n);
      if bytes == None { return None; }
      var v := ReadSwapped(bytes.value);
      out := Some(v);
    }

    /** What a reader promises: the outcome `spec` says, or a raised flag. */
    ghost predicate After<T(!new)>(before: Bytes, flag: bool, spec: Parsed<T>, out: Option<T>)
      requires Valid()
      reads this
    {
      && |Rest()| <= |before|
      && match spec
         case Got(v, r) => out == Some(v) && Rest() == r && failed == flag
         case Fail => out == None && failed
    }

    method NextString() returns (out: Option<Bytes>)
      requires Valid()
      modifies this
      ensures Valid() && After(old(Rest()), old(failed), ReadString(old(Rest())), out)
    {
      var len := ScanSwapped(2);
      if len == None { return None; }
      if len.value >= SHORT_LIMIT || length < len.value {
        failed := true;
        return None;
      }
      var bytes := Scan(len.value);
      out := Some(CString(bytes.value));
    }

    method NextByteArray() returns (out: Option<Payload>)
      requires Valid()
      modifies this
      ensures Valid() && After(old(Rest()), old(failed), ReadByteArray(old(Rest())), out)
    {
      var len := ScanSwapped(4);
      if len == None { return None; }
      if len.value >= INT_LIMIT {
        failed := true;
        return None;
      }
      var bytes := Scan(len.value);
      if bytes == None { return None; }
      out := Some(ByteArray(bytes.value));
    }

    method NextIntArray() returns (out: Option<Payload>)
      requires Valid()
      modifies this
      ensures Valid() && After(old(Rest()), old(failed), ReadIntArray(old(Rest())), out)
    {
      var len := ScanSwapped(4);
      if len == None { return None; }
      if len.value >= INT_LIMIT {
        failed := true;
        return None;
      }
      ghost var s := Rest();
      var bytes := Scan(4 * len.value);
      if bytes == None { return None; }
      var ints := SwapWords(len.value, bytes.value);
      WordsPrefix(len.value, s, 4 * len.value);
      out := Some(IntArray(ints));
    }

    /** `parse_unnamed_tag` without the final test of errno. */
    method NextPayload(tag: nat) returns (out: Option<Payload>)
      requires Valid()
      modifies this
      ensures Valid() && (!old(failed) ==> After(old(Rest()), false, ReadPayload(tag, old(Rest())), out))
      ensures length <= old(length) && (old(failed) ==> failed)
      decreases length, 2
    {
      if Width(tag) > 0 {
        var v := ScanSwapped(Width(tag));
        if v == None { return None; }
        out := Some(Num(tag, v.value));
      } else if tag == TAG_BYTE_ARRAY {
        out := NextByteArray();
      } else if tag == TAG_INT_ARRAY {
        out := NextIntArray();
      } else if tag == TAG_STRING {
        var t := NextString();
        if t == None { return None; }
        out := Some(Str(t.value));
      } else if tag == TAG_LIST {
        out := NextList();
      } else if tag == TAG_COMPOUND {
        var m := NextCompound();
        if m == None { return None; }
        out := Some(Compound(m.value));
      } else {
        failed := true;
        out := None;
      }
    }

    /** `parse_unnamed_tag`: a node, or NULL with errno set; NULL whenever errno was set before. */
    method ParseUnnamedTag(tag: nat, name: Option<Bytes>) returns (out: Option<Node>)
      requires Valid()
      modifies this
      ensures Valid() && length <= old(length)
      ensures old(failed) ==> out == None && failed
      ensures !old(failed) ==> match ReadPayload(tag, old(Rest()))
        case Got(p, r) => out == Some(Node(name, p)) && Rest() == r && !failed
        case Fail => out == None && failed
      decreases length, 3
    {
      var p := NextPayload(tag);
      if failed { return None; }
      out := Some(Node(name, p.value));
    }

    method NextList() returns (out: Option<Payload>)
      requires Valid()
      modifies this
      ensures Valid() && (!old(failed) ==> After(old(Rest()), false, ReadPayload(TAG_LIST, old(Rest())), out))
      ensures length <= old(length) && (old(failed) ==> failed)
      decreases length, 1
    {
      ghost var s := Rest();
      var elem := ScanSwapped(1);
      if elem == None { return None; }
      var elems := ScanSwapped(4);
      if elems == None { return None; }
      ListHeader(s);
      var items := NextItems(elem.value, Signed32(elems.value));
      if items == None { return None; }
      out := Some(List(Some(if elem.value == 0 then TAG_COMPOUND else elem.value), items.value));
    }

    /** The element loop of `read_list`, which appends each new node to the list's tail. */
    method NextItems(elem: nat, elems: int) returns (out: Option<seq<Node>>)
      requires Valid()
      modifies this
      ensures Valid() && (!old(failed) ==> After(old(Rest()), false, ReadItems(elem, elems, old(Rest())), out))
      ensures length <= old(length) && (old(failed) ==> failed)
      decreases length, 4
    {
      ghost var s := Rest();
      var items: seq<Node> := [];
      var i := 0;
      PrependNothing(ReadItems(elem, elems, s));
      while i < elems
        invariant Valid() && length <= old(length) && failed == old(failed) && i >= 0
        invariant ReadItems(elem, elems, s) == Prepend(items, ReadItems(elem, elems - i, Rest()))
        decreases elems - i
      {
        hide ReadPayload, ReadItems;
        ghost var r := Rest();
        ItemsUnfold(elem, elems - i, r);
        var node := ParseUnnamedTag(elem, None);
        if node == None { return None; }
        PrependMore(items, node.value, ReadItems(elem, elems - i - 1, Rest()));
        items := items + [node.value];
        i := i + 1;
      }
      assert items + [] == items;
      out := Some(items);
    }

    method NextCompound() returns (out: Option<seq<Node>>)
      requires Valid()
      modifies this
      ensures Valid() && (!old(failed) ==> After(old(Rest()), false, ReadMembers(old(Rest())), out))
      ensures length <= old(length) && (old(failed) ==> failed)
      decreases length, 1
    {
      ghost var s := Rest();
      var members: seq<Node> := [];
      PrependNothing(ReadMembers(s));
      while true
        invariant Valid() && length <= old(length) && failed == old(failed)
        invariant ReadMembers(s) == Prepend(members, ReadMembers(Rest()))
        decreases length
      {
        hide ReadPayload, ReadString;
        ghost var r := Rest();
        var tag := ScanSwapped(1);
        if tag == None { return None; }
        FirstByte(r);
        if tag.value == 0 {
          assert members + [] == members;
          return Some(members);
        }
        var name := NextString();
        if name == None { return None; }
        var node := ParseUnnamedTag(tag.value, name);
        if node == None { return None; }
        PrependMore(members, node.value, ReadMembers(Rest()));
        members := members + [node.value];
      }
    }

    /** `parse_named_tag`. A missing name does not stop it: the payload is still parsed, and
        the raised flag then turns the result into NULL. */
    method ParseNamedTag() returns (out: Option<Node>)
      requires Valid() && !failed
      modifies this
      ensures Valid()
      ensures match Parse(old(Rest()))
        case Got(n, r) => out == Some(n) && Rest() == r && !failed
        case Fail => out == None && failed
    {
      ghost var s := Rest();
      var tag := ScanSwapped(1);
      if tag == None { return None; }
      FirstByte(s);
      var name := NextString();
      out := ParseUnnamedTag(tag.value, name);
    }
  }

  /** `nbt_parse` on a block of memory. */
  method NbtParse(mem: Bytes) returns (out: Option<Node>)
    ensures out == match Parse(mem) case Got(n, _) => Some(n) case Fail => None
  {
    var c := new Cursor(mem);
    out := c.ParseNamedTag();
  }

  function Prepend(items: seq<Node>, p: Parsed<seq<Node>>): Parsed<seq<Node>> {
    match p
    case Fail => Fail
    case Got(v, r) => Got(items + v, r)
  }

  lemma {:induction false} ItemsUnfold(elem: nat, count: int, s: Bytes)
    requires count > 0
    ensures match ReadPayload(elem, s)
      case Fail => ReadItems(elem, count, s) == Fail
      case Got(p, r) => ReadItems(elem, count, s) == Prepend([Node(None, p)], ReadItems(elem, count - 1, r))
  {
    hide ReadPayload;
  }

  lemma {:induction false} PrependNothing(p: Parsed<seq<Node>>)
    ensures Prepend([], p) == p
  {
    if p.Got? { assert [] + p.value == p.value; }
  }

  lemma {:induction false} PrependMore(items: seq<Node>, n: Node, p: Parsed<seq<Node>>)
    ensures Prepend(items + [n], p) == Prepend(items, Prepend([n], p))
  {
    if p.Got? { assert items + [n] + p.value == items + ([n] + p.value); }
  }

  lemma {:induction false} FirstByte(s: Bytes)
    requires s != []
    ensures FromBE(s[..1]) == s[0]
  {
    assert s[..1][..0] == [];
  }

  lemma {:induction false} ListHeader(s: Bytes)
    requires |s| >= 5
    ensures FromBE(s[..1]) == s[0] && s[1..][..4] == s[1..5] && s[1..][4..] == s[5..]
  {
    FirstByte(s);
  }

  lemma {:induction false} WordsPrefix(n: nat, s: Bytes, m: nat)
    requires 4 * n <= m <= |s|
    ensures Words(n, s[..m]) == Words(n, s)
  {
    if n > 0 {
      WordsPrefix(n - 1, s[4..], m - 4);
      assert s[..m][4..] == s[4..][..m - 4] && s[..m][..4] == s[..4];
    }
  }

  lemma {:induction false} WordsAt(n: nat, s: Bytes, i: nat)
    requires 4 * n <= |s| && i < n
    ensures Words(n, s)[i] == FromBE(s[4 * i..4 * i + 4])
  {
    if i > 0 {
      WordsAt(n - 1, s[4..], i - 1);
      assert s[4..][4 * (i - 1)..4 * (i - 1) + 4] == s[4 * i..4 * i + 4];
    }
  }

  /** The loop that swaps a whole array of words. */
  method SwapWords(n: nat, bytes: Bytes) returns (ints: seq<nat>)
    requires |bytes| == 4 * n
    ensures ints == Words(n, bytes)
  {
    ints := [];
    for i := 0 to n
      invariant |ints| == i && forall k :: 0 <= k < i ==> ints[k] == Words(n, bytes)[k]
    {
      var v := ReadSwapped(bytes[4 * i..4 * i + 4]);
      WordsAt(n, bytes, i);
      ints := ints + [v];
    }
  }
}
