/** Filtering and path lookup of NBT trees (src/cNBT/nbt_treeops.c), on values. */
module NbtOps {
  import opened Bits
  import opened Wrappers
  import opened NbtTree

  function Children(p: Payload): seq<Node> {
    match p
    case List(_, items) => items
    case Compound(members) => members
    case _ => []
  }

  function WithChildren(p: Payload, kids: seq<Node>): Payload {
    match p
    case List(elem, _) => List(elem, kids)
    case Compound(_) => Compound(kids)
    case _ => p
  }

  // ---------------------------------------------------------------- filtering

  /** What `nbt_filter_inplace` leaves of a tree: the predicate sees every node as it was. */
  function Filter(keep: Node -> bool, n: Node): Option<Node>
    decreases n, 0
  {
    if !keep(n) then None
    else Some(Node(n.name, match n.body
                           case List(elem, items) => List(elem, FilterAll(keep, items))
                           case Compound(members) => Compound(FilterAll(keep, members))
                           case p => p))
  }

  function FilterAll(keep: Node -> bool, nodes: seq<Node>): seq<Node>
    decreases nodes, 1
  {
    if nodes == [] then []
    else
      var first := Filter(keep, nodes[0]);
      (if first.Some? then [first.value] else []) + FilterAll(keep, nodes[1..])
  }

  /** What `nbt_filter` returns: strings are duplicated as C strings, a copied list has no
      sentinel type, and the words of a copied int array are whatever `garble` says, because only
      a quarter of them is copied. */
  function Copy(keep: Node -> bool, garble: seq<nat> -> seq<nat>, n: Node): Option<Node>
    decreases n, 0
  {
    if !keep(n) then None
    else Some(Node(CopyName(n.name),
                   match n.body
                   case List(_, items) => List(None, CopyAll(keep, garble, items))
                   case Compound(members) => Compound(CopyAll(keep, garble, members))
                   case p => CopyLeaf(garble, p)))
  }

  function CopyName(name: Option<Bytes>): Option<Bytes> {
    if name.Some? then Some(CString(name.value)) else None
  }

  function CopyLeaf(garble: seq<nat> -> seq<nat>, p: Payload): Payload {
    match p
    case Str(t) => Str(CString(t))
    case IntArray(ints) => IntArray(garble(ints))
    case _ => p
  }

  function CopyAll(keep: Node -> bool, garble: seq<nat> -> seq<nat>, nodes: seq<Node>): seq<Node>
    decreases nodes, 1
  {
    if nodes == [] then []
    else
      var first := Copy(keep, garble, nodes[0]);
      (if first.Some? then [first.value] else []) + CopyAll(keep, garble, nodes[1..])
  }

  /** The tree with every sentinel type dropped. */
  function Bare(n: Node): Node
    decreases n, 0
  {
    Node(n.name, match n.body
                 case List(_, items) => List(None, BareAll(items))
                 case Compound(members) => Compound(BareAll(members))
                 case p => p)
  }

  function BareAll(nodes: seq<Node>): seq<Node>
    decreases nodes, 1
  {
    if nodes == [] then [] else [Bare(nodes[0])] + BareAll(nodes[1..])
  }

  /** Strings as C holds them, and no int arrays. */
  predicate Plain(n: Node)
    decreases n, 0
  {
    && (n.name.Some? ==> 0 !in n.name.value)
    && match n.body
       case Str(t) => 0 !in t
       case IntArray(_) => false
       case List(_, items) => PlainAll(items)
       case Compound(members) => PlainAll(members)
       case _ => true
  }

  predicate PlainAll(nodes: seq<Node>)
    decreases nodes, 1
  {
    nodes == [] || (Plain(nodes[0]) && PlainAll(nodes[1..]))
  }

  /** The copying filter and the in-place filter produce the same tree, up to list sentinels. */
  lemma {:induction false} CopyIsBareFilter(keep: Node -> bool, garble: seq<nat> -> seq<nat>, n: Node)
    requires Plain(n)
    ensures Copy(keep, garble, n).Some? <==> Filter(keep, n).Some?
    ensures Filter(keep, n).Some? ==> Copy(keep, garble, n).value == Bare(Filter(keep, n).value)
    decreases n, 0
  {
    if n.name.Some? { CStringId(n.name.value); }
    match n.body {
      case Str(t) => { CStringId(t); }
      case List(_, items) => { CopyAllIsBareFilter(keep, garble, items); }
      case Compound(members) => { CopyAllIsBareFilter(keep, garble, members); }
      case _ => {}
    }
  }

  lemma {:induction false} CopyAllIsBareFilter(keep: Node -> bool, garble: seq<nat> -> seq<nat>, nodes: seq<Node>)
    requires PlainAll(nodes)
    ensures CopyAll(keep, garble, nodes) == BareAll(FilterAll(keep, nodes))
    decreases nodes, 1
  {
    if nodes != [] {
      CopyIsBareFilter(keep, garble, nodes[0]);
      CopyAllIsBareFilter(keep, garble, nodes[1..]);
      hide Copy, Filter, Bare;
      var first := Filter(keep, nodes[0]);
      if first.Some? {
        assert ([first.value] + FilterAll(keep, nodes[1..]))[1..] == FilterAll(keep, nodes[1..]);
      } else {
        assert [] + FilterAll(keep, nodes[1..]) == FilterAll(keep, nodes[1..]);
      }
    }
  }

  // -------------------------------------------------------- preorder of paths

  type Path = seq<Node>

  /** Every node of the tree in preorder, each as the path that leads to it from the top. */
  function Paths(above: Path, n: Node): seq<Path>
    decreases n, 0
  {
    [above + [n]] + (match n.body
                     case List(_, items) => PathsAll(above + [n], items)
                     case Compound(members) => PathsAll(above + [n], members)
                     case _ => [])
  }

  function PathsAll(above: Path, nodes: seq<Node>): seq<Path>
    decreases nodes, 1
  {
    if nodes == [] then [] else Paths(above, nodes[0]) + PathsAll(above, nodes[1..])
  }

  /** A node without its children. */
  function Label(n: Node): Node { Node(n.name, WithChildren(n.body, [])) }

  function Labels(p: Path): Path {
    if p == [] then [] else [Label(p[0])] + Labels(p[1..])
  }

  function LabelsOf(ps: seq<Path>): seq<Path> {
    if ps == [] then [] else [Labels(ps[0])] + LabelsOf(ps[1..])
  }

  predicate AllKept(keep: Node -> bool, p: Path) {
    forall i :: 0 <= i < |p| ==> keep(p[i])
  }

  /** The paths on which every node satisfies the predicate. */
  function Select(keep: Node -> bool, ps: seq<Path>): seq<Path> {
    if ps == [] then []
    else (if AllKept(keep, ps[0]) then [ps[0]] else []) + Select(keep, ps[1..])
  }

  lemma {:induction false} LabelsAppend(p: Path, n: Node)
    ensures Labels(p + [n]) == Labels(p) + [Label(n)]
  {
    if p != [] {
      assert (p + [n])[1..] == p[1..] + [n];
      LabelsAppend(p[1..], n);
    } else {
      assert p + [n] == [n];
    }
  }

  lemma {:induction false} SelectAppend(keep: Node -> bool, a: seq<Path>, b: seq<Path>)
    ensures Select(keep, a + b) == Select(keep, a) + Select(keep, b)
  {
    if a == [] {
      assert a + b == b;
    } else {
      assert (a + b)[1..] == a[1..] + b && (a + b)[0] == a[0];
      SelectAppend(keep, a[1..], b);
    }
  }

  lemma {:induction false} LabelsOfAppend(a: seq<Path>, b: seq<Path>)
    ensures LabelsOf(a + b) == LabelsOf(a) + LabelsOf(b)
  {
    if a == [] {
      assert a + b == b;
    } else {
      assert (a + b)[1..] == a[1..] + b && (a + b)[0] == a[0];
      LabelsOfAppend(a[1..], b);
    }
  }

  /** Nothing below a rejected node is selected. */
  lemma {:induction false} SelectBelowNone(keep: Node -> bool, above: Path, n: Node)
    requires !AllKept(keep, above + [n])
    ensures Select(keep, Paths(above, n)) == []
    decreases n, 0
  {
    SelectAppend(keep, [above + [n]], Paths(above, n)[1..]);
    match n.body {
      case List(_, items) => { SelectAllNone(keep, above + [n], items); }
      case Compound(members) => { SelectAllNone(keep, above + [n], members); }
      case _ => {}
    }
  }

  lemma {:induction false} SelectAllNone(keep: Node -> bool, above: Path, nodes: seq<Node>)
    requires !AllKept(keep, above)
    ensures Select(keep, PathsAll(above, nodes)) == []
    decreases nodes, 1
  {
    if nodes != [] {
      var i :| 0 <= i < |above| && !keep(above[i]);
      assert (above + [nodes[0]])[i] == above[i];
      SelectBelowNone(keep, above, nodes[0]);
      SelectAllNone(keep, above, nodes[1..]);
      SelectAppend(keep, Paths(above, nodes[0]), PathsAll(above, nodes[1..]));
    }
  }

  /** Exactly the nodes that satisfy the predicate along with all their ancestors are kept, in
      the original preorder and below the same ancestors. `above'` is what became of `above`. */
  lemma {:induction false} FilterKeeps(keep: Node -> bool, above: Path, above': Path, n: Node)
    requires AllKept(keep, above) && Labels(above) == Labels(above')
    ensures LabelsOf(Select(keep, Paths(above, n))) ==
            if Filter(keep, n).Some? then LabelsOf(Paths(above', Filter(keep, n).value)) else []
    decreases n, 0
  {
    var p := above + [n];
    if !keep(n) {
      assert !keep(p[|above|]);
      SelectBelowNone(keep, above, n);
    } else {
      var n' := Filter(keep, n).value;
      var p' := above' + [n'];
      LabelsAppend(above, n);
      LabelsAppend(above', n');
      assert AllKept(keep, p);
      match n.body {
        case List(_, items) => { FilterAllKeeps(keep, p, p', items); Heads(keep, p, p', PathsAll(p, items), PathsAll(p', FilterAll(keep, items))); }
        case Compound(members) => { FilterAllKeeps(keep, p, p', members); Heads(keep, p, p', PathsAll(p, members), PathsAll(p', FilterAll(keep, members))); }
        case _ => { Heads(keep, p, p', [], []); }
      }
    }
  }

  lemma {:induction false} Heads(keep: Node -> bool, p: Path, p': Path, below: seq<Path>, below': seq<Path>)
    requires AllKept(keep, p) && Labels(p) == Labels(p') && LabelsOf(Select(keep, below)) == LabelsOf(below')
    ensures LabelsOf(Select(keep, [p] + below)) == LabelsOf([p'] + below')
  {
    hide Labels, AllKept;
    assert ([p] + below)[1..] == below && ([p'] + below')[1..] == below';
    assert ([p] + Select(keep, below))[1..] == Select(keep, below);
  }

  lemma {:induction false} FilterAllKeeps(keep: Node -> bool, above: Path, above': Path, nodes: seq<Node>)
    requires AllKept(keep, above) && Labels(above) == Labels(above')
    ensures LabelsOf(Select(keep, PathsAll(above, nodes))) == LabelsOf(PathsAll(above', FilterAll(keep, nodes)))
    decreases nodes, 1
  {
    if nodes != [] {
      FilterKeeps(keep, above, above', nodes[0]);
      FilterAllKeeps(keep, above, above', nodes[1..]);
      hide Labels, AllKept, Filter, Paths;
      SelectAppend(keep, Paths(above, nodes[0]), PathsAll(above, nodes[1..]));
      var a, b := Select(keep, Paths(above, nodes[0])), Select(keep, PathsAll(above, nodes[1..]));
      LabelsOfAppend(a, b);
      var first, more := Filter(keep, nodes[0]), FilterAll(keep, nodes[1..]);
      if first.Some? {
        assert ([first.value] + more)[1..] == more;
        LabelsOfAppend(Paths(above', first.value), PathsAll(above', more));
      } else {
        assert [] + more == more;
      }
    }
  }

  // ------------------------------------------------- what the copy loses

  predicate NoEmptyList(n: Node)
    decreases n, 0
  {
    match n.body
    case List(_, items) => items != [] && NoEmptyLists(items)
    case Compound(members) => NoEmptyLists(members)
    case _ => true
  }

  predicate NoEmptyLists(nodes: seq<Node>)
    decreases nodes, 1
  {
    nodes == [] || (NoEmptyList(nodes[0]) && NoEmptyLists(nodes[1..]))
  }

  lemma {:induction false} BareAt(nodes: seq<Node>)
    ensures |BareAll(nodes)| == |nodes|
    ensures forall i :: 0 <= i < |nodes| ==> BareAll(nodes)[i] == Bare(nodes[i])
  {
    if nodes != [] { BareAt(nodes[1..]); }
  }

  /** Without its sentinel types a tree still dumps to the same bytes, exactly when no list in it
      is empty: an empty list then has no type left, and the whole dump fails. */
  lemma {:induction false} BareDump(n: Node, withType: bool)
    ensures DumpNode(Bare(n), withType) == if NoEmptyList(n) then DumpNode(n, withType) else None
    decreases n, 0
  {
    assert DumpHead(Bare(n), withType) == DumpHead(n, withType);
    match n.body {
      case List(elem, items) => {
        BareAllDump(items, false);
        BareAt(items);
        assert forall i :: 0 <= i < |items| ==> Tag(Bare(items[i]).body) == Tag(items[i].body);
        assert items != [] ==> Homogenous(BareAll(items), None) == Homogenous(items, elem);
      }
      case Compound(members) => { BareAllDump(members, true); }
      case _ => {}
    }
  }

  lemma {:induction false} BareAllDump(nodes: seq<Node>, withType: bool)
    ensures DumpAll(BareAll(nodes), withType) == if NoEmptyLists(nodes) then DumpAll(nodes, withType) else None
    decreases nodes, 1
  {
    if nodes != [] {
      BareDump(nodes[0], withType);
      BareAllDump(nodes[1..], withType);
      hide Bare, DumpNode, NoEmptyList;
      assert BareAll(nodes)[1..] == BareAll(nodes[1..]);
    }
  }

  /** Every list kept with its ancestors has an element that `keep` accepts. */
  predicate ListsKeepSome(keep: Node -> bool, n: Node)
    decreases n, 0
  {
    keep(n) ==>
      match n.body
      case List(_, items) => (exists i :: 0 <= i < |items| && keep(items[i])) && AllListsKeepSome(keep, items)
      case Compound(members) => AllListsKeepSome(keep, members)
      case _ => true
  }

  predicate AllListsKeepSome(keep: Node -> bool, nodes: seq<Node>)
    decreases nodes, 1
  {
    nodes == [] || (ListsKeepSome(keep, nodes[0]) && AllListsKeepSome(keep, nodes[1..]))
  }

  lemma {:induction false} SomeKept(keep: Node -> bool, nodes: seq<Node>)
    ensures FilterAll(keep, nodes) != [] <==> exists i :: 0 <= i < |nodes| && keep(nodes[i])
  {
    if nodes != [] {
      SomeKept(keep, nodes[1..]);
      if i :| 0 <= i < |nodes| && keep(nodes[i]) {
        if i > 0 { assert nodes[1..][i - 1] == nodes[i]; }
      }
    }
  }

  /** No list is empty after filtering, if and only if each had an element to keep. */
  lemma {:induction false} NoneEmptyIff(keep: Node -> bool, n: Node)
    ensures Filter(keep, n).Some? <==> keep(n)
    ensures keep(n) ==> (NoEmptyList(Filter(keep, n).value) <==> ListsKeepSome(keep, n))
    ensures !keep(n) ==> ListsKeepSome(keep, n)
    decreases n, 0
  {
    match n.body {
      case List(_, items) => { NoneEmptyAllIff(keep, items); SomeKept(keep, items); }
      case Compound(members) => { NoneEmptyAllIff(keep, members); }
      case _ => {}
    }
  }

  lemma {:induction false} NoneEmptyAllIff(keep: Node -> bool, nodes: seq<Node>)
    ensures NoEmptyLists(FilterAll(keep, nodes)) <==> AllListsKeepSome(keep, nodes)
    decreases nodes, 1
  {
    if nodes != [] {
      NoneEmptyIff(keep, nodes[0]);
      NoneEmptyAllIff(keep, nodes[1..]);
      hide Filter, NoEmptyList, ListsKeepSome;
      var first, more := Filter(keep, nodes[0]), FilterAll(keep, nodes[1..]);
      if first.Some? {
        assert ([first.value] + more)[0] == first.value && ([first.value] + more)[1..] == more;
      } else {
        assert [] + more == more;
      }
    }
  }

  /** A filtered copy dumps to what the tree filtered in place dumps to if every list kept with
      its ancestors has an element to keep, and cannot be dumped at all otherwise. */
  lemma {:induction false} FilteredCopyDumps(keep: Node -> bool, garble: seq<nat> -> seq<nat>, n: Node)
    requires Plain(n) && keep(n)
    ensures Copy(keep, garble, n).Some? && Filter(keep, n).Some?
    ensures DumpNode(Copy(keep, garble, n).value, true) ==
            if ListsKeepSome(keep, n) then DumpNode(Filter(keep, n).value, true) else None
  {
    hide *;
    NoneEmptyIff(keep, n);
    CopyIsBareFilter(keep, garble, n);
    BareDump(Filter(keep, n).value, true);
  }

  // -------------------------------------------------------------- path lookup

  const DOT: byte := 46

  /** The name strcmp sees; a missing name counts as empty. */
  function NameOf(n: Node): Bytes { if n.name.Some? then CString(n.name.value) else [] }

  function Names(p: Path): seq<Bytes> {
    if p == [] then [] else [NameOf(p[0])] + Names(p[1..])
  }

  /** `index_of(path, '.')` */
  function Dot(path: Bytes): (e: nat)
    ensures e <= |path|
    ensures forall i :: 0 <= i < e ==> path[i] != DOT
    ensures e < |path| ==> path[e] == DOT
  {
    if path == [] || path[0] == DOT then 0 else 1 + Dot(path[1..])
  }

  /** The pieces of a path between its dots. */
  function Split(path: Bytes): (pieces: seq<Bytes>)
    ensures |pieces| > 0
    decreases |path|
  {
    var e := Dot(path);
    [path[..e]] + if e == |path| then [] else Split(path[e + 1..])
  }

  /** `nbt_find_by_path`. */
  function FindByPath(n: Node, path: Bytes): Option<Node>
    decreases n, 0
  {
    var e := Dot(path);
    if path[..e] != NameOf(n) then None
    else if e == |path| then Some(n)
    else match n.body
         case List(_, items) => FindAmong(items, path[e + 1..])
         case Compound(members) => FindAmong(members, path[e + 1..])
         case _ => None
  }

  function FindAmong(nodes: seq<Node>, path: Bytes): Option<Node>
    decreases nodes, 1
  {
    if nodes == [] then None
    else
      var r := FindByPath(nodes[0], path);
      if r.Some? then r else FindAmong(nodes[1..], path)
  }

  /** The node at the end of the first path whose names are `target`. */
  function First(target: seq<Bytes>, ps: seq<Path>): Option<Node> {
    if ps == [] then None
    else if ps[0] != [] && Names(ps[0]) == target then Some(ps[0][|ps[0]| - 1])
    else First(target, ps[1..])
  }

  lemma {:induction false} FirstAppend(target: seq<Bytes>, a: seq<Path>, b: seq<Path>)
    ensures First(target, a + b) == if First(target, a).Some? then First(target, a) else First(target, b)
  {
    if a == [] {
      assert a + b == b;
    } else {
      assert (a + b)[1..] == a[1..] + b && (a + b)[0] == a[0];
      FirstAppend(target, a[1..], b);
    }
  }

  lemma {:induction false} NamesAppend(p: Path, n: Node)
    ensures Names(p + [n]) == Names(p) + [NameOf(n)]
  {
    if p != [] {
      assert (p + [n])[1..] == p[1..] + [n];
      NamesAppend(p[1..], n);
    } else {
      assert p + [n] == [n];
    }
  }

  /** A lookup cannot succeed below a wrong name. */
  lemma {:induction false} FirstBelow(target: seq<Bytes>, above: Path, n: Node)
    requires !(Names(above + [n]) <= target)
    ensures First(target, Paths(above, n)) == None
    decreases n, 0
  {
    var ps := Paths(above, n);
    assert ps[0] == above + [n] && ps == [ps[0]] + ps[1..];
    match n.body {
      case List(_, items) => { FirstBelowAll(target, above + [n], items); assert ps[1..] == PathsAll(above + [n], items); }
      case Compound(members) => { FirstBelowAll(target, above + [n], members); assert ps[1..] == PathsAll(above + [n], members); }
      case _ => {}
    }
  }

  lemma {:induction false} FirstBelowAll(target: seq<Bytes>, above: Path, nodes: seq<Node>)
    requires !(Names(above) <= target)
    ensures First(target, PathsAll(above, nodes)) == None
    decreases nodes, 1
  {
    if nodes != [] {
      NamesAppend(above, nodes[0]);
      PrefixOf(Names(above), [NameOf(nodes[0])], target);
      FirstBelow(target, above, nodes[0]);
      FirstBelowAll(target, above, nodes[1..]);
      hide Paths, Names;
      FirstAppend(target, Paths(above, nodes[0]), PathsAll(above, nodes[1..]));
    }
  }

  lemma {:induction false} PrefixOf(a: seq<Bytes>, b: seq<Bytes>, t: seq<Bytes>)
    ensures a + b <= t ==> a <= t
  {
    if a + b <= t { assert t[..|a|] == (a + b)[..|a|]; }
  }

  /** `nbt_find_by_path` returns the first node in preorder to which the dotted names lead. */
  lemma {:induction false} PathLookup(above: Path, n: Node, path: Bytes)
    ensures FindByPath(n, path) == First(Names(above) + Split(path), Paths(above, n))
    decreases n, 0
  {
    var e, p, kids := Dot(path), above + [n], Children(n.body);
    match n.body {
      case List(_, items) => { if e < |path| { PathLookupAll(p, items, path[e + 1..]); } }
      case Compound(members) => { if e < |path| { PathLookupAll(p, members, path[e + 1..]); } }
      case _ => { if e < |path| { NoKids(p, path[e + 1..]); } }
    }
    UnfoldPaths(above, n);
    UnfoldFind(n, path);
    UnfoldSplit(above, n, path);
    hide Names, First, NameOf, Dot, Split, Paths, PathsAll, FindByPath, FindAmong, Children;
    if path[..e] != NameOf(n) {
      WrongName(above, n, Split(path));
    } else if e == |path| {
      RightName(above, n, PathsAll(p, kids));
    } else {
      Descend(p, Split(path[e + 1..]), PathsAll(p, kids));
    }
  }

  lemma {:induction false} NoKids(above: Path, path: Bytes)
    ensures FindAmong([], path) == First(Names(above) + Split(path), PathsAll(above, []))
  {
  }

  lemma {:induction false} UnfoldPaths(above: Path, n: Node)
    ensures Paths(above, n) == [above + [n]] + PathsAll(above + [n], Children(n.body))
  {
  }

  lemma {:induction false} UnfoldFind(n: Node, path: Bytes)
    ensures var e := Dot(path);
      FindByPath(n, path) == (if path[..e] != NameOf(n) then None
                              else if e == |path| then Some(n)
                              else FindAmong(Children(n.body), path[e + 1..]))
  {
    hide NameOf, Dot;
  }

  lemma {:induction false} UnfoldSplit(above: Path, n: Node, path: Bytes)
    ensures path[..Dot(path)] == Split(path)[0]
    ensures path[..Dot(path)] == NameOf(n) ==>
      Names(above) + Split(path) ==
      if Dot(path) == |path| then Names(above) + [NameOf(n)] else Names(above + [n]) + Split(path[Dot(path) + 1..])
  {
    NamesAppend(above, n);
    hide NameOf, Dot, Names;
    var e := Dot(path);
    if e < |path| {
      var more := Split(path[e + 1..]);
      assert Split(path) == [path[..e]] + more;
      hide Split;
      Regroup(Names(above), path[..e], more);
    } else {
      assert Split(path) == [path[..e]];
    }
  }

  lemma {:induction false} Regroup(a: seq<Bytes>, x: Bytes, more: seq<Bytes>)
    ensures a + ([x] + more) == a + [x] + more
  {
  }

  lemma {:induction false} WrongName(above: Path, n: Node, pieces: seq<Bytes>)
    requires pieces != [] && pieces[0] != NameOf(n)
    ensures First(Names(above) + pieces, Paths(above, n)) == None
  {
    hide Paths, First, CString;
    var target := Names(above) + pieces;
    NamesAppend(above, n);
    assert Names(above + [n])[|Names(above)|] == NameOf(n) && target[|Names(above)|] == pieces[0];
    FirstBelow(target, above, n);
  }

  lemma {:induction false} RightName(above: Path, n: Node, below: seq<Path>)
    ensures First(Names(above) + [NameOf(n)], [above + [n]] + below) == Some(n)
  {
    NamesAppend(above, n);
  }

  lemma {:induction false} Descend(p: Path, more: seq<Bytes>, below: seq<Path>)
    requires more != []
    ensures First(Names(p) + more, [p] + below) == First(Names(p) + more, below)
  {
    assert ([p] + below)[1..] == below;
  }

  lemma {:induction false} PathLookupAll(above: Path, nodes: seq<Node>, path: Bytes)
    ensures FindAmong(nodes, path) == First(Names(above) + Split(path), PathsAll(above, nodes))
    decreases nodes, 1
  {
    if nodes != [] {
      PathLookup(above, nodes[0], path);
      PathLookupAll(above, nodes[1..], path);
      hide FindByPath, Names, Split, Paths;
      FirstAppend(Names(above) + Split(path), Paths(above, nodes[0]), PathsAll(above, nodes[1..]));
    }
  }

  /** `index_of`, a loop over the string. */
  method IndexOfDot(s: Bytes) returns (e: nat)
    ensures e == Dot(s)
  {
    e := 0;
    assert s[0..] == s;
    while e < |s| && s[e] != DOT
      invariant e <= |s| && e + Dot(s[e..]) == Dot(s)
    {
      assert s[e..][1..] == s[e + 1..];
      e := e + 1;
    }
  }

  lemma {:induction false} FindAmongStep(nodes: seq<Node>, i: nat, path: Bytes)
    requires i <= |nodes|
    ensures FindAmong(nodes[i..], path) == if i == |nodes| then None
                                           else if FindByPath(nodes[i], path).Some? then FindByPath(nodes[i], path)
                                           else FindAmong(nodes[i + 1..], path)
  {
    if i < |nodes| { assert nodes[i..][1..] == nodes[i + 1..]; }
  }

  lemma {:induction false} WholeLookup(n: Node, path: Bytes)
    ensures FindByPath(n, path) == First(Split(path), Paths([], n))
  {
    PathLookup([], n, path);
    assert Names([]) + Split(path) == Split(path);
  }

  /** `nbt_find_by_path` as it runs: the first node in preorder to which the dotted names lead. */
  method NbtFindByPath(tree: Node, path: Bytes) returns (r: Option<Node>)
    ensures r == FindByPath(tree, path)
    ensures r == First(Split(path), Paths([], tree))
    decreases tree
  {
    WholeLookup(tree, path);
    UnfoldFind(tree, path);
    hide Paths, First, Split, NameOf, Dot, FindByPath, FindAmong;
    var e := IndexOfDot(path);
    if path[..e] != NameOf(tree) { return None; }
    if e == |path| { return Some(tree); }
    if !tree.body.List? && !tree.body.Compound? {
      FindAmongStep([], 0, path[e + 1..]);
      return None;
    }
    var kids := if tree.body.List? then tree.body.items else tree.body.members;
    assert kids == Children(tree.body) && kids[0..] == kids;
    for i := 0 to |kids|
      invariant FindByPath(tree, path) == FindAmong(kids[i..], path[e + 1..])
    {
      FindAmongStep(kids, i, path[e + 1..]);
      var found := NbtFindByPath(kids[i], path[e + 1..]);
      if found.Some? { return found; }
    }
    FindAmongStep(kids, |kids|, path[e + 1..]);
    return None;
  }
}
