/** When the length walker of src/datautils.c reads outside its buffer. It passes the whole limit
    of a list on to the elements, without the five bytes of the header, so inside lists the limit
    it checks is larger than what is left. */
module NbtWalkBounds {
  import opened Bits
  import opened NbtTree
  import opened NbtWalk

  /** A walk that keeps count of the bytes really left. */
  datatype Tracked = Fits(n: nat) | Rejected | Outside

  /** The bytes at hand are those left; none once the cursor is past the end. */
  predicate Backed(src: Bytes, left: int) {
    |src| == if left < 0 then 0 else left
  }

  /** Looking at h bytes with `left` in the buffer and a limit that is `slack` too large. */
  function Look(h: nat, left: int, slack: nat): (r: Tracked)
    ensures r.Fits? <==> h <= left
    ensures r.Outside? <==> left < h <= left + slack
  {
    if left + slack < h then Rejected else if left < h then Outside else Fits(h)
  }

  function Capped(r: Tracked, limit: int): (r': Tracked)
    ensures r'.Fits? ==> r' == r && r.n <= limit
    ensures r'.Outside? <==> r.Outside?
  {
    if r.Fits? && limit < r.n then Rejected else r
  }

  function TrackString(src: Bytes, left: int, slack: nat): (r: Tracked)
    requires Backed(src, left)
    ensures r.Fits? ==> r.n <= left + slack
    ensures slack == 0 ==> !r.Outside?
  {
    var look := Look(2, left, slack);
    if look.Fits? then Capped(Fits(2 + FromBE(src[..2])), left + slack) else look
  }

  function TrackArray(src: Bytes, left: int, slack: nat, w: nat): (r: Tracked)
    requires Backed(src, left)
    ensures r.Fits? ==> r.n <= left + slack
    ensures slack == 0 ==> !r.Outside?
  {
    var look := Look(4, left, slack);
    if look.Fits? then Capped(Fits(4 + w * FromBE(src[..4])), left + slack) else look
  }

  function TrackLeaf(tag: nat, src: Bytes, left: int, slack: nat): (r: Tracked)
    requires Backed(src, left)
    ensures slack == 0 ==> !r.Outside?
  {
    if Width(tag) > 0 then Fits(Width(tag))
    else if tag == TAG_BYTE_ARRAY then TrackArray(src, left, slack, 1)
    else if tag == TAG_INT_ARRAY then TrackArray(src, left, slack, 4)
    else if tag == TAG_LONG_ARRAY then TrackArray(src, left, slack, 8)
    else if tag == TAG_STRING then TrackString(src, left, slack)
    else Rejected
  }

  /** The walk of one payload when each enclosing list leaks g bytes of limit. */
  function TrackPayload(g: nat, tag: nat, src: Bytes, left: int, slack: nat): (r: Tracked)
    requires Backed(src, left)
    ensures r.Fits? ==> 1 <= r.n <= left + slack
    decreases |src|, 3
  {
    if tag == TAG_LIST then Capped(TrackList(g, src, left, slack), left + slack)
    else if tag == TAG_COMPOUND then Capped(TrackCompound(g, src, left, slack), left + slack)
    else Capped(TrackLeaf(tag, src, left, slack), left + slack)
  }

  function TrackList(g: nat, src: Bytes, left: int, slack: nat): (r: Tracked)
    requires Backed(src, left)
    ensures r.Fits? ==> 1 <= r.n
    decreases |src|, 2
  {
    var look := Look(5, left, slack);
    if !look.Fits? then look
    else Further(5, TrackItems(g, src[0], Signed32(FromBE(src[1..5])), src[5..], left - 5, slack + g))
  }

  function Further(a: nat, r: Tracked): Tracked {
    if r.Fits? then Fits(a + r.n) else r
  }

  function TrackItems(g: nat, elem: nat, count: int, src: Bytes, left: int, slack: nat): Tracked
    requires Backed(src, left)
    decreases |src|, 4, count
  {
    if count <= 0 then Fits(0)
    else
      var one := TrackPayload(g, elem, src, left, slack);
      if !one.Fits? then one
      else Further(one.n, TrackItems(g, elem, count - 1, Drop(src, one.n), left - one.n, slack))
  }

  function TrackCompound(g: nat, src: Bytes, left: int, slack: nat): (r: Tracked)
    requires Backed(src, left)
    ensures r.Fits? ==> 1 <= r.n
    decreases |src|, 1
  {
    var look := Look(1, left, slack);
    if !look.Fits? then look
    else if src[0] == 0 then Fits(1)
    else
      var name := TrackString(src[1..], left - 1, slack);
      if !name.Fits? then name
      else
        var rest := Drop(src[1..], name.n);
        var body := TrackPayload(g, src[0], rest, left - 1 - name.n, slack);
        if !body.Fits? then body
        else Further(1 + name.n + body.n, TrackCompound(g, Drop(rest, body.n), left - 1 - name.n - body.n, slack))
  }

  function TrackNbt(g: nat, s: Bytes): Tracked {
    if s == [] then Rejected
    else
      var name := TrackString(s[1..], |s| - 1, 0);
      if !name.Fits? then name
      else Further(1 + name.n, TrackPayload(g, s[0], Drop(s[1..], name.n), |s| - 1 - name.n, 0))
  }

  // --------------------------------------------------- the walker leaks five bytes a list

  function Verdict(r: Tracked): Walk {
    match r
    case Fits(n) => Ok(n)
    case Rejected => Bad
    case Outside => Fault
  }

  lemma {:induction false} LeafTracked(tag: nat, src: Bytes, left: int, slack: nat)
    requires Backed(src, left) && left + slack >= 0
    ensures WalkLeaf(tag, src, left + slack) == Verdict(TrackLeaf(tag, src, left, slack))
  {
    hide FromBE;
  }

  lemma {:induction false} StringTracked(src: Bytes, left: int, slack: nat)
    requires Backed(src, left) && left + slack >= 0
    ensures WalkString(src, left + slack) == Verdict(TrackString(src, left, slack))
  {
    hide FromBE;
  }

  /** At every point of the walk the limit is the bytes left plus five for each enclosing list. */
  lemma {:induction false} PayloadTracked(tag: nat, src: Bytes, left: int, slack: nat)
    requires Backed(src, left) && left + slack >= 0
    ensures WalkPayload(tag, src, left + slack) == Verdict(TrackPayload(5, tag, src, left, slack))
    decreases |src|, 3
  {
    hide WalkLeaf, TrackLeaf, WalkList, TrackList, WalkCompound, TrackCompound;
    if tag == TAG_LIST { ListTracked(src, left, slack); }
    else if tag == TAG_COMPOUND { CompoundTracked(src, left, slack); }
    else { LeafTracked(tag, src, left, slack); }
  }

  lemma {:induction false} ListTracked(src: Bytes, left: int, slack: nat)
    requires Backed(src, left) && left + slack >= 0
    ensures WalkList(src, left + slack) == Verdict(TrackList(5, src, left, slack))
    decreases |src|, 2
  {
    hide FromBE, WalkItems, TrackItems;
    if left >= 5 { ItemsTracked(src[0], Signed32(FromBE(src[1..5])), src[5..], left - 5, slack + 5); }
  }

  lemma {:induction false} ItemsTracked(elem: nat, count: int, src: Bytes, left: int, slack: nat)
    requires Backed(src, left) && left + slack >= 0
    ensures WalkItems(elem, count, src, left + slack) == Verdict(TrackItems(5, elem, count, src, left, slack))
    decreases |src|, 4, count
  {
    hide WalkPayload, TrackPayload;
    if count > 0 {
      PayloadTracked(elem, src, left, slack);
      var one := TrackPayload(5, elem, src, left, slack);
      if one.Fits? { ItemsTracked(elem, count - 1, Drop(src, one.n), left - one.n, slack); }
    }
  }

  lemma {:induction false} CompoundTracked(src: Bytes, left: int, slack: nat)
    requires Backed(src, left) && left + slack >= 0
    ensures WalkCompound(src, left + slack) == Verdict(TrackCompound(5, src, left, slack))
    decreases |src|, 1
  {
    hide WalkPayload, TrackPayload, WalkString, TrackString, WalkCompound, TrackCompound, Drop;
    CompoundHead(src, left, slack);
    if left >= 1 && src[0] != 0 {
      StringTracked(src[1..], left - 1, slack);
      WalkMember(src, left + slack);
      TrackMember(5, src, left, slack);
      var name := TrackString(src[1..], left - 1, slack);
      if name.Fits? {
        var rest, l := Drop(src[1..], name.n), left - 1 - name.n;
        BackedDrop(src[1..], left - 1, name.n);
        PayloadTracked(src[0], rest, l, slack);
        var body := TrackPayload(5, src[0], rest, l, slack);
        if body.Fits? {
          BackedDrop(rest, l, body.n);
          ShorterDrop(src, name.n, body.n);
          CompoundTracked(Drop(rest, body.n), l - body.n, slack);
        }
      }
    }
  }

  lemma {:induction false} BackedDrop(src: Bytes, left: int, n: nat)
    requires Backed(src, left)
    ensures Backed(Drop(src, n), left - n)
  {
  }

  lemma {:induction false} ShorterDrop(src: Bytes, a: nat, b: nat)
    requires src != []
    ensures |Drop(src[1..], a)| < |src| && |Drop(Drop(src[1..], a), b)| < |src|
  {
  }

  lemma {:induction false} CompoundHead(src: Bytes, left: int, slack: nat)
    requires Backed(src, left) && left + slack >= 0
    ensures left < 1 || src[0] == 0 ==> WalkCompound(src, left + slack) == Verdict(TrackCompound(5, src, left, slack))
  {
  }

  lemma {:induction false} TrackMember(g: nat, src: Bytes, left: int, slack: nat)
    requires Backed(src, left) && left >= 1 && src[0] != 0
    ensures var name := TrackString(src[1..], left - 1, slack);
      TrackCompound(g, src, left, slack) ==
        if !name.Fits? then name
        else AfterName(g, src[0], Drop(src[1..], name.n), left - 1 - name.n, slack, name.n)
  {
    hide TrackPayload, TrackString;
  }

  /** A compound member behind its type and a name of a bytes, and the members after it. */
  function AfterName(g: nat, tag: nat, rest: Bytes, left: int, slack: nat, a: nat): Tracked
    requires Backed(rest, left)
  {
    var body := TrackPayload(g, tag, rest, left, slack);
    if !body.Fits? then body
    else Further(1 + a + body.n, TrackCompound(g, Drop(rest, body.n), left - body.n, slack))
  }

  /** Exactly when a walk limited to the buffer's length reads outside it: it reaches a header
      that is not all inside, while the limit, too large by five bytes for each list around it,
      still admits the header. */
  lemma {:induction false} OverreadIff(s: Bytes)
    ensures WalkNbt(s, |s|) == Verdict(TrackNbt(5, s))
    ensures WalkNbt(s, |s|) == Fault <==> TrackNbt(5, s) == Outside
  {
    hide WalkPayload, TrackPayload, WalkString, TrackString;
    if s != [] {
      StringTracked(s[1..], |s| - 1, 0);
      var name := TrackString(s[1..], |s| - 1, 0);
      if name.Fits? { PayloadTracked(s[0], Drop(s[1..], name.n), |s| - 1 - name.n, 0); }
    }
  }

  // ------------------------------------------------------------ what the leak can do

  /** The intended walk, whose limit is what is left: it never looks outside. */
  lemma {:induction false} StrictStaysInside(tag: nat, src: Bytes, left: int)
    requires Backed(src, left) && left >= 0
    ensures TrackPayload(0, tag, src, left, 0) != Outside
    decreases |src|, 3
  {
    hide TrackLeaf, TrackList, TrackCompound;
    if tag == TAG_LIST { StrictList(src, left); } else if tag == TAG_COMPOUND { StrictCompound(src, left); }
  }

  lemma {:induction false} StrictList(src: Bytes, left: int)
    requires Backed(src, left) && left >= 0
    ensures TrackList(0, src, left, 0) != Outside
    decreases |src|, 2
  {
    hide FromBE, TrackItems;
    if left >= 5 { StrictItems(src[0], Signed32(FromBE(src[1..5])), src[5..], left - 5); }
  }

  lemma {:induction false} StrictItems(elem: nat, count: int, src: Bytes, left: int)
    requires Backed(src, left) && left >= 0
    ensures TrackItems(0, elem, count, src, left, 0) != Outside
    decreases |src|, 4, count
  {
    hide TrackPayload;
    if count > 0 {
      StrictStaysInside(elem, src, left);
      var one := TrackPayload(0, elem, src, left, 0);
      if one.Fits? { StrictItems(elem, count - 1, Drop(src, one.n), left - one.n); }
    }
  }

  lemma {:induction false} StrictCompound(src: Bytes, left: int)
    requires Backed(src, left) && left >= 0
    ensures TrackCompound(0, src, left, 0) != Outside
    decreases |src|, 1
  {
    hide TrackPayload, TrackString;
    if left >= 1 && src[0] != 0 {
      hide TrackCompound, Drop;
      TrackMember(0, src, left, 0);
      var name := TrackString(src[1..], left - 1, 0);
      if name.Fits? {
        var rest, l := Drop(src[1..], name.n), left - 1 - name.n;
        BackedDrop(src[1..], left - 1, name.n);
        ShorterDrop(src, name.n, 0);
        StrictStaysInside(src[0], rest, l);
        var body := TrackPayload(0, src[0], rest, l, 0);
        if body.Fits? {
          BackedDrop(rest, l, body.n);
          ShorterDrop(src, name.n, body.n);
          StrictCompound(Drop(rest, body.n), l - body.n);
        }
      }
    }
  }

  /** r is Fits(n) with n bytes really there. */
  predicate Inside(r: Tracked, n: nat, left: int) {
    r == Fits(n) && n <= left
  }

  lemma {:induction false} LeafSame(tag: nat, src: Bytes, left: int, slack: nat, n: nat)
    requires Backed(src, left)
    ensures Inside(Capped(TrackLeaf(tag, src, left, slack), left + slack), n, left)
       <==> Capped(TrackLeaf(tag, src, left, 0), left) == Fits(n)
  {
    hide FromBE;
  }

  /** Payloads that end inside the buffer are measured alike, however much each list leaks. */
  lemma {:induction false} PayloadSame(g: nat, tag: nat, src: Bytes, left: int, slack: nat, n: nat)
    requires Backed(src, left)
    ensures Inside(TrackPayload(g, tag, src, left, slack), n, left) <==> TrackPayload(0, tag, src, left, 0) == Fits(n)
    decreases |src|, 3
  {
    hide TrackLeaf, TrackList, TrackCompound;
    if tag == TAG_LIST { ListSame(g, src, left, slack, n); }
    else if tag == TAG_COMPOUND { CompoundSame(g, src, left, slack, n); }
    else { LeafSame(tag, src, left, slack, n); }
  }

  lemma {:induction false} ListSame(g: nat, src: Bytes, left: int, slack: nat, n: nat)
    requires Backed(src, left)
    ensures Inside(TrackList(g, src, left, slack), n, left) <==> Inside(TrackList(0, src, left, 0), n, left)
    decreases |src|, 2
  {
    hide FromBE, TrackItems;
    if left >= 5 && n >= 5 {
      var elem, count := src[0], Signed32(FromBE(src[1..5]));
      ItemsSame(g, elem, count, src[5..], left - 5, slack + g, n - 5);
    }
  }

  lemma {:induction false} ItemsSame(g: nat, elem: nat, count: int, src: Bytes, left: int, slack: nat, n: nat)
    requires Backed(src, left)
    ensures Inside(TrackItems(g, elem, count, src, left, slack), n, left)
       <==> Inside(TrackItems(0, elem, count, src, left, 0), n, left)
    decreases |src|, 4, count
  {
    hide TrackPayload;
    if count > 0 {
      var a, b := TrackPayload(g, elem, src, left, slack), TrackPayload(0, elem, src, left, 0);
      if a.Fits? { PayloadSame(g, elem, src, left, slack, a.n); }
      if b.Fits? { PayloadSame(g, elem, src, left, slack, b.n); }
      if b.Fits? && b.n <= n { ItemsSame(g, elem, count - 1, Drop(src, b.n), left - b.n, slack, n - b.n); }
    }
  }

  lemma {:induction false} CompoundSame(g: nat, src: Bytes, left: int, slack: nat, n: nat)
    requires Backed(src, left)
    ensures Inside(TrackCompound(g, src, left, slack), n, left) <==> Inside(TrackCompound(0, src, left, 0), n, left)
    decreases |src|, 1
  {
    hide TrackPayload, TrackString, TrackCompound, Drop, AfterName, Inside;
    CompoundHeadSame(g, src, left, slack, n);
    if left >= 1 && src[0] != 0 {
      TrackMember(g, src, left, slack);
      TrackMember(0, src, left, 0);
      NameSame(src[1..], left - 1, slack);
      var x, y := TrackString(src[1..], left - 1, slack), TrackString(src[1..], left - 1, 0);
      if y.Fits? {
        BackedDrop(src[1..], left - 1, y.n);
        ShorterDrop(src, y.n, 0);
        MemberSame(g, src[0], Drop(src[1..], y.n), left - 1 - y.n, slack, y.n, n);
      } else if x.Fits? {
        BackedDrop(src[1..], left - 1, x.n);
        TooLong(g, src[0], Drop(src[1..], x.n), left - 1 - x.n, slack, x.n, n);
        NotInside(y, n, left);
      } else {
        NotInside(x, n, left);
        NotInside(y, n, left);
      }
    }
  }

  lemma {:induction false} NotInside(r: Tracked, n: nat, left: int)
    ensures !r.Fits? ==> !Inside(r, n, left)
  {
  }

  lemma {:induction false} CompoundHeadSame(g: nat, src: Bytes, left: int, slack: nat, n: nat)
    requires Backed(src, left)
    ensures left < 1 || src[0] == 0 ==>
      (Inside(TrackCompound(g, src, left, slack), n, left) <==> Inside(TrackCompound(0, src, left, 0), n, left))
  {
  }

  lemma {:induction false} NameSame(src: Bytes, left: int, slack: nat)
    requires Backed(src, left)
    ensures var x, y := TrackString(src, left, slack), TrackString(src, left, 0);
      if y.Fits? then x == y else x.Fits? ==> x.n > left
  {
    hide FromBE;
  }

  /** Past the end nothing is inside. */
  lemma {:induction false} TooLong(g: nat, tag: nat, rest: Bytes, left: int, slack: nat, a: nat, n: nat)
    requires Backed(rest, left) && left < 0
    ensures !Inside(AfterName(g, tag, rest, left, slack, a), n, left + 1 + a)
  {
    hide TrackPayload, TrackCompound;
  }

  lemma {:induction false} MemberSame(g: nat, tag: nat, rest: Bytes, left: int, slack: nat, a: nat, n: nat)
    requires Backed(rest, left)
    ensures Inside(AfterName(g, tag, rest, left, slack, a), n, left + 1 + a)
       <==> Inside(AfterName(0, tag, rest, left, 0, a), n, left + 1 + a)
    decreases |rest|, 5
  {
    hide TrackPayload, TrackCompound, Drop;
    var x, y := TrackPayload(g, tag, rest, left, slack), TrackPayload(0, tag, rest, left, 0);
    if x.Fits? { PayloadSame(g, tag, rest, left, slack, x.n); BackedDrop(rest, left, x.n); }
    if y.Fits? {
      PayloadSame(g, tag, rest, left, slack, y.n);
      BackedDrop(rest, left, y.n);
      if 1 + a + y.n <= n {
        DropBound(rest, y.n);
        CompoundSame(g, Drop(rest, y.n), left - y.n, slack, n - 1 - a - y.n);
      }
    }
  }

  lemma {:induction false} DropBound(src: Bytes, n: nat)
    ensures |Drop(src, n)| <= |src|
  {
  }

  /** The leak never changes what is accepted: the walker accepts n bytes if and only if the
      walk that stays inside does. All it can do is turn a rejection into a read outside. */
  lemma {:induction false} LeakOnlyOverreads(s: Bytes)
    ensures forall n :: WalkNbt(s, |s|) == Ok(n) <==> TrackNbt(0, s) == Fits(n)
    ensures TrackNbt(0, s) != Outside
    ensures WalkNbt(s, |s|) == Fault ==> TrackNbt(0, s) == Rejected
  {
    OverreadIff(s);
    hide TrackPayload, TrackString, WalkNbt, Drop;
    if s != [] {
      var name := TrackString(s[1..], |s| - 1, 0);
      if name.Fits? {
        var rest, l := Drop(s[1..], name.n), |s| - 1 - name.n;
        BackedDrop(s[1..], |s| - 1, name.n);
        StrictStaysInside(s[0], rest, l);
        var x, y := TrackPayload(5, s[0], rest, l, 0), TrackPayload(0, s[0], rest, l, 0);
        if x.Fits? { PayloadSame(5, s[0], rest, l, 0, x.n); }
        if y.Fits? { PayloadSame(5, s[0], rest, l, 0, y.n); }
      }
    }
  }

  /** Without lists nothing leaks: bytes in which TAG_List does not occur are walked inside. */
  lemma {:induction false} NoListNoOverread(s: Bytes)
    requires TAG_LIST !in s
    ensures WalkNbt(s, |s|) != Fault
  {
    OverreadIff(s);
    hide TrackPayload, TrackString, WalkNbt;
    if s != [] {
      var name := TrackString(s[1..], |s| - 1, 0);
      if name.Fits? { NoListPayload(s[0], Drop(s[1..], name.n), |s| - 1 - name.n); }
    }
  }

  lemma {:induction false} NoListPayload(tag: nat, src: Bytes, left: int)
    requires Backed(src, left) && left >= 0 && tag != TAG_LIST && TAG_LIST !in src
    ensures TrackPayload(5, tag, src, left, 0) != Outside
    decreases |src|, 3
  {
    hide TrackLeaf, TrackCompound;
    if tag == TAG_COMPOUND { NoListCompound(src, left); }
  }

  lemma {:induction false} NoListCompound(src: Bytes, left: int)
    requires Backed(src, left) && left >= 0 && TAG_LIST !in src
    ensures TrackCompound(5, src, left, 0) != Outside
    decreases |src|, 1
  {
    hide TrackPayload, TrackString;
    if left >= 1 && src[0] != 0 {
      hide TrackCompound;
      TrackMember(5, src, left, 0);
      var name := TrackString(src[1..], left - 1, 0);
      if name.Fits? {
        var rest, l := Drop(src[1..], name.n), left - 1 - name.n;
        NoListPayload(src[0], rest, l);
        var body := TrackPayload(5, src[0], rest, l, 0);
        if body.Fits? { NoListCompound(Drop(rest, body.n), l - body.n); }
      }
    }
  }

  /** A list that announces one string, with nothing behind it: the string's length is looked for
      in the two bytes after the buffer. */
  lemma {:induction false} OverreadsByTwo()
    ensures WalkNbt([TAG_LIST, 0, 0, TAG_STRING, 0, 0, 0, 1], 8) == Fault
  {
    var s: Bytes := [TAG_LIST, 0, 0, TAG_STRING, 0, 0, 0, 1];
    Zeros();
    assert s[1..][..2] == [0, 0] && s[1..][2..] == [TAG_STRING, 0, 0, 0, 1];
    var list: Bytes := [TAG_STRING, 0, 0, 0, 1];
    assert list[1..5] == [0, 0, 0, 1] && list[5..] == [];
    hide FromBE;
    assert WalkPayload(TAG_STRING, [], 5) == Fault;
    assert WalkItems(TAG_STRING, 1, [], 5) == Fault;
    assert WalkList(list, 5) == Fault;
  }

  lemma {:induction false} Zeros()
    ensures FromBE([0, 0]) == 0 && FromBE([0, 0, 0, 1]) == 1
  {
    assert FromBE([0]) == 0;
    assert [0, 0][..1] == [0];
    assert FromBE([0, 0]) == 0;
    assert [0, 0, 0][..2] == [0, 0];
    assert FromBE([0, 0, 0]) == 0;
    assert [0, 0, 0, 1][..3] == [0, 0, 0];
  }

  /** k headers of lists of one list. */
  function Headers(k: nat): Bytes {
    if k == 0 then [] else [TAG_LIST, 0, 0, 0, 1] + Headers(k - 1)
  }

  lemma {:induction false} HeadersRunOut(k: nat)
    ensures WalkPayload(TAG_LIST, Headers(k), 5) == Fault
  {
    if k > 0 {
      HeadersRunOut(k - 1);
      Zeros();
      var s, more := Headers(k), Headers(k - 1);
      hide FromBE, Headers, WalkPayload;
      assert s[0] == TAG_LIST && s[1..5] == [0, 0, 0, 1] && s[5..] == more by { HeadersStep(k); }
      assert WalkItems(TAG_LIST, 1, more, 5) == Fault;
      assert WalkList(s, 5) == Fault;
      ListIsFault(s);
    }
  }

  lemma {:induction false} HeadersStep(k: nat)
    requires k > 0
    ensures var s := Headers(k); |s| >= 5 && s[0] == TAG_LIST && s[1..5] == [0, 0, 0, 1] && s[5..] == Headers(k - 1)
  {
  }

  lemma {:induction false} ListIsFault(s: Bytes)
    requires WalkList(s, 5) == Fault
    ensures WalkPayload(TAG_LIST, s, 5) == Fault
  {
  }

  /** There is no bound on how far outside it reads: with a limit of 8 bytes the walker runs through
      any number of list headers behind them, and wants more. */
  lemma {:induction false} OverreadIsUnbounded(k: nat)
    ensures |Headers(k)| == 5 * k && WalkNbt([TAG_LIST, 0, 0] + Headers(k + 1), 8) == Fault
  {
    HeadersLength(k);
    HeadersRunOut(k + 1);
    Zeros();
    var h := Headers(k + 1);
    hide FromBE, Headers, WalkPayload;
    var s := [TAG_LIST, 0, 0] + h;
    assert s[1..][..2] == [0, 0] && s[1..][2..] == h;
    assert WalkString(s[1..], 7) == Ok(2) && Drop(s[1..], 2) == h;
  }

  lemma {:induction false} HeadersLength(k: nat)
    ensures |Headers(k)| == 5 * k
  {
    if k > 0 { HeadersLength(k - 1); }
  }
}
