/** The language that `sdssplitargs` of src/sds.c accepts, written down as a grammar of its own:
    what a line is made of, what it means, and what makes it wrong. */
module SdsGrammar {
  import opened Bits
  import opened Wrappers
  import Q = SdsQuote

  type Bytes = seq<byte>

  // Every character is given by its ASCII code.

  predicate Blank(b: byte) { b == 32 || 9 <= b <= 13 }

  /** The blanks that end an unquoted word; the other two, 11 and 12, are part of it. */
  predicate Stop(b: byte) { b == 32 || b == 9 || b == 10 || b == 13 }

  predicate Hex(b: byte) { 48 <= b <= 57 || 65 <= b <= 70 || 97 <= b <= 102 }

  function HexValue(b: byte): nat
    requires Hex(b)
  {
    if b <= 57 then b - 48 else if b <= 70 then b - 55 else b - 87
  }

  datatype Quote = Double | Single

  function Mark(q: Quote): byte { if q == Double then 34 else 39 }

  /** Inside quotes: a character as it is, a backslash and a character, a byte in hex, and, in
      single quotes, an escaped apostrophe. */
  datatype Piece = Raw(c: byte) | Esc(c: byte) | Byte(hi: byte, lo: byte) | Apos

  function PieceText(p: Piece): Bytes {
    match p
    case Raw(c) => [c]
    case Esc(c) => [92, c]
    case Byte(hi, lo) => [92, 120, hi, lo]
    case Apos => [92, 39]
  }

  function PieceValue(p: Piece): byte {
    match p
    case Raw(c) => c
    case Esc(c) =>
      if c == 110 then 10 else if c == 114 then 13 else if c == 116 then 9
      else if c == 98 then 8 else if c == 97 then 7 else c
    case Byte(hi, lo) => if Hex(hi) && Hex(lo) then 16 * HexValue(hi) + HexValue(lo) else 0
    case Apos => 39
  }

  /** Whether p is read as such in quotes q when `next` follows it. */
  predicate PieceOk(q: Quote, p: Piece, next: Bytes) {
    match p
    case Raw(c) =>
      if q == Double then c != 0 && c != 34 && c != 92
      else c != 0 && c != 39 && !(c == 92 && next != [] && next[0] == 39)
    case Esc(c) => q == Double && c != 0 && !(c == 120 && |next| >= 2 && Hex(next[0]) && Hex(next[1]))
    case Byte(hi, lo) => q == Double && Hex(hi) && Hex(lo)
    case Apos => q == Single
  }

  function Text(ps: seq<Piece>): Bytes { if ps == [] then [] else PieceText(ps[0]) + Text(ps[1..]) }

  function Value(ps: seq<Piece>): Bytes { if ps == [] then [] else [PieceValue(ps[0])] + Value(ps[1..]) }

  predicate PiecesOk(q: Quote, ps: seq<Piece>, after: Bytes) {
    ps == [] || (PieceOk(q, ps[0], Text(ps[1..]) + after) && PiecesOk(q, ps[1..], after))
  }

  /** Text outside quotes. */
  predicate PlainOk(p: Bytes) {
    forall i :: 0 <= i < |p| ==> p[i] != 0 && !Stop(p[i]) && p[i] != 34 && p[i] != 39
  }

  /** An argument: unquoted text, which a quoted part may end. */
  datatype Arg = Bare(plain: Bytes) | Closed(plain: Bytes, q: Quote, ps: seq<Piece>)

  function ArgText(a: Arg): Bytes {
    match a
    case Bare(plain) => plain
    case Closed(plain, q, ps) => plain + ([Mark(q)] + (Text(ps) + [Mark(q)]))
  }

  function ArgValue(a: Arg): Bytes {
    match a
    case Bare(plain) => plain
    case Closed(plain, q, ps) => plain + Value(ps)
  }

  /** Whether a is read as one argument when `post` follows it. */
  predicate ArgOk(a: Arg, post: Bytes) {
    && PlainOk(a.plain) && (a.plain != [] ==> !Blank(a.plain[0]))
    && match a
       case Bare(plain) => plain != [] && (post == [] || Stop(post[0]))
       case Closed(_, q, ps) => PiecesOk(q, ps, [Mark(q)] + post) && (post == [] || Blank(post[0]))
  }

  predicate Blanks(s: Bytes) { forall i :: 0 <= i < |s| ==> Blank(s[i]) }

  /** Arguments, each with the blanks in front of it. */
  datatype Item = Item(blanks: Bytes, arg: Arg)

  function LineText(items: seq<Item>, end: Bytes): Bytes {
    if items == [] then end else items[0].blanks + (ArgText(items[0].arg) + LineText(items[1..], end))
  }

  predicate ItemsOk(items: seq<Item>, end: Bytes) {
    items == [] ||
    (Blanks(items[0].blanks) && ArgOk(items[0].arg, LineText(items[1..], end)) && ItemsOk(items[1..], end))
  }

  function Values(items: seq<Item>): seq<Bytes> {
    if items == [] then [] else [ArgValue(items[0].arg)] + Values(items[1..])
  }

  /** How a line can go wrong: an argument whose quotes are never closed, be it with a last
      backslash on its own, or whose closing quote runs into more text. */
  datatype Break = Break(blanks: Bytes, plain: Bytes, q: Quote, ps: seq<Piece>, tail: Bytes)

  function BreakText(b: Break): Bytes {
    b.blanks + (b.plain + ([Mark(b.q)] + (Text(b.ps) + b.tail)))
  }

  predicate BreakOk(b: Break) {
    && Blanks(b.blanks) && PlainOk(b.plain) && (b.plain != [] ==> !Blank(b.plain[0]))
    && PiecesOk(b.q, b.ps, b.tail)
    && (|| b.tail == [] || (b.q == Double && b.tail == [92])
        || (|b.tail| >= 2 && b.tail[0] == Mark(b.q) && b.tail[1] != 0 && !Blank(b.tail[1])))
  }

  // ------------------------------------------------------------ the scanner reads the grammar

  function ModeOf(q: Quote): Q.Mode { if q == Double then Q.Quoted else Q.SingleQuoted }

  lemma {:induction false} ScanPiece(q: Quote, p: Piece, next: Bytes, cur: Bytes)
    requires PieceOk(q, p, next)
    ensures Q.Scan(PieceText(p) + next, ModeOf(q), cur) == Q.Scan(next, ModeOf(q), cur + [PieceValue(p)])
  {
    var s := PieceText(p) + next;
    match p {
      case Raw(c) => { assert s[1..] == next; }
      case Esc(c) => { assert s[2..] == next; }
      case Byte(hi, lo) => { assert s[4..] == next; }
      case Apos => { assert s[2..] == next; }
    }
  }

  lemma {:induction false} ScanPieces(q: Quote, ps: seq<Piece>, after: Bytes, cur: Bytes)
    requires PiecesOk(q, ps, after)
    ensures Q.Scan(Text(ps) + after, ModeOf(q), cur) == Q.Scan(after, ModeOf(q), cur + Value(ps))
  {
    hide Q.Scan, PieceOk, PieceText, PieceValue;
    if ps == [] {
      assert Text(ps) + after == after && cur + Value(ps) == cur;
    } else {
      var next := Text(ps[1..]) + after;
      assert Text(ps) + after == PieceText(ps[0]) + next;
      ScanPiece(q, ps[0], next, cur);
      ScanPieces(q, ps[1..], after, cur + [PieceValue(ps[0])]);
      assert cur + [PieceValue(ps[0])] + Value(ps[1..]) == cur + Value(ps);
    }
  }

  lemma {:induction false} ScanPlain(p: Bytes, next: Bytes, cur: Bytes)
    requires PlainOk(p)
    ensures Q.Scan(p + next, Q.Plain, cur) == Q.Scan(next, Q.Plain, cur + p)
  {
    if p == [] {
      assert p + next == next && cur + p == cur;
    } else {
      assert (p + next)[1..] == p[1..] + next;
      assert PlainOk(p[1..]);
      ScanPlain(p[1..], next, cur + [p[0]]);
      assert cur + [p[0]] + p[1..] == cur + p;
    }
  }

  lemma {:induction false} ScanMark(q: Quote, next: Bytes, cur: Bytes)
    ensures Q.Scan([Mark(q)] + next, Q.Plain, cur) == Q.Scan(next, ModeOf(q), cur)
  {
    assert ([Mark(q)] + next)[1..] == next;
  }

  /** From the start of an argument to what follows its opening quote and pieces. */
  lemma {:induction false} ScanQuoted(plain: Bytes, q: Quote, ps: seq<Piece>, tail: Bytes)
    requires PlainOk(plain) && PiecesOk(q, ps, tail)
    ensures Q.Scan(plain + ([Mark(q)] + (Text(ps) + tail)), Q.Plain, []) == Q.Scan(tail, ModeOf(q), plain + Value(ps))
  {
    hide Q.Scan, PlainOk, PiecesOk;
    ScanPlain(plain, [Mark(q)] + (Text(ps) + tail), []);
    assert [] + plain == plain;
    ScanMark(q, Text(ps) + tail, plain);
    ScanPieces(q, ps, tail, plain);
  }

  lemma {:induction false} ScanArg(a: Arg, post: Bytes)
    requires ArgOk(a, post)
    ensures var t := Q.Scan(ArgText(a) + post, Q.Plain, []);
      t.Token? && t.text == ArgValue(a) && Q.Split(t.rest) == Q.Split(post)
  {
    match a {
      case Bare(plain) => {
        ScanPlain(plain, post, []);
        assert [] + plain == plain;
        hide PlainOk;
        BlankFirst(post);
      }
      case Closed(plain, q, ps) => {
        var tail := [Mark(q)] + post;
        assert ArgText(a) + post == plain + ([Mark(q)] + (Text(ps) + tail));
        ScanQuoted(plain, q, ps, tail);
        hide PlainOk, PiecesOk, Text, Value;
        assert tail[1..] == post;
      }
    }
  }

  lemma {:induction false} BlankFirst(post: Bytes)
    requires post != [] ==> Blank(post[0])
    ensures post != [] ==> Q.Split(post[1..]) == Q.Split(post)
  {
  }

  lemma {:induction false} SkipAll(blanks: Bytes, s: Bytes)
    requires Blanks(blanks) && (s == [] || !Blank(s[0]))
    ensures Q.SkipBlanks(blanks + s) == s
  {
    if blanks == [] {
      assert blanks + s == s;
    } else {
      assert (blanks + s)[1..] == blanks[1..] + s;
      SkipAll(blanks[1..], s);
    }
  }

  lemma {:induction false} ArgStarts(a: Arg, post: Bytes)
    requires ArgOk(a, post)
    ensures var s := ArgText(a) + post; s != [] && !Blank(s[0]) && s[0] != 0
  {
    if a.plain != [] { assert (ArgText(a) + post)[0] == a.plain[0]; }
  }

  lemma {:induction false} SplitItem(item: Item, post: Bytes)
    requires Blanks(item.blanks) && ArgOk(item.arg, post)
    ensures Q.Split(item.blanks + (ArgText(item.arg) + post)) ==
      match Q.Split(post) case None => None case Some(more) => Some([ArgValue(item.arg)] + more)
  {
    ArgStarts(item.arg, post);
    SkipAll(item.blanks, ArgText(item.arg) + post);
    ScanArg(item.arg, post);
    hide ArgOk, ArgText, ArgValue, Blanks, Q.Scan;
  }

  lemma {:induction false} SplitItems(items: seq<Item>, end: Bytes)
    requires ItemsOk(items, end)
    ensures Q.Split(LineText(items, end)) ==
      match Q.Split(end) case None => None case Some(more) => Some(Values(items) + more)
  {
    hide Q.Split, ArgOk, ArgText, ArgValue;
    if items == [] {
      if Q.Split(end).Some? { assert [] + Q.Split(end).value == Q.Split(end).value; }
    } else {
      SplitItems(items[1..], end);
      SplitItem(items[0], LineText(items[1..], end));
      if Q.Split(end).Some? {
        var more := Q.Split(end).value;
        assert [ArgValue(items[0].arg)] + (Values(items[1..]) + more) == Values(items) + more;
      }
    }
  }

  lemma {:induction false} SplitBlanks(end: Bytes)
    requires Blanks(end)
    ensures Q.Split(end) == Some([])
  {
    SkipAll(end, []);
    assert end + [] == end;
  }

  /** Every line of the grammar is split into the values of its arguments. */
  lemma {:induction false} GrammarIsRead(items: seq<Item>, end: Bytes)
    requires ItemsOk(items, end) && Blanks(end)
    ensures Q.Split(LineText(items, end)) == Some(Values(items))
  {
    hide Q.Split, ItemsOk, LineText, Values;
    SplitBlanks(end);
    SplitItems(items, end);
    assert Values(items) + [] == Values(items);
  }

  lemma {:induction false} BreakIsRejected(b: Break)
    requires BreakOk(b)
    ensures Q.Split(BreakText(b)) == None
  {
    var s := b.plain + ([Mark(b.q)] + (Text(b.ps) + b.tail));
    if b.plain != [] { assert s[0] == b.plain[0]; }
    SkipAll(b.blanks, s);
    ScanQuoted(b.plain, b.q, b.ps, b.tail);
    hide PlainOk, PiecesOk, Text, Value, Blanks;
    TailIsBad(b.q, b.tail, b.plain + Value(b.ps));
    hide Q.Scan;
  }

  lemma {:induction false} TailIsBad(q: Quote, tail: Bytes, cur: Bytes)
    requires || tail == [] || (q == Double && tail == [92])
             || (|tail| >= 2 && tail[0] == Mark(q) && tail[1] != 0 && !Blank(tail[1]))
    ensures Q.Scan(tail, ModeOf(q), cur) == Q.Bad
  {
    if tail == [92] && q == Double { assert tail[1..] == []; assert Q.Scan([], ModeOf(q), cur + [92]) == Q.Bad; }
  }

  // --------------------------------------------------- every line is in the grammar or broken

  lemma {:induction false} ReadBlanks(s: Bytes) returns (blanks: Bytes)
    ensures Blanks(blanks) && s == blanks + Q.SkipBlanks(s)
    ensures Q.SkipBlanks(s) != [] ==> !Blank(Q.SkipBlanks(s)[0])
  {
    blanks := [];
    if s != [] && Blank(s[0]) {
      var more := ReadBlanks(s[1..]);
      blanks := [s[0]] + more;
      assert s == [s[0]] + s[1..];
    }
  }

  /** The unquoted text s starts with. */
  lemma {:induction false} ReadPlain(s: Bytes) returns (plain: Bytes, next: Bytes)
    requires 0 !in s
    ensures s == plain + next && PlainOk(plain)
    ensures next == [] || Stop(next[0]) || next[0] == 34 || next[0] == 39
  {
    if s == [] || Stop(s[0]) || s[0] == 34 || s[0] == 39 {
      plain, next := [], s;
    } else {
      var p;
      p, next := ReadPlain(s[1..]);
      plain := [s[0]] + p;
      assert s == [s[0]] + s[1..];
    }
  }

  /** The pieces s starts with, up to the closing quote or to where they run out. */
  lemma {:induction false} ReadPieces(q: Quote, s: Bytes) returns (ps: seq<Piece>, tail: Bytes)
    requires 0 !in s
    ensures s == Text(ps) + tail && PiecesOk(q, ps, tail)
    ensures tail == [] || (q == Double && tail == [92]) || tail[0] == Mark(q)
    decreases |s|
  {
    if s == [] || s[0] == Mark(q) || (q == Double && s == [92]) {
      ps, tail := [], s;
    } else {
      var p := FirstPiece(q, s);
      var n := |PieceText(p)|;
      var more;
      assert s == PieceText(p) + s[n..];
      more, tail := ReadPieces(q, s[n..]);
      ps := [p] + more;
      OneMore(q, p, more, tail);
      hide PieceOk, PieceText, Text, PiecesOk;
    }
  }

  lemma {:induction false} OneMore(q: Quote, p: Piece, more: seq<Piece>, tail: Bytes)
    requires PieceOk(q, p, Text(more) + tail) && PiecesOk(q, more, tail)
    ensures PiecesOk(q, [p] + more, tail) && Text([p] + more) + tail == PieceText(p) + (Text(more) + tail)
  {
    hide PieceOk, PieceText;
    assert ([p] + more)[1..] == more;
  }

  function FirstPiece(q: Quote, s: Bytes): (p: Piece)
    requires s != [] && 0 !in s && s[0] != Mark(q) && !(q == Double && s == [92])
    ensures PieceText(p) <= s && PieceText(p) != [] && PieceOk(q, p, s[|PieceText(p)|..])
  {
    if q == Single then
      if s[0] == 92 && |s| >= 2 && s[1] == 39 then Apos else Raw(s[0])
    else if s[0] != 92 then Raw(s[0])
    else if |s| >= 4 && s[1] == 120 && Hex(s[2]) && Hex(s[3]) then Byte(s[2], s[3])
    else Esc(s[1])
  }

  /** What a NUL-free text that does not start with a blank starts with. */
  datatype Start = Whole(a: Arg, post: Bytes) | Broken(b: Break)

  lemma {:induction false} ReadArg(s: Bytes) returns (r: Start)
    requires s != [] && 0 !in s && !Blank(s[0])
    ensures match r
      case Whole(a, post) => s == ArgText(a) + post && ArgOk(a, post)
      case Broken(b) => b.blanks == [] && s == BreakText(b) && BreakOk(b)
  {
    var plain, next := ReadPlain(s);
    if plain != [] { assert s[0] == plain[0]; }
    if next == [] || Stop(next[0]) {
      r := Whole(Bare(plain), next);
    } else {
      r := ReadRest(plain, next);
    }
  }

  lemma {:induction false} ReadRest(plain: Bytes, next: Bytes) returns (r: Start)
    requires PlainOk(plain) && (plain != [] ==> !Blank(plain[0])) && 0 !in next && next != [] && (next[0] == 34 || next[0] == 39)
    ensures match r
      case Whole(a, post) => plain + next == ArgText(a) + post && ArgOk(a, post)
      case Broken(b) => b.blanks == [] && plain + next == BreakText(b) && BreakOk(b)
  {
    var q := if next[0] == 34 then Double else Single;
    var ps, tail := ReadPieces(q, next[1..]);
    hide PlainOk, PiecesOk, Text;
    assert next == [Mark(q)] + (Text(ps) + tail);
    if tail != [] && tail[0] == Mark(q) && (|tail| == 1 || Blank(tail[1])) {
      var post := tail[1..];
      assert tail == [Mark(q)] + post;
      r := Whole(Closed(plain, q, ps), post);
      ClosedText(plain, q, Text(ps), post);
    } else {
      NoNul(next, ps, tail, q);
      r := Broken(Break([], plain, q, ps, tail));
      BrokenText(plain + next);
    }
  }

  lemma {:induction false} ClosedText(plain: Bytes, q: Quote, t: Bytes, post: Bytes)
    ensures plain + ([Mark(q)] + (t + ([Mark(q)] + post))) == plain + ([Mark(q)] + (t + [Mark(q)])) + post
  {
  }

  lemma {:induction false} BrokenText(s: Bytes)
    ensures [] + s == s
  {
  }

  lemma {:induction false} NoNul(next: Bytes, ps: seq<Piece>, tail: Bytes, q: Quote)
    requires 0 !in next && next == [Mark(q)] + (Text(ps) + tail)
    ensures 0 !in tail
  {
    var n := |next| - |tail|;
    assert next[n..] == tail;
  }

  /** Every line: arguments, and then blanks or one that is broken. */
  lemma {:induction false} ReadLine(s: Bytes) returns (items: seq<Item>, end: Bytes, bad: seq<Break>)
    requires 0 !in s
    ensures s == LineText(items, end) && ItemsOk(items, end)
    ensures if bad == [] then Blanks(end) else |bad| == 1 && end == BreakText(bad[0]) && BreakOk(bad[0])
    decreases |s|
  {
    var blanks := ReadBlanks(s);
    var r := Q.SkipBlanks(s);
    if r == [] {
      items, end, bad := [], s, [];
      assert blanks + [] == blanks;
    } else {
      Suffix(s, blanks, r);
      var start := ReadArg(r);
      hide ArgOk, ArgText, BreakOk, Blanks, Q.SkipBlanks;
      match start {
        case Whole(a, post) => {
          Shorter(r, a, post);
          Suffix(r, ArgText(a), post);
          items, end, bad := ReadLine(post);
          items := [Item(blanks, a)] + items;
        }
        case Broken(b) => {
          var b' := b.(blanks := blanks);
          Reblank(b, blanks);
          items, end, bad := [], s, [b'];
        }
      }
    }
  }

  lemma {:induction false} Suffix(s: Bytes, a: Bytes, b: Bytes)
    requires s == a + b && 0 !in s
    ensures 0 !in b && |b| <= |s|
  {
    assert s[|a|..] == b;
  }

  lemma {:induction false} Shorter(s: Bytes, a: Arg, post: Bytes)
    requires s == ArgText(a) + post && ArgOk(a, post)
    ensures |post| < |s|
  {
  }

  lemma {:induction false} Reblank(b: Break, blanks: Bytes)
    requires BreakOk(b) && b.blanks == [] && Blanks(blanks)
    ensures BreakOk(b.(blanks := blanks)) && BreakText(b.(blanks := blanks)) == blanks + BreakText(b)
  {
    var s := b.plain + ([Mark(b.q)] + (Text(b.ps) + b.tail));
    assert [] + s == s;
  }

  /** The result is a list of arguments if and only if the line is arguments and blanks, and then
      it is their values. */
  lemma {:induction false} SplitsIff(s: Bytes, out: seq<Bytes>)
    requires 0 !in s
    ensures Q.Split(s) == Some(out) <==>
      exists items, end :: s == LineText(items, end) && ItemsOk(items, end) && Blanks(end) && out == Values(items)
  {
    hide Q.Split, ItemsOk, LineText, Values, Blanks, BreakOk, BreakText;
    if items, end :| s == LineText(items, end) && ItemsOk(items, end) && Blanks(end) && out == Values(items) {
      GrammarIsRead(items, end);
    }
    if Q.Split(s) == Some(out) {
      var items, end, bad := ReadLine(s);
      if bad != [] {
        BreakIsRejected(bad[0]);
        SplitItems(items, end);
      } else {
        GrammarIsRead(items, end);
      }
    }
  }

  /** NULL is returned if and only if, after some arguments, a quote is never closed or a closing
      quote is followed by neither a blank nor the end. */
  lemma {:induction false} RejectsIff(s: Bytes)
    requires 0 !in s
    ensures Q.Split(s) == None <==>
      exists items, b :: s == LineText(items, BreakText(b)) && ItemsOk(items, BreakText(b)) && BreakOk(b)
  {
    hide Q.Split, ItemsOk, LineText, Values, Blanks, BreakOk, BreakText;
    if items, b :| s == LineText(items, BreakText(b)) && ItemsOk(items, BreakText(b)) && BreakOk(b) {
      BreakIsRejected(b);
      SplitItems(items, BreakText(b));
    }
    if Q.Split(s) == None {
      var items, end, bad := ReadLine(s);
      if bad == [] { GrammarIsRead(items, end); }
    }
  }

  // ------------------------------------------------------------------- in particular

  /** Words without blanks, quotes or NUL, separated by single spaces. */
  function Words(ws: seq<Bytes>): Bytes {
    if ws == [] then [] else if |ws| == 1 then ws[0] else ws[0] + ([32] + Words(ws[1..]))
  }

  predicate Word(w: Bytes) {
    w != [] && PlainOk(w) && forall i :: 0 <= i < |w| ==> !Blank(w[i])
  }

  /** ... come back as they are. */
  lemma {:induction false} WordsComeBack(ws: seq<Bytes>)
    requires forall i :: 0 <= i < |ws| ==> Word(ws[i])
    ensures Q.Split(Words(ws)) == Some(ws)
  {
    hide Q.Split;
    if ws == [] {
      SplitBlanks([]);
    } else {
      assert Word(ws[0]);
      var post := if |ws| == 1 then [] else [32] + Words(ws[1..]);
      SplitItem(Item([], Bare(ws[0])), post);
      assert [] + (ws[0] + post) == ws[0] + post;
      if |ws| == 1 {
        SplitBlanks([]);
        var none: seq<Bytes> := [];
        assert ws[0] + [] == ws[0] && [ws[0]] + none == ws;
      } else {
        WordsComeBack(ws[1..]);
        BlankFirst(post);
        assert post[1..] == Words(ws[1..]);
        assert [ws[0]] + ws[1..] == ws;
      }
    }
  }

  /** p in single quotes, every apostrophe escaped. */
  function InApostrophes(p: Bytes): seq<Piece> {
    if p == [] then [] else [if p[0] == 39 then Apos else Raw(p[0])] + InApostrophes(p[1..])
  }

  lemma {:induction false} ApostrophesOk(p: Bytes, after: Bytes)
    requires 0 !in p && after != [] && (p == [] || p[|p| - 1] != 92 || after[0] != 39)
    ensures Value(InApostrophes(p)) == p && PiecesOk(Single, InApostrophes(p), after)
  {
    if p != [] {
      ApostrophesOk(p[1..], after);
      if |p| > 1 {
        assert (Text(InApostrophes(p[1..])) + after)[0] == if p[1] == 39 then 92 else p[1];
      }
    }
  }

  lemma {:induction false} ApostrophesLast(p: Bytes)
    requires p != [] && p[|p| - 1] == 92
    ensures Text(InApostrophes(p)) == Text(InApostrophes(p[..|p| - 1])) + [92]
  {
    if |p| > 1 {
      assert p[1..][..|p| - 2] == p[..|p| - 1][1..];
      ApostrophesLast(p[1..]);
    } else {
      assert p[..0] == [] && InApostrophes(p[1..]) == [];
    }
  }

  /** ... reads back as p, if and only if p does not end in a backslash. */
  lemma {:induction false} SingleQuotesComeBackIff(p: Bytes)
    requires 0 !in p
    ensures Q.Split([39] + (Text(InApostrophes(p)) + [39])) == Some([p]) <==> p == [] || p[|p| - 1] != 92
  {
    var s := [39] + (Text(InApostrophes(p)) + [39]);
    if p == [] || p[|p| - 1] != 92 {
      ApostrophesOk(p, [39]);
      var a := Closed([], Single, InApostrophes(p));
      SplitBlanks([]);
      assert [Mark(Single)] + [] == [39];
      SplitItem(Item([], a), []);
      hide Q.Split, Text, Value;
      var none: seq<Bytes> := [];
      assert [] + s == s && s + [] == s && [] + p == p && [p] + none == [p];
    } else {
      var p0 := p[..|p| - 1];
      ApostrophesLast(p);
      ApostrophesOk(p0, [92, 39]);
      LastApostrophe(InApostrophes(p0));
      hide Q.Split, Text, Value;
      assert s == [39] + (Text(InApostrophes(p0)) + [92, 39]);
    }
  }

  lemma {:induction false} LastApostrophe(ps: seq<Piece>)
    requires PiecesOk(Single, ps, [92, 39])
    ensures Q.Split([39] + (Text(ps) + [92, 39])) == None
  {
    var s := [39] + (Text(ps) + [92, 39]);
    ScanQuoted([], Single, ps, [92, 39]);
    assert [] + s == s && [92, 39][2..] == [];
    assert Q.Scan([], Q.SingleQuoted, [] + Value(ps) + [39]) == Q.Bad;
    assert Q.Scan([92, 39], Q.SingleQuoted, [] + Value(ps)) == Q.Bad;
    assert Q.SkipBlanks(s) == s;
    hide Q.Scan, Text, Value, PiecesOk;
  }

  /** In double quotes a backslash before any character but n, r, t, b, a, x and NUL gives that
      character, and `\xHH` gives the byte, in either case of the digits. */
  lemma {:induction false} EscapesComeBack(c: byte, hi: byte, lo: byte)
    requires Hex(hi) && Hex(lo)
    ensures c != 0 && c != 110 && c != 114 && c != 116 && c != 98 && c != 97 && c != 120 ==> Q.Split([34, 92, c, 34]) == Some([[c]])
    ensures Q.Split([34, 92, 120, hi, lo, 34]) == Some([[16 * HexValue(hi) + HexValue(lo)]])
  {
    if c != 0 && c != 110 && c != 114 && c != 116 && c != 98 && c != 97 && c != 120 { OnePiece(Esc(c)); }
    OnePiece(Byte(hi, lo));
    assert [34] + (PieceText(Byte(hi, lo)) + [34]) == [34, 92, 120, hi, lo, 34];
    assert [34] + (PieceText(Esc(c)) + [34]) == [34, 92, c, 34];
    hide Q.Split;
  }

  lemma {:induction false} OnePiece(p: Piece)
    requires PieceOk(Double, p, [34])
    ensures Q.Split([34] + (PieceText(p) + [34])) == Some([[PieceValue(p)]])
  {
    var ps: seq<Piece>, none: seq<Piece> := [p], [];
    assert ps[1..] == none && Text(none) == [] && Value(none) == [] && [] + [34] == [34];
    assert Text(ps) == PieceText(p) + [] && PieceText(p) + [] == PieceText(p) && Value(ps) == [PieceValue(p)];
    assert PiecesOk(Double, ps, [34]);
    SplitBlanks([]);
    var s := [34] + (PieceText(p) + [34]);
    assert [Mark(Double)] + [] == [34];
    SplitItem(Item([], Closed([], Double, ps)), []);
    hide Q.Split, PieceText, PieceValue;
    var nobody: seq<Bytes> := [];
    assert [] + s == s && s + [] == s && [[PieceValue(p)]] + nobody == [[PieceValue(p)]] && [] + [PieceValue(p)] == [PieceValue(p)];
  }

  /** What `sdscatrepr` prints for each byte, in ASCII codes. */
  lemma {:induction false} EscapeTable(b: byte)
    ensures Q.Escape(b) ==
      if b == 34 || b == 92 then [92, b]
      else if b == 10 then [92, 110] else if b == 13 then [92, 114] else if b == 9 then [92, 116]
      else if b == 7 then [92, 97] else if b == 8 then [92, 98]
      else if 32 <= b <= 126 then [b]
      else [92, 120, LowerHex(b / 16), LowerHex(b % 16)]
    ensures forall i :: 0 <= i < |Q.Escape(b)| ==> 32 <= Q.Escape(b)[i] <= 126
  {
  }

  function LowerHex(n: nat): (d: byte)
    requires n < 16
    ensures Hex(d) && HexValue(d) == n
  {
    [48, 49, 50, 51, 52, 53, 54, 55, 56, 57, 97, 98, 99, 100, 101, 102][n]
  }
}
