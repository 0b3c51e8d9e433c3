/** The quoting printer `sdscatrepr` and the argument splitter `sdssplitargs` of src/sds.c.
    Bytes are printable as in ASCII; a line is a C string, so it holds no NUL. */
module SdsQuote {
  import opened Bits
  import opened Wrappers

  type Bytes = seq<byte>

  const BELL: byte := 7
  const BACKSPACE: byte := 8
  const TAB: byte := 9
  const NEWLINE: byte := 10
  const RETURN: byte := 13
  const SPACE: byte := 32
  const QUOTE: byte := 34
  const APOSTROPHE: byte := 39
  const BACKSLASH: byte := 92

  function Ord(c: char): byte
    requires c < 256 as char
  {
    c as int
  }

  predicate IsPrint(b: byte) { 32 <= b < 127 }

  predicate IsSpace(b: byte) { b == SPACE || 9 <= b <= 13 }

  predicate IsHexDigit(b: byte) {
    Ord('0') <= b <= Ord('9') || Ord('a') <= b <= Ord('f') || Ord('A') <= b <= Ord('F')
  }

  function HexDigitToInt(b: byte): nat {
    if Ord('0') <= b <= Ord('9') then b - Ord('0')
    else if Ord('a') <= b <= Ord('f') then b - Ord('a') + 10
    else if Ord('A') <= b <= Ord('F') then b - Ord('A') + 10
    else 0
  }

  /** One digit of `%02x`. */
  function HexDigit(n: nat): byte
    requires n < 16
  {
    if n < 10 then Ord('0') + n else Ord('a') + n - 10
  }

  // ----------------------------------------------------------------- printing

  function Escape(b: byte): Bytes {
    if b == BACKSLASH || b == QUOTE then [BACKSLASH, b]
    else if b == NEWLINE then [BACKSLASH, Ord('n')]
    else if b == RETURN then [BACKSLASH, Ord('r')]
    else if b == TAB then [BACKSLASH, Ord('t')]
    else if b == BELL then [BACKSLASH, Ord('a')]
    else if b == BACKSPACE then [BACKSLASH, Ord('b')]
    else if IsPrint(b) then [b]
    else [BACKSLASH, Ord('x'), HexDigit(b / 16), HexDigit(b % 16)]
  }

  function EscapeAll(p: Bytes): Bytes {
    if p == [] then [] else Escape(p[0]) + EscapeAll(p[1..])
  }

  function Repr(p: Bytes): Bytes {
    [QUOTE] + EscapeAll(p) + [QUOTE]
  }

  // ---------------------------------------------------------------- splitting

  datatype Mode = Plain | Quoted | SingleQuoted

  /** The byte k places after the cursor; the terminating NUL beyond the end. */
  function At(s: Bytes, k: nat): byte {
    if k < |s| then s[k] else 0
  }

  function Unescape(b: byte): byte {
    if b == Ord('n') then NEWLINE
    else if b == Ord('r') then RETURN
    else if b == Ord('t') then TAB
    else if b == Ord('b') then BACKSPACE
    else if b == Ord('a') then BELL
    else b
  }

  datatype Token = Bad | Token(text: Bytes, rest: Bytes)

  /** A closing quote must be followed by a space or nothing at all. */
  function Close(s: Bytes, cur: Bytes): Token
    requires s != []
  {
    if At(s, 1) != 0 && !IsSpace(At(s, 1)) then Bad else Token(cur, s[1..])
  }

  /** The token loop, with `cur` read so far. */
  function Scan(s: Bytes, mode: Mode, cur: Bytes): Token
    decreases |s|
  {
    match mode
    case Quoted =>
      if s == [] || s[0] == 0 then Bad
      else if s[0] == BACKSLASH && At(s, 1) == Ord('x') && IsHexDigit(At(s, 2)) && IsHexDigit(At(s, 3)) then
        Scan(s[4..], Quoted, cur + [HexDigitToInt(s[2]) * 16 + HexDigitToInt(s[3])])
      else if s[0] == BACKSLASH && At(s, 1) != 0 then Scan(s[2..], Quoted, cur + [Unescape(s[1])])
      else if s[0] == QUOTE then Close(s, cur)
      else Scan(s[1..], Quoted, cur + [s[0]])
    case SingleQuoted =>
      if s == [] || s[0] == 0 then Bad
      else if s[0] == BACKSLASH && At(s, 1) == APOSTROPHE then Scan(s[2..], SingleQuoted, cur + [APOSTROPHE])
      else if s[0] == APOSTROPHE then Close(s, cur)
      else Scan(s[1..], SingleQuoted, cur + [s[0]])
    case Plain =>
      if s == [] || s[0] == 0 then Token(cur, s)
      else if s[0] == SPACE || s[0] == NEWLINE || s[0] == RETURN || s[0] == TAB then Token(cur, s[1..])
      else if s[0] == QUOTE then Scan(s[1..], Quoted, cur)
      else if s[0] == APOSTROPHE then Scan(s[1..], SingleQuoted, cur)
      else Scan(s[1..], Plain, cur + [s[0]])
  }

  function SkipBlanks(s: Bytes): (r: Bytes)
    ensures |r| <= |s| && (r != [] ==> !IsSpace(r[0]))
  {
    if s != [] && IsSpace(s[0]) then SkipBlanks(s[1..]) else s
  }

  lemma {:induction false} ScanShrinks(s: Bytes, mode: Mode, cur: Bytes)
    ensures Scan(s, mode, cur).Token? ==> |Scan(s, mode, cur).rest| <= |s|
    ensures Scan(s, mode, cur).Token? && s != [] && s[0] != 0 ==> |Scan(s, mode, cur).rest| < |s|
    decreases |s|
  {
    if s != [] && s[0] != 0 {
      match mode
      case Quoted =>
        if s[0] == BACKSLASH && At(s, 1) == Ord('x') && IsHexDigit(At(s, 2)) && IsHexDigit(At(s, 3)) {
          ScanShrinks(s[4..], Quoted, cur + [HexDigitToInt(s[2]) * 16 + HexDigitToInt(s[3])]);
        } else if s[0] == BACKSLASH && At(s, 1) != 0 {
          ScanShrinks(s[2..], Quoted, cur + [Unescape(s[1])]);
        } else {
          ScanShrinks(s[1..], Quoted, cur + [s[0]]);
        }
      case SingleQuoted =>
        if s[0] == BACKSLASH && At(s, 1) == APOSTROPHE {
          ScanShrinks(s[2..], SingleQuoted, cur + [APOSTROPHE]);
        } else {
          ScanShrinks(s[1..], SingleQuoted, cur + [s[0]]);
        }
      case Plain =>
        ScanShrinks(s[1..], Quoted, cur);
        ScanShrinks(s[1..], SingleQuoted, cur);
        ScanShrinks(s[1..], Plain, cur + [s[0]]);
    }
  }

  /** `sdssplitargs`: the arguments, or nothing on unbalanced quotes or a closing quote that
      runs into more text. */
  function Split(s: Bytes): Option<seq<Bytes>>
    decreases |s|
  {
    var r := SkipBlanks(s);
    if r == [] || r[0] == 0 then Some([])
    else
      ScanShrinks(r, Plain, []);
      match Scan(r, Plain, [])
      case Bad => None
      case Token(text, rest) =>
        match Split(rest)
        case None => None
        case Some(more) => Some([text] + more)
  }

  // ---------------------------------------------------------------- round trip

  /** The scanner undoes one escape, whatever the byte. */
  lemma {:induction false} ScanEscape(b: byte, t: Bytes, cur: Bytes)
    ensures Scan(Escape(b) + t, Quoted, cur) == Scan(t, Quoted, cur + [b])
  {
    var s := Escape(b) + t;
    if |Escape(b)| == 1 {
      assert s[1..] == t;
    } else if |Escape(b)| == 2 {
      assert s[2..] == t;
    } else {
      assert s[4..] == t;
      assert HexDigitToInt(s[2]) == b / 16 && HexDigitToInt(s[3]) == b % 16;
    }
  }

  lemma {:induction false} ScanClose(post: Bytes, cur: Bytes)
    requires post == [] || IsSpace(post[0])
    ensures Scan([QUOTE] + post, Quoted, cur) == Token(cur, post)
  {
    assert ([QUOTE] + post)[1..] == post;
  }

  lemma {:induction false} ScanEscapes(p: Bytes, post: Bytes, cur: Bytes)
    requires post == [] || IsSpace(post[0])
    ensures Scan(EscapeAll(p) + ([QUOTE] + post), Quoted, cur) == Token(cur + p, post)
  {
    hide Scan, Escape;
    var tail := [QUOTE] + post;
    if p == [] {
      assert EscapeAll(p) + tail == tail && cur + p == cur;
      ScanClose(post, cur);
    } else {
      assert EscapeAll(p) + tail == Escape(p[0]) + (EscapeAll(p[1..]) + tail);
      ScanEscape(p[0], EscapeAll(p[1..]) + tail, cur);
      ScanEscapes(p[1..], post, cur + [p[0]]);
      assert cur + [p[0]] + p[1..] == cur + p;
    }
  }

  /** A quoted form is read back as one argument. */
  lemma {:induction false} SplitRepr(p: Bytes, post: Bytes)
    requires post == [] || IsSpace(post[0])
    ensures Split(Repr(p) + post) ==
      match Split(post) case None => None case Some(more) => Some([p] + more)
  {
    var s := Repr(p) + post;
    var t := EscapeAll(p) + ([QUOTE] + post);
    assert s == [QUOTE] + t && s[1..] == t;
    assert SkipBlanks(s) == s;
    ScanEscapes(p, post, []);
    assert Scan(s, Plain, []) == Scan(t, Quoted, []);
    assert [] + p == p;
  }

  /** The quoted forms of a list of arguments, separated by single spaces. */
  function Line(args: seq<Bytes>): Bytes {
    if args == [] then []
    else if |args| == 1 then Repr(args[0])
    else Repr(args[0]) + ([SPACE] + Line(args[1..]))
  }

  lemma {:induction false} SplitSpace(t: Bytes)
    ensures Split([SPACE] + t) == Split(t)
  {
    assert ([SPACE] + t)[1..] == t;
  }

  /** Splitting the quoted forms of any byte strings returns exactly those byte strings. */
  lemma {:induction false} QuotingRoundTrip(args: seq<Bytes>)
    ensures Split(Line(args)) == Some(args)
  {
    if |args| == 1 {
      SplitRepr(args[0], []);
      assert Repr(args[0]) + [] == Repr(args[0]) && [args[0]] + [] == args;
    } else if |args| > 1 {
      var post := [SPACE] + Line(args[1..]);
      QuotingRoundTrip(args[1..]);
      SplitSpace(Line(args[1..]));
      SplitRepr(args[0], post);
      assert [args[0]] + args[1..] == args;
    }
  }

  /** What is printed is a C string: no byte of it is NUL. */
  lemma {:induction false} ReprHasNoNul(p: Bytes)
    ensures 0 !in Repr(p)
    decreases p, 1
  {
    EscapesHaveNoNul(p);
  }

  lemma {:induction false} EscapesHaveNoNul(p: Bytes)
    ensures 0 !in EscapeAll(p)
    decreases p, 0
  {
    if p != [] {
      EscapesHaveNoNul(p[1..]);
      assert 0 !in Escape(p[0]);
    }
  }

  // ----------------------------------------------------------------- the loops

  /** `sdscatrepr`. */
  method CatRepr(s: Bytes, p: Bytes) returns (r: Bytes)
    ensures r == s + Repr(p)
  {
    hide Escape;
    r := s + [QUOTE];
    for i := 0 to |p|
      invariant r + EscapeAll(p[i..]) == s + [QUOTE] + EscapeAll(p)
    {
      assert p[i..][1..] == p[i + 1..];
      assert r + (Escape(p[i]) + EscapeAll(p[i + 1..])) == r + Escape(p[i]) + EscapeAll(p[i + 1..]);
      r := r + Escape(p[i]);
    }
    assert r + [] == r;
    r := r + [QUOTE];
  }

  /** One turn of the token loop: an error, the end of the token, or how far to move on. */
  datatype Turn = Err | Done(text: Bytes, len: nat) | More(mode: Mode, text: Bytes, len: nat)

  method TakeTurn(s: Bytes, mode: Mode, current: Bytes) returns (r: Turn)
    ensures match r
      case Err => Scan(s, mode, current) == Bad
      case Done(text, n) => n <= |s| && Scan(s, mode, current) == Token(text, s[n..])
      case More(m, text, n) => 0 < n <= |s| && Scan(s, mode, current) == Scan(s[n..], m, text)
  {
    var c := At(s, 0);
    match mode
    case Quoted =>
      if c == BACKSLASH && At(s, 1) == Ord('x') && IsHexDigit(At(s, 2)) && IsHexDigit(At(s, 3)) {
        r := More(mode, current + [HexDigitToInt(s[2]) * 16 + HexDigitToInt(s[3])], 4);
      } else if c == BACKSLASH && At(s, 1) != 0 {
        r := More(mode, current + [Unescape(s[1])], 2);
      } else if c == QUOTE {
        r := if At(s, 1) != 0 && !IsSpace(At(s, 1)) then Err else Done(current, 1);
      } else {
        r := if c == 0 then Err else More(mode, current + [c], 1);
      }
    case SingleQuoted =>
      if c == BACKSLASH && At(s, 1) == APOSTROPHE {
        r := More(mode, current + [APOSTROPHE], 2);
      } else if c == APOSTROPHE {
        r := if At(s, 1) != 0 && !IsSpace(At(s, 1)) then Err else Done(current, 1);
      } else {
        r := if c == 0 then Err else More(mode, current + [c], 1);
      }
    case Plain =>
      if c == 0 {
        r := Done(current, 0);
      } else if c == SPACE || c == NEWLINE || c == RETURN || c == TAB {
        r := Done(current, 1);
      } else if c == QUOTE {
        r := More(Quoted, current, 1);
      } else if c == APOSTROPHE {
        r := More(SingleQuoted, current, 1);
      } else {
        r := More(mode, current + [c], 1);
      }
  }

  /** The inner loop of `sdssplitargs`, on an index into the line. */
  method GetToken(line: Bytes, from: nat) returns (ok: bool, current: Bytes, p: nat)
    requires from <= |line|
    ensures p <= |line|
    ensures match Scan(line[from..], Plain, [])
      case Bad => !ok
      case Token(text, rest) => ok && current == text && line[p..] == rest
  {
    hide Scan;
    var mode := Plain;
    ok, current, p := true, [], from;
    while true
      invariant p <= |line|
      invariant Scan(line[from..], Plain, []) == Scan(line[p..], mode, current)
      decreases |line| - p
    {
      var turn := TakeTurn(line[p..], mode, current);
      match turn
      case Err => return false, [], p;
      case Done(text, n) =>
        assert line[p..][n..] == line[p + n..];
        return true, text, p + n;
      case More(m, text, n) =>
        assert line[p..][n..] == line[p + n..];
        mode, current, p := m, text, p + n;
    }
  }

  /** `sdssplitargs`. */
  method SplitArgs(line: Bytes) returns (out: Option<seq<Bytes>>)
    ensures out == Split(line)
  {
    hide Scan;
    var vector: seq<Bytes>, p := [], 0;
    assert line[0..] == line;
    if Split(line).Some? { assert [] + Split(line).value == Split(line).value; }
    while true
      invariant p <= |line|
      invariant Split(line) == match Split(line[p..]) case None => None case Some(more) => Some(vector + more)
      decreases |line| - p
    {
      ghost var s := line[p..];
      while p < |line| && IsSpace(line[p])
        invariant p <= |line| && SkipBlanks(line[p..]) == SkipBlanks(s) && |line[p..]| <= |s|
        decreases |line| - p
      {
        assert line[p..][1..] == line[p + 1..];
        p := p + 1;
      }
      if p == |line| || line[p] == 0 {
        assert vector + [] == vector;
        return Some(vector);
      }
      ScanShrinks(line[p..], Plain, []);
      var ok, current;
      ok, current, p := GetToken(line, p);
      if !ok { return None; }
      if Split(line[p..]).Some? {
        assert vector + ([current] + Split(line[p..]).value) == vector + [current] + Split(line[p..]).value;
      }
      vector := vector + [current];
    }
  }
}
