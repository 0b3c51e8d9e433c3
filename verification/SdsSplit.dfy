/** sdssplitlen and sdsjoinsds of src/sds.c: cutting at a separator and putting back together. */
module SdsSplit {
  import opened Bits
  import opened Wrappers

  type Bytes = seq<byte>

  /** The separator is at j. */
  predicate IsAt(s: Bytes, sep: Bytes, j: nat) {
    j + |sep| <= |s| && s[j..j + |sep|] == sep
  }

  /** The first place at or after j where the separator is. */
  function First(s: Bytes, sep: Bytes, j: nat): (r: Option<nat>)
    ensures r.Some? ==> j <= r.value && IsAt(s, sep, r.value)
    ensures r.Some? ==> forall i :: j <= i < r.value ==> !IsAt(s, sep, i)
    ensures r.None? ==> forall i :: j <= i ==> !IsAt(s, sep, i)
    decreases |s| - j
  {
    if j + |sep| > |s| then None
    else if IsAt(s, sep, j) then Some(j)
    else First(s, sep, j + 1)
  }

  /** What is between the separators, scanning from the left. */
  function Pieces(s: Bytes, sep: Bytes): (ts: seq<Bytes>)
    requires sep != []
    ensures ts != []
    decreases |s|
  {
    var f := First(s, sep, 0);
    if f.None? then [s] else [s[..f.value]] + Pieces(s[f.value + |sep|..], sep)
  }

  /** `sdssplitlen`: nothing at all for the empty string. */
  function Split(s: Bytes, sep: Bytes): seq<Bytes>
    requires sep != []
  {
    if s == [] then [] else Pieces(s, sep)
  }

  /** `sdsjoinsds` */
  function Join(ts: seq<Bytes>, sep: Bytes): Bytes {
    if ts == [] then []
    else if |ts| == 1 then ts[0]
    else ts[0] + sep + Join(ts[1..], sep)
  }

  lemma {:induction false} JoinPieces(s: Bytes, sep: Bytes)
    requires sep != []
    ensures Join(Pieces(s, sep), sep) == s
    decreases |s|
  {
    var f := First(s, sep, 0);
    if f.Some? {
      var rest := s[f.value + |sep|..];
      JoinPieces(rest, sep);
      assert Pieces(s, sep)[1..] == Pieces(rest, sep);
      assert s == s[..f.value] + s[f.value..f.value + |sep|] + rest;
    }
  }

  /** Joining what was split gives the string back, whatever the separator. */
  lemma {:induction false} SplitThenJoin(s: Bytes, sep: Bytes)
    requires sep != []
    ensures Join(Split(s, sep), sep) == s
  {
    if s != [] { JoinPieces(s, sep); }
  }

  /** No token shows the separator early: not before the one that follows it, and not at all
      in the last. */
  predicate Clean(ts: seq<Bytes>, sep: Bytes) {
    if ts == [] then true
    else if |ts| == 1 then First(ts[0], sep, 0) == None
    else First(ts[0] + sep, sep, 0) == Some(|ts[0]|) && Clean(ts[1..], sep)
  }

  lemma {:induction false} FirstIs(s: Bytes, sep: Bytes, j: nat, k: nat)
    requires j <= k && IsAt(s, sep, k) && forall i :: j <= i < k ==> !IsAt(s, sep, i)
    ensures First(s, sep, j) == Some(k)
  {
    var r := First(s, sep, j);
    assert r.Some? && r.value <= k;
    hide First;
  }

  /** An occurrence that starts before the end of t lies inside t + sep. */
  lemma {:induction false} Inside(t: Bytes, sep: Bytes, rest: Bytes, i: nat)
    requires i <= |t|
    ensures IsAt(t + sep + rest, sep, i) <==> IsAt(t + sep, sep, i)
  {
    assert (t + sep + rest)[i..i + |sep|] == (t + sep)[i..i + |sep|];
  }

  lemma {:induction false} FirstInside(t: Bytes, sep: Bytes, rest: Bytes)
    ensures First(t + sep + rest, sep, 0) == First(t + sep, sep, 0) && First(t + sep, sep, 0).Some? && First(t + sep, sep, 0).value <= |t|
  {
    assert (t + sep)[|t|..|t| + |sep|] == sep;
    assert IsAt(t + sep, sep, |t|);
    var k := First(t + sep, sep, 0).value;
    forall i | 0 <= i < k ensures !IsAt(t + sep + rest, sep, i) { Inside(t, sep, rest, i); }
    Inside(t, sep, rest, k);
    FirstIs(t + sep + rest, sep, 0, k);
  }

  lemma {:induction false} PiecesOfJoin(ts: seq<Bytes>, sep: Bytes)
    requires sep != [] && ts != []
    ensures Pieces(Join(ts, sep), sep) == ts <==> Clean(ts, sep)
    decreases |ts|
  {
    var s := Join(ts, sep);
    if |ts| == 1 {
      var f := First(s, sep, 0);
      if f.Some? { assert |Pieces(s, sep)| >= 2; }
    } else {
      var t, rest := ts[0], Join(ts[1..], sep);
      FirstInside(t, sep, rest);
      var k := First(t + sep, sep, 0).value;
      PiecesOfJoin(ts[1..], sep);
      hide First, Join, Clean;
      assert Pieces(s, sep)[0] == s[..k] && |s[..k]| == k;
      if k == |t| {
        assert s[k + |sep|..] == rest && s[..k] == t;
        assert Pieces(s, sep)[1..] == Pieces(rest, sep);
        assert ts == [t] + ts[1..];
      }
    }
  }

  /** Splitting what was joined gives the tokens back if and only if no token shows the
      separator early; the single empty token is lost, because the empty string has no tokens. */
  lemma {:induction false} JoinThenSplit(ts: seq<Bytes>, sep: Bytes)
    requires sep != []
    ensures Split(Join(ts, sep), sep) == ts <==> Clean(ts, sep) && ts != [[]]
  {
    if ts != [] {
      PiecesOfJoin(ts, sep);
      if |ts| > 1 { assert |Join(ts, sep)| >= |sep|; }
    }
  }

  // ------------------------------------------------------------ the loops

  lemma {:induction false} Shifted(s: Bytes, sep: Bytes, start: nat, j: nat)
    requires start <= j && start <= |s|
    ensures IsAt(s, sep, j) <==> IsAt(s[start..], sep, j - start)
  {
    if j + |sep| <= |s| { assert s[start..][j - start..j - start + |sep|] == s[j..j + |sep|]; }
  }

  lemma {:induction false} IsAtBound(s: Bytes, sep: Bytes, j: nat)
    requires IsAt(s, sep, j)
    ensures j + |sep| <= |s|
  {
  }

  lemma {:induction false} IsAtIs(s: Bytes, sep: Bytes, j: nat)
    requires j + |sep| <= |s|
    ensures IsAt(s, sep, j) <==> s[j..j + |sep|] == sep
  {
  }

  lemma {:induction false} Regroup(a: seq<Bytes>, x: Bytes, more: seq<Bytes>)
    ensures a + ([x] + more) == a + [x] + more
  {
  }

  lemma {:induction false} FirstHere(s: Bytes, sep: Bytes, start: nat, j: nat)
    requires start <= j && IsAt(s, sep, j) && forall i :: start <= i < j ==> !IsAt(s, sep, i)
    ensures start <= |s| && First(s[start..], sep, 0) == Some(j - start)
  {
    IsAtBound(s, sep, j);
    hide First, IsAt;
    var u := s[start..];
    forall i | 0 <= i < j - start ensures !IsAt(u, sep, i) { Shifted(s, sep, start, start + i); }
    Shifted(s, sep, start, j);
    FirstIs(u, sep, 0, j - start);
  }

  lemma {:induction false} CutHere(s: Bytes, sep: Bytes, start: nat, j: nat)
    requires sep != [] && start <= j && IsAt(s, sep, j) && forall i :: start <= i < j ==> !IsAt(s, sep, i)
    ensures start <= |s| && Pieces(s[start..], sep) == [s[start..j]] + Pieces(s[j + |sep|..], sep)
  {
    IsAtBound(s, sep, j);
    FirstHere(s, sep, start, j);
    hide First, IsAt;
    Slices(s, start, j, |sep|);
  }

  lemma {:induction false} Slices(s: Bytes, start: nat, j: nat, n: nat)
    requires start <= j && j + n <= |s|
    ensures s[start..][..j - start] == s[start..j] && s[start..][j - start + n..] == s[j + n..]
  {
  }

  lemma {:induction false} NoMore(s: Bytes, sep: Bytes, start: nat, j: nat)
    requires sep != [] && start <= |s| && j + |sep| > |s| && forall i :: start <= i < j ==> !IsAt(s, sep, i)
    ensures Pieces(s[start..], sep) == [s[start..]]
  {
    var u := s[start..];
    var f := First(u, sep, 0);
    if f.Some? { Shifted(s, sep, start, start + f.value); }
  }

  /** What the scanning loop knows at j, the last token having started at `start`. */
  ghost predicate Scanning(s: Bytes, sep: Bytes, out: seq<Bytes>, start: nat, j: nat)
    requires sep != []
  {
    && start <= j && start <= |s| && out + Pieces(s[start..], sep) == Pieces(s, sep)
    && forall i :: start <= i < j ==> !IsAt(s, sep, i)
  }

  lemma {:induction false} ScanStart(s: Bytes, sep: Bytes)
    requires sep != []
    ensures Scanning(s, sep, [], 0, 0)
  {
    assert s[0..] == s && [] + Pieces(s, sep) == Pieces(s, sep);
  }

  lemma {:induction false} ScanTurn(s: Bytes, sep: Bytes, out: seq<Bytes>, start: nat, j: nat)
    requires sep != [] && Scanning(s, sep, out, start, j) && j + |sep| <= |s|
    ensures start <= j
    ensures if s[j..j + |sep|] == sep then Scanning(s, sep, out + [s[start..j]], j + |sep|, j + |sep|)
            else Scanning(s, sep, out, start, j + 1)
  {
    hide Pieces, First, IsAt;
    IsAtIs(s, sep, j);
    if s[j..j + |sep|] == sep {
      CutHere(s, sep, start, j);
      Regroup(out, s[start..j], Pieces(s[j + |sep|..], sep));
    }
  }

  lemma {:induction false} ScanEnd(s: Bytes, sep: Bytes, out: seq<Bytes>, start: nat, j: nat)
    requires sep != [] && Scanning(s, sep, out, start, j) && j + |sep| > |s|
    ensures start <= |s| && out + [s[start..]] == Pieces(s, sep)
  {
    NoMore(s, sep, start, j);
  }

  /** `sdssplitlen`, None for an empty separator. */
  method SplitLen(s: Bytes, sep: Bytes) returns (tokens: Option<seq<Bytes>>)
    ensures tokens == if sep == [] then None else Some(Split(s, sep))
  {
    if |sep| < 1 { return None; }
    if |s| == 0 { return Some([]); }
    hide Pieces, Scanning;
    var out: seq<Bytes>, start: nat, j: nat := [], 0, 0;
    ScanStart(s, sep);
    while j < |s| - (|sep| - 1)
      invariant Scanning(s, sep, out, start, j)
    {
      ScanTurn(s, sep, out, start, j);
      if s[j..j + |sep|] == sep {
        out := out + [s[start..j]];
        start := j + |sep|;
        j := j + |sep| - 1;
      }
      j := j + 1;
    }
    ScanEnd(s, sep, out, start, j);
    tokens := Some(out + [s[start..]]);
  }

  lemma {:induction false} JoinSnoc(ts: seq<Bytes>, t: Bytes, sep: Bytes)
    ensures Join(ts + [t], sep) == (if ts == [] then [] else Join(ts, sep) + sep) + t
  {
    if ts != [] {
      assert (ts + [t])[1..] == ts[1..] + [t] && (ts + [t])[0] == ts[0];
      JoinSnoc(ts[1..], t, sep);
      if |ts| > 1 {
        assert ts[0] + sep + (Join(ts[1..], sep) + sep + t) == ts[0] + sep + Join(ts[1..], sep) + sep + t;
      } else {
        assert ts[1..] == [];
      }
    }
  }

  /** `sdsjoinsds`, appending token by token. */
  method JoinSds(argv: seq<Bytes>, sep: Bytes) returns (join: Bytes)
    ensures join == Join(argv, sep)
  {
    hide Join;
    join := [];
    JoinNothing(sep);
    for j := 0 to |argv|
      invariant join == Join(argv[..j], sep) + (if 0 < j < |argv| then sep else [])
    {
      assert argv[..j + 1] == argv[..j] + [argv[j]];
      JoinSnoc(argv[..j], argv[j], sep);
      join := join + argv[j];
      if j != |argv| - 1 { join := join + sep; }
    }
    assert argv[..|argv|] == argv;
  }

  lemma {:induction false} JoinNothing(sep: Bytes)
    ensures Join([], sep) == []
  {
  }
}
