/** Variable-length integers of the Minecraft protocol (src/datautils.c). */
module Varint {
  import opened Bits

  type Bytes = seq<byte>

  const U32 := 0x1_0000_0000

  /** Seven bits per byte, least significant first, high bit set on all but the last. */
  function Enc(v: nat): (s: Bytes)
    ensures s != []
  {
    if v < 128 then [v] else [128 + v % 128] + Enc(v / 128)
  }

  datatype Verdict = Size(n: nat) | Invalid | Overrun

  /** `walk_varint` on the first max_len bytes, from byte k on. */
  function WalkFrom(s: Bytes, k: nat): Verdict
    decreases |s| - k
  {
    if |s| <= k then Overrun
    else if s[k] < 128 then Size(k + 1)
    else if k >= 4 then Invalid
    else WalkFrom(s, k + 1)
  }

  function Walk(s: Bytes): Verdict {
    WalkFrom(s, 0)
  }

  /** The number the bytes denote, before truncation to 32 bits. */
  function Value(s: Bytes): nat {
    if s == [] then 0
    else if s[0] < 128 then s[0]
    else s[0] - 128 + 128 * Value(s[1..])
  }

  function SizeVarint(v: nat): nat {
    if v < 256 then 1
    else if v < 0x4000 then 2
    else if v < 0x20_0000 then 3
    else if v < 0x1000_0000 then 4
    else 5
  }

  // ---------------------------------------------------------------- lemmas

  lemma {:induction false} EncLength(v: nat)
    requires v < U32
    ensures |Enc(v)| == if v < 128 then 1 else if v < 0x4000 then 2 else if v < 0x20_0000 then 3
                        else if v < 0x1000_0000 then 4 else 5
  {
    if v >= 128 {
      var a := v / 128;
      assert |Enc(v)| == 1 + |Enc(a)|;
      if a >= 128 {
        var b := a / 128;
        assert |Enc(a)| == 1 + |Enc(b)|;
        if b >= 128 {
          var c := b / 128;
          assert |Enc(b)| == 1 + |Enc(c)|;
          if c >= 128 { assert |Enc(c)| == 1 + |Enc(c / 128)|; }
        }
      }
    }
  }

  /** The size function is the encoded length except on 128..255, where it is one short. */
  lemma {:induction false} SizeIsLength(v: nat)
    requires v < U32
    ensures SizeVarint(v) == |Enc(v)| <==> !(128 <= v < 256)
    ensures 128 <= v < 256 ==> SizeVarint(v) == |Enc(v)| - 1
  {
    EncLength(v);
  }

  lemma {:induction false} EncBytes(v: nat, k: nat)
    requires k < |Enc(v)|
    ensures Enc(v)[k] >= 128 <==> k < |Enc(v)| - 1
  {
    if v >= 128 && k > 0 { EncBytes(v / 128, k - 1); }
  }

  /** Decoding stops at the end of the encoding, whatever follows. */
  lemma {:induction false} ValueOfEnc(v: nat, suffix: Bytes)
    ensures Value(Enc(v) + suffix) == v
  {
    if v >= 128 {
      ValueOfEnc(v / 128, suffix);
      assert (Enc(v) + suffix)[1..] == Enc(v / 128) + suffix;
    }
  }

  lemma {:induction false} WalkEncFrom(v: nat, s: Bytes, k: nat)
    requires v < U32 && k < |Enc(v)|
    requires forall j :: 0 <= j < |s| && j < |Enc(v)| ==> s[j] == Enc(v)[j]
    ensures WalkFrom(s, k) == if |s| < |Enc(v)| then Overrun else Size(|Enc(v)|)
    decreases |Enc(v)| - k
  {
    EncLength(v);
    EncBytes(v, k);
    if k < |s| && k < |Enc(v)| - 1 { WalkEncFrom(v, s, k + 1); }
  }

  /** Given the whole encoding, the walker returns its length; given any strict prefix it asks
      for more, and never calls it invalid. */
  lemma {:induction false} WalkOfEnc(v: nat, suffix: Bytes, cut: nat)
    requires v < U32 && cut < |Enc(v)|
    ensures Walk(Enc(v) + suffix) == Size(|Enc(v)|)
    ensures Walk(Enc(v)[..cut]) == Overrun
  {
    WalkEncFrom(v, Enc(v) + suffix, 0);
    WalkEncFrom(v, Enc(v)[..cut], 0);
  }

  lemma {:induction false} StableFrom(s: Bytes, t: Bytes, k: nat)
    requires WalkFrom(s, k) != Overrun
    ensures WalkFrom(s + t, k) == WalkFrom(s, k)
    decreases |s| - k
  {
    if s[k] >= 128 && k < 4 { StableFrom(s, t, k + 1); }
  }

  /** More bytes never change a verdict that did not ask for more. */
  lemma {:induction false} VerdictIsStable(s: Bytes, t: Bytes)
    requires Walk(s) != Overrun
    ensures Walk(s + t) == Walk(s)
  {
    StableFrom(s, t, 0);
  }

  lemma {:induction false} WalkBounds(s: Bytes, k: nat)
    ensures WalkFrom(s, k).Size? ==>
      var n := WalkFrom(s, k).n;
      k < n <= |s| && (k <= 4 ==> n <= 5) && s[n - 1] < 128 && forall j :: k <= j < n - 1 ==> s[j] >= 128
    decreases |s| - k
  {
    if k < |s| && s[k] >= 128 && k < 4 { WalkBounds(s, k + 1); }
  }

  /** The k-th group of seven bits of v, the lowest being number 0. */
  function Group(v: nat, k: nat): nat {
    if k == 0 then v % 128 else Group(v / 128, k - 1)
  }

  /** Byte k of the encoding is group k, with the top bit set on all but the last. */
  lemma {:induction false} EncGroups(v: nat, k: nat)
    requires k < |Enc(v)|
    ensures Enc(v)[k] == Group(v, k) + if k < |Enc(v)| - 1 then 128 else 0
  {
    if v >= 128 && k > 0 { EncGroups(v / 128, k - 1); }
  }

  /** The sample values of the protocol's description. */
  lemma {:induction false} Samples()
    ensures Enc(0) == [0] && Enc(127) == [127] && Enc(128) == [128, 1] && Enc(255) == [255, 1]
    ensures Enc(25565) == [221, 199, 1] && Enc(2097151) == [255, 255, 127]
    ensures Enc(2147483647) == [255, 255, 255, 255, 7] && Enc(4294967295) == [255, 255, 255, 255, 15]
  {
    assert Enc(1) == [1];
    assert Enc(199) == [199, 1];
    assert Enc(16383) == [255, 127];
    Ones(7);
    Ones(15);
  }

  lemma {:induction false} Ones(t: nat)
    requires t == 7 || t == 15
    ensures Enc(0x1000_0000 * t + 0xFFF_FFFF) == [255, 255, 255, 255, t]
  {
    assert Enc(t) == [t];
    assert Enc(0x80 * t + 0x7F) == [255, t];
    assert Enc(0x4000 * t + 0x3FFF) == [255, 255, t];
    assert Enc(0x20_0000 * t + 0x1F_FFFF) == [255, 255, 255, t];
  }

  predicate AllMore(s: Bytes, n: nat)
    requires n <= |s|
  {
    forall i :: 0 <= i < n ==> s[i] >= 128
  }

  lemma {:induction false} WalkFromIs(s: Bytes, k: nat)
    requires k <= 4 && k <= |s| && AllMore(s, k)
    ensures WalkFrom(s, k) == Invalid <==> |s| >= 5 && AllMore(s, 5)
    ensures WalkFrom(s, k) == Overrun <==> |s| < 5 && AllMore(s, |s|)
    ensures forall n: nat :: WalkFrom(s, k) == Size(n) <==> k < n <= 5 && n <= |s| && AllMore(s, n - 1) && s[n - 1] < 128
    decreases |s| - k
  {
    if k < |s| && s[k] >= 128 {
      assert AllMore(s, k + 1);
      if k < 4 { WalkFromIs(s, k + 1); }
    }
  }

  /** The verdicts, spelled out: a number ends at the first byte below 128, which must be one of the
      first five; five bytes that all go on are invalid, fewer ask for more. */
  lemma {:induction false} WalkIff(s: Bytes)
    ensures Walk(s) == Invalid <==> |s| >= 5 && AllMore(s, 5)
    ensures Walk(s) == Overrun <==> |s| < 5 && AllMore(s, |s|)
    ensures forall n: nat :: Walk(s) == Size(n) <==> 0 < n <= 5 && n <= |s| && AllMore(s, n - 1) && s[n - 1] < 128
  {
    WalkFromIs(s, 0);
  }

  // ------------------------------------------------------------ the loops

  lemma {:induction false} Overwrite(pre: Bytes, done: Bytes, post: Bytes, x: byte)
    requires |done| < |post|
    ensures (pre + done + post[|done|..])[|pre| + |done| := x] == pre + (done + [x]) + post[|done| + 1..]
  {
  }

  lemma {:induction false} EncStep(done: Bytes, v: nat)
    requires v >= 128
    ensures done + Enc(v) == done + [128 + v % 128] + Enc(v / 128) && |Enc(v)| == 1 + |Enc(v / 128)|
  {
  }

  /** `enc_varint`, writing through a pointer: the encoding lands at `at`, nothing else moves. */
  method EncVarint(dest: array<byte>, at: nat, v: nat) returns (end: nat)
    requires v < U32 && at + |Enc(v)| <= dest.Length
    modifies dest
    ensures end == at + |Enc(v)|
    ensures dest[..] == old(dest[..at]) + Enc(v) + old(dest[at..])[|Enc(v)|..]
  {
    hide Enc;
    ghost var pre, post := dest[..at], dest[at..];
    end := at;
    var source := v;
    ghost var done: Bytes := [];
    assert dest[..] == pre + [] + post[0..];
    while source >= 128
      invariant Enc(v) == done + Enc(source) && end == at + |done|
      invariant dest[..] == pre + done + post[|done|..] && |done| <= |post|
    {
      ghost var was := dest[..];
      EncStep(done, source);
      Overwrite(pre, done, post, 128 + source % 128);
      dest[end] := 128 + source % 128;
      assert dest[..] == was[end := 128 + source % 128];
      done := done + [128 + source % 128];
      end, source := end + 1, source / 128;
    }
    LastByte(source);
    ghost var was := dest[..];
    Overwrite(pre, done, post, source);
    dest[end] := source;
    assert dest[..] == was[end := source];
    end := end + 1;
  }

  lemma {:induction false} LastByte(v: nat)
    requires v < 128
    ensures Enc(v) == [v]
  {
  }

  /** `walk_varint`: reads no byte at or beyond max_len. */
  method WalkVarint(source: Bytes, maxLen: nat) returns (r: Verdict)
    requires maxLen <= |source|
    ensures r == Walk(source[..maxLen])
  {
    if maxLen == 0 { return Overrun; }
    var len := 1;
    while source[len - 1] >= 128
      invariant 1 <= len <= maxLen && len <= 5
      invariant Walk(source[..maxLen]) == WalkFrom(source[..maxLen], len - 1)
      decreases maxLen - len
    {
      if len > 4 { return Invalid; }
      if len >= maxLen { return Overrun; }
      len := len + 1;
    }
    r := Size(len);
  }

  lemma {:induction false} Shifts()
    ensures Pow2(0) == 1 && Pow2(7) == 128 && Pow2(14) == 0x4000
    ensures Pow2(21) == 0x20_0000 && Pow2(28) == 0x1000_0000
  {
    assert Pow2(7) == 128;
    assert Pow2(14) == 128 * Pow2(7);
    assert Pow2(21) == 128 * Pow2(14);
    assert Pow2(28) == 128 * Pow2(21);
  }

  lemma {:induction false} OrAt(a: nat, c: nat, i: nat, m: nat)
    requires m == Pow2(i) && a < m && c < 128 && 128 * m <= U32
    ensures Or(a, c * m % U32) == a + c * m < 128 * m
  {
    OrDisjoint(a, c, i);
    hide Or, Pow2;
    Product(c, m);
  }

  lemma {:induction false} Product(c: nat, m: nat)
    requires c < 128 && 0 < m && 128 * m <= U32
    ensures c * m <= 127 * m && c * m % U32 == c * m
  {
    var k := 127 - c;
    assert 127 * m == (c + k) * m == c * m + k * m;
    Small(c * m);
  }

  lemma Small(x: nat)
    requires x < U32
    ensures x % U32 == x
  {
  }

  lemma {:induction false} OrTop(a: nat, c: nat)
    requires a < 0x1000_0000 == Pow2(28) && c < 128
    ensures Or(a, c * 0x1000_0000 % U32) == (a + c * 0x1000_0000) % U32
  {
    hide Or, Pow2;
    assert c * 0x1000_0000 % U32 == c % 16 * 0x1000_0000;
    OrDisjoint(a, c % 16, 28);
  }

  /** 2^(7p), the weight of byte p. */
  function Weight(p: nat): nat
    requires p <= 4
  {
    [1, 128, 0x4000, 0x20_0000, 0x1000_0000][p]
  }

  /** One step of the decoder: `(b & 0x7F) << i`, cut to 32 bits, or-ed into what is there. */
  lemma {:induction false} OrShift(a: nat, c: nat, p: nat)
    requires p <= 4 && a < Weight(p) && c < 128
    ensures Pow2(7 * p) == Weight(p)
    ensures Or(a, c * Weight(p) % U32) == (a + c * Weight(p)) % U32
    ensures p < 4 ==> Or(a, c * Weight(p) % U32) == a + c * Weight(p) < Weight(p + 1) == 128 * Weight(p)
  {
    hide Or, Pow2;
    Shifts();
    if p == 4 { OrTop(a, c); } else { OrAt(a, c, 7 * p, Weight(p)); }
  }

  function ToInt32(u: nat): int {
    if u >= 0x8000_0000 then u - U32 else u
  }

  /** `dec_varint` on bytes the walker has accepted: the low 32 bits of the number they denote,
      as a signed integer, and the position right after them. */
  method DecVarint(source: Bytes) returns (dest: int, end: nat)
    requires Walk(source).Size?
    ensures dest == ToInt32(Value(source) % U32) && end == Walk(source).n
  {
    hide Or, Pow2, Value, Walk, WalkFrom, Weight;
    WalkBounds(source, 0);
    Shifts();
    ghost var n := Walk(source).n;
    var u: nat, i: nat := 0, 0;
    end := 0;
    StartValue(source);
    while source[end] >= 128
      invariant end < n <= 5 && n <= |source| && i == 7 * end && u < Weight(end)
      invariant Value(source) == u + Weight(end) * Value(source[end..])
      decreases n - end
    {
      var c := source[end] - 128;
      OrShift(u, c, end);
      ValueStep(source[end..], Weight(end));
      assert source[end..][1..] == source[end + 1..];
      u := Or(u, c * Pow2(i) % U32);
      end, i := end + 1, i + 7;
    }
    OrShift(u, source[end], end);
    LastValue(source[end..]);
    assert source[end] * Weight(end) == Weight(end) * source[end];
    u := Or(u, source[end] * Pow2(i) % U32);
    end := end + 1;
    dest := ToInt32(u);
  }

  lemma {:induction false} StartValue(s: Bytes)
    ensures 0 < Weight(0) && Value(s) == 0 + Weight(0) * Value(s[0..]) && Walk(s) == WalkFrom(s, 0)
  {
    assert s[0..] == s;
  }

  lemma {:induction false} LastValue(s: Bytes)
    requires s != [] && s[0] < 128
    ensures Value(s) == s[0]
  {
  }

  lemma {:induction false} ValueStep(s: Bytes, m: nat)
    requires s != [] && s[0] >= 128
    ensures m * Value(s) == (s[0] - 128) * m + 128 * m * Value(s[1..])
  {
    var a, b := s[0] - 128, Value(s[1..]);
    Distribute(m, a, b);
  }

  lemma {:induction false} Distribute(m: nat, a: nat, b: nat)
    ensures m * (a + 128 * b) == a * m + 128 * m * b
  {
    assert m * (a + 128 * b) == m * a + m * (128 * b);
    assert m * (128 * b) == 128 * m * b;
  }

  /** Encode, then walk and decode: the number comes back, and the cursor stops at the suffix. */
  method RoundTrip(v: nat, suffix: Bytes) returns (dest: int, end: nat)
    requires v < U32
    ensures dest == ToInt32(v) && end == |Enc(v)|
  {
    WalkOfEnc(v, suffix, 0);
    ValueOfEnc(v, suffix);
    dest, end := DecVarint(Enc(v) + suffix);
  }
}
