/** Block positions packed into 64 bits (src/datautils.c): 26 bits of x, 12 of y, 26 of z, each a
    two's complement number. */
module Position {
  import opened Bits

  datatype Pos = Pos(x: int, y: int, z: int)

  const TWO12 := 0x1000
  const TWO26 := 0x400_0000
  const TWO38 := 0x40_0000_0000
  const TWO64 := 0x1_0000_0000_0000_0000

  /** The word `enc_position` builds; masking with 2^k - 1 is the remainder modulo 2^k. */
  function Pack(p: Pos): nat {
    Or(Or((p.x % TWO26) * TWO38, (p.y % TWO12) * TWO26), p.z % TWO26)
  }

  function SignExtend(v: nat, half: nat): int {
    if v >= half then v - 2 * half else v
  }

  /** What `dec_position` takes out of a word. */
  function Unpack(i: nat): Pos {
    Pos(SignExtend(i / TWO38, 0x200_0000), SignExtend(i / TWO26 % TWO12, 0x800), SignExtend(i % TWO26, 0x200_0000))
  }

  predicate InRange(p: Pos) {
    -0x200_0000 <= p.x < 0x200_0000 && -0x800 <= p.y < 0x800 && -0x200_0000 <= p.z < 0x200_0000
  }

  lemma {:induction false} OrCommutes(a: nat, b: nat)
    ensures Or(a, b) == Or(b, a)
  {
    if a > 0 && b > 0 { OrCommutes(a / 2, b / 2); }
  }

  lemma {:induction false} Powers()
    ensures Pow2(26) == TWO26 && Pow2(38) == TWO38
  {
    assert Pow2(10) == 1024;
    assert Pow2(20) == 1024 * 1024;
    assert Pow2(30) == 1024 * 1024 * 1024;
  }

  lemma {:induction false} OrIsSum(low: nat, c: nat, k: nat)
    requires low < Pow2(k)
    ensures Or(c * Pow2(k), low) == c * Pow2(k) + low
  {
    OrDisjoint(low, c, k);
    OrCommutes(low, c * Pow2(k));
  }

  /** The three fields do not overlap. */
  lemma {:induction false} PackIsSum(p: Pos)
    ensures Pack(p) == (p.x % TWO26) * TWO38 + (p.y % TWO12) * TWO26 + p.z % TWO26 < TWO64
  {
    Powers();
    hide Or, Pow2;
    var x, y, z := p.x % TWO26, p.y % TWO12, p.z % TWO26;
    OrIsSum(y * TWO26, x, 38);
    assert x * TWO38 + y * TWO26 == (x * TWO12 + y) * TWO26;
    OrIsSum(z, x * TWO12 + y, 26);
  }

  lemma {:induction false} Fields(x: nat, y: nat, z: nat)
    requires x < TWO26 && y < TWO12 && z < TWO26
    ensures var w := x * TWO38 + y * TWO26 + z; w / TWO38 == x && w / TWO26 % TWO12 == y && w % TWO26 == z
  {
    var w := x * TWO38 + y * TWO26 + z;
    assert w == (x * TWO12 + y) * TWO26 + z;
    assert w / TWO26 == x * TWO12 + y;
  }

  /** Sign extension inverts the mask exactly on the numbers that fit. */
  lemma {:induction false} Extended(v: int, half: nat)
    requires half == 0x200_0000 || half == 0x800
    ensures SignExtend(v % (2 * half), half) == v <==> 0 - half <= v < half
  {
  }

  /** A position comes back if and only if each coordinate fits its field. */
  lemma {:induction false} PositionRoundTrip(p: Pos)
    ensures Unpack(Pack(p)) == p <==> InRange(p)
  {
    PackIsSum(p);
    Fields(p.x % TWO26, p.y % TWO12, p.z % TWO26);
    hide Pack, SignExtend;
    Extended(p.x, 0x200_0000);
    Extended(p.y, 0x800);
    Extended(p.z, 0x200_0000);
  }

  lemma {:induction false} Masked(v: nat, half: nat)
    requires (half == 0x200_0000 || half == 0x800) && v < 2 * half
    ensures SignExtend(v, half) % (2 * half) == v && 0 - half <= SignExtend(v, half) < half
  {
  }

  lemma {:induction false} Reassemble(i: nat)
    requires i < TWO64
    ensures i / TWO38 < TWO26 && i / TWO38 * TWO38 + i / TWO26 % TWO12 * TWO26 + i % TWO26 == i
  {
    var h := i / TWO26;
    assert h / TWO12 == i / TWO38;
    assert h == h / TWO12 * TWO12 + h % TWO12;
  }

  /** Every word is the encoding of the position it decodes to. */
  lemma {:induction false} WordRoundTrip(i: nat)
    requires i < TWO64
    ensures InRange(Unpack(i)) && Pack(Unpack(i)) == i
  {
    Reassemble(i);
    Masked(i / TWO38, 0x200_0000);
    Masked(i / TWO26 % TWO12, 0x800);
    Masked(i % TWO26, 0x200_0000);
    hide SignExtend;
    PackIsSum(Unpack(i));
    hide Pack;
  }

  function Encode(p: Pos): seq<byte> { BE(Pack(p), 8) }

  function Decode(s: seq<byte>): Pos
    requires |s| >= 8
  {
    Unpack(FromBE(s[..8]))
  }

  /** On the wire, whatever follows. */
  lemma {:induction false} WireRoundTrip(p: Pos, suffix: seq<byte>)
    ensures Decode(Encode(p) + suffix) == p <==> InRange(p)
  {
    PackIsSum(p);
    assert Pow256(4) == 0x1_0000_0000;
    assert Pow256(8) == TWO64;
    FromBEofBE(Pack(p), 8);
    assert (Encode(p) + suffix)[..8] == Encode(p);
    PositionRoundTrip(p);
    hide Pack, Unpack;
  }
}
