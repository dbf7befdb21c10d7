/** Hashes of given strings, worked out: they fix every constant, shift and order of the hash that
    assigns a user id to a bucket (tools/cityhash.go, connect/server.go). */
module KnownHashes {
  import opened Words
  import opened CityHash32
  import opened RoundRobin
  import Text
  import S = ServerModel

  // ---------------------------------------------------------------- words worked out

  lemma XorBit(a: nat, b: nat)
    ensures Xor(a, b) == 2 * Xor(a / 2, b / 2) + (if a % 2 == b % 2 then 0 else 1)
  {
  }

  /** One more bit of two numbers. */
  lemma NextBit(a: nat, b: nat, r: nat, p: bool, q: bool, a': nat, b': nat, r': nat)
    requires Xor(a, b) == r && a' == 2 * a + (if p then 1 else 0) && b' == 2 * b + (if q then 1 else 0)
    requires r' == 2 * r + (if p == q then 0 else 1)
    ensures Xor(a', b') == r'
  {
    hide *;
    assert a' / 2 == a && b' / 2 == b;
    XorBit(a', b');
  }

  /** Four bits, highest first. */
  function Bits(p3: bool, p2: bool, p1: bool, p0: bool): nat {
    (if p3 then 8 else 0) + (if p2 then 4 else 0) + (if p1 then 2 else 0) + (if p0 then 1 else 0)
  }

  lemma XorBits(a: nat, b: nat, r: nat, a': nat, b': nat, r': nat,
      p3: bool, p2: bool, p1: bool, p0: bool, q3: bool, q2: bool, q1: bool, q0: bool)
    requires Xor(a, b) == r && a' == 16 * a + Bits(p3, p2, p1, p0) && b' == 16 * b + Bits(q3, q2, q1, q0)
    requires r' == 16 * r + Bits(p3 != q3, p2 != q2, p1 != q1, p0 != q0)
    ensures Xor(a', b') == r'
  {
    hide Xor;
    var a3, b3 := 2 * a + (if p3 then 1 else 0), 2 * b + (if q3 then 1 else 0);
    var r3 := 2 * r + (if p3 == q3 then 0 else 1);
    NextBit(a, b, r, p3, q3, a3, b3, r3);
    var a2, b2 := 2 * a3 + (if p2 then 1 else 0), 2 * b3 + (if q2 then 1 else 0);
    var r2 := 2 * r3 + (if p2 == q2 then 0 else 1);
    NextBit(a3, b3, r3, p2, q2, a2, b2, r2);
    var a1, b1 := 2 * a2 + (if p1 then 1 else 0), 2 * b2 + (if q1 then 1 else 0);
    var r1 := 2 * r2 + (if p1 == q1 then 0 else 1);
    NextBit(a2, b2, r2, p1, q1, a1, b1, r1);
    NextBit(a1, b1, r1, p0, q0, a', b', r');
  }

  /** The upper and the lower half of a byte, and the byte. */
  function High(x: bv8): nat { Bits(x & 0x80 != 0, x & 0x40 != 0, x & 0x20 != 0, x & 0x10 != 0) }

  function Low(x: bv8): nat { Bits(x & 8 != 0, x & 4 != 0, x & 2 != 0, x & 1 != 0) }

  function Val(x: bv8): nat { 16 * High(x) + Low(x) }

  lemma HighXor(x: bv8, y: bv8)
    ensures High(x ^ y) == Bits((x & 0x80 != 0) != (y & 0x80 != 0), (x & 0x40 != 0) != (y & 0x40 != 0),
                                (x & 0x20 != 0) != (y & 0x20 != 0), (x & 0x10 != 0) != (y & 0x10 != 0))
  {
    assert ((x ^ y) & 0x80 != 0) == ((x & 0x80 != 0) != (y & 0x80 != 0));
    assert ((x ^ y) & 0x40 != 0) == ((x & 0x40 != 0) != (y & 0x40 != 0));
    assert ((x ^ y) & 0x20 != 0) == ((x & 0x20 != 0) != (y & 0x20 != 0));
    assert ((x ^ y) & 0x10 != 0) == ((x & 0x10 != 0) != (y & 0x10 != 0));
    hide Bits;
  }

  lemma LowXor(x: bv8, y: bv8)
    ensures Low(x ^ y) == Bits((x & 8 != 0) != (y & 8 != 0), (x & 4 != 0) != (y & 4 != 0),
                               (x & 2 != 0) != (y & 2 != 0), (x & 1 != 0) != (y & 1 != 0))
  {
    assert ((x ^ y) & 8 != 0) == ((x & 8 != 0) != (y & 8 != 0));
    assert ((x ^ y) & 4 != 0) == ((x & 4 != 0) != (y & 4 != 0));
    assert ((x ^ y) & 2 != 0) == ((x & 2 != 0) != (y & 2 != 0));
    assert ((x ^ y) & 1 != 0) == ((x & 1 != 0) != (y & 1 != 0));
    hide Bits;
  }

  lemma NextHigh(p: nat, q: nat, r: nat, x: bv8, y: bv8, p': nat, q': nat, r': nat)
    requires Xor(p, q) == r && p' == 16 * p + High(x) && q' == 16 * q + High(y) && r' == 16 * r + High(x ^ y)
    ensures Xor(p', q') == r'
  {
    HighXor(x, y);
    hide Xor, Bits;
    XorBits(p, q, r, p', q', r', x & 0x80 != 0, x & 0x40 != 0, x & 0x20 != 0, x & 0x10 != 0,
      y & 0x80 != 0, y & 0x40 != 0, y & 0x20 != 0, y & 0x10 != 0);
  }

  lemma NextLow(p: nat, q: nat, r: nat, x: bv8, y: bv8, p': nat, q': nat, r': nat)
    requires Xor(p, q) == r && p' == 16 * p + Low(x) && q' == 16 * q + Low(y) && r' == 16 * r + Low(x ^ y)
    ensures Xor(p', q') == r'
  {
    LowXor(x, y);
    hide Xor, Bits;
    XorBits(p, q, r, p', q', r', x & 8 != 0, x & 4 != 0, x & 2 != 0, x & 1 != 0,
      y & 8 != 0, y & 4 != 0, y & 2 != 0, y & 1 != 0);
  }

  /** The next byte of two words whose upper bytes make `p` and `q`. */
  lemma NextByte(p: nat, q: nat, r: nat, x: bv8, y: bv8, p': nat, q': nat, r': nat)
    requires Xor(p, q) == r && p' == 0x100 * p + Val(x) && q' == 0x100 * q + Val(y) && r' == 0x100 * r + Val(x ^ y)
    ensures Xor(p', q') == r'
  {
    hide Xor, High, Low;
    var p4, q4, r4 := 16 * p + High(x), 16 * q + High(y), 16 * r + High(x ^ y);
    NextHigh(p, q, r, x, y, p4, q4, r4);
    NextLow(p4, q4, r4, x, y, p', q', r');
  }

  /** Two words by their bytes, highest first. */
  lemma XorIs(a: U32, b: U32, r: U32, a3: bv8, a2: bv8, a1: bv8, a0: bv8, b3: bv8, b2: bv8, b1: bv8, b0: bv8)
    requires a == 0x100 * (0x100 * (0x100 * Val(a3) + Val(a2)) + Val(a1)) + Val(a0)
    requires b == 0x100 * (0x100 * (0x100 * Val(b3) + Val(b2)) + Val(b1)) + Val(b0)
    requires r == 0x100 * (0x100 * (0x100 * Val(a3 ^ b3) + Val(a2 ^ b2)) + Val(a1 ^ b1)) + Val(a0 ^ b0)
    ensures Xor32(a, b) == r
  {
    XorIsXor(a, b);
    XorOfZero();
    hide *;
    var p, q, s := Val(a3), Val(b3), Val(a3 ^ b3);
    NextByte(0, 0, 0, a3, b3, p, q, s);
    var p', q', s' := 0x100 * p + Val(a2), 0x100 * q + Val(b2), 0x100 * s + Val(a2 ^ b2);
    NextByte(p, q, s, a2, b2, p', q', s');
    var p'', q'', s'' := 0x100 * p' + Val(a1), 0x100 * q' + Val(b1), 0x100 * s' + Val(a1 ^ b1);
    NextByte(p', q', s', a1, b1, p'', q'', s'');
    NextByte(p'', q'', s'', a0, b0, a, b, r);
  }

  lemma XorOfZero()
    ensures Xor(0, 0) == 0
  {
  }

  lemma XorIsXor(a: U32, b: U32)
    ensures Xor32(a, b) == Xor(a, b)
  {
  }

  lemma {:induction false} ShrIs(x: nat, k: nat)
    ensures Shr(x, k) == x / Pow2(k)
  {
    if k > 0 {
      ShrIs(x / 2, k - 1);
      DivDiv(x, Pow2(k - 1));
    }
  }

  lemma DivDiv(x: nat, q: nat)
    requires q > 0
    ensures x / 2 / q == x / (2 * q)
  {
    var h, r := x / 2, x / 2 % q;
    assert x == 2 * q * (h / q) + (2 * r + x % 2);
    QuotientUnique(x, 2 * q, h / q, 2 * r + x % 2);
  }

  lemma RotateIs(x: U32, k: nat, q: nat, p: nat, r: U32)
    requires k <= 32 && Pow2(k) == q && Pow2(32 - k) == p && r == x / q + x % q * p
    ensures Rotate32(x, k) == r
  {
    var lo := RotateIsShifts(x, k);
    ShrIs(x, k);
    QuotientUnique(x, q, Shr(x, k), lo);
  }

  lemma StirIs(h: U32, k: nat, q: nat, p: nat, r: U32, out: U32)
    requires k <= 32 && Pow2(k) == q && Pow2(32 - k) == p && r == h / q + h % q * p
    requires out == (r * 5 + 0xe6546b64) % 0x1_0000_0000
    ensures Stir(h, k) == out
  {
    RotateIs(h, k, q, p, r);
    FiveTimes(r);
    hide Pow2, Rotate32, Mul32, Add32;
  }

  lemma FiveTimes(r: U32)
    ensures Add32(Mul32(r, 5), 0xe6546b64) == (r * 5 + 0xe6546b64) % 0x1_0000_0000
  {
  }

  lemma ScrambleIs(a: U32, m: U32, r: U32, out: U32)
    requires m == a * 0xcc9e2d51 % 0x1_0000_0000 && r == m / 0x2_0000 + m % 0x2_0000 * 0x8000
    requires out == r * 0x1b873593 % 0x1_0000_0000
    ensures Scramble(a) == out
  {
    Powers();
    RotateIs(m, 17, 0x2_0000, 0x8000, r);
  }

  lemma Powers()
    ensures Pow2(13) == 0x2000 && Pow2(14) == 0x4000 && Pow2(15) == 0x8000 && Pow2(16) == 0x1_0000
    ensures Pow2(17) == 0x2_0000 && Pow2(18) == 0x4_0000 && Pow2(19) == 0x8_0000
    ensures Pow2(11) == 0x800 && Pow2(21) == 0x20_0000
  {
    assert Pow2(8) == 0x100;
    assert Pow2(16) == 0x1_0000;
  }

  /** One step of the mixing, given the word's scrambled value and its exclusive or with the state. */
  lemma MurIs(a: U32, h: U32, s: U32, x: U32, out: U32)
    requires Scramble(a) == s && Xor32(h, s) == x && Stir(x, 19) == out
    ensures Mur(a, h) == out
  {
  }

  /** The final mixing, from the three exclusive ors. */
  lemma FmixIs(h: U32, x1: U32, m1: U32, x2: U32, m2: U32, x3: U32)
    requires Xor32(h, h / 0x1_0000) == x1 && m1 == x1 * 0x85ebca6b % 0x1_0000_0000
    requires Xor32(m1, m1 / 0x2000) == x2 && m2 == x2 * 0xc2b2ae35 % 0x1_0000_0000 && Xor32(m2, m2 / 0x1_0000) == x3
    ensures Fmix(h) == x3
  {
    Powers();
    ShrIs(h, 16);
    ShrIs(m1, 13);
    ShrIs(m2, 16);
    hide Shr, Xor32, Pow2;
  }

  /** Rotated, then multiplied. */
  lemma TurnIs(x: U32, k: nat, q: nat, p: nat, r: U32, out: U32)
    requires k <= 32 && Pow2(k) == q && Pow2(32 - k) == p && r == x / q + x % q * p
    requires out == r * 0xcc9e2d51 % 0x1_0000_0000
    ensures MulC1(Rotate32(x, k)) == out
  {
    RotateIs(x, k, q, p, r);
  }

  // ---------------------------------------------------------------- given strings

  lemma OneBlock(s: Bytes)
    requires 20 <= |s|
    ensures Blocks(s, 1) == [BlockAt(s, 0)]
    ensures forall st :: Fold(st, Blocks(s, 1)) == Round(st, BlockAt(s, 0))
  {
    assert Blocks(s, 0) == [];
    assert [BlockAt(s, 0)][..0] == [];
    hide Round, BlockAt;
    forall st ensures Fold(st, Blocks(s, 1)) == Round(st, BlockAt(s, 0)) {
      assert Fold(st, []) == st;
    }
  }

  lemma HashOf7Steps()
    ensures Mur(0x37, Mur(1, 0x3e)) == 0x119335d5
    ensures Xor32(0x9, 0x37) == 0x3e
  {
    hide Xor, Xor32, Shr, Pow2, Rotate32, MulC1, Scramble, Stir, Mur, Fmix;
    Powers();
    XorIs(0x9, 0x37, 0x3e, 0x0, 0x0, 0x0, 0x9, 0x0, 0x0, 0x0, 0x37);
    ScrambleIs(0x1, 0xcc9e2d51, 0x16a8e64f, 0xc3539a5d);
    XorIs(0x3e, 0xc3539a5d, 0xc3539a63, 0x0, 0x0, 0x0, 0x3e, 0xc3, 0x53, 0x9a, 0x5d);
    StirIs(0xc3539a63, 19, 0x80000, 0x2000, 0x734c786a, 0x26d2c576);
    MurIs(0x1, 0x3e, 0xc3539a5d, 0xc3539a63, 0x26d2c576);
    ScrambleIs(0x37, 0xf5fbbc67, 0xde33fafd, 0x653a8047);
    XorIs(0x26d2c576, 0x653a8047, 0x43e84531, 0x26, 0xd2, 0xc5, 0x76, 0x65, 0x3a, 0x80, 0x47);
    StirIs(0x43e84531, 19, 0x80000, 0x2000, 0x8a6287d, 0x119335d5);
    MurIs(0x37, 0x26d2c576, 0x653a8047, 0x43e84531, 0x119335d5);
  }

  lemma HashOf7Mixed()
    ensures Fmix(0x119335d5) == 0xa4aab7b7
  {
    hide Xor, Xor32, Shr, Pow2, Rotate32, MulC1, Scramble, Stir, Mur, Fmix;
    Powers();
    XorIs(0x119335d5, 0x1193, 0x11932446, 0x11, 0x93, 0x35, 0xd5, 0x0, 0x0, 0x11, 0x93);
    XorIs(0x1d616542, 0xeb0b, 0x1d618e49, 0x1d, 0x61, 0x65, 0x42, 0x0, 0x0, 0xeb, 0xb);
    XorIs(0xa4aa131d, 0xa4aa, 0xa4aab7b7, 0xa4, 0xaa, 0x13, 0x1d, 0x0, 0x0, 0xa4, 0xaa);
    FmixIs(0x119335d5, 0x11932446, 0x1d616542, 0x1d618e49, 0xa4aa131d, 0xa4aab7b7);
  }

  /** The user id 7. */
  lemma HashOf7()
    ensures Hash32([0x37], 1) == 0xa4aab7b7
  {
    hide Fmix, Mur, Xor32, Stir, Scramble, Rotate32, Shr, Xor, Pow2;
    var s: Bytes := [0x37];
    HashOf7Steps();
    HashOf7Mixed();
    assert s[..0] == [] && Poly([]) == (0, 9);
    assert PolyStep(0x0, 0x37) == 0x37;
    assert s[..1][..0] == s[..0] && Poly(s[..1]) == (0x37, 0x3e);
    assert s[..1] == s;
  }

  lemma HashOf42Steps()
    ensures Mur(0x902134a6, Mur(2, 0x9021349b)) == 0x707fb0de
    ensures Xor32(0x9, 0x34) == 0x3d
    ensures Xor32(0x3d, 0x902134a6) == 0x9021349b
  {
    hide Xor, Xor32, Shr, Pow2, Rotate32, MulC1, Scramble, Stir, Mur, Fmix;
    Powers();
    XorIs(0x9, 0x34, 0x3d, 0x0, 0x0, 0x0, 0x9, 0x0, 0x0, 0x0, 0x34);
    XorIs(0x3d, 0x902134a6, 0x9021349b, 0x0, 0x0, 0x0, 0x3d, 0x90, 0x21, 0x34, 0xa6);
    ScrambleIs(0x2, 0x993c5aa2, 0x2d514c9e, 0xebddb4ba);
    XorIs(0x9021349b, 0xebddb4ba, 0x7bfc8021, 0x90, 0x21, 0x34, 0x9b, 0xeb, 0xdd, 0xb4, 0xba);
    StirIs(0x7bfc8021, 19, 0x80000, 0x2000, 0x90042f7f, 0xb66958df);
    MurIs(0x2, 0x9021349b, 0xebddb4ba, 0x7bfc8021, 0xb66958df);
    ScrambleIs(0x902134a6, 0x3736d686, 0x6b431b9b, 0x63fcf101);
    XorIs(0xb66958df, 0x63fcf101, 0xd595a9de, 0xb6, 0x69, 0x58, 0xdf, 0x63, 0xfc, 0xf1, 0x1);
    StirIs(0xd595a9de, 19, 0x80000, 0x2000, 0xb53bdab2, 0x707fb0de);
    MurIs(0x902134a6, 0xb66958df, 0x63fcf101, 0xd595a9de, 0x707fb0de);
  }

  lemma HashOf42Mixed()
    ensures Fmix(0x707fb0de) == 0xe84da12e
  {
    hide Xor, Xor32, Shr, Pow2, Rotate32, MulC1, Scramble, Stir, Mur, Fmix;
    Powers();
    XorIs(0x707fb0de, 0x707f, 0x707fc0a1, 0x70, 0x7f, 0xb0, 0xde, 0x0, 0x0, 0x70, 0x7f);
    XorIs(0x4c2f8d4b, 0x2617c, 0x4c2dec37, 0x4c, 0x2f, 0x8d, 0x4b, 0x0, 0x2, 0x61, 0x7c);
    XorIs(0xe84d4963, 0xe84d, 0xe84da12e, 0xe8, 0x4d, 0x49, 0x63, 0x0, 0x0, 0xe8, 0x4d);
    FmixIs(0x707fb0de, 0x707fc0a1, 0x4c2f8d4b, 0x4c2dec37, 0xe84d4963, 0xe84da12e);
  }

  /** The user id 42. */
  lemma HashOf42()
    ensures Hash32([0x34, 0x32], 2) == 0xe84da12e
  {
    hide Fmix, Mur, Xor32, Stir, Scramble, Rotate32, Shr, Xor, Pow2;
    var s: Bytes := [0x34, 0x32];
    HashOf42Steps();
    HashOf42Mixed();
    assert s[..0] == [] && Poly([]) == (0, 9);
    assert PolyStep(0x0, 0x34) == 0x34;
    assert s[..1][..0] == s[..0] && Poly(s[..1]) == (0x34, 0x3d);
    assert PolyStep(0x34, 0x32) == 0x902134a6;
    assert s[..2][..1] == s[..1] && Poly(s[..2]) == (0x902134a6, 0x9021349b);
    assert s[..2] == s;
  }

  lemma HashOfFFSteps()
    ensures Mur(0xffffffff, Mur(1, 0xfffffff6)) == 0xff2e9e42
    ensures Xor32(0x9, 0xffffffff) == 0xfffffff6
  {
    hide Xor, Xor32, Shr, Pow2, Rotate32, MulC1, Scramble, Stir, Mur, Fmix;
    Powers();
    XorIs(0x9, 0xffffffff, 0xfffffff6, 0x0, 0x0, 0x0, 0x9, 0xff, 0xff, 0xff, 0xff);
    ScrambleIs(0x1, 0xcc9e2d51, 0x16a8e64f, 0xc3539a5d);
    XorIs(0xfffffff6, 0xc3539a5d, 0x3cac65ab, 0xff, 0xff, 0xff, 0xf6, 0xc3, 0x53, 0x9a, 0x5d);
    StirIs(0x3cac65ab, 19, 0x80000, 0x2000, 0x8cb56795, 0xa5df714d);
    MurIs(0x1, 0xfffffff6, 0xc3539a5d, 0x3cac65ab, 0xa5df714d);
    ScrambleIs(0xffffffff, 0x3361d2af, 0xe95799b0, 0xbbeeb010);
    XorIs(0xa5df714d, 0xbbeeb010, 0x1e31c15d, 0xa5, 0xdf, 0x71, 0x4d, 0xbb, 0xee, 0xb0, 0x10);
    StirIs(0x1e31c15d, 19, 0x80000, 0x2000, 0x382ba3c6, 0xff2e9e42);
    MurIs(0xffffffff, 0xa5df714d, 0xbbeeb010, 0x1e31c15d, 0xff2e9e42);
  }

  lemma HashOfFFMixed()
    ensures Fmix(0xff2e9e42) == 0x1d89fece
  {
    hide Xor, Xor32, Shr, Pow2, Rotate32, MulC1, Scramble, Stir, Mur, Fmix;
    Powers();
    XorIs(0xff2e9e42, 0xff2e, 0xff2e616c, 0xff, 0x2e, 0x9e, 0x42, 0x0, 0x0, 0xff, 0x2e);
    XorIs(0xcb65f024, 0x65b2f, 0xcb63ab0b, 0xcb, 0x65, 0xf0, 0x24, 0x0, 0x6, 0x5b, 0x2f);
    XorIs(0x1d89e347, 0x1d89, 0x1d89fece, 0x1d, 0x89, 0xe3, 0x47, 0x0, 0x0, 0x1d, 0x89);
    FmixIs(0xff2e9e42, 0xff2e616c, 0xcb65f024, 0xcb63ab0b, 0x1d89e347, 0x1d89fece);
  }

  /** One byte with its sign bit set. */
  lemma HashOfFF()
    ensures Hash32([0xff], 1) == 0x1d89fece
  {
    hide Fmix, Mur, Xor32, Stir, Scramble, Rotate32, Shr, Xor, Pow2;
    var s: Bytes := [0xff];
    HashOfFFSteps();
    HashOfFFMixed();
    assert s[..0] == [] && Poly([]) == (0, 9);
    assert PolyStep(0x0, 0xff) == 0xffffffff;
    assert s[..1][..0] == s[..0] && Poly(s[..1]) == (0xffffffff, 0xfffffff6);
    assert s[..1] == s;
  }

  lemma HashOf12345Steps()
    ensures Mur(0x3433323a, Mur(0x3534334b, Mur(0x34333236, 0x19))) == 0x40b26499
  {
    hide Xor, Xor32, Shr, Pow2, Rotate32, MulC1, Scramble, Stir, Mur, Fmix;
    Powers();
    ScrambleIs(0x34333236, 0x895a6116, 0x308b44ad, 0x2b6b4057);
    XorIs(0x19, 0x2b6b4057, 0x2b6b404e, 0x0, 0x0, 0x0, 0x19, 0x2b, 0x6b, 0x40, 0x57);
    StirIs(0x2b6b404e, 19, 0x80000, 0x2000, 0x6809c56d, 0xee854685);
    MurIs(0x34333236, 0x19, 0x2b6b4057, 0x2b6b404e, 0xee854685);
    ScrambleIs(0x3534334b, 0x6ed269bb, 0x34ddb769, 0xda80e4b);
    XorIs(0xee854685, 0xda80e4b, 0xe32d48ce, 0xee, 0x85, 0x46, 0x85, 0xd, 0xa8, 0xe, 0x4b);
    StirIs(0xe32d48ce, 19, 0x80000, 0x2000, 0xa919dc65, 0x33d5b95d);
    MurIs(0x3534334b, 0xee854685, 0xda80e4b, 0xe32d48ce, 0x33d5b95d);
    ScrambleIs(0x3433323a, 0xbbd3165a, 0x8b2d5de9, 0x685d29cb);
    XorIs(0x33d5b95d, 0x685d29cb, 0x5b889096, 0x33, 0xd5, 0xb9, 0x5d, 0x68, 0x5d, 0x29, 0xcb);
    StirIs(0x5b889096, 19, 0x80000, 0x2000, 0x1212cb71, 0x40b26499);
    MurIs(0x3433323a, 0x33d5b95d, 0x685d29cb, 0x5b889096, 0x40b26499);
  }

  lemma HashOf12345Mixed()
    ensures Fmix(0x40b26499) == 0xaf9cc651
  {
    hide Xor, Xor32, Shr, Pow2, Rotate32, MulC1, Scramble, Stir, Mur, Fmix;
    Powers();
    XorIs(0x40b26499, 0x40b2, 0x40b2242b, 0x40, 0xb2, 0x64, 0x99, 0x0, 0x0, 0x40, 0xb2);
    XorIs(0x25780bf9, 0x12bc0, 0x25792039, 0x25, 0x78, 0xb, 0xf9, 0x0, 0x1, 0x2b, 0xc0);
    XorIs(0xaf9c69cd, 0xaf9c, 0xaf9cc651, 0xaf, 0x9c, 0x69, 0xcd, 0x0, 0x0, 0xaf, 0x9c);
    FmixIs(0x40b26499, 0x40b2242b, 0x25780bf9, 0x25792039, 0xaf9c69cd, 0xaf9cc651);
  }

  /** The user id 12345. */
  lemma HashOf12345()
    ensures Hash32([0x31, 0x32, 0x33, 0x34, 0x35], 5) == 0xaf9cc651
  {
    hide Fmix, Mur, Xor32, Stir, Scramble, Rotate32, Shr, Xor, Pow2;
    var s: Bytes := [0x31, 0x32, 0x33, 0x34, 0x35];
    HashOf12345Steps();
    HashOf12345Mixed();
    assert Fetch32(s, 0) == 0x34333231 && Fetch32(s, 1) == 0x35343332 && Fetch32(s, 0) == 0x34333231;
    assert Len5to12(5, 0x34333231, 0x35343332, 0x34333231) == 0xaf9cc651;
  }

  lemma HashOf1234567890Steps()
    ensures Mur(0x3837363e, Mur(0x30393869, Mur(0x3433323b, 0x32))) == 0xe0299a7c
  {
    hide Xor, Xor32, Shr, Pow2, Rotate32, MulC1, Scramble, Stir, Mur, Fmix;
    Powers();
    ScrambleIs(0x3433323b, 0x887143ab, 0xa1d5c438, 0x90e74428);
    XorIs(0x32, 0x90e74428, 0x90e7441a, 0x0, 0x0, 0x0, 0x32, 0x90, 0xe7, 0x44, 0x28);
    StirIs(0x90e7441a, 19, 0x80000, 0x2000, 0xe883521c, 0x70e505f0);
    MurIs(0x3433323b, 0x32, 0x90e74428, 0x90e7441a, 0x70e505f0);
    ScrambleIs(0x30393869, 0xcdd34e39, 0xa71ce6e9, 0x4945d4cb);
    XorIs(0x70e505f0, 0x4945d4cb, 0x39a0d13b, 0x70, 0xe5, 0x5, 0xf0, 0x49, 0x45, 0xd4, 0xcb);
    StirIs(0x39a0d13b, 19, 0x80000, 0x2000, 0x1a276734, 0x69196f68);
    MurIs(0x30393869, 0x70e505f0, 0x4945d4cb, 0x39a0d13b, 0x69196f68);
    ScrambleIs(0x3837363e, 0x60450f9e, 0x87cf3022, 0xd8ddad86);
    XorIs(0x69196f68, 0xd8ddad86, 0xb1c4c2ee, 0x69, 0x19, 0x6f, 0x68, 0xd8, 0xdd, 0xad, 0x86);
    StirIs(0xb1c4c2ee, 19, 0x80000, 0x2000, 0x985dd638, 0xe0299a7c);
    MurIs(0x3837363e, 0x69196f68, 0xd8ddad86, 0xb1c4c2ee, 0xe0299a7c);
  }

  lemma HashOf1234567890Mixed()
    ensures Fmix(0xe0299a7c) == 0x643ede60
  {
    hide Xor, Xor32, Shr, Pow2, Rotate32, MulC1, Scramble, Stir, Mur, Fmix;
    Powers();
    XorIs(0xe0299a7c, 0xe029, 0xe0297a55, 0xe0, 0x29, 0x9a, 0x7c, 0x0, 0x0, 0xe0, 0x29);
    XorIs(0xe0e43387, 0x70721, 0xe0e334a6, 0xe0, 0xe4, 0x33, 0x87, 0x0, 0x7, 0x7, 0x21);
    XorIs(0x643eba5e, 0x643e, 0x643ede60, 0x64, 0x3e, 0xba, 0x5e, 0x0, 0x0, 0x64, 0x3e);
    FmixIs(0xe0299a7c, 0xe0297a55, 0xe0e43387, 0xe0e334a6, 0x643eba5e, 0x643ede60);
  }

  /** The user id 1234567890, a string of eight bytes or more. */
  lemma HashOf1234567890()
    ensures Hash32([0x31, 0x32, 0x33, 0x34, 0x35, 0x36, 0x37, 0x38, 0x39, 0x30], 10) == 0x643ede60
  {
    hide Fmix, Mur, Xor32, Stir, Scramble, Rotate32, Shr, Xor, Pow2;
    var s: Bytes := [0x31, 0x32, 0x33, 0x34, 0x35, 0x36, 0x37, 0x38, 0x39, 0x30];
    HashOf1234567890Steps();
    HashOf1234567890Mixed();
    assert Fetch32(s, 0) == 0x34333231 && Fetch32(s, 6) == 0x30393837 && Fetch32(s, 4) == 0x38373635;
    assert Len5to12(10, 0x34333231, 0x30393837, 0x38373635) == 0x643ede60;
  }

  lemma HashOf1234567890123First()
    ensures Mur(0x36353433, 0xd) == 0x549361a5
    ensures Mur(0x38373635, 0x549361a5) == 0x593b7c6f
    ensures Mur(0x39383736, 0x593b7c6f) == 0x6bcb0d13
  {
    hide Xor, Xor32, Shr, Pow2, Rotate32, MulC1, Scramble, Stir, Mur, Fmix;
    Powers();
    ScrambleIs(0x36353433, 0x5c7c7b23, 0x3d91ae3e, 0xf06be39a);
    XorIs(0xd, 0xf06be39a, 0xf06be397, 0x0, 0x0, 0x0, 0xd, 0xf0, 0x6b, 0xe3, 0x9a);
    StirIs(0xf06be397, 19, 0x80000, 0x2000, 0x7c72fe0d, 0x549361a5);
    MurIs(0x36353433, 0xd, 0xf06be39a, 0xf06be397, 0x549361a5);
    ScrambleIs(0x38373635, 0x2eb577c5, 0xbbe2975a, 0x1ae88aae);
    XorIs(0x549361a5, 0x1ae88aae, 0x4e7beb0b, 0x54, 0x93, 0x61, 0xa5, 0x1a, 0xe8, 0x8a, 0xae);
    StirIs(0x4e7beb0b, 19, 0x80000, 0x2000, 0x7d6169cf, 0x593b7c6f);
    MurIs(0x38373635, 0x549361a5, 0x1ae88aae, 0x4e7beb0b, 0x593b7c6f);
    ScrambleIs(0x39383736, 0x17d1f616, 0xfb0b0be8, 0x3026de38);
    XorIs(0x593b7c6f, 0x3026de38, 0x691da257, 0x59, 0x3b, 0x7c, 0x6f, 0x30, 0x26, 0xde, 0x38);
    StirIs(0x691da257, 19, 0x80000, 0x2000, 0xb44aed23, 0x6bcb0d13);
    MurIs(0x39383736, 0x593b7c6f, 0x3026de38, 0x691da257, 0x6bcb0d13);
  }

  lemma HashOf1234567890123Second()
    ensures Mur(0x30393837, 0x6bcb0d13) == 0x4ba08523
    ensures Mur(0x34333231, 0x4ba08523) == 0x38b6f881
    ensures Mur(0x33323130, 0x38b6f881) == 0x75c5d7e3
  {
    hide Xor, Xor32, Shr, Pow2, Rotate32, MulC1, Scramble, Stir, Mur, Fmix;
    Powers();
    ScrambleIs(0x30393837, 0xd6ee7467, 0x3a33eb77, 0xe450d855);
    XorIs(0x6bcb0d13, 0xe450d855, 0x8f9bd546, 0x6b, 0xcb, 0xd, 0x13, 0xe4, 0x50, 0xd8, 0x55);
    StirIs(0x8f9bd546, 19, 0x80000, 0x2000, 0x7aa8d1f3, 0x4ba08523);
    MurIs(0x30393837, 0x6bcb0d13, 0xe450d855, 0x8f9bd546, 0x4ba08523);
    ScrambleIs(0x34333231, 0x8a437e81, 0xbf40c521, 0xaa6806f3);
    XorIs(0x4ba08523, 0xaa6806f3, 0xe1c883d0, 0x4b, 0xa0, 0x85, 0x23, 0xaa, 0x68, 0x6, 0xf3);
    StirIs(0xe1c883d0, 19, 0x80000, 0x2000, 0x107a1c39, 0x38b6f881);
    MurIs(0x34333231, 0x4ba08523, 0xaa6806f3, 0xe1c883d0, 0x38b6f881);
    ScrambleIs(0x33323130, 0xa1270030, 0x80185093, 0x9529b369);
    XorIs(0x38b6f881, 0x9529b369, 0xad9f4be8, 0x38, 0xb6, 0xf8, 0x81, 0x95, 0x29, 0xb3, 0x69);
    StirIs(0xad9f4be8, 19, 0x80000, 0x2000, 0xe97d15b3, 0x75c5d7e3);
    MurIs(0x33323130, 0x38b6f881, 0x9529b369, 0xad9f4be8, 0x75c5d7e3);
  }

  lemma HashOf1234567890123Mixed()
    ensures Fmix(0x75c5d7e3) == 0x11bc2118
  {
    hide Xor, Xor32, Shr, Pow2, Rotate32, MulC1, Scramble, Stir, Mur, Fmix;
    Powers();
    XorIs(0x75c5d7e3, 0x75c5, 0x75c5a226, 0x75, 0xc5, 0xd7, 0xe3, 0x0, 0x0, 0x75, 0xc5);
    XorIs(0xc26ec1e2, 0x61376, 0xc268d294, 0xc2, 0x6e, 0xc1, 0xe2, 0x0, 0x6, 0x13, 0x76);
    XorIs(0x11bc30a4, 0x11bc, 0x11bc2118, 0x11, 0xbc, 0x30, 0xa4, 0x0, 0x0, 0x11, 0xbc);
    FmixIs(0x75c5d7e3, 0x75c5a226, 0xc26ec1e2, 0xc268d294, 0x11bc30a4, 0x11bc2118);
  }

  /** The user id 1234567890123. */
  lemma HashOf1234567890123()
    ensures Hash32([0x31, 0x32, 0x33, 0x34, 0x35, 0x36, 0x37, 0x38, 0x39, 0x30, 0x31, 0x32, 0x33], 13) == 0x11bc2118
  {
    hide Fmix, Mur, Xor32, Stir, Scramble, Rotate32, Shr, Xor, Pow2;
    var s: Bytes := [0x31, 0x32, 0x33, 0x34, 0x35, 0x36, 0x37, 0x38, 0x39, 0x30, 0x31, 0x32, 0x33];
    HashOf1234567890123First();
    HashOf1234567890123Second();
    HashOf1234567890123Mixed();
    assert Fetch32(s, 2) == 0x36353433;
    assert Fetch32(s, 4) == 0x38373635;
    assert Fetch32(s, 5) == 0x39383736;
    assert Fetch32(s, 6) == 0x30393837;
    assert Fetch32(s, 0) == 0x34333231;
    assert Fetch32(s, 9) == 0x33323130;
    assert Len13to24(13, 0x36353433, 0x38373635, 0x39383736, 0x30393837, 0x34333231, 0x33323130) == 0x11bc2118;
  }

  lemma HashOfLettersTail()
    ensures Scramble(0x69686766) == 0x7c1c8afc
    ensures Scramble(0x6d6c6b6a) == 0xec9d0eb7
    ensures Scramble(0x71706f6e) == 0x5d1d9272
    ensures Scramble(0x75747372) == 0x6867962d
    ensures Scramble(0x79787776) == 0xd8e819e8
  {
    hide Xor, Xor32, Shr, Pow2, Rotate32, MulC1, Scramble, Stir, Mur, Fmix;
    Powers();
    ScrambleIs(0x69686766, 0xcd29a546, 0xd2a36694, 0x7c1c8afc);
    ScrambleIs(0x6d6c6b6a, 0x719b9e8a, 0xcf4538cd, 0xec9d0eb7);
    ScrambleIs(0x71706f6e, 0x160d97ce, 0xcbe70b06, 0x5d1d9272);
    ScrambleIs(0x75747372, 0xba7f9112, 0xc8895d3f, 0x6867962d);
    ScrambleIs(0x79787776, 0x5ef18a56, 0xc52b2f78, 0xd8e819e8);
  }

  lemma HashOfLettersFirst()
    ensures Stir(0x778ef7e5, 19) == 0x4143d619
    ensures Xor32(0xfb726ce9, 0x6867962d) == 0x9315fac4
    ensures Stir(0x9315fac4, 19) == 0xa30f474e
    ensures Xor32(0xa30f474e, 0x5d1d9272) == 0xfe12d53c
    ensures Stir(0xfe12d53c, 19) == 0xab9a8a2e
    ensures Xor32(0x19, 0xd8e819e8) == 0xd8e819f1
    ensures Stir(0xd8e819f1, 19) == 0xf68b92f5
    ensures Xor32(0xf68b92f5, 0xec9d0eb7) == 0x1a169c42
    ensures Stir(0x1a169c42, 19) == 0x7fdbbae
  {
    hide Xor, Xor32, Shr, Pow2, Rotate32, MulC1, Scramble, Stir, Mur, Fmix;
    Powers();
    StirIs(0x778ef7e5, 19, 0x80000, 0x2000, 0xdefcaef1, 0x4143d619);
    XorIs(0xfb726ce9, 0x6867962d, 0x9315fac4, 0xfb, 0x72, 0x6c, 0xe9, 0x68, 0x67, 0x96, 0x2d);
    StirIs(0x9315fac4, 19, 0x80000, 0x2000, 0xbf589262, 0xa30f474e);
    XorIs(0xa30f474e, 0x5d1d9272, 0xfe12d53c, 0xa3, 0xf, 0x47, 0x4e, 0x5d, 0x1d, 0x92, 0x72);
    StirIs(0xfe12d53c, 19, 0x80000, 0x2000, 0x5aa79fc2, 0xab9a8a2e);
    XorIs(0x19, 0xd8e819e8, 0xd8e819f1, 0x0, 0x0, 0x0, 0x19, 0xd8, 0xe8, 0x19, 0xe8);
    StirIs(0xd8e819f1, 19, 0x80000, 0x2000, 0x33e3b1d, 0xf68b92f5);
    XorIs(0xf68b92f5, 0xec9d0eb7, 0x1a169c42, 0xf6, 0x8b, 0x92, 0xf5, 0xec, 0x9d, 0xe, 0xb7);
    StirIs(0x1a169c42, 19, 0x80000, 0x2000, 0xd3884342, 0x7fdbbae);
  }

  lemma HashOfLettersLengths()
    ensures MulC1(25) == 0xfb726ce9 && Add32(0xfb726ce9, 0x7c1c8afc) == 0x778ef7e5
  {
    hide Scramble;
  }

  lemma HashOfLettersStart()
    ensures Start(25, Block(0x69686766, 0x6d6c6b6a, 0x71706f6e, 0x75747372, 0x79787776))
      == State(0x4143d619, 0xab9a8a2e, 0x7fdbbae)
  {
    hide Scramble, Stir, Xor32, MulC1, Add32;
    HashOfLettersTail();
    HashOfLettersFirst();
    HashOfLettersLengths();
  }

  lemma HashOfLettersWords()
    ensures Scramble(0x64636261) == 0x5b9433b7 && Scramble(0x6c6b6a69) == 0xd75ebb2d
    ensures Scramble(0x706f6e6d) == 0x47df3ee8
  {
    hide Xor, Xor32, Shr, Pow2, Rotate32, MulC1, Scramble, Stir, Mur, Fmix;
    Powers();
    ScrambleIs(0x64636261, 0x3f9b2db1, 0x96d89fcd, 0x5b9433b7);
    ScrambleIs(0x6c6b6a69, 0x887f2039, 0x901cc43f, 0xd75ebb2d);
    ScrambleIs(0x706f6e6d, 0x2cf1197d, 0x8cbe9678, 0x47df3ee8);
  }

  lemma HashOfLettersSteps()
    ensures Xor32(0x7fdbbae, 0x5b9433b7) == 0x5c698819
    ensures Stir(0x5c698819, 18) == 0xd0741ee6
    ensures MulC1(Rotate32(0xa9ab3c7e, 19)) == 0xdfb2c6c5
    ensures Stir(0x82f9455b, 18) == 0x7d06cf1a
    ensures Xor32(0xd0741ee6, 0xb046a54d) == 0x6032bbab
    ensures Stir(0x6032bbab, 19) == 0x9b9f8782
    ensures Xor32(0x7d06cf1a, 0x74737271) == 0x975bd6b
  {
    hide Xor, Xor32, Shr, Pow2, Rotate32, MulC1, Scramble, Stir, Mur, Fmix;
    Powers();
    XorIs(0x7fdbbae, 0x5b9433b7, 0x5c698819, 0x7, 0xfd, 0xbb, 0xae, 0x5b, 0x94, 0x33, 0xb7);
    StirIs(0x5c698819, 18, 0x40000, 0x4000, 0x6206571a, 0xd0741ee6);
    TurnIs(0xa9ab3c7e, 19, 0x80000, 0x2000, 0x678fd535, 0xdfb2c6c5);
    StirIs(0x82f9455b, 18, 0x40000, 0x4000, 0x5156e0be, 0x7d06cf1a);
    XorIs(0xd0741ee6, 0xb046a54d, 0x6032bbab, 0xd0, 0x74, 0x1e, 0xe6, 0xb0, 0x46, 0xa5, 0x4d);
    StirIs(0x6032bbab, 19, 0x80000, 0x2000, 0x57756c06, 0x9b9f8782);
    XorIs(0x7d06cf1a, 0x74737271, 0x975bd6b, 0x7d, 0x6, 0xcf, 0x1a, 0x74, 0x73, 0x72, 0x71);
  }

  lemma HashOfLettersSums()
    ensures Add32(0x4143d619, 0x68676665) == 0xa9ab3c7e && Add32(0xab9a8a2e, 0xd75ebb2d) == 0x82f9455b
    ensures Add32(0x47df3ee8, 0x68676665) == 0xb046a54d && Add32(0xdfb2c6c5, 0x5b9433b7) == 0x3b46fa7c
    ensures Mul32(0x74737271, 5) == 0x46413c35 && Add32(0x9b9f8782, 0x46413c35) == 0xe1e0c3b7
    ensures Mul32(Bswap32(0x975bd6b), 5) == 0x1ab3492d && Bswap32(0xe1e0c3b7) == 0xb7c3e0e1
  {
    hide Scramble;
    assert Bswap32(0x975bd6b) == 0x6bbd7509;
  }

  lemma HashOfLettersRound()
    ensures Round(State(0x4143d619, 0xab9a8a2e, 0x7fdbbae),
      Block(0x64636261, 0x68676665, 0x6c6b6a69, 0x706f6e6d, 0x74737271))
      == State(0x1ab3492d, 0xb7c3e0e1, 0x3b46fa7c)
  {
    hide Scramble, Stir, Xor32, Rotate32, MulC1, Add32, Mul32, Bswap32;
    HashOfLettersWords();
    HashOfLettersSteps();
    HashOfLettersSums();
  }

  lemma HashOfLettersLast()
    ensures MulC1(Rotate32(0xb7c3e0e1, 11)) == 0xc39a6b3c
    ensures MulC1(Rotate32(0xc39a6b3c, 17)) == 0x86d3fadd
    ensures MulC1(Rotate32(0x1ab3492d, 11)) == 0x9faccc39
    ensures MulC1(Rotate32(0x9faccc39, 17)) == 0x2dba60b6
    ensures Stir(0xc21af559, 19) == 0xbfac84b3
    ensures MulC1(Rotate32(0xbfac84b3, 17)) == 0x78dc70b6
    ensures Stir(0xa696d16c, 19) == 0x2938537e
    ensures MulC1(Rotate32(0x2938537e, 17)) == 0xd45cf15c
  {
    hide Xor, Xor32, Shr, Pow2, Rotate32, MulC1, Scramble, Stir, Mur, Fmix;
    Powers();
    TurnIs(0xb7c3e0e1, 11, 0x800, 0x200000, 0x1c36f87c, 0xc39a6b3c);
    TurnIs(0xc39a6b3c, 17, 0x20000, 0x8000, 0x359e61cd, 0x86d3fadd);
    TurnIs(0x1ab3492d, 11, 0x800, 0x200000, 0x25a35669, 0x9faccc39);
    TurnIs(0x9faccc39, 17, 0x20000, 0x8000, 0x661ccfd6, 0x2dba60b6);
    StirIs(0xc21af559, 19, 0x80000, 0x2000, 0x5eab3843, 0xbfac84b3);
    TurnIs(0xbfac84b3, 17, 0x20000, 0x8000, 0x4259dfd6, 0x78dc70b6);
    StirIs(0xa696d16c, 19, 0x80000, 0x2000, 0xda2d94d2, 0x2938537e);
    TurnIs(0x2938537e, 17, 0x20000, 0x8000, 0x29bf149c, 0xd45cf15c);
  }

  lemma HashOfLettersFinish()
    ensures Finish(State(0x1ab3492d, 0xb7c3e0e1, 0x3b46fa7c)) == 0xd45cf15c
  {
    hide Stir, Rotate32, MulC1;
    HashOfLettersLast();
    assert Add32(0x3b46fa7c, 0x86d3fadd) == 0xc21af559 && Add32(0x78dc70b6, 0x2dba60b6) == 0xa696d16c;
  }

  /** The 25 letters from 'a' to 'y', with one block. */
  lemma HashOfLetters()
    ensures Hash32([0x61, 0x62, 0x63, 0x64, 0x65, 0x66, 0x67, 0x68, 0x69, 0x6a, 0x6b, 0x6c, 0x6d,
      0x6e, 0x6f, 0x70, 0x71, 0x72, 0x73, 0x74, 0x75, 0x76, 0x77, 0x78, 0x79], 25) == 0xd45cf15c
  {
    hide Start, Round, Finish;
    var s: Bytes := [0x61, 0x62, 0x63, 0x64, 0x65, 0x66, 0x67, 0x68, 0x69, 0x6a, 0x6b, 0x6c, 0x6d,
      0x6e, 0x6f, 0x70, 0x71, 0x72, 0x73, 0x74, 0x75, 0x76, 0x77, 0x78, 0x79];
    HashOfLettersStart();
    HashOfLettersRound();
    HashOfLettersFinish();
    assert BlockAt(s, 5) == Block(0x69686766, 0x6d6c6b6a, 0x71706f6e, 0x75747372, 0x79787776);
    assert BlockAt(s, 0) == Block(0x64636261, 0x68676665, 0x6c6b6a69, 0x706f6e6d, 0x74737271);
    OneBlock(s);
  }

  // ---------------------------------------------------------------- owners

  lemma MoreDigits(m: nat, d: nat)
    requires 0 < m && d < 10
    ensures Text.Digits(10 * m + d) == Text.Digits(m) + [Text.DIGITS[d]]
  {
  }

  lemma Printed12345()
    ensures Text.DecimalBytes(12345) == [0x31, 0x32, 0x33, 0x34, 0x35]
  {
    assert Text.Digits(1) == ['1'];
    hide Text.Digits, Text.Bytes;
    MoreDigits(1, 2);
    MoreDigits(12, 3);
    MoreDigits(123, 4);
    MoreDigits(1234, 5);
    assert Text.Decimal(12345) == ['1', '2', '3', '4', '5'];
  }

  /** The owner of user 12345 among 32 buckets. */
  lemma OwnerOf12345()
    ensures S.Owner(12345, 32) == 17
  {
    hide Hash32, Text.DecimalBytes;
    Printed12345();
    HashOf12345();
  }
}
