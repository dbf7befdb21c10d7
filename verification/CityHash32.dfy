/** The 32-bit city hash that assigns a user id to a bucket (tools/cityhash.go).

    `Hash32` is the value the hash has; `Compute` is the loop that produces it in place, one
    fetch at a time, recording every byte it reads. The laws say what the mixing never loses:
    each step is undone by an explicit inverse. */
module CityHash32 {
  import opened Words

  type Bytes = seq<U8>

  // ---------------------------------------------------------------- word mixing

  /** The little-endian word at `off`. */
  function Fetch32(s: Bytes, off: nat): U32
    requires off + 4 <= |s|
  {
    Word(s[off], s[off + 1], s[off + 2], s[off + 3])
  }

  function MulC1(x: U32): U32 { Mul32(x, 0xcc9e2d51) }

  function MulC2(x: U32): U32 { Mul32(x, 0x1b873593) }

  function XorShift(h: U32, k: nat): U32 { Xor32(h, Shr(h, k)) }

  function Fmix(h: U32): U32 {
    XorShift(Mul32(XorShift(Mul32(XorShift(h, 16), 0x85ebca6b), 13), 0xc2b2ae35), 16)
  }

  /** What happens to a data word before it meets the state. */
  function Scramble(a: U32): U32 { MulC2(Rotate32(MulC1(a), 17)) }

  /** Rotate by `k`, then five times plus a constant. */
  function Stir(h: U32, k: nat): U32 { Add32(Mul32(Rotate32(h, k), 5), 0xe6546b64) }

  function Mur(a: U32, h: U32): U32 { Stir(Xor32(h, Scramble(a)), 19) }

  // ---------------------------------------------------------------- the inverses

  function Unmix(y: U32): U32 {
    var a := Mul32(XorShift(y, 16), 0x7ed1b41d);
    XorShift(Mul32(Xor32(XorShift(a, 13), Shr(a, 26)), 0xa5cb9243), 16)
  }

  function Unscramble(y: U32): U32 { Mul32(RotateLeft32(Mul32(y, 0x56ed309b), 17), 0xdee13bb1) }

  function Unstir(y: U32, k: nat): U32 {
    RotateLeft32(Mul32(Sub32(y, 0xe6546b64), 0xcccccccd), k)
  }

  lemma XorShift16Back(x: U32)
    ensures XorShift(XorShift(x, 16), 16) == x
  {
    Pow2At32();
    hide Xor, Shr, Pow2;
    XorShiftHalfBack(x, 16, 32);
  }

  lemma XorShift13Back(x: U32)
    ensures Xor32(XorShift(XorShift(x, 13), 13), Shr(XorShift(x, 13), 26)) == x
    ensures XorShift(Xor32(XorShift(x, 13), Shr(x, 26)), 13) == x
  {
    Pow2At32();
    hide Xor, Shr, Pow2;
    XorShiftThirdBack(x, 13, 32);
  }

  lemma FmixBack(x: U32)
    ensures Unmix(Fmix(x)) == x
  {
    hide XorShift, Mul32, Xor32, Shr;
    var a := XorShift(x, 16);
    var b := Mul32(a, 0x85ebca6b);
    var c := XorShift(b, 13);
    XorShift16Back(Mul32(c, 0xc2b2ae35));
    MulBack(c, 0xc2b2ae35, 0x7ed1b41d);
    XorShift13Back(b);
    MulBack(a, 0x85ebca6b, 0xa5cb9243);
    XorShift16Back(x);
  }

  lemma FmixOnto(x: U32)
    ensures Fmix(Unmix(x)) == x
  {
    hide XorShift, Mul32, Xor32, Shr;
    var a := XorShift(x, 16);
    var d := Mul32(a, 0x7ed1b41d);
    var e := Xor32(XorShift(d, 13), Shr(d, 26));
    XorShift16Back(Mul32(e, 0xa5cb9243));
    MulBack(e, 0xa5cb9243, 0x85ebca6b);
    XorShift13Back(d);
    MulBack(a, 0x7ed1b41d, 0xc2b2ae35);
    XorShift16Back(x);
  }

  /** `Fmix` is a bijection of the 32-bit words. */
  lemma FmixBijective(x: U32)
    ensures Unmix(Fmix(x)) == x && Fmix(Unmix(x)) == x
  {
    FmixBack(x);
    FmixOnto(x);
  }

  lemma ScrambleBijective(a: U32)
    ensures Unscramble(Scramble(a)) == a && Scramble(Unscramble(a)) == a
  {
    hide Mul32, Rotate32, RotateLeft32;
    MulBack(Rotate32(MulC1(a), 17), 0x1b873593, 0x56ed309b);
    RotateBack(MulC1(a), 17);
    MulBack(a, 0xcc9e2d51, 0xdee13bb1);
    var b := Mul32(a, 0x56ed309b);
    MulBack(RotateLeft32(b, 17), 0xdee13bb1, 0xcc9e2d51);
    RotateBack(b, 17);
    MulBack(a, 0x56ed309b, 0x1b873593);
  }

  lemma StirBijective(h: U32, k: nat)
    ensures Unstir(Stir(h, k), k) == h && Stir(Unstir(h, k), k) == h
  {
    hide Mul32, Add32, Sub32, Rotate32, RotateLeft32;
    var x := Rotate32(h, k);
    AddBack(Mul32(x, 5), 0xe6546b64);
    MulBack(x, 5, 0xcccccccd);
    RotateBack(h, k);
    var z := Sub32(h, 0xe6546b64);
    RotateBack(Mul32(z, 0xcccccccd), k);
    MulBack(z, 0xcccccccd, 5);
    AddBack(h, 0xe6546b64);
  }

  /** `Mur` is a bijection in its state with the data fixed, and in its data with the state fixed. */
  lemma MurBijective(a: U32, h: U32, y: U32)
    ensures Xor32(Unstir(Mur(a, h), 19), Scramble(a)) == h
    ensures Unscramble(Xor32(Unstir(Mur(a, h), 19), h)) == a
    ensures Mur(a, Xor32(Unstir(y, 19), Scramble(a))) == y
    ensures Mur(Unscramble(Xor32(Unstir(y, 19), h)), h) == y
  {
    hide Stir, Unstir, Scramble, Unscramble, Xor32;
    var u, v := Unstir(y, 19), Scramble(a);
    StirBijective(Xor32(h, v), 19);
    StirBijective(y, 19);
    Xor32Back(h, v);
    Xor32Back(v, h);
    Xor32Back(u, v);
    Xor32Back(u, h);
    Xor32Back(h, Xor32(u, h));
    ScrambleBijective(a);
    ScrambleBijective(Xor32(u, h));
  }

  // ---------------------------------------------------------------- the block round

  datatype State = State(f: U32, g: U32, h: U32)

  /** Twenty bytes of input, as five words. */
  datatype Block = Block(w0: U32, w1: U32, w2: U32, w3: U32, w4: U32)

  function Round(st: State, b: Block): State {
    var h1 := Stir(Xor32(st.h, Scramble(b.w0)), 18);
    var f1 := MulC1(Rotate32(Add32(st.f, b.w1), 19));
    var g1 := Stir(Add32(st.g, Scramble(b.w2)), 18);
    var h2 := Stir(Xor32(h1, Add32(Scramble(b.w3), b.w1)), 19);
    var g2 := Mul32(Bswap32(Xor32(g1, b.w4)), 5);
    var h3 := Bswap32(Add32(h2, Mul32(b.w4, 5)));
    State(g2, h3, Add32(f1, Scramble(b.w0)))
  }

  /** The state a round started from. */
  function Unround(st: State, b: Block): State {
    var f1 := Sub32(st.h, Scramble(b.w0));
    var h2 := Sub32(Bswap32(st.g), Mul32(b.w4, 5));
    var g1 := Xor32(Bswap32(Mul32(st.f, 0xcccccccd)), b.w4);
    var h1 := Xor32(Unstir(h2, 19), Add32(Scramble(b.w3), b.w1));
    State(
      Sub32(RotateLeft32(Mul32(f1, 0xdee13bb1), 19), b.w1),
      Sub32(Unstir(g1, 18), Scramble(b.w2)),
      Xor32(Unstir(h1, 18), Scramble(b.w0)))
  }

  lemma RoundBackF(f: U32, w0: U32, w1: U32)
    ensures Sub32(RotateLeft32(Mul32(Sub32(Add32(MulC1(Rotate32(Add32(f, w1), 19)), w0), w0), 0xdee13bb1), 19), w1) == f
    ensures Add32(MulC1(Rotate32(Add32(Sub32(RotateLeft32(Mul32(Sub32(f, w0), 0xdee13bb1), 19), w1), w1), 19)), w0) == f
  {
    hide Mul32, Add32, Sub32, Rotate32, RotateLeft32;
    var x := Add32(f, w1);
    AddBack(MulC1(Rotate32(x, 19)), w0);
    MulBack(Rotate32(x, 19), 0xcc9e2d51, 0xdee13bb1);
    RotateBack(x, 19);
    AddBack(f, w1);
    var y := Sub32(f, w0);
    var z := Mul32(y, 0xdee13bb1);
    AddBack(RotateLeft32(z, 19), w1);
    RotateBack(z, 19);
    MulBack(y, 0xdee13bb1, 0xcc9e2d51);
    AddBack(f, w0);
  }

  lemma RoundBackG(g: U32, w2: U32, w4: U32)
    ensures var g2 := Mul32(Bswap32(Xor32(Stir(Add32(g, w2), 18), w4)), 5);
      Sub32(Unstir(Xor32(Bswap32(Mul32(g2, 0xcccccccd)), w4), 18), w2) == g
    ensures var g0 := Sub32(Unstir(Xor32(Bswap32(Mul32(g, 0xcccccccd)), w4), 18), w2);
      Mul32(Bswap32(Xor32(Stir(Add32(g0, w2), 18), w4)), 5) == g
  {
    hide Mul32, Add32, Sub32, Xor32, Bswap32, Stir, Unstir;
    var x := Add32(g, w2);
    var y := Xor32(Stir(x, 18), w4);
    MulBack(Bswap32(y), 5, 0xcccccccd);
    BswapBack(y);
    Xor32Back(Stir(x, 18), w4);
    StirBijective(x, 18);
    AddBack(g, w2);
    var m := Mul32(g, 0xcccccccd);
    var z := Xor32(Bswap32(m), w4);
    AddBack(Unstir(z, 18), w2);
    StirBijective(z, 18);
    Xor32Back(Bswap32(m), w4);
    BswapBack(m);
    MulBack(g, 0xcccccccd, 5);
  }

  lemma RoundBackH(h: U32, w0: U32, w31: U32, w4: U32)
    ensures var h3 := Bswap32(Add32(Stir(Xor32(Stir(Xor32(h, w0), 18), w31), 19), w4));
      Xor32(Unstir(Xor32(Unstir(Sub32(Bswap32(h3), w4), 19), w31), 18), w0) == h
    ensures var h0 := Xor32(Unstir(Xor32(Unstir(Sub32(Bswap32(h), w4), 19), w31), 18), w0);
      Bswap32(Add32(Stir(Xor32(Stir(Xor32(h0, w0), 18), w31), 19), w4)) == h
  {
    hide Add32, Sub32, Xor32, Bswap32, Stir, Unstir;
    var h1 := Stir(Xor32(h, w0), 18);
    var h2 := Stir(Xor32(h1, w31), 19);
    BswapBack(Add32(h2, w4));
    AddBack(h2, w4);
    StirBijective(Xor32(h1, w31), 19);
    Xor32Back(h1, w31);
    StirBijective(Xor32(h, w0), 18);
    Xor32Back(h, w0);
    var k2 := Sub32(Bswap32(h), w4);
    var k1 := Xor32(Unstir(k2, 19), w31);
    Xor32Back(Unstir(k1, 18), w0);
    StirBijective(k1, 18);
    Xor32Back(Unstir(k2, 19), w31);
    StirBijective(k2, 19);
    AddBack(Bswap32(h), w4);
    BswapBack(h);
  }

  /** For every block the round is a bijection of the state. */
  lemma RoundBijective(st: State, b: Block)
    ensures Unround(Round(st, b), b) == st && Round(Unround(st, b), b) == st
  {
    hide MulC1, Mul32, Add32, Sub32, Xor32, Bswap32, Stir, Unstir, Scramble, Rotate32, RotateLeft32;
    RoundBackF(st.f, Scramble(b.w0), b.w1);
    RoundBackF(st.h, Scramble(b.w0), b.w1);
    RoundBackG(st.g, Scramble(b.w2), b.w4);
    RoundBackG(st.f, Scramble(b.w2), b.w4);
    RoundBackH(st.h, Scramble(b.w0), Add32(Scramble(b.w3), b.w1), Mul32(b.w4, 5));
    RoundBackH(st.g, Scramble(b.w0), Add32(Scramble(b.w3), b.w1), Mul32(b.w4, 5));
  }

  // ---------------------------------------------------------------- folding the blocks

  function Fold(st: State, blocks: seq<Block>): State {
    if blocks == [] then st else Round(Fold(st, blocks[..|blocks| - 1]), blocks[|blocks| - 1])
  }

  /** The same blocks taken off again, last one first. */
  function Unfold(st: State, blocks: seq<Block>): State
    decreases |blocks|
  {
    if blocks == [] then st else Unfold(Unround(st, blocks[|blocks| - 1]), blocks[..|blocks| - 1])
  }

  /** Any number of rounds is undone by the backward fold. */
  lemma {:induction false} FoldBijective(st: State, blocks: seq<Block>)
    ensures Unfold(Fold(st, blocks), blocks) == st
    ensures Fold(Unfold(st, blocks), blocks) == st
    decreases |blocks|
  {
    if blocks != [] {
      var b, front := blocks[|blocks| - 1], blocks[..|blocks| - 1];
      hide Round, Unround;
      RoundBijective(Fold(st, front), b);
      FoldBijective(st, front);
      FoldBijective(Unround(st, b), front);
      RoundBijective(st, b);
    }
  }

  /** Two states that differ never meet again over a common run of blocks. */
  lemma StatesNeverMerge(a: State, b: State, blocks: seq<Block>)
    ensures Fold(a, blocks) == Fold(b, blocks) <==> a == b
  {
    hide Fold, Unfold;
    FoldBijective(a, blocks);
    FoldBijective(b, blocks);
  }

  // ---------------------------------------------------------------- the hash

  function BlockAt(s: Bytes, off: nat): Block
    requires off + 20 <= |s|
  {
    Block(Fetch32(s, off), Fetch32(s, off + 4), Fetch32(s, off + 8), Fetch32(s, off + 12), Fetch32(s, off + 16))
  }

  function Blocks(s: Bytes, n: nat): (bs: seq<Block>)
    requires 20 * n <= |s|
    ensures |bs| == n
  {
    if n == 0 then [] else Blocks(s, n - 1) + [BlockAt(s, 20 * (n - 1))]
  }

  /** The state before the first block, from the length and the last twenty bytes. */
  function Start(length: U32, tail: Block): State {
    var g := MulC1(length);
    State(
      Stir(Add32(g, Scramble(tail.w0)), 19),
      Stir(Xor32(Stir(Xor32(g, Scramble(tail.w3)), 19), Scramble(tail.w2)), 19),
      Stir(Xor32(Stir(Xor32(length, Scramble(tail.w4)), 19), Scramble(tail.w1)), 19))
  }

  function Finish(st: State): U32 {
    var g := MulC1(Rotate32(MulC1(Rotate32(st.g, 11)), 17));
    var f := MulC1(Rotate32(MulC1(Rotate32(st.f, 11)), 17));
    var h := MulC1(Rotate32(Stir(Add32(st.h, g), 19), 17));
    MulC1(Rotate32(Stir(Add32(h, f), 19), 17))
  }

  function Int8(v: U8): int { if v < 0x80 then v else v - 0x100 }

  /** The two accumulators of the shortest case: a polynomial in `c1`, and the xor of its steps. */
  function Poly(s: Bytes): (U32, U32) {
    if s == [] then (0, 9)
    else
      var (b, c) := Poly(s[..|s| - 1]);
      var b' := PolyStep(b, s[|s| - 1]);
      (b', Xor32(c, b'))
  }

  function PolyStep(b: U32, v: U8): U32 { (b * 0xcc9e2d51 + Int8(v)) % 0x1_0000_0000 }

  function Len0to4(length: U32, acc: (U32, U32)): U32 { Fmix(Mur(acc.0, Mur(length, acc.1))) }

  function Len5to12(length: U32, first: U32, last: U32, middle: U32): U32 {
    var d := Mul32(length, 5);
    Fmix(Mur(Add32(9, middle), Mur(Add32(d, last), Mur(Add32(length, first), d))))
  }

  function Len13to24(length: U32, a: U32, b: U32, c: U32, d: U32, e: U32, f: U32): U32 {
    Fmix(Mur(f, Mur(e, Mur(d, Mur(c, Mur(b, Mur(a, length)))))))
  }

  function Hash32(s: Bytes, length: U32): U32
    requires length <= |s|
  {
    if length <= 4 then Len0to4(length, Poly(s[..length]))
    else if length <= 12 then
      Len5to12(length, Fetch32(s, 0), Fetch32(s, length - 4), Fetch32(s, if length < 8 then 0 else 4))
    else if length <= 24 then
      Len13to24(length, Fetch32(s, length / 2 - 4), Fetch32(s, 4), Fetch32(s, length - 8), Fetch32(s, length / 2),
        Fetch32(s, 0), Fetch32(s, length - 4))
    else
      Finish(Fold(Start(length, BlockAt(s, length - 20)), Blocks(s, (length - 1) / 20)))
  }

  // ---------------------------------------------------------------- the loop

  /** The positions from `lo` up to `hi`. */
  ghost function Covered(lo: nat, hi: nat): (r: set<nat>)
    ensures forall i :: i in r <==> lo <= i < hi
    decreases hi - lo
  {
    if lo < hi then {lo} + Covered(lo + 1, hi) else {}
  }

  /** Reads the word at `off` of the slice that starts at `base`, and records its four bytes. */
  method Fetch(s: Bytes, off: nat, ghost base: nat, ghost seen: set<nat>) returns (w: U32, ghost seen': set<nat>)
    requires off + 4 <= |s|
    ensures w == Fetch32(s, off)
    ensures seen' == Mark(seen, base + off)
  {
    w := Word(s[off], s[off + 1], s[off + 2], s[off + 3]);
    seen' := Mark(seen, base + off);
  }

  ghost function Mark(seen: set<nat>, off: nat): set<nat> { seen + Covered(off, off + 4) }

  method Permute3(a: U32, b: U32, c: U32) returns (a': U32, b': U32, c': U32)
    ensures a' == c && b' == a && c' == b
  {
    a', b', c' := a, b, c;
    a', b' := b', a';
    a', c' := c', a';
  }

  function Int64(x: int): int {
    (x + 0x8000_0000_0000_0000) % 0x1_0000_0000_0000_0000 - 0x8000_0000_0000_0000
  }

  /** The signed 64-bit product and sum may wrap; the low 32 bits do not notice. */
  lemma Int64KeepsLowBits(x: int)
    ensures Int64(x) % 0x1_0000_0000 == x % 0x1_0000_0000
  {
    var y := x + 0x8000_0000_0000_0000;
    var k := y / 0x1_0000_0000_0000_0000;
    assert Int64(x) == x + (-k * 0x1_0000_0000) * 0x1_0000_0000;
    AddMultiple(x, -k * 0x1_0000_0000);
  }

  lemma AddMultiple(x: int, j: int)
    ensures (x + j * 0x1_0000_0000) % 0x1_0000_0000 == x % 0x1_0000_0000
  {
    assert x + j * 0x1_0000_0000 == (x / 0x1_0000_0000 + j) * 0x1_0000_0000 + x % 0x1_0000_0000;
  }

  /** 64-bit signed arithmetic cut down to 32 bits is the 32-bit recurrence. */
  lemma WrappedStep(b: U32, v: U8)
    ensures Int64(Int64(b * 0xcc9e2d51) + Int8(v)) % 0x1_0000_0000 == PolyStep(b, v)
  {
    var x, y: int := b * 0xcc9e2d51, Int8(v);
    Int64KeepsLowBits(Int64(x) + y);
    Int64KeepsLowBits(x);
    hide Int64;
    SameLowBits(Int64(x), x, y);
  }

  lemma SameLowBits(x: int, x': int, y: int)
    requires x % 0x1_0000_0000 == x' % 0x1_0000_0000
    ensures (x + y) % 0x1_0000_0000 == (x' + y) % 0x1_0000_0000
  {
    var j := x / 0x1_0000_0000 - x' / 0x1_0000_0000;
    assert x + y == (x' + y) + j * 0x1_0000_0000;
    AddMultiple(x' + y, j);
  }

  method ComputeLen0to4(s: Bytes, length: U32) returns (h: U32)
    requires length <= 4 && length <= |s|
    ensures h == Hash32(s, length)
  {
    hide Int64, Xor32, PolyStep;
    var b: U32, c: U32 := 0, 9;
    var tmp := s[..length];
    for i := 0 to |tmp|
      invariant (b, c) == Poly(tmp[..i])
    {
      WrappedStep(b, tmp[i]);
      assert tmp[..i + 1][..i] == tmp[..i];
      b := Int64(Int64(b * 0xcc9e2d51) + Int8(tmp[i])) % 0x1_0000_0000;
      c := Xor32(c, b);
    }
    assert tmp[..|tmp|] == tmp;
    h := Len0to4(length, (b, c));
  }

  /** The hash as the program computes it: every fetch is inside the input, no index or counter
      goes below zero, and together the fetches read every byte. */
  method Compute(s: Bytes, length: U32) returns (h: U32, ghost seen: set<nat>)
    requires length <= |s|
    ensures h == Hash32(s, length)
    ensures seen == Covered(0, length)
  {
    if length <= 4 {
      h := ComputeLen0to4(s, length);
      seen := Covered(0, length);
    } else if length <= 12 {
      h, seen := ComputeLen5to12(s, length);
    } else if length <= 24 {
      h, seen := ComputeLen13to24(s, length);
    } else {
      h, seen := ComputeLong(s, length);
    }
  }

  method ComputeLen5to12(s: Bytes, length: U32) returns (h: U32, ghost seen: set<nat>)
    requires 5 <= length <= 12 && length <= |s|
    ensures h == Hash32(s, length) && seen == Covered(0, length)
  {
    hide Len5to12, Fetch32;
    var first, last, middle;
    first, seen := Fetch(s, 0, 0, {});
    last, seen := Fetch(s, length - 4, 0, seen);
    middle, seen := Fetch(s, (length / 2 / 4 % 2) * 4, 0, seen);
    h := Len5to12(length, first, last, middle);
  }

  method ComputeLen13to24(s: Bytes, length: U32) returns (h: U32, ghost seen: set<nat>)
    requires 13 <= length <= 24 && length <= |s|
    ensures h == Hash32(s, length) && seen == Covered(0, length)
  {
    hide Len13to24, Fetch32, Mark;
    var a, b, c, d, e, f;
    a, seen := Fetch(s, length / 2 - 4, 0, {});
    b, seen := Fetch(s, 4, 0, seen);
    c, seen := Fetch(s, length - 8, 0, seen);
    d, seen := Fetch(s, length / 2, 0, seen);
    e, seen := Fetch(s, 0, 0, seen);
    f, seen := Fetch(s, length - 4, 0, seen);
    h := Len13to24(length, a, b, c, d, e, f);
    Covers13to24(length);
  }

  lemma Covers13to24(n: U32)
    requires 13 <= n <= 24
    ensures Mark(Mark(Mark(Mark(Mark(Mark({}, n / 2 - 4), 4), n - 8), n / 2), 0), n - 4) == Covered(0, n)
  {
    hide Covered;
    assert Covered(0, 4) + Covered(4, 8) == Covered(0, 8);
    assert Covered(n / 2 - 4, n / 2) + Covered(n / 2, n / 2 + 4) == Covered(n / 2 - 4, n / 2 + 4);
    assert Covered(n - 8, n - 4) + Covered(n - 4, n) == Covered(n - 8, n);
  }

  /** The last twenty bytes start the state. */
  method ComputeStart(s: Bytes, length: U32) returns (f: U32, g: U32, h: U32, ghost seen: set<nat>)
    requires 24 < length <= |s|
    ensures State(f, g, h) == Start(length, BlockAt(s, length - 20))
    ensures seen == Covered(length - 20, length)
  {
    hide Scramble, Stir, Xor32, Add32, MulC1, Fetch32;
    h := length;
    g := MulC1(length);
    f := g;
    var w0, w1, w2, w3, w4;
    w0, seen := Fetch(s, length - 4, 0, {});
    w1, seen := Fetch(s, length - 8, 0, seen);
    w2, seen := Fetch(s, length - 16, 0, seen);
    w3, seen := Fetch(s, length - 12, 0, seen);
    w4, seen := Fetch(s, length - 20, 0, seen);
    h := Stir(Xor32(h, Scramble(w0)), 19);
    h := Stir(Xor32(h, Scramble(w2)), 19);
    g := Stir(Xor32(g, Scramble(w1)), 19);
    g := Stir(Xor32(g, Scramble(w3)), 19);
    f := Stir(Add32(f, Scramble(w4)), 19);
  }

  /** One turn of the loop, on the slice `s` that starts at `base`. */
  method ComputeRound(s: Bytes, f0: U32, g0: U32, h0: U32, ghost base: nat, ghost seen0: set<nat>)
    returns (f: U32, g: U32, h: U32, ghost seen: set<nat>)
    requires 20 <= |s|
    ensures State(f, g, h) == Round(State(f0, g0, h0), BlockAt(s, 0))
    ensures seen == seen0 + Covered(base, base + 20)
  {
    hide Scramble, Stir, Xor32, Add32, Mul32, Bswap32, Rotate32, MulC1, Fetch32;
    f, g, h := f0, g0, h0;
    var a0, a1, a2, a3, a4;
    a0, seen := Fetch(s, 0, base, seen0);
    a1, seen := Fetch(s, 4, base, seen);
    a2, seen := Fetch(s, 8, base, seen);
    a3, seen := Fetch(s, 12, base, seen);
    a4, seen := Fetch(s, 16, base, seen);
    a0, a2, a3 := Scramble(a0), Scramble(a2), Scramble(a3);
    h := Stir(Xor32(h, a0), 18);
    f := Add32(f, a1);
    f := Rotate32(f, 19);
    f := MulC1(f);
    g := Stir(Add32(g, a2), 18);
    h := Stir(Xor32(h, Add32(a3, a1)), 19);
    g := Xor32(g, a4);
    g := Mul32(Bswap32(g), 5);
    h := Add32(h, Mul32(a4, 5));
    h := Bswap32(h);
    f := Add32(f, a0);
    f, h, g := Permute3(f, h, g);
  }

  method ComputeLong(s: Bytes, length: U32) returns (h: U32, ghost seen: set<nat>)
    requires 24 < length <= |s|
    ensures h == Hash32(s, length) && seen == Covered(0, length)
  {
    hide Round, Start, Finish, Fetch32;
    var f, g;
    f, g, h, seen := ComputeStart(s, length);
    ghost var start := State(f, g, h);
    var iters: U32 := (length - 1) / 20;
    var rest := s;
    ghost var total, n := iters as nat, 0;
    while true
      invariant iters >= 1 && n == total - iters && 20 * total < length
      invariant rest == s[20 * n..]
      invariant State(f, g, h) == Fold(start, Blocks(s, n))
      invariant seen == Covered(0, 20 * n) + Covered(length - 20, length)
      decreases iters
    {
      assert BlockAt(rest, 0) == BlockAt(s, 20 * n) by { FetchSlice(s, 20 * n); }
      f, g, h, seen := ComputeRound(rest, f, g, h, 20 * n, seen);
      assert Blocks(s, n + 1)[..n] == Blocks(s, n);
      rest := rest[20..];
      iters := iters - 1;
      n := n + 1;
      if iters == 0 { break; }
    }
    h := Finish(State(f, g, h));
  }

  lemma FetchSlice(s: Bytes, off: nat)
    requires off + 20 <= |s|
    ensures BlockAt(s[off..], 0) == BlockAt(s, off)
  {
  }

  // ---------------------------------------------------------------- no collision

  lemma FetchInjective(s: Bytes, t: Bytes, off: nat)
    requires off + 4 <= |s| && off + 4 <= |t|
    ensures Fetch32(s, off) == Fetch32(t, off) <==> s[off..off + 4] == t[off..off + 4]
  {
    WordBytes(s[off], s[off + 1], s[off + 2], s[off + 3]);
    WordBytes(t[off], t[off + 1], t[off + 2], t[off + 3]);
    hide Word;
    assert s[off..off + 4] == [s[off], s[off + 1], s[off + 2], s[off + 3]];
    assert t[off..off + 4] == [t[off], t[off + 1], t[off + 2], t[off + 3]];
  }

  lemma FmixInjective(x: U32, y: U32)
    ensures Fmix(x) == Fmix(y) <==> x == y
  {
    hide Fmix, Unmix;
    FmixBijective(x);
    FmixBijective(y);
  }

  lemma MurInjective(a: U32, a': U32, h: U32, h': U32)
    ensures a == a' ==> (Mur(a, h) == Mur(a', h') <==> h == h')
    ensures h == h' ==> (Mur(a, h) == Mur(a', h') <==> a == a')
  {
    hide Mur, Unstir, Xor32, Scramble, Unscramble;
    MurBijective(a, h, 0);
    MurBijective(a', h', 0);
  }

  /** Strings of eight to twelve bytes that differ only within their first four never collide. */
  lemma NoCollision8to12(s: Bytes, t: Bytes)
    requires 8 <= |s| == |t| <= 12
    requires s[4..] == t[4..]
    ensures Hash32(s, |s|) == Hash32(t, |t|) <==> s == t
  {
    hide Mur, Fmix, Word, Add32, Mul32;
    var n: U32 := |s|;
    var d := Mul32(n, 5);
    var first, last, middle := Fetch32(s, 0), Fetch32(s, n - 4), Fetch32(s, 4);
    assert last == Fetch32(t, n - 4) && middle == Fetch32(t, 4) by { SameTail(s, t, n - 4); SameTail(s, t, 4); }
    var first' := Fetch32(t, 0);
    FetchInjective(s, t, 0);
    assert s == s[0..4] + s[4..] && t == t[0..4] + t[4..];
    AddBack(n, first);
    AddInjective(n, first, first');
    var a, a' := Mur(Add32(n, first), d), Mur(Add32(n, first'), d);
    MurInjective(Add32(n, first), Add32(n, first'), d, d);
    var b, b' := Mur(Add32(d, last), a), Mur(Add32(d, last), a');
    MurInjective(Add32(d, last), Add32(d, last), a, a');
    var c, c' := Mur(Add32(9, middle), b), Mur(Add32(9, middle), b');
    MurInjective(Add32(9, middle), Add32(9, middle), b, b');
    FmixInjective(c, c');
  }

  function MurChain(words: seq<U32>, h: U32): U32 {
    if words == [] then h else Mur(words[|words| - 1], MurChain(words[..|words| - 1], h))
  }

  /** Changing one word of a chain always changes its result. */
  lemma {:induction false} ChainInjective(ws: seq<U32>, vs: seq<U32>, k: nat, h: U32)
    requires k < |ws| == |vs| && vs == ws[k := vs[k]]
    ensures MurChain(ws, h) == MurChain(vs, h) <==> ws[k] == vs[k]
    decreases |ws|
  {
    hide Mur;
    var n := |ws| - 1;
    var front, front' := ws[..n], vs[..n];
    if k < n {
      assert front' == front[k := front'[k]];
      ChainInjective(front, front', k, h);
    } else {
      assert front == front';
    }
    MurInjective(ws[n], vs[n], MurChain(front, h), MurChain(front', h));
  }

  /** The words of a 24-byte string, in the order the hash takes them. */
  function Words24(s: Bytes): seq<U32>
    requires |s| == 24
  {
    [Fetch32(s, 8), Fetch32(s, 4), Fetch32(s, 16), Fetch32(s, 12), Fetch32(s, 0), Fetch32(s, 20)]
  }

  lemma Hash24IsChain(s: Bytes)
    requires |s| == 24
    ensures Hash32(s, 24) == Fmix(MurChain(Words24(s), 24))
  {
    hide Mur, Fmix, Fetch32;
    var w := Words24(s);
    assert MurChain(w[..0], 24) == 24;
    forall k: nat | k < 6 ensures MurChain(w[..k + 1], 24) == Mur(w[k], MurChain(w[..k], 24)) {
      assert w[..k + 1][..k] == w[..k];
    }
    assert w[..6] == w;
    assert MurChain(w[..1], 24) == Mur(w[0], 24);
    assert MurChain(w[..2], 24) == Mur(w[1], MurChain(w[..1], 24));
    assert MurChain(w[..3], 24) == Mur(w[2], MurChain(w[..2], 24));
    assert MurChain(w[..4], 24) == Mur(w[3], MurChain(w[..3], 24));
    assert MurChain(w[..5], 24) == Mur(w[4], MurChain(w[..4], 24));
    assert MurChain(w[..6], 24) == Mur(w[5], MurChain(w[..5], 24));
  }

  /** Strings of 24 bytes that differ only within one aligned word never collide. */
  lemma NoCollision24(s: Bytes, t: Bytes, off: nat)
    requires |s| == |t| == 24 && off < 24 && off % 4 == 0
    requires s[..off] == t[..off] && s[off + 4..] == t[off + 4..]
    ensures Hash32(s, 24) == Hash32(t, 24) <==> s == t
  {
    hide Mur, MurChain, Fmix, Hash32, Word;
    var k := if off == 8 then 0 else if off == 4 then 1 else if off == 16 then 2 else if off == 12 then 3
             else if off == 0 then 4 else 5;
    var ws, vs := Words24(s), Words24(t);
    SameOutside(s, t, off);
    assert vs == ws[k := vs[k]];
    ChainInjective(ws, vs, k, 24);
    Hash24IsChain(s);
    Hash24IsChain(t);
    FmixInjective(MurChain(ws, 24), MurChain(vs, 24));
    FetchInjective(s, t, off);
    hide Words24, Fetch32;
    ThreeParts(s, t, off);
  }

  lemma ThreeParts(s: Bytes, t: Bytes, off: nat)
    requires off + 4 <= |s| && off + 4 <= |t|
    requires s[..off] == t[..off] && s[off + 4..] == t[off + 4..]
    ensures s == t <==> s[off..off + 4] == t[off..off + 4]
  {
    assert s == s[..off] + s[off..off + 4] + s[off + 4..];
    assert t == t[..off] + t[off..off + 4] + t[off + 4..];
  }

  /** The words outside the one at `off` are the same. */
  lemma SameOutside(s: Bytes, t: Bytes, off: nat)
    requires |s| == |t| == 24 && off < 24 && off % 4 == 0
    requires s[..off] == t[..off] && s[off + 4..] == t[off + 4..]
    ensures forall p: nat | p < 24 && p % 4 == 0 && p != off :: Fetch32(s, p) == Fetch32(t, p)
  {
    hide Word;
    forall i: nat | i < 24 && !(off <= i < off + 4) ensures s[i] == t[i] {
      if i < off {
        assert s[i] == s[..off][i] && t[i] == t[..off][i];
      } else {
        assert s[i] == s[off + 4..][i - off - 4] && t[i] == t[off + 4..][i - off - 4];
      }
    }
  }

  lemma SameTail(s: Bytes, t: Bytes, off: nat)
    requires 4 <= off && off + 4 <= |s| == |t|
    requires s[4..] == t[4..]
    ensures Fetch32(s, off) == Fetch32(t, off)
  {
    forall i | off <= i < off + 4 ensures s[i] == t[i] {
      assert s[i] == s[4..][i - 4] && t[i] == t[4..][i - 4];
    }
  }

  lemma AddInjective(n: U32, x: U32, y: U32)
    ensures Add32(n, x) == Add32(n, y) <==> x == y
  {
    AddBack(x, n);
    AddBack(y, n);
    assert Add32(n, x) == Add32(x, n) && Add32(n, y) == Add32(y, n);
    hide Add32, Sub32;
  }
}
