/** The 64-bit city hash (tools/cityhash.go): where it reads, how its loop runs, what the loop computes,
    and what a round of it forgets. */
module CityHash64 {
  import opened Words
  import opened CityHash32

  type U64 = x: int | 0 <= x < 0x1_0000_0000_0000_0000

  // ---------------------------------------------------------------- word mixing

  function Wrap(x: int): U64 { x % 0x1_0000_0000_0000_0000 }

  function Add(a: U64, b: U64): U64 {
    var (x: int, y: int) := (a, b);
    Wrap(x + y)
  }

  function Mul(a: U64, b: U64): U64 {
    var (x: int, y: int) := (a, b);
    Wrap(x * y)
  }

  function XorW(a: U64, b: U64): U64 {
    assert Pow2(64) == 0x1_0000_0000_0000_0000 by { Pow2At64(); }
    XorSmall(a, b, 64);
    Xor(a, b)
  }

  lemma Pow2At64()
    ensures Pow2(64) == 0x1_0000_0000_0000_0000
  {
    Pow2At32();
    Pow2Sum(32, 32);
  }

  /** Rotation to the right, one bit at a time. */
  function Rotate64(x: U64, k: nat): U64 {
    if k == 0 then x else Turned(Rotate64(x, k - 1), 0x8000_0000_0000_0000)
  }

  /** Rotating by `k` exchanges the low `k` bits with the rest: `(x >> k) | (x << (64 - k))`. */
  lemma {:induction false} Rotate64IsShifts(x: U64, k: nat) returns (lo: nat)
    requires k <= 64
    ensures Exchanged(x, Rotate64(x, k), Shr(x, k), lo, Pow2(k), Pow2(64 - k))
  {
    if k == 0 {
      lo := 0;
    } else {
      var l := Rotate64IsShifts(x, k - 1);
      var h, q, p := Shr(x, k - 1), Pow2(k - 1), Pow2(64 - k);
      ShrStep(x, k - 1);
      assert Pow2(k) == 2 * q && Pow2(64 - (k - 1)) == 2 * p;
      assert q * p == 0x8000_0000_0000_0000 by {
        Pow2At32();
        Pow2Sum(31, 32);
        Pow2Sum(k - 1, 64 - k);
      }
      hide *;
      lo := ExchangeStep(x, Rotate64(x, k - 1), h, l, q, p, 0x8000_0000_0000_0000);
      Rotate64Unfold(x, k);
    }
  }

  lemma Rotate64Unfold(x: U64, k: nat)
    requires k > 0
    ensures Rotate64(x, k) == Turned(Rotate64(x, k - 1), 0x8000_0000_0000_0000)
  {
  }

  function Fetch64(s: Bytes, off: nat): U64
    requires off + 8 <= |s|
  {
    var (lo: int, hi: int) := (Fetch32(s, off), Fetch32(s, off + 4));
    lo + 0x1_0000_0000 * hi
  }

  function Bswap64(x: U64): U64 {
    var n: int := x;
    var lo: U32, hi: U32 := n % 0x1_0000_0000, n / 0x1_0000_0000;
    var (l: int, h: int) := (Bswap32(lo), Bswap32(hi));
    l * 0x1_0000_0000 + h
  }

  const K0: U64 := 0xc3a5c85c97cb3127
  const K1: U64 := 0xb492b66fbe98f273
  const K2: U64 := 0x9ae16a3b2f90404f

  function ShiftMix(v: U64): U64 { XorW(v, Shr(v, 47)) }

  function HashLen16With(u: U64, v: U64, mul: U64): U64 {
    var a := ShiftMix(Mul(XorW(u, v), mul));
    Mul(ShiftMix(Mul(XorW(v, a), mul)), mul)
  }

  function HashLen16(u: U64, v: U64): U64 { HashLen16With(u, v, 0x9ddfea08eb382d69) }

  function LengthMul(length: U32): U64 { Add(K2, 2 * length) }

  function Weak(w: U64, x: U64, y: U64, z: U64, a: U64, b: U64): (U64, U64) {
    var a1 := Add(a, w);
    var b1 := Rotate64(Add(Add(b, a1), z), 21);
    var a2 := Add(Add(a1, x), y);
    (Add(a2, z), Add(Add(b1, Rotate64(a2, 44)), a1))
  }

  // ---------------------------------------------------------------- up to 64 bytes

  function Len8to16(length: U32, first: U64, last: U64): U64 {
    var mul := LengthMul(length);
    var a := Add(first, K2);
    HashLen16With(Add(Mul(Rotate64(last, 37), mul), a), Mul(Add(Rotate64(a, 25), last), mul), mul)
  }

  function Len4to7(length: U32, first: U32, last: U32): U64 {
    HashLen16With(Wrap((length as int) + 8 * (first as int)), last, LengthMul(length))
  }

  function Len1to3(length: U32, a: U8, b: U8, c: U8): U64 {
    var y: U64, z: U64 := (a as int) + 0x100 * (b as int), Add32(length, 4 * (c as int));
    Mul(ShiftMix(XorW(Mul(y, K2), Mul(z, K0))), K2)
  }

  function Len17to32(length: U32, s0: U64, s8: U64, e8: U64, e16: U64): U64 {
    var mul := LengthMul(length);
    var a := Mul(s0, K1);
    var c := Mul(e8, mul);
    var d := Mul(e16, K2);
    HashLen16With(Add(Add(Rotate64(Add(a, s8), 43), Rotate64(c, 30)), d), Add(Add(a, Rotate64(Add(s8, K2), 18)), c), mul)
  }

  function Len33to64(length: U32, s0: U64, s8: U64, s16: U64, s24: U64, e8: U64, e16: U64, e24: U64, e32: U64): U64 {
    var mul := LengthMul(length);
    var a, b, c, d := Mul(s0, K2), s8, e24, e32;
    var e, f, g, h := Mul(s16, K2), Mul(s24, 9), e8, Mul(e16, mul);
    var u := Add(Rotate64(Add(a, g), 43), Mul(Add(Rotate64(b, 30), c), 9));
    var v := Add(Add(XorW(Add(a, g), d), f), 1);
    var w := Add(Bswap64(Mul(Add(u, v), mul)), h);
    var x := Add(Rotate64(Add(e, f), 42), c);
    var y := Mul(Add(Bswap64(Mul(Add(v, w), mul)), g), mul);
    var z := Add(Add(e, f), c);
    var a' := Add(Bswap64(Add(Mul(Add(x, z), mul), y)), b);
    Add(Mul(ShiftMix(Add(Add(Mul(Add(z, a'), mul), d), h)), mul), x)
  }

  // ---------------------------------------------------------------- blocks of 64 bytes

  datatype Block64 = Block64(f0: U64, f8: U64, f16: U64, f24: U64, f32: U64, f40: U64, f48: U64, f56: U64)

  datatype State64 = State64(v: (U64, U64), w: (U64, U64), x: U64, y: U64, z: U64)

  function Round64(st: State64, b: Block64): State64 {
    var x1 := XorW(Mul(Rotate64(Add(Add(Add(st.x, st.y), st.v.0), b.f8), 37), K1), st.w.1);
    var y1 := Add(Mul(Rotate64(Add(Add(st.y, st.v.1), b.f48), 42), K1), Add(st.v.0, b.f40));
    var z1 := Mul(Rotate64(Add(st.z, st.w.0), 33), K1);
    var v1 := Weak(b.f0, b.f8, b.f16, b.f24, Mul(st.v.1, K1), Add(x1, st.w.0));
    var w1 := Weak(b.f32, b.f40, b.f48, b.f56, Add(z1, st.w.1), Add(y1, b.f16));
    State64(v1, w1, z1, y1, x1)
  }

  function Block64At(s: Bytes, off: nat): Block64
    requires off + 64 <= |s|
  {
    Block64(Fetch64(s, off), Fetch64(s, off + 8), Fetch64(s, off + 16), Fetch64(s, off + 24),
      Fetch64(s, off + 32), Fetch64(s, off + 40), Fetch64(s, off + 48), Fetch64(s, off + 56))
  }

  /** The state after the first `n` blocks. */
  function Fold64(st: State64, s: Bytes, n: nat): State64
    requires 64 * n <= |s|
  {
    if n == 0 then st else Round64(Fold64(st, s, n - 1), Block64At(s, 64 * (n - 1)))
  }

  function Start64(length: U32, t: Block64, first: U64): State64 {
    var y := Add(t.f48, t.f8);
    var z := HashLen16(Add(t.f16, length), t.f40);
    var v := Weak(t.f0, t.f8, t.f16, t.f24, length, z);
    var w := Weak(t.f32, t.f40, t.f48, t.f56, Add(y, K1), t.f24);
    State64(v, w, Add(Mul(t.f24, K1), first), y, z)
  }

  function Finish64(st: State64): U64 {
    HashLen16(
      Add(Add(HashLen16(st.v.0, st.w.0), Mul(ShiftMix(st.y), K1)), st.z),
      Add(HashLen16(st.v.1, st.w.1), st.x))
  }

  function Hash0to16(s: Bytes, length: U32): U64
    requires length <= |s|
  {
    if length >= 8 then Len8to16(length, Fetch64(s, 0), Fetch64(s, length - 8))
    else if length >= 4 then Len4to7(length, Fetch32(s, 0), Fetch32(s, length - 4))
    else if length > 0 then Len1to3(length, s[0], s[length / 2], s[length - 1])
    else K2
  }

  function Hash64(s: Bytes, length: U32): U64
    requires length <= |s|
  {
    if length <= 16 then Hash0to16(s, length)
    else if length <= 32 then
      Len17to32(length, Fetch64(s, 0), Fetch64(s, 8), Fetch64(s, length - 8), Fetch64(s, length - 16))
    else if length <= 64 then
      Len33to64(length, Fetch64(s, 0), Fetch64(s, 8), Fetch64(s, 16), Fetch64(s, 24),
        Fetch64(s, length - 8), Fetch64(s, length - 16), Fetch64(s, length - 24), Fetch64(s, length - 32))
    else
      Finish64(Fold64(Start64(length, Block64At(s, length - 64), Fetch64(s, 0)), s, (length - 1) / 64))
  }

  // ---------------------------------------------------------------- reading

  ghost function Mark8(seen: set<nat>, off: nat): set<nat> { seen + Covered(off, off + 8) }

  method Read8(s: Bytes, off: nat, ghost base: nat, ghost seen: set<nat>) returns (w: U64, ghost seen': set<nat>)
    requires off + 8 <= |s|
    ensures w == Fetch64(s, off) && seen' == Mark8(seen, base + off)
  {
    w := Fetch64(s, off);
    seen' := Mark8(seen, base + off);
  }

  /** All of the 64 bytes at `off` of the slice that starts at `base`. */
  method ReadBlock(s: Bytes, off: nat, ghost base: nat, ghost seen: set<nat>) returns (b: Block64, ghost seen': set<nat>)
    requires off + 64 <= |s|
    ensures b == Block64At(s, off) && seen' == seen + Covered(base + off, base + off + 64)
  {
    hide Mark8, Fetch64;
    var f0, f8, f16, f24, f32, f40, f48, f56;
    f0, seen' := Read8(s, off, base, seen);
    f8, seen' := Read8(s, off + 8, base, seen');
    f16, seen' := Read8(s, off + 16, base, seen');
    f24, seen' := Read8(s, off + 24, base, seen');
    f32, seen' := Read8(s, off + 32, base, seen');
    f40, seen' := Read8(s, off + 40, base, seen');
    f48, seen' := Read8(s, off + 48, base, seen');
    f56, seen' := Read8(s, off + 56, base, seen');
    b := Block64(f0, f8, f16, f24, f32, f40, f48, f56);
    EightWords(seen, base + off);
  }

  lemma MarkTwice(seen: set<nat>, lo: nat, hi: nat)
    requires lo <= hi
    ensures Mark8(seen + Covered(lo, hi), hi) == seen + Covered(lo, hi + 8)
  {
    hide Covered;
  }

  lemma EightWords(seen: set<nat>, o: nat)
    ensures Mark8(Mark8(Mark8(Mark8(Mark8(Mark8(Mark8(Mark8(seen, o), o + 8), o + 16), o + 24), o + 32), o + 40), o + 48), o + 56)
         == seen + Covered(o, o + 64)
  {
    assert seen + Covered(o, o) == seen;
    MarkTwice(seen, o, o);
    MarkTwice(seen, o, o + 8);
    MarkTwice(seen, o, o + 16);
    MarkTwice(seen, o, o + 24);
    MarkTwice(seen, o, o + 32);
    MarkTwice(seen, o, o + 40);
    MarkTwice(seen, o, o + 48);
    MarkTwice(seen, o, o + 56);
    hide Mark8, Covered;
  }

  lemma BlockOfSlice(s: Bytes, base: nat)
    requires base + 64 <= |s|
    ensures Block64At(s[base..], 0) == Block64At(s, base)
  {
    hide Word;
  }

  // ---------------------------------------------------------------- the 64-bit hash

  /** Meant for up to 16 bytes; of more it reads the first and the last eight. */
  method Compute0to16(s: Bytes, length: U32) returns (h: U64, ghost seen: set<nat>)
    requires length <= |s|
    ensures h == Hash0to16(s, length)
    ensures seen == if length <= 16 then Covered(0, length) else Covered(0, 8) + Covered(length - 8, length)
  {
    hide Len8to16, Len4to7, Len1to3, Fetch64, Fetch32;
    if length >= 8 {
      var first, last;
      first, seen := Read8(s, 0, 0, {});
      last, seen := Read8(s, length - 8, 0, seen);
      h := Len8to16(length, first, last);
    } else if length >= 4 {
      var first, last;
      first, seen := Fetch(s, 0, 0, {});
      last, seen := Fetch(s, length - 4, 0, seen);
      h := Len4to7(length, first, last);
      assert seen == Covered(0, length);
    } else if length > 0 {
      h := Len1to3(length, s[0], s[length / 2], s[length - 1]);
      seen := {0, length / 2, length - 1};
      assert seen == Covered(0, length);
    } else {
      h, seen := K2, {};
    }
  }

  method Compute17to64(s: Bytes, length: U32) returns (h: U64, ghost seen: set<nat>)
    requires 17 <= length <= 64 && length <= |s|
    ensures h == Hash64(s, length) && seen == Covered(0, length)
  {
    hide Len17to32, Len33to64, Fetch64, Mark8;
    var s0, s8, e8, e16;
    s0, seen := Read8(s, 0, 0, {});
    s8, seen := Read8(s, 8, 0, seen);
    e8, seen := Read8(s, length - 8, 0, seen);
    e16, seen := Read8(s, length - 16, 0, seen);
    if length <= 32 {
      h := Len17to32(length, s0, s8, e8, e16);
      Covers17to32(length);
    } else {
      var s16, s24, e24, e32;
      e24, seen := Read8(s, length - 24, 0, seen);
      e32, seen := Read8(s, length - 32, 0, seen);
      s16, seen := Read8(s, 16, 0, seen);
      s24, seen := Read8(s, 24, 0, seen);
      h := Len33to64(length, s0, s8, s16, s24, e8, e16, e24, e32);
      Covers33to64(length);
    }
  }

  lemma Covers17to32(n: U32)
    requires 17 <= n <= 32
    ensures Mark8(Mark8(Mark8(Mark8({}, 0), 8), n - 8), n - 16) == Covered(0, n)
  {
    hide Covered;
  }

  lemma Covers33to64(n: U32)
    requires 33 <= n <= 64
    ensures Mark8(Mark8(Mark8(Mark8(Mark8(Mark8(Mark8(Mark8({}, 0), 8), n - 8), n - 16), n - 24), n - 32), 16), 24)
         == Covered(0, n)
  {
    hide Covered;
    var a := Mark8(Mark8(Mark8(Mark8({}, 0), 8), n - 8), n - 16);
    assert a == Covered(0, 16) + Covered(n - 16, n);
    assert Mark8(Mark8(a, n - 24), n - 32) == Covered(0, 16) + Covered(n - 32, n);
  }

  /** The 64-bit hash: every fetch is inside the input, the block loop's length counts down to zero,
      every byte is read, and the loop is the fold of the blocks. */
  method Compute64(s: Bytes, length: U32) returns (h: U64, ghost seen: set<nat>)
    requires length <= |s|
    ensures h == Hash64(s, length) && seen == Covered(0, length)
  {
    if length <= 16 {
      h, seen := Compute0to16(s, length);
    } else if length <= 64 {
      h, seen := Compute17to64(s, length);
    } else {
      h, seen := Compute65(s, length);
    }
  }

  /** The first `lo` bytes, the first word and the last block. */
  ghost function Ends(lo: nat, length: nat): set<nat>
    requires length >= 64
  {
    Covered(0, lo) + Covered(0, 8) + Covered(length - 64, length)
  }

  lemma FirstWord(length: nat)
    requires length >= 64
    ensures Mark8({} + Covered(length - 64, length), 0) == Ends(0, length)
  {
  }

  lemma OneMoreBlock(lo: nat, length: nat)
    requires length >= 64
    ensures Ends(lo, length) + Covered(lo, lo + 64) == Ends(lo + 64, length)
  {
  }

  lemma AllRead(lo: nat, length: nat)
    requires length >= 64 && length - 64 <= lo < length && lo >= 8
    ensures Ends(lo, length) == Covered(0, length)
  {
  }

  method Compute65(s: Bytes, length0: U32) returns (h: U64, ghost seen: set<nat>)
    requires 64 < length0 <= |s|
    ensures h == Hash64(s, length0) && seen == Covered(0, length0)
  {
    hide Start64, Finish64, Round64, Fetch64, Mark8, Covered;
    var t, first;
    t, seen := ReadBlock(s, length0 - 64, 0, {});
    first, seen := Read8(s, 0, 0, seen);
    assert seen == Ends(0, length0) by { FirstWord(length0); }
    var st := Start64(length0, t, first);
    ghost var start := st;
    var length: U32 := (length0 - 1) - (length0 - 1) % 64;
    var rest := s;
    ghost var total, n := (length0 - 1) / 64, 0;
    while true
      invariant length == 64 * (total - n) && n < total && 64 * total < length0
      invariant rest == s[64 * n..]
      invariant st == Fold64(start, s, n)
      invariant seen == Ends(64 * n, length0)
      decreases length
    {
      var b;
      BlockOfSlice(s, 64 * n);
      b, seen := ReadBlock(rest, 0, 64 * n, seen);
      OneMoreBlock(64 * n, length0);
      st := Round64(st, b);
      rest := rest[64..];
      length := length - 64;
      n := n + 1;
      if length == 0 { break; }
    }
    h := Finish64(st);
    AllRead(64 * total, length0);
  }

  // ---------------------------------------------------------------- what a round forgets

  /** The inverse of `K1` modulo 2^64. */
  const K1_INVERSE: U64 := 0x1ec3fe17279602bb

  lemma WrapOnce(x: int)
    requires -0x1_0000_0000_0000_0000 <= x < 0x2_0000_0000_0000_0000
    ensures Wrap(x) == if x < 0 then x + 0x1_0000_0000_0000_0000
      else if x < 0x1_0000_0000_0000_0000 then x else x - 0x1_0000_0000_0000_0000
  {
  }

  lemma AddCancel(a: U64, b: U64, c: U64)
    ensures Add(a, c) == Add(b, c) <==> a == b
    ensures Add(c, a) == Add(c, b) <==> a == b
  {
    var (x: int, y: int, z: int) := (a, b, c);
    WrapOnce(x + z);
    WrapOnce(y + z);
    hide Wrap;
  }

  lemma AddAssoc(a: U64, b: U64, c: U64)
    ensures Add(Add(a, b), c) == Add(a, Add(b, c)) && Add(a, b) == Add(b, a)
  {
    var (x: int, y: int, z: int) := (a, b, c);
    WrapOnce(x + y);
    WrapOnce(y + z);
    WrapOnce(Wrap(x + y) + z);
    WrapOnce(x + Wrap(y + z));
    hide Wrap;
  }

  function Minus(a: U64, b: U64): U64 {
    var (x: int, y: int) := (a, b);
    Wrap(x - y)
  }

  lemma MinusBack(a: U64, b: U64)
    ensures Add(Minus(a, b), b) == a && Add(b, Minus(a, b)) == a
  {
    var (x: int, y: int) := (a, b);
    WrapOnce(x - y);
    WrapOnce(Wrap(x - y) + y);
    WrapOnce(y + Wrap(x - y));
    hide Wrap;
  }

  lemma MulBack64(x: U64, c: U64, d: U64)
    requires ((c as int) * (d as int)) % 0x1_0000_0000_0000_0000 == 1
    ensures Mul(Mul(x, c), d) == x
  {
    var (xi: int, ci: int, di: int) := (x, c, d);
    var m: int := Mul(x, c);
    var q, k := xi * ci / 0x1_0000_0000_0000_0000, ci * di / 0x1_0000_0000_0000_0000;
    assert xi * ci == q * 0x1_0000_0000_0000_0000 + m && ci * di == k * 0x1_0000_0000_0000_0000 + 1;
    calc {
      m * di;
      (xi * ci - q * 0x1_0000_0000_0000_0000) * di;
      xi * (ci * di) - q * 0x1_0000_0000_0000_0000 * di;
      xi * (k * 0x1_0000_0000_0000_0000 + 1) - q * 0x1_0000_0000_0000_0000 * di;
      xi + (xi * k - q * di) * 0x1_0000_0000_0000_0000;
    }
    SubMultiple64(x, xi * k - q * di);
  }

  lemma SubMultiple64(n: U64, j: int)
    ensures Wrap((n as int) + j * 0x1_0000_0000_0000_0000) == n
  {
  }

  lemma MulK1Cancel(a: U64, b: U64)
    ensures Mul(a, K1) == Mul(b, K1) <==> a == b
  {
    hide Mul;
    MulBack64(a, K1, K1_INVERSE);
    MulBack64(b, K1, K1_INVERSE);
  }

  lemma XorCancel64(a: U64, b: U64, c: U64)
    ensures XorW(a, c) == XorW(b, c) <==> a == b
    ensures XorW(c, a) == XorW(c, b) <==> a == b
  {
    hide Xor;
    XorCancel(a, c);
    XorCancel(b, c);
    XorBasics(a, c);
    XorBasics(b, c);
  }

  lemma {:induction false} RotateCancel(a: U64, b: U64, k: nat)
    ensures Rotate64(a, k) == Rotate64(b, k) <==> a == b
  {
    if k > 0 {
      RotateCancel(a, b, k - 1);
      var (x: int, y: int) := (Rotate64(a, k - 1), Rotate64(b, k - 1));
      HalfTurnCancel(x, y);
    }
  }

  lemma HalfTurnCancel(x: U64, y: U64)
    ensures Turned(x, 0x8000_0000_0000_0000) == Turned(y, 0x8000_0000_0000_0000) <==> x == y
  {
  }

  /** The four words mixed into a pair of seeds lose neither seed. */
  lemma WeakCancel(w: U64, x: U64, y: U64, z: U64, a: U64, b: U64, a': U64, b': U64)
    ensures Weak(w, x, y, z, a, b) == Weak(w, x, y, z, a', b') <==> a == a' && b == b'
  {
    hide Add, Rotate64;
    if Weak(w, x, y, z, a, b) == Weak(w, x, y, z, a', b') {
      var (p, q) := (Add(a, w), Add(a', w));
      AddCancel(Add(Add(p, x), y), Add(Add(q, x), y), z);
      AddCancel(Add(p, x), Add(q, x), y);
      AddCancel(p, q, x);
      AddCancel(a, a', w);
      var (f, g) := (Rotate64(Add(Add(b, p), z), 21), Rotate64(Add(Add(b', p), z), 21));
      var r := Rotate64(Add(Add(p, x), y), 44);
      AddCancel(Add(f, r), Add(g, r), p);
      AddCancel(f, g, r);
      RotateCancel(Add(Add(b, p), z), Add(Add(b', p), z), 21);
      AddCancel(Add(b, p), Add(b', p), z);
      AddCancel(b, b', p);
    }
  }

  /** The only traces a round keeps of `x`, `y` and the low word of `v`: two sums. */
  function Kept(st: State64, b: Block64): (U64, U64) {
    (Add(Add(st.x, st.y), st.v.0), Add(Mul(Rotate64(Add(Add(st.y, st.v.1), b.f48), 42), K1), st.v.0))
  }

  /** Two states merge over a block exactly when they agree on four words and on the two sums. */
  lemma RoundMergesExactly(s: State64, t: State64, b: Block64)
    ensures Round64(s, b) == Round64(t, b) <==> s.v.1 == t.v.1 && s.w == t.w && s.z == t.z && Kept(s, b) == Kept(t, b)
  {
    hide Add, Mul, Rotate64, Weak, XorW;
    var (sm, tm) := (Mul(Rotate64(Add(Add(s.y, s.v.1), b.f48), 42), K1), Mul(Rotate64(Add(Add(t.y, t.v.1), b.f48), 42), K1));
    AddAssoc(sm, s.v.0, b.f40);
    AddAssoc(tm, t.v.0, b.f40);
    if Round64(s, b) == Round64(t, b) {
      AgreeBefore(s, t, b);
      AddCancel(Add(sm, s.v.0), Add(tm, t.v.0), b.f40);
    }
  }

  lemma AgreeBefore(s: State64, t: State64, b: Block64)
    requires Round64(s, b) == Round64(t, b)
    ensures s.v.1 == t.v.1 && s.w == t.w && s.z == t.z && Kept(s, b).0 == Kept(t, b).0
  {
    hide Add, Mul, Rotate64, Weak, XorW;
    var (s', t') := (Round64(s, b), Round64(t, b));
    WeakCancel(b.f0, b.f8, b.f16, b.f24, Mul(s.v.1, K1), Add(s'.z, s.w.0), Mul(t.v.1, K1), Add(t'.z, t.w.0));
    WeakCancel(b.f32, b.f40, b.f48, b.f56, Add(s'.x, s.w.1), Add(s'.y, b.f16), Add(t'.x, t.w.1), Add(t'.y, b.f16));
    MulK1Cancel(s.v.1, t.v.1);
    AddCancel(s.w.0, t.w.0, s'.z);
    AddCancel(s.w.1, t.w.1, s'.x);
    var (sz, tz) := (Add(s.z, s.w.0), Add(t.z, t.w.0));
    MulK1Cancel(Rotate64(sz, 33), Rotate64(tz, 33));
    RotateCancel(sz, tz, 33);
    AddCancel(s.z, t.z, s.w.0);
    var (sx, tx) := (Add(Add(Add(s.x, s.y), s.v.0), b.f8), Add(Add(Add(t.x, t.y), t.v.0), b.f8));
    XorCancel64(Mul(Rotate64(sx, 37), K1), Mul(Rotate64(tx, 37), K1), s.w.1);
    MulK1Cancel(Rotate64(sx, 37), Rotate64(tx, 37));
    RotateCancel(sx, tx, 37);
    AddCancel(Add(Add(s.x, s.y), s.v.0), Add(Add(t.x, t.y), t.v.0), b.f8);
  }

  /** So, unlike the 32-bit round, this one is no bijection: whatever `y` is replaced by, two other words
      can be changed so that the state after the block is the same. */
  lemma RoundForgets(s: State64, b: Block64, y: U64) returns (t: State64)
    ensures t.y == y && Round64(t, b) == Round64(s, b)
  {
    hide Add, Mul, Rotate64, Weak, XorW, Minus;
    var (sum, total) := Kept(s, b);
    var turned := Mul(Rotate64(Add(Add(y, s.v.1), b.f48), 42), K1);
    var v0 := Minus(total, turned);
    var x := Minus(Minus(sum, v0), y);
    t := State64((v0, s.v.1), s.w, x, y, s.z);
    MinusBack(total, turned);
    MinusBack(Minus(sum, v0), y);
    MinusBack(sum, v0);
    RoundMergesExactly(t, s, b);
  }
}
