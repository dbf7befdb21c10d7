/** The 128-bit city hashes (tools/cityhash.go): where they read, how their loops run, what the loops
    compute, and that the chain for short inputs never merges two states. */
module CityHash128 {
  import opened Words
  import opened CityHash32
  import opened CityHash64

  type U128 = (U64, U64)

  // ---------------------------------------------------------------- fewer than 128 bytes

  datatype Chain = Chain(a: U64, b: U64, c: U64, d: U64)

  function Spread(w: U64): U64 { Mul(ShiftMix(Mul(w, K1)), K1) }

  function Link(st: Chain, w0: U64, w8: U64): Chain {
    var a := Mul(XorW(st.a, Spread(w0)), K1);
    var c := Mul(XorW(st.c, Spread(w8)), K1);
    Chain(a, XorW(st.b, a), c, XorW(st.d, c))
  }

  /** The chain after the first `n` pairs of words. */
  function Links(st: Chain, s: Bytes, n: nat): Chain
    requires 16 * n <= |s|
  {
    if n == 0 then st else Link(Links(st, s, n - 1), Fetch64(s, 16 * (n - 1)), Fetch64(s, 16 * (n - 1) + 8))
  }

  function ShortChain(length: U32, seed: U128, h: U64, first: U64): Chain {
    var a := Mul(ShiftMix(Mul(seed.0, K1)), K1);
    var c := Add(Mul(seed.1, K1), h);
    Chain(a, seed.1, c, ShiftMix(Add(a, if length >= 8 then first else c)))
  }

  function LongChain(length: U32, seed: U128, e8: U64, e16: U64): Chain {
    var c := HashLen16(Add(e8, K1), seed.0);
    var d := HashLen16(Add(seed.1, length), Add(c, e16));
    Chain(Add(seed.0, d), seed.1, c, d)
  }

  function EndChain(st: Chain): U128 {
    var a := HashLen16(st.a, st.c);
    var b := HashLen16(st.d, st.b);
    (XorW(a, b), HashLen16(b, a))
  }

  /** Go's conversion to `int32`, and its wrapping subtraction. */
  function Int32(x: int): int { (x + 0x8000_0000) % 0x1_0000_0000 - 0x8000_0000 }

  /** The signed length the chain counts down from. */
  function Left(length: U32): int { Int32(Int32(length) - 16) }

  lemma LeftIsShort(length: U32)
    ensures Left(length) <= 0 <==> length <= 16 || length >= 0x8000_0010
    ensures Left(length) > 0 ==> Left(length) == length - 16
  {
    var n: int := length;
    Int32At(n, if n < 0x8000_0000 then n else n - 0x1_0000_0000);
    var m := Int32(n) - 16;
    Int32At(m, if m >= -0x8000_0000 then m else m + 0x1_0000_0000);
    hide Int32;
  }

  lemma Int32At(x: int, y: int)
    requires -0x8000_0000 <= y < 0x8000_0000 && (x == y || x == y + 0x1_0000_0000 || x == y - 0x1_0000_0000)
    ensures Int32(x) == y
  {
  }

  function Murmur(s: Bytes, length: U32, seed: U128): U128
    requires length <= |s|
  {
    LeftIsShort(length);
    if Left(length) <= 0 then
      EndChain(ShortChain(length, seed, Hash0to16(s, length), if length >= 8 then Fetch64(s, 0) else 0))
    else
      EndChain(Links(LongChain(length, seed, Fetch64(s, length - 8), Fetch64(s, length - 16)), s, (length - 1) / 16))
  }

  // ---------------------------------------------------------------- 128 bytes and more

  datatype Piece = Piece(f0: U64, f8: U64, f16: U64, f24: U64)

  function PieceAt(s: Bytes, off: nat): Piece
    requires off + 32 <= |s|
  {
    Piece(Fetch64(s, off), Fetch64(s, off + 8), Fetch64(s, off + 16), Fetch64(s, off + 24))
  }

  function Start128(length: U32, seed: U128, f0: U64, f8: U64, f88: U64): State64 {
    var (x, y) := seed;
    var z := Mul(length, K1);
    var v0 := Add(Mul(Rotate64(XorW(y, K1), 49), K1), f0);
    var v1 := Add(Mul(Rotate64(v0, 42), K1), f8);
    var w0 := Add(Mul(Rotate64(Add(y, z), 35), K1), x);
    var w1 := Mul(Rotate64(Add(x, f88), 53), K1);
    State64((v0, v1), (w0, w1), x, y, z)
  }

  function Turn128(st: State64): State64 {
    State64((Mul(st.v.0, K0), st.v.1), (Mul(st.w.0, 9), st.w.1),
      Add(st.x, Mul(Rotate64(Add(st.v.0, st.z), 49), K0)),
      Add(Mul(st.y, K0), Rotate64(st.w.1, 37)),
      Add(Mul(st.z, K0), Rotate64(st.w.0, 27)))
  }

  function TailStep(st: State64, p: Piece): State64 {
    var y := Add(Mul(Rotate64(Add(st.x, st.y), 42), K0), st.v.1);
    var w0 := Add(st.w.0, p.f16);
    var x := Add(Mul(st.x, K0), w0);
    var z := Add(st.z, Add(st.w.1, p.f0));
    var w1 := Add(st.w.1, st.v.0);
    var v := Weak(p.f0, p.f8, p.f16, p.f24, Add(st.v.0, z), st.v.1);
    State64((Mul(v.0, K0), v.1), (w0, w1), x, y, z)
  }

  /** The state after `n` pieces of 32 bytes, taken from the end backwards. */
  function Tail(st: State64, s: Bytes, length: nat, n: nat): State64
    requires 32 * n <= length <= |s|
  {
    if n == 0 then st else TailStep(Tail(st, s, length, n - 1), PieceAt(s, length - 32 * n))
  }

  function Finish128(st: State64): U128 {
    var x := HashLen16(st.x, st.v.0);
    var y := HashLen16(Add(st.y, st.z), st.w.0);
    (Add(HashLen16(Add(x, st.v.1), st.w.1), y), HashLen16(Add(x, st.w.1), Add(y, st.v.1)))
  }

  function Hash128WithSeed(s: Bytes, length: U32, seed: U128): U128
    requires length <= |s|
  {
    if length < 128 then Murmur(s, length, seed)
    else
      var st := Fold64(Start128(length, seed, Fetch64(s, 0), Fetch64(s, 8), Fetch64(s, 88)), s, 2 * (length / 128));
      Finish128(Tail(Turn128(st), s, length, (length % 128 + 31) / 32))
  }

  function Hash128(s: Bytes, length: U32): U128
    requires length <= |s|
  {
    if length >= 16 then
      Hash128WithSeed(s[16..length], length - 16, (Fetch64(s, 0), Add(Fetch64(s, 8), K0)))
    else
      Hash128WithSeed(s, length, (K0, K1))
  }

  // ---------------------------------------------------------------- the loops

  /** The chain for fewer than 128 bytes. The signed length counts down past zero; the input is read
      from the front in pairs of words, and its last two words are read first. From 2^31 + 16 bytes on
      the signed length starts below zero, and all but the first and last eight bytes are skipped. */
  method ComputeMurmur(s: Bytes, length: U32, seed: U128) returns (h: U128, ghost seen: set<nat>)
    requires length <= |s|
    ensures h == Murmur(s, length, seed)
    ensures seen <= Covered(0, length)
    ensures seen == Covered(0, length) <==> length < 0x8000_0010
  {
    hide ShortChain, LongChain, EndChain, Link, Hash0to16, Fetch64, Mark8, Covered;
    LeftIsShort(length);
    var st;
    var left := Left(length);
    hide Left;
    if left <= 0 {
      var h16, first := 0, 0;
      h16, seen := Compute0to16(s, length);
      if length >= 8 {
        ghost var before := seen;
        first, seen := Read8(s, 0, 0, seen);
        InFront(before, length);
      }
      if length > 16 { EightMissing(length); }
      st := ShortChain(length, seed, h16, first);
    } else {
      st, seen := ComputeLinks(s, length, seed);
    }
    h := EndChain(st);
  }

  method ComputeLinks(s: Bytes, length: U32, seed: U128) returns (st: Chain, ghost seen: set<nat>)
    requires 16 < length <= |s|
    ensures st == Links(LongChain(length, seed, Fetch64(s, length - 8), Fetch64(s, length - 16)), s, (length - 1) / 16)
    ensures seen == Covered(0, length)
  {
    hide LongChain, Link, Fetch64, Mark8, Covered;
    var left: int := length - 16;
    var e8, e16;
    e8, seen := Read8(s, length - 8, 0, {});
    e16, seen := Read8(s, length - 16, 0, seen);
    LastPair(length);
    st := LongChain(length, seed, e8, e16);
    ghost var start, total, n := st, (length - 1) / 16, 0;
    var rest := s;
    while true
      invariant left == length - 16 - 16 * n && n < total && 16 * total < length
      invariant rest == s[16 * n..]
      invariant st == Links(start, s, n)
      invariant seen == Both(16 * n, 16, length)
      decreases left
    {
      var w0, w8;
      WordOfRest(s, 16 * n, 0);
      WordOfRest(s, 16 * n, 8);
      w0, seen := Read8(rest, 0, 16 * n, seen);
      w8, seen := Read8(rest, 8, 16 * n, seen);
      PairRead(16 * n, length);
      st := Link(st, w0, w8);
      rest := rest[16..];
      left := left - 16;
      n := n + 1;
      if left <= 0 { break; }
    }
    AllBoth(16 * total, 16, length);
  }

  /** From 128 bytes on: pairs of 64-byte blocks from the front, then what is left in 32-byte pieces
      from the end. */
  method ComputeWithSeed(s: Bytes, length0: U32, seed: U128) returns (h: U128, ghost seen: set<nat>)
    requires length0 <= |s|
    ensures h == Hash128WithSeed(s, length0, seed)
    ensures seen == Covered(0, length0)
  {
    hide Start128, Turn128, Finish128, Murmur, Round64, Fetch64, Mark8, Covered;
    if length0 < 128 {
      h, seen := ComputeMurmur(s, length0, seed);
      return;
    }
    var f0, f8, f88;
    f0, seen := Read8(s, 0, 0, {});
    f8, seen := Read8(s, 8, 0, seen);
    f88, seen := Read8(s, 88, 0, seen);
    ghost var early := seen;
    var st := Start128(length0, seed, f0, f8, f88);
    st, seen := ComputeBlocks(s, length0, st, seen);
    BlocksOver(early, length0 / 128);
    st := Turn128(st);
    st, seen := ComputeTail(s, length0, st, seen);
    AllBoth(128 * (length0 / 128), 32 * ((length0 % 128 + 31) / 32), length0);
    h := Finish128(st);
  }

  /** The loop over what the blocks left, in pieces of 32 bytes taken from the end of the input. */
  method ComputeTail(s: Bytes, length0: U32, st0: State64, ghost seen0: set<nat>)
    returns (st: State64, ghost seen: set<nat>)
    requires 128 <= length0 <= |s|
    requires seen0 == Both(128 * (length0 / 128), 0, length0)
    ensures st == Tail(st0, s, length0, (length0 % 128 + 31) / 32)
    ensures seen == Both(128 * (length0 / 128), 32 * ((length0 % 128 + 31) / 32), length0)
  {
    hide TailStep, PieceAt, Fetch64, Mark8, Both, Covered;
    st, seen := st0, seen0;
    var length, done := length0 % 128, 0;
    ghost var blocks, n := 128 * (length0 / 128), 0;
    while done < length
      invariant done == 32 * n && n <= (length + 31) / 32
      invariant st == Tail(st0, s, length0, n)
      invariant seen == Both(blocks, 32 * n, length0)
      decreases length - done
    {
      var p;
      done := done + 32;
      n := n + 1;
      p, seen := ReadPiece(s, length0 - done, seen);
      PieceRead(blocks, n, length0);
      st := TailStep(st, p);
    }
  }

  /** The loop over pairs of blocks: the unsigned length is at least 128 whenever 128 is taken off. */
  method ComputeBlocks(s: Bytes, length0: U32, st0: State64, ghost seen0: set<nat>)
    returns (st: State64, ghost seen: set<nat>)
    requires 128 <= length0 <= |s|
    ensures st == Fold64(st0, s, 2 * (length0 / 128))
    ensures seen == seen0 + Covered(0, 128 * (length0 / 128))
  {
    hide Round64, Fetch64, Block64At, Covered;
    st, seen := st0, seen0;
    var length: U32, rest := length0, s;
    ghost var total, n := length0 / 128, 0;
    NothingRead(seen0);
    while true
      invariant length == length0 - 128 * n && n < total
      invariant rest == s[128 * n..]
      invariant st == Fold64(st0, s, 2 * n)
      invariant seen == seen0 + Covered(0, 128 * n)
      decreases length
    {
      var b;
      BlockOfSlice(s, 128 * n);
      b, seen := ReadBlock(rest, 0, 128 * n, seen);
      st := Round64(st, b);
      rest := rest[64..];
      BlockOfSlice(s, 128 * n + 64);
      b, seen := ReadBlock(rest, 0, 128 * n + 64, seen);
      st := Round64(st, b);
      rest := rest[64..];
      MoreRead(seen0, 128 * n);
      length := length - 128;
      n := n + 1;
      if length < 128 { break; }
    }
  }

  method Compute128(s: Bytes, length: U32) returns (h: U128, ghost seen: set<nat>)
    requires length <= |s|
    ensures h == Hash128(s, length)
    ensures seen == Covered(0, length)
  {
    hide Hash128WithSeed, Fetch64, Covered;
    if length >= 16 {
      var f0, f8;
      f0, seen := Read8(s, 0, 0, {});
      WordOfSlice(s, 8, length, 0);
      f8, seen := Read8(s[8..length], 0, 8, seen);
      ghost var head := seen;
      h, seen := ComputeWithSeed(s[16..length], length - 16, (f0, Add(f8, K0)));
      HeadRead(length);
      seen := head + Shifted(seen, 16);
    } else {
      h, seen := ComputeWithSeed(s, length, (K0, K1));
    }
  }

  // ---------------------------------------------------------------- what has been read

  /** The first `lo` and the last `hi` bytes. */
  ghost function Both(lo: nat, hi: nat, length: nat): set<nat>
    requires hi <= length
  {
    Covered(0, lo) + Covered(length - hi, length)
  }

  ghost function Shifted(seen: set<nat>, k: nat): (r: set<nat>)
    ensures forall i: nat :: i in r <==> i >= k && i - k in seen
  {
    var r := set i | i in seen :: i + k;
    assert forall i: nat | i >= k && i - k in seen :: i in r by {
      forall i: nat | i >= k && i - k in seen ensures i in r {
        assert i == (i - k) + k;
      }
    }
    r
  }

  method ReadPiece(s: Bytes, off: nat, ghost seen0: set<nat>) returns (p: Piece, ghost seen: set<nat>)
    requires off + 32 <= |s|
    ensures p == PieceAt(s, off) && seen == seen0 + Covered(off, off + 32)
  {
    hide Fetch64, Mark8;
    var f0, f8, f16, f24;
    f16, seen := Read8(s, off + 16, 0, seen0);
    f0, seen := Read8(s, off, 0, seen);
    f8, seen := Read8(s, off + 8, 0, seen);
    f24, seen := Read8(s, off + 24, 0, seen);
    p := Piece(f0, f8, f16, f24);
    FourWords(seen0, off);
  }

  lemma FourWords(seen: set<nat>, o: nat)
    ensures Mark8(Mark8(Mark8(Mark8(seen, o + 16), o), o + 8), o + 24) == seen + Covered(o, o + 32)
  {
  }

  lemma WordOfSlice(s: Bytes, base: nat, end: nat, off: nat)
    requires base + off + 8 <= end <= |s|
    ensures Fetch64(s[base..end], off) == Fetch64(s, base + off)
  {
    hide Word;
  }

  lemma WordOfRest(s: Bytes, base: nat, off: nat)
    requires base + off + 8 <= |s|
    ensures Fetch64(s[base..], off) == Fetch64(s, base + off)
  {
    assert s[base..] == s[base..|s|];
    WordOfSlice(s, base, |s|, off);
  }

  lemma EightMissing(length: nat)
    requires length > 16
    ensures Covered(0, 8) + Covered(length - 8, length) < Covered(0, length)
  {
    assert 8 !in Covered(0, 8) + Covered(length - 8, length);
  }

  lemma InFront(seen: set<nat>, length: nat)
    requires length >= 8
    requires seen == if length <= 16 then Covered(0, length) else Covered(0, 8) + Covered(length - 8, length)
    ensures Mark8(seen, 0) == seen
  {
  }

  lemma LastPair(length: nat)
    requires length >= 16
    ensures Mark8(Mark8({}, length - 8), length - 16) == Both(0, 16, length)
  {
  }

  lemma PairRead(lo: nat, length: nat)
    requires length >= 16
    ensures Mark8(Mark8(Both(lo, 16, length), lo), lo + 8) == Both(lo + 16, 16, length)
  {
  }

  lemma PieceRead(lo: nat, n: nat, length: nat)
    requires n > 0 && 32 * n <= length
    ensures Both(lo, 32 * (n - 1), length) + Covered(length - 32 * n, length - 32 * n + 32) == Both(lo, 32 * n, length)
  {
  }

  lemma AllBoth(lo: nat, hi: nat, length: nat)
    requires hi <= length <= lo + hi && lo <= length
    ensures Both(lo, hi, length) == Covered(0, length)
  {
  }

  lemma BlocksOver(early: set<nat>, n: nat)
    requires n > 0 && early == Mark8(Mark8(Mark8({}, 0), 8), 88)
    ensures forall length: nat | 128 * n <= length :: early + Covered(0, 128 * n) == Both(128 * n, 0, length)
  {
  }

  lemma NothingRead(seen: set<nat>)
    ensures seen + Covered(0, 0) == seen
  {
  }

  lemma MoreRead(seen: set<nat>, lo: nat)
    ensures seen + Covered(0, lo) + Covered(lo, lo + 64) + Covered(lo + 64, lo + 128) == seen + Covered(0, lo + 128)
  {
  }

  lemma HeadRead(length: nat)
    requires length >= 16
    ensures Mark8(Mark8({}, 0), 8) + Shifted(Covered(0, length - 16), 16) == Covered(0, length)
  {
  }

  // ---------------------------------------------------------------- the chain merges nothing

  lemma SpreadCancel(w: U64, v: U64)
    ensures Spread(w) == Spread(v) <==> w == v
  {
    hide Mul, ShiftMix;
    MulK1Cancel(ShiftMix(Mul(w, K1)), ShiftMix(Mul(v, K1)));
    MulK1Cancel(w, v);
    ShiftMixBack(Mul(w, K1));
    ShiftMixBack(Mul(v, K1));
  }

  /** Shifting by 47 of 64 bits and xoring is its own inverse. */
  lemma ShiftMixBack(v: U64)
    ensures ShiftMix(ShiftMix(v)) == v
  {
    hide Xor, Shr;
    Pow2At64();
    XorShiftHalfBack(v, 47, 64);
  }

  /** A link loses neither the state nor the pair of words it takes in. */
  lemma LinkCancel(s: Chain, t: Chain, w0: U64, w8: U64, v0: U64, v8: U64)
    ensures Link(s, w0, w8) == Link(t, w0, w8) <==> s == t
    ensures Link(s, w0, w8) == Link(s, v0, v8) <==> w0 == v0 && w8 == v8
  {
    hide Mul, XorW, Spread;
    SpreadCancel(w0, v0);
    SpreadCancel(w8, v8);
    MulK1Cancel(XorW(s.a, Spread(w0)), XorW(t.a, Spread(w0)));
    MulK1Cancel(XorW(s.c, Spread(w8)), XorW(t.c, Spread(w8)));
    MulK1Cancel(XorW(s.a, Spread(w0)), XorW(s.a, Spread(v0)));
    MulK1Cancel(XorW(s.c, Spread(w8)), XorW(s.c, Spread(v8)));
    XorCancel64(s.a, t.a, Spread(w0));
    XorCancel64(s.c, t.c, Spread(w8));
    XorCancel64(Spread(w0), Spread(v0), s.a);
    XorCancel64(Spread(w8), Spread(v8), s.c);
    XorCancel64(s.b, t.b, Link(s, w0, w8).a);
    XorCancel64(s.d, t.d, Link(s, w0, w8).c);
  }

  /** Over any common run of words two chains meet only if they were equal before it. */
  lemma {:induction false} ChainsNeverMerge(s: Chain, t: Chain, bytes: Bytes, n: nat)
    requires 16 * n <= |bytes|
    ensures Links(s, bytes, n) == Links(t, bytes, n) <==> s == t
  {
    hide Link, Fetch64;
    if n > 0 {
      ChainsNeverMerge(s, t, bytes, n - 1);
      LinkCancel(Links(s, bytes, n - 1), Links(t, bytes, n - 1),
        Fetch64(bytes, 16 * (n - 1)), Fetch64(bytes, 16 * (n - 1) + 8), 0, 0);
    }
  }

  /** From one start, two inputs that differ in one pair of words only leave the chain in different states. */
  lemma {:induction false} OnePairShows(st: Chain, x: Bytes, y: Bytes, n: nat, k: nat)
    requires k < n && 16 * n <= |x| == |y|
    requires forall i: nat | i < 16 * n && i / 16 != k :: x[i] == y[i]
    requires x[16 * k..16 * k + 16] != y[16 * k..16 * k + 16]
    ensures Links(st, x, n) != Links(st, y, n)
  {
    hide Link, Fetch64;
    var (x0, x8) := (Fetch64(x, 16 * (n - 1)), Fetch64(x, 16 * (n - 1) + 8));
    var (y0, y8) := (Fetch64(y, 16 * (n - 1)), Fetch64(y, 16 * (n - 1) + 8));
    if k == n - 1 {
      SamePrefix(st, x, y, n - 1);
      PairShows(x, y, 16 * k);
      LinkCancel(Links(st, x, n - 1), Links(st, x, n - 1), x0, x8, y0, y8);
    } else {
      OnePairShows(st, x, y, n - 1, k);
      SameWord(x, y, 16 * (n - 1));
      SameWord(x, y, 16 * (n - 1) + 8);
      LinkCancel(Links(st, x, n - 1), Links(st, y, n - 1), x0, x8, x0, x8);
    }
  }

  lemma {:induction false} SamePrefix(st: Chain, x: Bytes, y: Bytes, n: nat)
    requires 16 * n <= |x| == |y|
    requires forall i: nat | i < 16 * n :: x[i] == y[i]
    ensures Links(st, x, n) == Links(st, y, n)
  {
    hide Link, Fetch64;
    if n > 0 {
      SamePrefix(st, x, y, n - 1);
      SameWord(x, y, 16 * (n - 1));
      SameWord(x, y, 16 * (n - 1) + 8);
    }
  }

  lemma SameWord(x: Bytes, y: Bytes, off: nat)
    requires off + 8 <= |x| == |y|
    requires forall i: nat | off <= i < off + 8 :: x[i] == y[i]
    ensures Fetch64(x, off) == Fetch64(y, off)
  {
    hide Word;
  }

  lemma PairShows(x: Bytes, y: Bytes, off: nat)
    requires off + 16 <= |x| == |y|
    ensures Fetch64(x, off) == Fetch64(y, off) && Fetch64(x, off + 8) == Fetch64(y, off + 8)
       <==> x[off..off + 16] == y[off..off + 16]
  {
    hide Fetch64;
    Fetch64Injective(x, y, off);
    Fetch64Injective(x, y, off + 8);
    Halves(x[off..off + 16], y[off..off + 16], 8);
    Parts(x, off, 8);
    Parts(y, off, 8);
  }

  lemma Halves(x: Bytes, y: Bytes, k: nat)
    requires k <= |x| == |y|
    ensures x == y <==> x[..k] == y[..k] && x[k..] == y[k..]
  {
    assert x == x[..k] + x[k..] && y == y[..k] + y[k..];
  }

  lemma Parts(x: Bytes, off: nat, k: nat)
    requires off + 2 * k <= |x|
    ensures x[off..off + 2 * k][..k] == x[off..off + k] && x[off..off + 2 * k][k..] == x[off + k..off + 2 * k]
  {
  }

  lemma Fetch64Injective(x: Bytes, y: Bytes, off: nat)
    requires off + 8 <= |x| == |y|
    ensures Fetch64(x, off) == Fetch64(y, off) <==> x[off..off + 8] == y[off..off + 8]
  {
    hide Fetch32;
    FetchInjective(x, y, off);
    FetchInjective(x, y, off + 4);
    Halves(x[off..off + 8], y[off..off + 8], 4);
    Parts(x, off, 4);
    Parts(y, off, 4);
  }
}
