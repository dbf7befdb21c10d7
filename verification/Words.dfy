/** Unsigned words as integers, with Go's wrap-around, shifts, rotation and exclusive or
    written out, and the laws the hash relies on. */
module Words {

  type U8 = x: int | 0 <= x < 0x100
  type U32 = x: int | 0 <= x < 0x1_0000_0000

  function Pow2(k: nat): (p: nat)
    ensures p > 0
  {
    if k == 0 then 1 else 2 * Pow2(k - 1)
  }

  function Shr(x: nat, k: nat): (r: nat)
    ensures r <= x
  {
    if k == 0 then x else Shr(x / 2, k - 1)
  }

  /** Bitwise exclusive or. */
  function Xor(a: nat, b: nat): nat {
    if a == 0 && b == 0 then 0 else 2 * Xor(a / 2, b / 2) + (if a % 2 == b % 2 then 0 else 1)
  }

  /** The lowest bit becomes the highest, of weight `top`. */
  function Turned(x: nat, top: nat): nat { x / 2 + (x % 2) * top }

  function Right1(x: U32): U32 { Turned(x, 0x8000_0000) }

  function Left1(x: U32): U32 { if x < 0x8000_0000 then 2 * x else 2 * x - 0xffff_ffff }

  /** Rotation of a 32-bit word to the right, one bit at a time. */
  function Rotate32(x: U32, k: nat): U32 {
    if k == 0 then x else Right1(Rotate32(x, k - 1))
  }

  function RotateLeft32(x: U32, k: nat): U32
    decreases k
  {
    if k == 0 then x else RotateLeft32(Left1(x), k - 1)
  }

  function Mul32(a: nat, b: nat): U32 { (a * b) % 0x1_0000_0000 }

  function Add32(a: nat, b: nat): U32 { (a + b) % 0x1_0000_0000 }

  function Sub32(a: U32, b: U32): U32 { (a + 0x1_0000_0000 - b) % 0x1_0000_0000 }

  function Xor32(a: U32, b: U32): U32 {
    assert Pow2(32) == 0x1_0000_0000 by { Pow2At32(); }
    XorSmall(a, b, 32);
    Xor(a, b)
  }

  /** The four bytes of a word, lowest first. */
  function Word(b0: U8, b1: U8, b2: U8, b3: U8): U32 {
    var (n0: int, n1: int, n2: int, n3: int) := (b0, b1, b2, b3);
    n0 + 0x100 * n1 + 0x1_0000 * n2 + 0x100_0000 * n3
  }

  /** Byte order reversed. */
  function Bswap32(x: U32): U32 {
    Word(x / 0x100_0000, x / 0x1_0000 % 0x100, x / 0x100 % 0x100, x % 0x100)
  }

  // ---------------------------------------------------------------- rotation

  lemma Pow2At32()
    ensures Pow2(31) == 0x8000_0000 && Pow2(32) == 0x1_0000_0000
  {
    assert Pow2(8) == 0x100;
    assert Pow2(16) == 0x1_0000;
    assert Pow2(24) == 0x100_0000;
  }

  /** `y` has the two parts of `x`, split at weight `q`, the other way round. */
  predicate Exchanged(x: nat, y: nat, hi: nat, lo: nat, q: nat, p: nat) {
    x == hi * q + lo && lo < q && y == hi + lo * p
  }

  /** Rotating by `k` exchanges the low `k` bits with the rest: `(x >> k) | (x << (32 - k))`. */
  lemma {:induction false} RotateIsShifts(x: U32, k: nat) returns (lo: nat)
    requires k <= 32
    ensures Exchanged(x, Rotate32(x, k), Shr(x, k), lo, Pow2(k), Pow2(32 - k))
  {
    if k == 0 {
      lo := 0;
    } else {
      var l := RotateIsShifts(x, k - 1);
      var h, q, p := Shr(x, k - 1), Pow2(k - 1), Pow2(32 - k);
      ShrStep(x, k - 1);
      assert Pow2(k) == 2 * q && Pow2(32 - (k - 1)) == 2 * p;
      assert q * p == 0x8000_0000 by {
        Pow2At32();
        Pow2Sum(k - 1, 32 - k);
      }
      hide *;
      lo := ExchangeStep(x, Rotate32(x, k - 1), h, l, q, p, 0x8000_0000);
      RotateUnfold(x, k);
    }
  }

  lemma RotateUnfold(x: U32, k: nat)
    requires k > 0
    ensures Rotate32(x, k) == Turned(Rotate32(x, k - 1), 0x8000_0000)
  {
  }

  /** One more bit moves from the bottom of the high part to the top of the low part. */
  lemma ExchangeStep(x: nat, y: nat, h: nat, l: nat, q: nat, p: nat, top: nat) returns (lo: nat)
    requires q * p == top
    requires Exchanged(x, y, h, l, q, 2 * p)
    ensures Exchanged(x, Turned(y, top), h / 2, lo, 2 * q, p)
  {
    var c, m := h / 2, l * p;
    assert l * (2 * p) == 2 * m;
    HalfOfSum(y, h, m, top);
    Regrouped(h, q);
    hide Turned;
    lo := if h % 2 == 0 then l else q + l;
    assert (q + l) * p == q * p + m;
  }

  lemma HalfOfSum(y: nat, h: nat, m: nat, top: nat)
    requires y == h + 2 * m
    ensures Turned(y, top) == h / 2 + m + if h % 2 == 0 then 0 else top
  {
    assert y / 2 == h / 2 + m && y % 2 == h % 2;
    assert 0 * top == 0 && 1 * top == top;
  }

  lemma Regrouped(h: nat, q: nat)
    ensures h * q == (h / 2) * (2 * q) + if h % 2 == 0 then 0 else q
  {
    var c := h / 2;
    assert h == 2 * c + h % 2;
    assert (2 * c) * q == c * (2 * q);
    assert (2 * c + 1) * q == c * (2 * q) + q;
  }

  lemma {:induction false} Pow2Sum(a: nat, b: nat)
    ensures Pow2(a) * Pow2(b) == Pow2(a + b)
  {
    if a > 0 {
      Pow2Sum(a - 1, b);
      assert Pow2(a) * Pow2(b) == 2 * (Pow2(a - 1) * Pow2(b));
    }
  }

  /** Rotation to the left undoes rotation to the right, and the other way round. */
  lemma {:induction false} RotateBack(x: U32, k: nat)
    ensures RotateLeft32(Rotate32(x, k), k) == x
    ensures Rotate32(RotateLeft32(x, k), k) == x
    decreases k
  {
    hide Left1, Right1;
    if k > 0 {
      RotateBack(x, k - 1);
      RotateBack(Left1(x), k - 1);
      Right1Back(Rotate32(x, k - 1));
      Right1Back(x);
    }
  }

  lemma Right1Back(x: U32)
    ensures Left1(Right1(x)) == x && Right1(Left1(x)) == x
  {
  }

  // ---------------------------------------------------------------- shifts and exclusive or

  lemma {:induction false} ShrStep(x: nat, k: nat)
    ensures Shr(x, k + 1) == Shr(x, k) / 2
  {
    if k > 0 { ShrStep(x / 2, k - 1); }
  }

  lemma {:induction false} ShrShr(x: nat, j: nat, k: nat)
    ensures Shr(Shr(x, j), k) == Shr(x, j + k)
  {
    if j > 0 { ShrShr(x / 2, j - 1, k); }
  }

  lemma {:induction false} ShrAll(x: nat, w: nat, k: nat)
    requires x < Pow2(w) && w <= k
    ensures Shr(x, k) == 0
  {
    if w > 0 {
      ShrAll(x / 2, w - 1, k - 1);
    } else if k > 0 {
      ShrAll(x / 2, 0, k - 1);
    }
  }

  lemma {:induction false} XorBasics(a: nat, b: nat)
    ensures Xor(a, b) == Xor(b, a)
    ensures Xor(a, 0) == a && Xor(a, a) == 0
    ensures Xor(a, b) / 2 == Xor(a / 2, b / 2)
    ensures Xor(a, b) % 2 == if a % 2 == b % 2 then 0 else 1
    decreases a + b
  {
    if a + b > 0 { XorBasics(a / 2, b / 2); }
    if b > 0 && a > 0 { XorBasics(a, 0); }
  }

  lemma {:induction false} XorAssoc(a: nat, b: nat, c: nat)
    ensures Xor(Xor(a, b), c) == Xor(a, Xor(b, c))
    decreases a + b + c
  {
    XorBasics(a, b);
    XorBasics(b, c);
    XorBasics(Xor(a, b), c);
    XorBasics(a, Xor(b, c));
    if a + b + c > 0 { XorAssoc(a / 2, b / 2, c / 2); }
  }

  /** Exclusive or with the same word twice changes nothing. */
  lemma XorCancel(a: nat, b: nat)
    ensures Xor(Xor(a, b), b) == a && Xor(b, Xor(b, a)) == a
  {
    hide Xor;
    XorAssoc(a, b, b);
    XorAssoc(b, b, a);
    XorBasics(b, b);
    XorBasics(0, a);
    XorBasics(a, 0);
  }

  lemma {:induction false} XorSmall(a: nat, b: nat, w: nat)
    requires a < Pow2(w) && b < Pow2(w)
    ensures Xor(a, b) < Pow2(w)
  {
    if w > 0 {
      XorSmall(a / 2, b / 2, w - 1);
      XorBasics(a, b);
    }
  }

  lemma {:induction false} ShrXor(a: nat, b: nat, k: nat)
    ensures Shr(Xor(a, b), k) == Xor(Shr(a, k), Shr(b, k))
  {
    if k > 0 {
      ShrXor(a / 2, b / 2, k - 1);
      XorBasics(a, b);
    }
  }

  /** A word xor itself shifted by at least half its width: an involution. */
  lemma XorShiftHalfBack(x: nat, k: nat, w: nat)
    requires x < Pow2(w) && w <= 2 * k
    ensures var y := Xor(x, Shr(x, k)); Xor(y, Shr(y, k)) == x
  {
    hide Xor, Shr;
    ShrXor(x, Shr(x, k), k);
    ShrShr(x, k, k);
    ShrAll(x, w, 2 * k);
    XorBasics(Shr(x, k), 0);
    XorCancel(x, Shr(x, k));
  }

  /** A word xor itself shifted by at least a third of its width, undone from both sides. */
  lemma XorShiftThirdBack(x: nat, k: nat, w: nat)
    requires x < Pow2(w) && w <= 3 * k
    ensures var y := Xor(x, Shr(x, k)); Xor(Xor(y, Shr(y, k)), Shr(y, 2 * k)) == x
    ensures var y := Xor(Xor(x, Shr(x, k)), Shr(x, 2 * k)); Xor(y, Shr(y, k)) == x
  {
    hide Xor, Shr;
    var s, t := Shr(x, k), Shr(x, 2 * k);
    ShrShr(x, k, k);
    ShrShr(x, 2 * k, k);
    ShrShr(x, k, 2 * k);
    ShrAll(x, w, 3 * k);
    ShrXor(x, s, k);
    ShrXor(x, s, 2 * k);
    ShrXor(Xor(x, s), t, k);
    XorTelescopes(x, s, t);
  }

  lemma XorTelescopes(x: nat, s: nat, t: nat)
    ensures Xor(Xor(Xor(x, s), Xor(s, t)), Xor(t, 0)) == x
    ensures Xor(Xor(Xor(x, s), t), Xor(Xor(s, t), 0)) == x
  {
    hide Xor;
    XorBasics(t, 0);
    XorBasics(Xor(s, t), 0);
    XorAssoc(x, s, Xor(s, t));
    XorCancel(t, s);
    XorCancel(x, t);
    XorAssoc(x, s, t);
    XorCancel(x, Xor(s, t));
    XorBasics(s, t);
  }

  lemma Xor32Back(a: U32, b: U32)
    ensures Xor32(Xor32(a, b), b) == a && Xor32(a, b) == Xor32(b, a)
  {
    hide Xor;
    XorCancel(a, b);
    XorBasics(a, b);
  }

  // ---------------------------------------------------------------- arithmetic

  lemma AddBack(a: U32, b: U32)
    ensures Sub32(Add32(a, b), b) == a && Add32(Sub32(a, b), b) == a
  {
    var s: int := a + b;
    var d: int := a - b;
    assert Add32(a, b) == if s < 0x1_0000_0000 then s else s - 0x1_0000_0000;
    assert Sub32(a, b) == if d >= 0 then d else d + 0x1_0000_0000;
  }

  /** A factor with an inverse modulo 2^32 loses nothing. */
  lemma MulBack(x: U32, c: nat, d: nat)
    requires (c * d) % 0x1_0000_0000 == 1
    ensures Mul32(Mul32(x, c), d) == x
  {
    var m, q, k := Mul32(x, c), x * c / 0x1_0000_0000, c * d / 0x1_0000_0000;
    assert x * c == q * 0x1_0000_0000 + m && c * d == k * 0x1_0000_0000 + 1;
    calc {
      m * d;
      (x * c - q * 0x1_0000_0000) * d;
      x * (c * d) - q * 0x1_0000_0000 * d;
      x * (k * 0x1_0000_0000 + 1) - q * 0x1_0000_0000 * d;
      x + (x * k - q * d) * 0x1_0000_0000;
    }
    SubMultiple(x, x * k - q * d);
  }

  lemma SubMultiple(n: U32, j: int)
    ensures (n + j * 0x1_0000_0000) % 0x1_0000_0000 == n
  {
  }

  lemma BswapWord(b0: U8, b1: U8, b2: U8, b3: U8)
    ensures Bswap32(Word(b0, b1, b2, b3)) == Word(b3, b2, b1, b0)
  {
    WordBytes(b0, b1, b2, b3);
  }

  lemma WordBytes(b0: U8, b1: U8, b2: U8, b3: U8)
    ensures var x: int := Word(b0, b1, b2, b3);
      x % 0x100 == b0 && x / 0x100 % 0x100 == b1 && x / 0x1_0000 % 0x100 == b2 && x / 0x100_0000 == b3
  {
    var x: int := Word(b0, b1, b2, b3);
    assert x / 0x100 == (b1 as int) + 0x100 * (b2 as int) + 0x1_0000 * (b3 as int);
    assert x / 0x1_0000 == (b2 as int) + 0x100 * (b3 as int);
    assert x / 0x100_0000 == (b3 as int);
  }

  lemma WordSplit(x: U32) returns (b0: U8, b1: U8, b2: U8, b3: U8)
    ensures x == Word(b0, b1, b2, b3)
  {
    var q: nat := x / 0x100;
    var r: nat := q / 0x100;
    b0, b1, b2, b3 := x % 0x100, q % 0x100, r % 0x100, r / 0x100;
  }

  lemma BswapBack(x: U32)
    ensures Bswap32(Bswap32(x)) == x
  {
    hide Bswap32, Word;
    var b0, b1, b2, b3 := WordSplit(x);
    BswapWord(b0, b1, b2, b3);
    BswapWord(b3, b2, b1, b0);
  }
}
