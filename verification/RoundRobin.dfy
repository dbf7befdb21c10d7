/** Counting how often each index comes up among consecutive values of a counter modulo `k`:
    the arithmetic shared by the broadcast routines and by the choice of a connect client. */
module RoundRobin {

  /** How many of `start, start + 1, ..., start + n - 1` are `x` modulo `k`. */
  function Load(start: nat, n: nat, k: nat, x: nat): nat
    requires k > 0
  {
    if n == 0 then 0 else Load(start, n - 1, k, x) + (if (start + n - 1) % k == x then 1 else 0)
  }

  /** A stretch counted in two parts. */
  lemma {:induction false} LoadSplit(start: nat, n: nat, m: nat, k: nat, x: nat)
    requires k > 0
    ensures Load(start, n + m, k, x) == Load(start, n, k, x) + Load(start + n, m, k, x)
  {
    if m > 0 { LoadSplit(start, n, m - 1, k, x); }
  }

  /** Within less than a full turn an index comes up at most once, and exactly when it is reached. */
  lemma {:induction false} LoadWithinTurn(start: nat, n: nat, k: nat, x: nat)
    requires 0 <= x < k && n <= k
    ensures Load(start, n, k, x) == if (x + k - start % k) % k < n then 1 else 0
  {
    if n > 0 {
      LoadWithinTurn(start, n - 1, k, x);
      var r := start % k;
      var d := (x + k - r) % k;
      assert d == if x >= r then x - r else x + k - r by { ModSmall(x + k - r, k); }
      AddMod(start, n - 1, k);
      ModSmall(r + n - 1, k);
    }
  }

  lemma ModSmall(a: nat, k: nat)
    requires a < 2 * k
    ensures a % k == if a < k then a else a - k
  {
    if a >= k { assert a == k + (a - k); }
  }

  lemma AddMod(a: nat, b: nat, k: nat)
    requires k > 0
    ensures (a + b) % k == (a % k + b) % k
  {
    var q := a / k;
    assert a + b == q * k + (a % k + b);
    ShiftMod(a % k + b, q, k);
  }

  lemma {:induction false} ShiftMod(r: nat, q: nat, k: nat)
    requires k > 0
    ensures (q * k + r) % k == r % k
  {
    if q > 0 {
      ShiftMod(r, q - 1, k);
      var t := (q - 1) * k + r;
      assert q * k + r == t + k;
      StepMod(t, k);
    } else {
      assert q * k == 0;
    }
  }

  lemma StepMod(t: nat, k: nat)
    requires k > 0
    ensures (t + k) % k == t % k && (t + k) / k == t / k + 1
  {
    var c, r := t / k, t % k;
    assert t == c * k + r;
    assert t + k == (c + 1) * k + r;
    QuotientUnique(t + k, k, c + 1, r);
  }

  lemma QuotientUnique(a: nat, k: nat, q: nat, r: nat)
    requires k > 0 && a == q * k + r && r < k
    ensures a / k == q && a % k == r
  {
    var d := a / k - q;
    assert a == (a / k) * k + a % k;
    assert d * k == r - a % k;
    Scale(d, k);
  }

  lemma Scale(d: int, k: nat)
    ensures d >= 1 ==> d * k >= k
    ensures d <= -1 ==> d * k + k <= 0
  {
    if d >= 1 {
      assert (d - 1) * k >= 0;
    } else if d <= -1 {
      assert (-1 - d) * k >= 0;
    }
  }

  /** Over any `n` consecutive values the load of an index is `n / k` or one more. */
  lemma {:induction false} LoadBounds(start: nat, n: nat, k: nat, x: nat)
    requires 0 <= x < k
    ensures n / k <= Load(start, n, k, x) <= n / k + (if n % k > 0 then 1 else 0)
    decreases n
  {
    if n < k {
      LoadWithinTurn(start, n, k, x);
      QuotientUnique(n, k, 0, n);
    } else {
      var m := n - k;
      StepMod(m, k);
      LoadBounds(start + k, m, k, x);
      LoadSplit(start, k, m, k, x);
      LoadWithinTurn(start, k, k, x);
      ModSmall(x + k - start % k, k);
      hide Load;
    }
  }

  /** The loads of two indices over the same stretch differ by at most one. */
  lemma LoadsFair(start: nat, n: nat, k: nat, x: nat, y: nat)
    requires 0 <= x < k && 0 <= y < k
    ensures Load(start, n, k, x) <= Load(start, n, k, y) + 1
  {
    LoadBounds(start, n, k, x);
    LoadBounds(start, n, k, y);
  }

  // ---------------------------------------------------------------- a counter that wraps

  /** The same count for a counter that starts again from zero at `w`. */
  function WrappedLoad(start: nat, n: nat, w: nat, k: nat, x: nat): nat
    requires w > 0 && k > 0
  {
    if n == 0 then 0
    else WrappedLoad(start, n - 1, w, k, x) + (if (start + n - 1) % w % k == x then 1 else 0)
  }

  lemma {:induction false} NoWrap(start: nat, n: nat, w: nat, k: nat, x: nat)
    requires k > 0 && w > 0 && start + n <= w
    ensures WrappedLoad(start, n, w, k, x) == Load(start, n, k, x)
  {
    if n > 0 {
      NoWrap(start, n - 1, w, k, x);
      QuotientUnique(start + n - 1, w, 0, start + n - 1);
    }
  }

  lemma {:induction false} WrapUnseen(start: nat, n: nat, w: nat, k: nat, x: nat)
    requires k > 0 && w > 0 && w % k == 0
    ensures WrappedLoad(start, n, w, k, x) == Load(start, n, k, x)
  {
    if n > 0 {
      WrapUnseen(start, n - 1, w, k, x);
      ModMod(start + n - 1, w, k);
    }
  }

  lemma ModMod(a: nat, w: nat, k: nat)
    requires k > 0 && w > 0 && w % k == 0
    ensures a % w % k == a % k
  {
    var q, c, r := a / w, w / k, a % w;
    assert a == q * w + r && w == c * k;
    assert q * w == (q * c) * k by { Regroup(q, c, k, w); }
    assert q * c >= 0;
    ShiftMod(r, q * c, k);
  }

  lemma Regroup(q: nat, c: nat, k: nat, w: nat)
    requires w == c * k
    ensures q * w == (q * c) * k
  {
  }

  lemma {:induction false} WrappedLoadSplit(start: nat, n: nat, m: nat, w: nat, k: nat, x: nat)
    requires k > 0 && w > 0
    ensures WrappedLoad(start, n + m, w, k, x) == WrappedLoad(start, n, w, k, x) + WrappedLoad(start + n, m, w, k, x)
  {
    if m > 0 { WrappedLoadSplit(start, n, m - 1, w, k, x); }
  }

  /** The loads of every stretch of a counter that wraps at `w` stay within one of each other. */
  ghost predicate FairAtEveryStretch(w: nat, k: nat)
    requires w > 0 && k > 0
  {
    forall start: nat, n: nat, x: nat, y: nat | start < w && x < k && y < k ::
      WrappedLoad(start, n, w, k, x) <= WrappedLoad(start, n, w, k, y) + 1
  }

  /** A stretch across the wrap that visits 0 twice and the last index not at all. */
  lemma UnfairStretch(w: nat, k: nat) returns (start: nat, n: nat)
    requires 0 < k <= w && w % k != 0
    ensures start < w && WrappedLoad(start, n, w, k, 0) == 2 && WrappedLoad(start, n, w, k, k - 1) == 0
  {
    var m := w % k;
    start, n := w - m, m + 1;
    assert w == (w / k) * k + m;
    QuotientUnique(start, k, w / k, 0);
    forall x: nat | x < k ensures WrappedLoad(start, m, w, k, x) == if x < m then 1 else 0 {
      NoWrap(start, m, w, k, x);
      LoadWithinTurn(start, m, k, x);
      ModSmall(x + k, k);
    }
    QuotientUnique(w, w, 1, 0);
    QuotientUnique(0, k, 0, 0);
    assert start + n - 1 == w;
  }

  /** Fairness survives the wrap exactly when the number of indices divides the wrapping point. */
  lemma FairIffDivides(w: nat, k: nat)
    requires 0 < k <= w
    ensures FairAtEveryStretch(w, k) <==> w % k == 0
  {
    if w % k == 0 {
      forall start: nat, n: nat, x: nat, y: nat | start < w && x < k && y < k
        ensures WrappedLoad(start, n, w, k, x) <= WrappedLoad(start, n, w, k, y) + 1
      {
        WrapUnseen(start, n, w, k, x);
        WrapUnseen(start, n, w, k, y);
        LoadsFair(start, n, k, x, y);
      }
    } else {
      var start, n := UnfairStretch(w, k);
      assert WrappedLoad(start, n, w, k, 0) > WrappedLoad(start, n, w, k, k - 1) + 1;
    }
  }
}
