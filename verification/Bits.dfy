/** Bitwise operators of C on unsigned values, defined bit by bit, and the two
    facts the sources rely on: `|` of disjoint fields adds, and `&` with a
    complemented low mask clears the low bits. */
module Bits {

  function Pow2(n: nat): (p: nat)
    ensures p > 0
  {
    if n == 0 then 1 else 2 * Pow2(n - 1)
  }

  function BitAnd(x: nat, y: nat): nat {
    if x == 0 || y == 0 then 0
    else (if x % 2 == 1 && y % 2 == 1 then 1 else 0) + 2 * BitAnd(x / 2, y / 2)
  }

  function BitOr(x: nat, y: nat): nat {
    if x == 0 && y == 0 then 0
    else (if x % 2 == 1 || y % 2 == 1 then 1 else 0) + 2 * BitOr(x / 2, y / 2)
  }

  lemma Pow2Values()
    ensures Pow2(7) == 128 && Pow2(8) == 256
    ensures Pow2(16) == 0x1_0000 && Pow2(24) == 0x100_0000
  {
    assert Pow2(4) == 16;
    assert Pow2(8) == 256;
    assert Pow2(12) == 4096;
    assert Pow2(16) == 0x1_0000;
    assert Pow2(20) == 0x10_0000;
  }

  lemma Pow2Monotone(a: nat, b: nat)
    requires a <= b
    ensures Pow2(a) <= Pow2(b)
  {
    if a < b {
      Pow2Monotone(a, b - 1);
    }
  }

  /** Halving a value whose low `k` bits are known. */
  lemma HalfModPow2(x: nat, k: nat)
    requires k > 0
    ensures x % Pow2(k) == x % 2 + 2 * ((x / 2) % Pow2(k - 1))
  {
    var p := Pow2(k - 1);
    var q, r := (x / 2) / p, (x / 2) % p;
    assert x == q * (2 * p) + (2 * r + x % 2);
    DivModUnique(x, 2 * p, q, 2 * r + x % 2);
  }

  lemma DivModUnique(x: int, m: int, q: int, r: int)
    requires m > 0 && 0 <= r < m && x == q * m + r
    ensures x / m == q && x % m == r
  {
    var d := q - x / m;
    assert x == (x / m) * m + x % m;
    assert d * m == x % m - r by {
      assert d * m == q * m - (x / m) * m;
    }
    MultipleBound(d, m);
  }

  lemma MultipleBound(d: int, m: int)
    requires m > 0
    ensures d >= 1 ==> d * m >= m
    ensures d <= -1 ==> d * m <= -m
  {
  }

  lemma {:induction false} OrDisjoint(x: nat, y: nat, k: nat)
    requires x % Pow2(k) == 0 && y < Pow2(k)
    ensures BitOr(x, y) == x + y
  {
    if k == 0 {
      OrZero(x);
    } else {
      HalfModPow2(x, k);
      OrDisjoint(x / 2, y / 2, k - 1);
    }
  }

  lemma {:induction false} OrZero(x: nat)
    ensures BitOr(x, 0) == x
  {
    if x != 0 {
      OrZero(x / 2);
    }
  }

  lemma {:induction false} AndAllOnes(x: nat, w: nat)
    ensures BitAnd(x, Pow2(w) - 1) == x % Pow2(w)
  {
    if w > 0 {
      AndAllOnes(x / 2, w - 1);
      HalfModPow2(x, w);
      assert (Pow2(w) - 1) / 2 == Pow2(w - 1) - 1 && (Pow2(w) - 1) % 2 == 1;
    }
  }

  lemma AndEven(x: nat, m: nat)
    ensures BitAnd(x, 2 * m) == 2 * BitAnd(x / 2, m)
  {
  }

  /** `x & ~(2^k - 1)`, the complement taken in a word of `w` bits, keeps the bits from `k`
      up to `w`. */
  lemma {:induction false} AndMask(x: nat, k: nat, w: nat)
    requires k <= w
    ensures Pow2(k) <= Pow2(w)
    ensures BitAnd(x, Pow2(w) - Pow2(k)) == x % Pow2(w) - x % Pow2(k)
  {
    Pow2Monotone(k, w);
    if k == w {
    } else if k == 0 {
      AndAllOnes(x, w);
    } else {
      hide BitAnd;
      Pow2Monotone(k - 1, w - 1);
      var half := Pow2(w - 1) - Pow2(k - 1);
      assert Pow2(w) - Pow2(k) == 2 * half;
      AndEven(x, half);
      AndMask(x / 2, k - 1, w - 1);
      HalfModPow2(x, w);
      HalfModPow2(x, k);
    }
  }

  /** For `x` in that word, it rounds `x` down to a multiple of 2^k. */
  lemma AndHighMask(x: nat, k: nat, w: nat)
    requires k <= w && x < Pow2(w)
    ensures Pow2(k) <= Pow2(w)
    ensures BitAnd(x, Pow2(w) - Pow2(k)) == x - x % Pow2(k)
  {
    AndMask(x, k, w);
    DivModUnique(x, Pow2(w), 0, x);
  }
}
