/** The exact arithmetic helpers of my_global.h. Doubles are read as real numbers. */
module Numeric {
  import opened CInts
  import Bits

  // ---------------------------------------------------------------- MY_ALIGN

  /** `MY_ALIGN(A, L)` for L = 2^k, both of one unsigned type of `w` bits, where the sum wraps. */
  function MyAlign(a: nat, k: nat, w: nat): nat
    requires k <= w && a < Bits.Pow2(w)
  {
    Bits.Pow2Monotone(k, w);
    Bits.BitAnd((a + Bits.Pow2(k) - 1) % Bits.Pow2(w), Bits.Pow2(w) - Bits.Pow2(k))
  }

  /** `m` is a multiple of `l`, is not below `a`, and no smaller number is both. */
  ghost predicate IsLeastMultiple(m: nat, a: nat, l: nat)
    requires l > 0
  {
    && m >= a && m % l == 0
    && forall x: nat :: x >= a && x % l == 0 ==> m <= x
  }

  lemma MyAlignFits(a: nat, k: nat, w: nat)
    requires k <= w && a + Bits.Pow2(k) - 1 < Bits.Pow2(w)
    ensures var sum := a + Bits.Pow2(k) - 1; MyAlign(a, k, w) == sum - sum % Bits.Pow2(k)
    ensures IsLeastMultiple(MyAlign(a, k, w), a, Bits.Pow2(k))
  {
    var sum := a + Bits.Pow2(k) - 1;
    assert sum % Bits.Pow2(w) == sum by { Bits.DivModUnique(sum, Bits.Pow2(w), 0, sum); }
    assert MyAlign(a, k, w) == sum - sum % Bits.Pow2(k) by { Bits.AndHighMask(sum, k, w); }
    LeastMultiple(a, Bits.Pow2(k));
  }

  /** When the sum overflows, the result is zero. */
  lemma MyAlignWraps(a: nat, k: nat, w: nat)
    requires k <= w && a < Bits.Pow2(w) <= a + Bits.Pow2(k) - 1
    ensures MyAlign(a, k, w) == 0
  {
    var l, word := Bits.Pow2(k), Bits.Pow2(w);
    Bits.Pow2Monotone(k, w);
    var over := a + l - 1 - word;
    Bits.DivModUnique(a + l - 1, word, 1, over);
    Bits.AndHighMask(over, k, w);
    Bits.DivModUnique(over, l, 0, over);
  }

  /** In every case the result is the least multiple of 2^k not below `a`, cut to `w`
      bits; it is not below `a` exactly when the sum did not overflow. */
  lemma MyAlignIsLeastMultiple(a: nat, k: nat, w: nat)
    requires k <= w && a < Bits.Pow2(w)
    ensures exists m: nat :: IsLeastMultiple(m, a, Bits.Pow2(k)) && MyAlign(a, k, w) == m % Bits.Pow2(w)
    ensures MyAlign(a, k, w) >= a <==> a + Bits.Pow2(k) - 1 < Bits.Pow2(w)
  {
    var l, word := Bits.Pow2(k), Bits.Pow2(w);
    if a + l - 1 < word {
      MyAlignFits(a, k, w);
      var m := MyAlign(a, k, w);
      Bits.DivModUnique(m, word, 0, m);
      assert IsLeastMultiple(m, a, l) && MyAlign(a, k, w) == m % word;
    } else {
      Bits.Pow2Monotone(k, w);
      MyAlignWraps(a, k, w);
      WordIsLeastMultiple(a, k, w);
      Bits.DivModUnique(word, word, 1, 0);
      assert IsLeastMultiple(word, a, l) && MyAlign(a, k, w) == word % word;
    }
  }

  lemma WordIsLeastMultiple(a: nat, k: nat, w: nat)
    requires k <= w && a < Bits.Pow2(w) <= a + Bits.Pow2(k) - 1
    ensures IsLeastMultiple(Bits.Pow2(w), a, Bits.Pow2(k))
  {
    var l, word := Bits.Pow2(k), Bits.Pow2(w);
    LeastMultiple(a, l);
    Pow2Divides(k, w);
    Bits.DivModUnique(a + l - 1, l, word / l, a + l - 1 - word);
  }

  lemma LeastMultiple(a: nat, l: nat)
    requires l > 0
    ensures var sum := a + l - 1; IsLeastMultiple(sum - sum % l, a, l)
  {
    var sum := a + l - 1;
    var q := sum / l;
    assert sum == q * l + sum % l;
    Bits.DivModUnique(q * l, l, q, 0);
    forall x: nat | x >= a && x % l == 0
      ensures q * l <= x
    {
      var p := x / l;
      assert x == p * l;
      Bits.MultipleBound(q - p, l);
      assert (q - p) * l == q * l - p * l;
    }
  }

  lemma {:induction false} Pow2Divides(k: nat, w: nat)
    requires k <= w
    ensures Bits.Pow2(w) == Bits.Pow2(w) / Bits.Pow2(k) * Bits.Pow2(k)
  {
    if k < w {
      Pow2Divides(k, w - 1);
      var q := Bits.Pow2(w - 1) / Bits.Pow2(k);
      assert Bits.Pow2(w) == 2 * q * Bits.Pow2(k);
      Bits.DivModUnique(Bits.Pow2(w), Bits.Pow2(k), 2 * q, 0);
    } else {
      Bits.DivModUnique(Bits.Pow2(w), Bits.Pow2(k), 1, 0);
    }
  }

  lemma MyAlignIdempotent(a: nat, k: nat, w: nat)
    requires k <= w && a < Bits.Pow2(w)
    ensures MyAlign(a, k, w) < Bits.Pow2(w)
    ensures MyAlign(MyAlign(a, k, w), k, w) == MyAlign(a, k, w)
  {
    Bits.Pow2Monotone(k, w);
    if a + Bits.Pow2(k) - 1 < Bits.Pow2(w) {
      MyAlignFits(a, k, w);
    } else {
      MyAlignWraps(a, k, w);
    }
    MyAlignOfMultiple(MyAlign(a, k, w), k, w);
  }

  lemma MyAlignOfMultiple(r: nat, k: nat, w: nat)
    requires k <= w && r < Bits.Pow2(w) && r % Bits.Pow2(k) == 0
    ensures MyAlign(r, k, w) == r
  {
    assert r + Bits.Pow2(k) <= Bits.Pow2(w) by {
      Pow2Divides(k, w);
      SumOfMultiples(r, Bits.Pow2(w), Bits.Pow2(k));
    }
    MyAlignFits(r, k, w);
  }

  /** A multiple of `l` below a multiple of `l` leaves room for one more step. */
  lemma SumOfMultiples(r: nat, word: nat, l: nat)
    requires l > 0 && r < word && r % l == 0 && word == word / l * l
    ensures r + l <= word
  {
    var p, q := r / l, word / l;
    assert r == p * l;
    assert (q - p) * l == word - r;
    if q <= p {
      Bits.MultipleBound(p - q + 1, l);
      assert (p - q + 1) * l == l - (word - r);
    }
    Bits.MultipleBound(q - p, l);
  }

  lemma MyAlignMonotone(a: nat, b: nat, k: nat, w: nat)
    requires k <= w && a <= b && b + Bits.Pow2(k) - 1 < Bits.Pow2(w)
    ensures MyAlign(a, k, w) <= MyAlign(b, k, w)
  {
    MyAlignFits(a, k, w);
    MyAlignFits(b, k, w);
  }

  /** The same with L of a narrower unsigned type of `v` bits: the complement is taken in
      that type and then widened with zeros. */
  function MyAlignNarrow(a: nat, k: nat, v: nat, w: nat): nat
    requires k <= v <= w && a < Bits.Pow2(w)
  {
    Bits.Pow2Monotone(k, v);
    Bits.BitAnd((a + Bits.Pow2(k) - 1) % Bits.Pow2(w), Bits.Pow2(v) - Bits.Pow2(k))
  }

  lemma MyAlignNarrowIs(a: nat, k: nat, v: nat, w: nat)
    requires k <= v <= w && a + Bits.Pow2(k) - 1 < Bits.Pow2(w)
    ensures var sum := a + Bits.Pow2(k) - 1;
      MyAlignNarrow(a, k, v, w) == sum % Bits.Pow2(v) - sum % Bits.Pow2(k)
  {
    var sum := a + Bits.Pow2(k) - 1;
    assert sum % Bits.Pow2(w) == sum by { Bits.DivModUnique(sum, Bits.Pow2(w), 0, sum); }
    Bits.AndMask(sum, k, v);
  }

  /** Without overflow the narrower L gives the same result exactly when the sum fits its
      type; otherwise the result has lost the high bits of A. */
  lemma NarrowMaskLosesHighBits(a: nat, k: nat, v: nat, w: nat)
    requires k <= v <= w && a + Bits.Pow2(k) - 1 < Bits.Pow2(w)
    ensures MyAlignNarrow(a, k, v, w) == MyAlign(a, k, w) <==> a + Bits.Pow2(k) - 1 < Bits.Pow2(v)
    ensures MyAlignNarrow(a, k, v, w) < Bits.Pow2(v)
  {
    var sum := a + Bits.Pow2(k) - 1;
    MyAlignNarrowIs(a, k, v, w);
    MyAlignFits(a, k, w);
    if sum < Bits.Pow2(v) {
      Bits.DivModUnique(sum, Bits.Pow2(v), 0, sum);
    }
  }

  // -------------------------------------------------------------------- rint

  const MAX_EXACT_INTEGER: int := 0x20_0000_0000_0000 - 1

  /** The integer part that `modf` gives: truncation toward zero. */
  function Trunc(x: real): int {
    if x >= 0.0 then x.Floor else -((-x).Floor)
  }

  /** Rounding to the nearest integer, ties to the even neighbour. */
  function NearestEven(x: real): (n: int)
    ensures -0.5 <= x - n as real <= 0.5
    ensures (x - n as real == 0.5 || x - n as real == -0.5) ==> n % 2 == 0
  {
    var low := x.Floor;
    var gap := x - low as real;
    if gap < 0.5 || (gap == 0.5 && low % 2 == 0) then low else low + 1
  }

  /** The two conditions leave one choice. */
  lemma NearestEvenIsUnique(x: real, n: int)
    requires -0.5 <= x - n as real <= 0.5
    requires (x - n as real == 0.5 || x - n as real == -0.5) ==> n % 2 == 0
    ensures n == NearestEven(x)
  {
    var m := NearestEven(x);
    assert -1.0 <= (n - m) as real <= 1.0;
  }

  lemma NearestEvenIsOdd(x: real)
    ensures NearestEven(-x) == -NearestEven(x)
  {
    NearestEvenIsUnique(-x, -NearestEven(x));
  }

  lemma NearestEvenIsMonotone(x: real, y: real)
    requires x <= y
    ensures NearestEven(x) <= NearestEven(y)
  {
  }

  /** `x` is half-way between integers, the one nearer zero is odd, and it is too large
      for the source to look at its parity. No double is such a number: doubles of that
      size are whole. */
  predicate BeyondParityCheck(x: real) {
    var i := Trunc(x);
    && (x - i as real == 0.5 || x - i as real == -0.5)
    && i % 2 != 0
    && (i > MAX_EXACT_INTEGER || i < -MAX_EXACT_INTEGER)
  }

  method Rint(x: real) returns (i: real)
    ensures i == i.Floor as real
    ensures i == NearestEven(x) as real <==> !BeyondParityCheck(x)
    ensures -9007199254740992.0 <= x <= 9007199254740992.0 ==> i == NearestEven(x) as real
  {
    i := Trunc(x) as real;
    var f := x - i;
    var n := Trunc(x);
    if x > 0.0 {
      if f > 0.5 || (f == 0.5 && i <= MAX_EXACT_INTEGER as real && n % 2 != 0) {
        i := i + 1.0;
        n := n + 1;
      }
    } else {
      if f < -0.5 || (f == -0.5 && i >= -MAX_EXACT_INTEGER as real && n % 2 != 0) {
        i := i - 1.0;
        n := n - 1;
      }
    }
    assert i == n as real;
    if !BeyondParityCheck(x) {
      NearestEvenIsUnique(x, n);
    }
  }

  // ------------------------------------------------- unsigned 64-bit and double

  /** The value is reinterpreted as signed; a negative one gets 2^64 added back. */
  function Ulonglong2Double(value: nat): (d: real)
    requires value < U64
  {
    var nr := Signed(value, U64);
    if nr >= 0 then nr as real else 18446744073709551616.0 + nr as real
  }

  /** Values from 2^63 up are converted through a signed-size remainder. */
  function Double2Ulonglong(d: real): int
    requires -1.0 < d < 18446744073709551616.0
  {
    var t := d - 9223372036854775808.0;
    if t >= 0.0 then (Trunc(t) + 0x8000_0000_0000_0000) % U64 else Trunc(d)
  }

  /** The conversion to a real is exact, and the way back cuts off the fraction, so that
      the two are inverse on all of [0, 2^64). */
  lemma ConversionsAreInverse(value: nat, d: real)
    requires value < U64 && 0.0 <= d < 18446744073709551616.0
    ensures Ulonglong2Double(value) == value as real
    ensures 0 <= Double2Ulonglong(d) < U64
    ensures Double2Ulonglong(d) as real <= d < Double2Ulonglong(d) as real + 1.0
    ensures Double2Ulonglong(Ulonglong2Double(value)) == value
  {
    var t := d - 9223372036854775808.0;
    if t >= 0.0 {
      assert t.Floor + 0x8000_0000_0000_0000 < U64;
    }
  }
}
