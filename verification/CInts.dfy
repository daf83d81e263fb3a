/** The fixed-width integers of the C and C++ sources: moduli, the unsigned
    conversion (a remainder) and the signed one (two's complement). */
module CInts {
  const U16: int := 0x1_0000
  const U32: int := 0x1_0000_0000
  const U64: int := 0x1_0000_0000_0000_0000

  type Byte = x: int | 0 <= x < 256

  /** A signed 64-bit integer, `long long` in the sources. */
  type Int64 = x: int | -0x8000_0000_0000_0000 <= x < 0x8000_0000_0000_0000

  /** Conversion to a signed type of modulus `m`: the value that is congruent to
      `x` and lies in the type's range. */
  function Signed(x: int, m: int): (r: int)
    requires m > 0 && m % 2 == 0
    ensures -(m / 2) <= r < m / 2
  {
    var u := x % m;
    if u < m / 2 then u else u - m
  }

  /** With the range, this determines the value. */
  lemma SignedIsCongruent(x: int, m: int)
    requires m > 0 && m % 2 == 0
    ensures exists q: int :: x == Signed(x, m) + q * m
  {
    var q := x / m;
    assert x == q * m + x % m;
    assert Signed(x, m) == x % m ==> x == Signed(x, m) + q * m;
    assert Signed(x, m) != x % m ==> x == Signed(x, m) + (q + 1) * m;
  }

  /** A signed 32-bit integer, `int` in the sources. */
  type Int32 = x: int | FitsInt32(x)

  function ToInt32(x: int): (r: Int32)
    ensures r == x <==> FitsInt32(x)
  {
    Signed(x, U32)
  }

  predicate FitsInt32(x: int) {
    -0x8000_0000 <= x < 0x8000_0000
  }

  /** C's integer division, which truncates toward zero. */
  function CDiv(a: int, b: int): int
    requires b > 0
  {
    if a >= 0 then a / b else -((-a) / b)
  }
}
