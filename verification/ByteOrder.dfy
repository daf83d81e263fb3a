/** The fixed-width decoders (`*korr`) and stores of the byte-order headers, in the
    portable form and in the form that uses the machine's own loads and stores. */
module ByteOrder {
  import opened CInts
  import opened Codec
  import Bits

  const INT_MIN24: int := -0x80_0000
  const INT_MAX24: int := 0x7F_FFFF

  // ---------------------------------------------------------------- decoders
  // A pointer argument is the sequence of bytes from that address on.

  function Uint2korr(a: seq<Byte>): (r: nat)
    requires |a| >= 2
    ensures r == Decode(a[..2])
  {
    DecodeUnfold(a[..2]);
    (a[0] as int + a[1] as int * 0x100) % U16
  }

  function Sint2korr(a: seq<Byte>): (r: int)
    requires |a| >= 2
    ensures r == Signed(Decode(a[..2]), U16)
  {
    DecodeUnfold(a[..2]);
    Signed(a[0] as int + a[1] as int * 0x100, U16)
  }

  function Uint3korr(a: seq<Byte>): (r: nat)
    requires |a| >= 3
    ensures r == Decode(a[..3])
  {
    DecodeUnfold(a[..3]);
    (a[0] as int + a[1] as int * 0x100 % U32 + a[2] as int * 0x1_0000 % U32) % U32
  }

  /** `|` of a field shifted by `k` bits and a smaller one adds the two. */
  lemma OrAdds(q: nat, k: nat, low: nat)
    requires low < Bits.Pow2(k)
    ensures Bits.BitOr(q * Bits.Pow2(k), low) == q * Bits.Pow2(k) + low
  {
    Bits.DivModUnique(q * Bits.Pow2(k), Bits.Pow2(k), q, 0);
    Bits.OrDisjoint(q * Bits.Pow2(k), low, k);
  }

  function Or8(high: nat, low: Byte): (r: nat)
    ensures high % 0x100 == 0 ==> r == high + low as int
  {
    assert high % 0x100 == 0 ==> Bits.BitOr(high, low) == high + low as int by {
      Bits.Pow2Values();
      OrAdds(high / 0x100, 8, low);
    }
    Bits.BitOr(high, low)
  }

  function Or16(high: nat, low: nat): (r: nat)
    requires low < 0x1_0000
    ensures high % 0x1_0000 == 0 ==> r == high + low
  {
    assert high % 0x1_0000 == 0 ==> Bits.BitOr(high, low) == high + low by {
      Bits.Pow2Values();
      OrAdds(high / 0x1_0000, 16, low);
    }
    Bits.BitOr(high, low)
  }

  /** The sign extension's ones, above the top byte. */
  function OnesAbove(a2: Byte): (r: nat)
    ensures r == 255 * 0x100_0000 + a2 as int * 0x1_0000
  {
    assert Bits.BitOr(255 * 0x100_0000, a2 as int * 0x1_0000)
           == 255 * 0x100_0000 + a2 as int * 0x1_0000 by {
      Bits.Pow2Values();
      OrAdds(255, 24, a2 as int * 0x1_0000);
    }
    Bits.BitOr(255 * 0x100_0000, a2 as int * 0x1_0000)
  }

  lemma FieldBoundaries(x: nat, y: nat)
    ensures x * 0x1_0000 % 0x1_0000 == 0
    ensures (x * 0x1_0000 + y * 0x100) % 0x100 == 0
  {
    Bits.DivModUnique(x * 0x1_0000, 0x1_0000, x, 0);
    Bits.DivModUnique(x * 0x1_0000 + y * 0x100, 0x100, x * 0x100 + y, 0);
  }

  /** The three stored bytes joined with `|`. */
  function JoinThree(a0: Byte, a1: Byte, a2: Byte): (r: nat)
    ensures r == a2 as int * 0x1_0000 + a1 as int * 0x100 + a0 as int
  {
    FieldBoundaries(a2, a1);
    Or8(Or16(a2 as int * 0x1_0000, a1 as int * 0x100), a0)
  }

  /** The same with eight one bits above them. */
  function JoinThreeNegative(a0: Byte, a1: Byte, a2: Byte): (r: nat)
    ensures r == 255 * 0x100_0000 + a2 as int * 0x1_0000 + a1 as int * 0x100 + a0 as int
  {
    FieldBoundaries(255 * 0x100 + a2 as int, a1);
    Or8(Or16(OnesAbove(a2), a1 as int * 0x100), a0)
  }

  predicate SignBit(b: Byte)
    ensures SignBit(b) <==> b >= 128
  {
    assert Bits.BitAnd(b, 128) == b as int - b as int % 128 by {
      Bits.Pow2Values();
      Bits.AndHighMask(b, 7, 8);
    }
    Bits.BitAnd(b, 128) != 0
  }

  /** The top byte's sign bit decides whether eight one bits are put above the 24
      stored ones. */
  function Sint3korr(a: seq<Byte>): (r: int)
    requires |a| >= 3
    ensures r == Signed(Decode(a[..3]), 0x100_0000)
  {
    DecodeUnfold(a[..3]);
    SignExtendedIs(a[0], a[1], a[2]);
    SignExtended(a[0], a[1], a[2])
  }

  function SignExtended(a0: Byte, a1: Byte, a2: Byte): int {
    ToInt32(if SignBit(a2) then JoinThreeNegative(a0, a1, a2) else JoinThree(a0, a1, a2))
  }

  lemma SignExtendedIs(a0: Byte, a1: Byte, a2: Byte)
    ensures SignExtended(a0, a1, a2) == Signed(a0 as int + 0x100 * a1 as int + 0x1_0000 * a2 as int, 0x100_0000)
  {
    hide Signed, ToInt32, SignBit, JoinThree, JoinThreeNegative;
    var low := a0 as int + 0x100 * a1 as int;
    SignExtend24(low, a2);
    assert JoinThree(a0, a1, a2) == low + 0x1_0000 * a2 as int;
    assert JoinThreeNegative(a0, a1, a2) == 255 * 0x100_0000 + (low + 0x1_0000 * a2 as int);
  }

  lemma SignExtend24(low: nat, top: Byte)
    requires low < 0x1_0000
    ensures var d := low + 0x1_0000 * top as int;
      Signed(d, 0x100_0000) == ToInt32(if top >= 128 then 255 * 0x100_0000 + d else d)
  {
  }

  function Uint4korr(a: seq<Byte>): (r: nat)
    requires |a| >= 4
    ensures r == Decode(a[..4])
  {
    DecodeUnfold(a[..4]);
    (a[0] as int + a[1] as int * 0x100 % U32 + a[2] as int * 0x1_0000 % U32
     + a[3] as int * 0x100_0000 % U32) % U32
  }

  function Sint4korr(a: seq<Byte>): (r: int)
    requires |a| >= 4
    ensures r == Signed(Decode(a[..4]), U32)
  {
    DecodeUnfold(a[..4]);
    ToInt32(a[0] as int + a[1] as int * 0x100 + a[2] as int * 0x1_0000
            + ToInt32(a[3] as int * 0x100_0000))
  }

  function Uint5korr(a: seq<Byte>): (r: nat)
    requires |a| >= 5
    ensures r == Decode(a[..5])
  {
    DecodeSplit(a[..5]);
    assert a[..5][..4] == a[..4];
    (Uint4korr(a) + a[4] as int * U32) % U64
  }

  function Uint6korr(a: seq<Byte>): (r: nat)
    requires |a| >= 6
    ensures r == Decode(a[..6])
  {
    DecodeSplit(a[..6]);
    DecodeUnfold(a[4..6]);
    assert a[..6][..4] == a[..4] && a[..6][4..] == a[4..6];
    (Uint4korr(a) + a[4] as int * U32 + a[5] as int * 0x100_0000_0000) % U64
  }

  function Uint8korr(a: seq<Byte>): (r: nat)
    requires |a| >= 8
    ensures r == Decode(a[..8])
  {
    DecodeSplit(a[..8]);
    assert a[..8][..4] == a[..4] && a[..8][4..] == a[4..][..4];
    var low, high := Uint4korr(a), Uint4korr(a[4..]);
    (low + high * U32 % U64) % U64
  }

  function Sint8korr(a: seq<Byte>): (r: int)
    requires |a| >= 8
    ensures r == Signed(Decode(a[..8]), U64)
  {
    Signed(Uint8korr(a), U64)
  }

  /** Reading the low four bytes and the rest separately. */
  lemma DecodeSplit(bs: seq<Byte>)
    requires 4 < |bs| <= 8
    ensures Decode(bs) == Decode(bs[..4]) + U32 * Decode(bs[4..])
    ensures Decode(bs[..4]) < U32 && Decode(bs) < U64
    ensures |bs| == 5 ==> Decode(bs[4..]) == bs[4] as int
    ensures bs[..4] == bs[0..4]
  {
    Pow256Values();
    assert bs == bs[..4] + bs[4..];
    DecodeConcat(bs[..4], bs[4..]);
    DecodeBound(bs[..4]);
    DecodeBound(bs[4..]);
    assert Pow256(|bs| - 4) <= Pow256(4) by { assert Pow256(1) == 256; }
  }

  // ------------------------------------------------------------------ stores

  /** `before` with the bytes from `at` on replaced by `bs`. */
  function Patched(before: seq<Byte>, at: nat, bs: seq<Byte>): seq<Byte>
    requires at + |bs| <= |before|
  {
    before[..at] + bs + before[at + |bs|..]
  }

  method Int2store(t: array<Byte>, at: nat, v: nat)
    requires at + 2 <= t.Length && v < U16
    modifies t
    ensures t[..] == Patched(old(t[..]), at, Encode(2, v))
  {
    t[at] := v % 256;
    t[at + 1] := v / 0x100 % 256;
    EncodeUnfold(2, v);
  }

  method Int3store(t: array<Byte>, at: nat, v: nat)
    requires at + 3 <= t.Length && v < U32
    modifies t
    ensures t[..] == Patched(old(t[..]), at, Encode(3, v))
  {
    t[at] := v % 256;
    t[at + 1] := v / 0x100 % 256;
    t[at + 2] := v / 0x1_0000 % 256;
    EncodeUnfold(3, v);
  }

  method Int4store(t: array<Byte>, at: nat, v: nat)
    requires at + 4 <= t.Length && v < U32
    modifies t
    ensures t[..] == Patched(old(t[..]), at, Encode(4, v))
  {
    t[at] := v % 256;
    t[at + 1] := v / 0x100 % 256;
    t[at + 2] := v / 0x1_0000 % 256;
    t[at + 3] := v / 0x100_0000 % 256;
    EncodeUnfold(4, v);
  }

  method Int5store(t: array<Byte>, at: nat, v: nat)
    requires at + 5 <= t.Length && v < U64
    modifies t
    ensures t[..] == Patched(old(t[..]), at, Encode(5, v))
  {
    t[at] := v % 256;
    t[at + 1] := v / 0x100 % 256;
    t[at + 2] := v / 0x1_0000 % 256;
    t[at + 3] := v / 0x100_0000 % 256;
    t[at + 4] := v / 0x1_0000_0000 % 256;
    EncodeUnfold(5, v);
  }

  method Int6store(t: array<Byte>, at: nat, v: nat)
    requires at + 6 <= t.Length && v < U64
    modifies t
    ensures t[..] == Patched(old(t[..]), at, Encode(6, v))
  {
    t[at] := v % 256;
    t[at + 1] := v / 0x100 % 256;
    t[at + 2] := v / 0x1_0000 % 256;
    t[at + 3] := v / 0x100_0000 % 256;
    t[at + 4] := v / 0x1_0000_0000 % 256;
    t[at + 5] := v / 0x100_0000_0000 % 256;
    EncodeUnfold(6, v);
  }

  /** Two four-byte stores make the flat eight-byte form. */
  method Int8store(t: array<Byte>, at: nat, v: nat)
    requires at + 8 <= t.Length && v < U64
    modifies t
    ensures t[..] == Patched(old(t[..]), at, Encode(8, v))
  {
    hide Encode;
    var defTemp, defTemp2 := v % U32, v / U32 % U32;
    Int4store(t, at, defTemp);
    Int4store(t, at + 4, defTemp2);
    EncodeHalves(v);
  }

  lemma EncodeHalves(v: nat)
    ensures Encode(8, v) == Encode(4, v % U32) + Encode(4, v / U32 % U32)
  {
    Pow256Values();
    EncodeConcat(4, 4, v);
    DropBytesIsDivision(v, 4);
    EncodeModulo(4, v);
    EncodeModulo(4, v / U32);
  }

  // -------------------------------------------- stores and decoders as inverses

  /** Reading back a stored value gives it modulo 256^n, and no byte outside the
      `n` written ones has changed. */
  lemma StoreThenDecode(before: seq<Byte>, at: nat, n: nat, v: nat)
    requires at + n <= |before|
    ensures var after := Patched(before, at, Encode(n, v));
      && |after| == |before|
      && Decode(after[at..at + n]) == v % Pow256(n)
      && forall i :: 0 <= i < |before| && !(at <= i < at + n) ==> after[i] == before[i]
  {
    var after := Patched(before, at, Encode(n, v));
    assert after[at..at + n] == Encode(n, v);
    DecodeEncode(n, v);
  }

  /** Storing what was read changes nothing. */
  lemma DecodeThenStore(before: seq<Byte>, at: nat, n: nat)
    requires at + n <= |before|
    ensures Patched(before, at, Encode(n, Decode(before[at..at + n]))) == before
  {
    EncodeDecode(before[at..at + n]);
  }

  lemma DecodeStored(n: nat, v: nat)
    ensures Encode(n, v)[..n] == Encode(n, v)
    ensures Decode(Encode(n, v)[..n]) == v % Pow256(n)
  {
    DecodeEncode(n, v);
  }

  /** The decoders undo the stores, at each of the widths the headers offer. */
  lemma FixedWidthsRoundTrip(v: nat)
    ensures Uint2korr(Encode(2, v)) == v % U16
    ensures Uint3korr(Encode(3, v)) == v % 0x100_0000
    ensures Uint4korr(Encode(4, v)) == v % U32
    ensures Uint5korr(Encode(5, v)) == v % 0x100_0000_0000
    ensures Uint6korr(Encode(6, v)) == v % 0x1_0000_0000_0000
    ensures Uint8korr(Encode(8, v)) == v % U64
  {
    Pow256Values();
    DecodeStored(2, v);
    DecodeStored(3, v);
    DecodeStored(4, v);
    DecodeStored(5, v);
    DecodeStored(6, v);
    DecodeStored(8, v);
  }

  /** A 32-bit signed value survives a three-byte store exactly when it is in the
      24-bit signed range. */
  lemma Sint3RoundTrip(v: int)
    requires FitsInt32(v)
    ensures Sint3korr(Encode(3, v % U32)) == v <==> INT_MIN24 <= v <= INT_MAX24
  {
    Pow256Values();
    DecodeStored(3, v % U32);
    Bits.DivModUnique(v, 0x100_0000, v / U32 * 0x100 + v % U32 / 0x100_0000, v % U32 % 0x100_0000);
    SignedOfUnsigned(v, 0x100_0000);
  }

  /** At full width every signed value survives. */
  lemma SignedFullWidthRoundTrip(v: int)
    ensures -0x8000 <= v < 0x8000 ==> Sint2korr(Encode(2, v % U16)) == v
    ensures FitsInt32(v) ==> Sint4korr(Encode(4, v % U32)) == v
    ensures -0x8000_0000_0000_0000 <= v < 0x8000_0000_0000_0000 ==>
      Sint8korr(Encode(8, v % U64)) == v
  {
    assert Pow256(2) == U16 && Pow256(4) == U32 && Pow256(8) == U64 by { Pow256Values(); }
    DecodeStored(2, v % U16);
    DecodeStored(4, v % U32);
    DecodeStored(8, v % U64);
    SignedOfUnsigned(v, U16);
    SignedOfUnsigned(v, U32);
    SignedOfUnsigned(v, U64);
  }

  lemma SignedOfUnsigned(v: int, m: int)
    requires m > 0 && m % 2 == 0
    ensures v % m % m == v % m
    ensures Signed(v % m, m) == v <==> -(m / 2) <= v < m / 2
  {
    var r := v % m;
    Bits.DivModUnique(r, m, 0, r);
    if 0 <= v < m {
      Bits.DivModUnique(v, m, 0, v);
    } else if -m <= v < 0 {
      Bits.DivModUnique(v, m, -1, v + m);
    }
  }
}
