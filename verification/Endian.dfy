/** How a value lies in the memory of a little-endian and of a big-endian machine,
    and the stores and gets of the two endianness headers. A floating-point number
    is its bit pattern. */
module EndianStores {
  import opened CInts
  import opened Codec
  import opened ByteOrder
  import Bits

  datatype Endian = Little | Big

  function Reverse(bs: seq<Byte>): (r: seq<Byte>)
    ensures |r| == |bs|
    ensures forall i :: 0 <= i < |bs| ==> r[i] == bs[|bs| - 1 - i]
  {
    if bs == [] then [] else Reverse(bs[1..]) + [bs[0]]
  }

  /** The bytes, by rising address, of an `n`-byte object holding `v`. */
  function Native(e: Endian, n: nat, v: nat): (bs: seq<Byte>)
    ensures |bs| == n
  {
    if e.Little? then Encode(n, v) else Reverse(Encode(n, v))
  }

  /** The value of the object whose bytes are `bs`. */
  function NativeValue(e: Endian, bs: seq<Byte>): nat {
    Decode(if e.Little? then bs else Reverse(bs))
  }

  lemma ReverseTwice(bs: seq<Byte>)
    ensures Reverse(Reverse(bs)) == bs
  {
  }

  /** A machine reads back what it wrote, whichever order it uses. */
  lemma NativeRoundTrip(e: Endian, n: nat, v: nat)
    ensures NativeValue(e, Native(e, n, v)) == v % Pow256(n)
  {
    ReverseTwice(Encode(n, v));
    DecodeEncode(n, v);
  }

  // ------------------------------------------------- x86: native loads and stores

  /** On the little-endian machines that use them, the plain loads read exactly what
      the portable decoders compute. */
  lemma X86LoadsArePortable(a: seq<Byte>)
    ensures |a| >= 2 ==> NativeValue(Little, a[..2]) == Uint2korr(a)
    ensures |a| >= 2 ==> Signed(NativeValue(Little, a[..2]), U16) == Sint2korr(a)
    ensures |a| >= 4 ==> NativeValue(Little, a[..4]) == Uint4korr(a)
    ensures |a| >= 4 ==> Signed(NativeValue(Little, a[..4]), U32) == Sint4korr(a)
    ensures |a| >= 8 ==> NativeValue(Little, a[..8]) == Uint8korr(a)
    ensures |a| >= 8 ==> Signed(NativeValue(Little, a[..8]), U64) == Sint8korr(a)
  {
  }

  /** `memcpy(t + at, src, |src|)`. */
  method Memcpy(t: array<Byte>, at: nat, src: seq<Byte>)
    requires at + |src| <= t.Length
    modifies t
    ensures t[..] == Patched(old(t[..]), at, src)
  {
    for i := 0 to |src|
      invariant t[at..at + i] == src[..i]
      invariant t[..at] == old(t[..at]) && t[at + i..] == old(t[at + i..])
    {
      t[at + i] := src[i];
    }
    assert t[..] == t[..at] + t[at..at + |src|] + t[at + |src|..];
  }

  /** `*((ulonglong*) T) = A` and its narrower siblings: the same bytes as
      `int2store`, `int4store` and `int8store`. */
  method X86Store(t: array<Byte>, at: nat, n: nat, v: nat)
    requires at + n <= t.Length
    modifies t
    ensures t[..] == Patched(old(t[..]), at, Encode(n, v))
  {
    Memcpy(t, at, Native(Little, n, v));
  }

  // ----------------------------------------------- machine-independent float stores

  method Float4storeBig(t: array<Byte>, at: nat, bits: nat)
    requires at + 4 <= t.Length && bits < U32
    modifies t
    ensures t[..] == Patched(old(t[..]), at, Encode(4, bits))
  {
    var a := Native(Big, 4, bits);
    t[at] := a[3];
    t[at + 1] := a[2];
    t[at + 2] := a[1];
    t[at + 3] := a[0];
  }

  method Float4storeLittle(t: array<Byte>, at: nat, bits: nat)
    requires at + 4 <= t.Length && bits < U32
    modifies t
    ensures t[..] == Patched(old(t[..]), at, Encode(4, bits))
  {
    Memcpy(t, at, Native(Little, 4, bits));
  }

  method Float4getBig(m: seq<Byte>) returns (v: nat)
    requires |m| >= 4
    ensures v == Decode(m[..4])
    ensures forall bits: nat :: bits < U32 && m[..4] == Encode(4, bits) ==> v == bits
  {
    var temp := new Byte[4];
    temp[0] := m[3];
    temp[1] := m[2];
    temp[2] := m[1];
    temp[3] := m[0];
    assert Reverse(temp[..]) == m[..4];
    v := NativeValue(Big, temp[..]);
    DecodeIsInverse(4, m[..4]);
  }

  method Float4getLittle(m: seq<Byte>) returns (v: nat)
    requires |m| >= 4
    ensures v == Decode(m[..4])
    ensures forall bits: nat :: bits < U32 && m[..4] == Encode(4, bits) ==> v == bits
  {
    var temp := new Byte[4](_ => 0);
    Memcpy(temp, 0, m[..4]);
    assert temp[..] == m[..4];
    v := NativeValue(Little, temp[..]);
    DecodeIsInverse(4, m[..4]);
  }

  method Float8storeBig(t: array<Byte>, at: nat, bits: nat)
    requires at + 8 <= t.Length && bits < U64
    modifies t
    ensures t[..] == Patched(old(t[..]), at, Encode(8, bits))
  {
    var a := Native(Big, 8, bits);
    t[at] := a[7];
    t[at + 1] := a[6];
    t[at + 2] := a[5];
    t[at + 3] := a[4];
    t[at + 4] := a[3];
    t[at + 5] := a[2];
    t[at + 6] := a[1];
    t[at + 7] := a[0];
  }

  method Float8storeLittle(t: array<Byte>, at: nat, bits: nat)
    requires at + 8 <= t.Length && bits < U64
    modifies t
    ensures t[..] == Patched(old(t[..]), at, Encode(8, bits))
  {
    Memcpy(t, at, Native(Little, 8, bits));
  }

  method Float8getBig(m: seq<Byte>) returns (v: nat)
    requires |m| >= 8
    ensures v == Decode(m[..8])
    ensures forall bits: nat :: bits < U64 && m[..8] == Encode(8, bits) ==> v == bits
  {
    var temp := new Byte[8];
    temp[0] := m[7];
    temp[1] := m[6];
    temp[2] := m[5];
    temp[3] := m[4];
    temp[4] := m[3];
    temp[5] := m[2];
    temp[6] := m[1];
    temp[7] := m[0];
    assert Reverse(temp[..]) == m[..8];
    v := NativeValue(Big, temp[..]);
    DecodeIsInverse(8, m[..8]);
  }

  method Float8getLittle(m: seq<Byte>) returns (v: nat)
    requires |m| >= 8
    ensures v == Decode(m[..8])
    ensures forall bits: nat :: bits < U64 && m[..8] == Encode(8, bits) ==> v == bits
  {
    var temp := new Byte[8](_ => 0);
    Memcpy(temp, 0, m[..8]);
    assert temp[..] == m[..8];
    v := NativeValue(Little, temp[..]);
    DecodeIsInverse(8, m[..8]);
  }

  /** Bytes that are the stored form of some in-range value decode to that value. */
  lemma DecodeIsInverse(n: nat, m: seq<Byte>)
    ensures forall v: nat :: v < Pow256(n) && m == Encode(n, v) ==> Decode(m) == v
    ensures Pow256(4) == U32 && Pow256(8) == U64
  {
    Pow256Values();
    forall v: nat | v < Pow256(n) && m == Encode(n, v)
      ensures Decode(m) == v
    {
      DecodeEncode(n, v);
      Bits.DivModUnique(v, Pow256(n), 0, v);
    }
  }

  // ------------------------------------ doubles on hardware with swapped word order

  /** The two four-byte words of an eight-byte object, exchanged. */
  function SwapWords(v: seq<Byte>): (r: seq<Byte>)
    requires |v| == 8
    ensures |r| == 8 && r[0..4] == v[4..8] && r[4..8] == v[0..4]
  {
    v[4..] + v[..4]
  }

  lemma SwapWordsTwice(v: seq<Byte>)
    requires |v| == 8
    ensures SwapWords(SwapWords(v)) == v
  {
  }

  method DoublestoreSwapped(t: array<Byte>, at: nat, v: seq<Byte>)
    requires at + 8 <= t.Length && |v| == 8
    modifies t
    ensures t[..] == Patched(old(t[..]), at, SwapWords(v))
  {
    t[at] := v[4];
    t[at + 1] := v[5];
    t[at + 2] := v[6];
    t[at + 3] := v[7];
    t[at + 4] := v[0];
    t[at + 5] := v[1];
    t[at + 6] := v[2];
    t[at + 7] := v[3];
    assert t[at..at + 8] == SwapWords(v);
    assert t[..at] == old(t[..at]);
    assert t[at + 8..] == old(t[at + 8..]);
  }

  /** The get undoes the store: by `SwapWordsTwice` it returns the object whose swapped
      bytes are in the buffer. */
  method DoublegetSwapped(m: seq<Byte>) returns (v: seq<Byte>)
    requires |m| >= 8
    ensures |v| == 8 && SwapWords(v) == m[..8] && v == SwapWords(m[..8])
  {
    var temp := new Byte[8];
    temp[0] := m[4];
    temp[1] := m[5];
    temp[2] := m[6];
    temp[3] := m[7];
    temp[4] := m[0];
    temp[5] := m[1];
    temp[6] := m[2];
    temp[7] := m[3];
    v := temp[..];
    assert v == SwapWords(m[..8]);
    SwapWordsTwice(m[..8]);
  }

  // -------------------------------- machine-format shorts and longs, big-endian form

  method UshortgetBig(m: seq<Byte>) returns (v: nat)
    requires |m| >= 2
    ensures v == NativeValue(Big, m[..2])
  {
    v := (m[1] as int + m[0] as int * 0x100) % U16;
    DecodeUnfold(Reverse(m[..2]));
  }

  method ShortgetBig(m: seq<Byte>) returns (v: int)
    requires |m| >= 2
    ensures v == Signed(NativeValue(Big, m[..2]), U16)
  {
    v := Signed(m[1] as int + m[0] as int * 0x100, U16);
    DecodeUnfold(Reverse(m[..2]));
  }

  method LonggetBig(m: seq<Byte>) returns (v: int)
    requires |m| >= 4
    ensures v == Signed(NativeValue(Big, m[..4]), U32)
  {
    var temp := new Byte[4];
    temp[0] := m[0];
    temp[1] := m[1];
    temp[2] := m[2];
    temp[3] := m[3];
    assert temp[..] == m[..4];
    v := Signed(NativeValue(Big, temp[..]), U32);
  }

  method UlonggetBig(m: seq<Byte>) returns (v: nat)
    requires |m| >= 4
    ensures v == NativeValue(Big, m[..4])
  {
    var temp := new Byte[4];
    temp[0] := m[0];
    temp[1] := m[1];
    temp[2] := m[2];
    temp[3] := m[3];
    assert temp[..] == m[..4];
    v := NativeValue(Big, temp[..]);
  }

  method ShortstoreBig(t: array<Byte>, at: nat, v: int)
    requires at + 2 <= t.Length && -0x8000 <= v < 0x8000
    modifies t
    ensures t[..] == Patched(old(t[..]), at, Native(Big, 2, v % U16))
  {
    var temp := v % U32;
    t[at + 1] := temp % 256;
    t[at] := temp / 0x100 % 256;
    EncodeUnfold(2, v % U16);
    ShiftsOfShort(v);
  }

  lemma ShiftsOfShort(v: int)
    requires -0x8000 <= v < 0x8000
    ensures v % U32 % 256 == v % U16 % 256
    ensures v % U32 / 0x100 % 256 == v % U16 / 0x100 % 256
  {
    if v < 0 {
      assert v % U32 == v + U32 && v % U16 == v + U16;
      assert (v + U32) / 0x100 == (v + U16) / 0x100 + 0xFF_FF00;
    }
  }

  method LongstoreBig(t: array<Byte>, at: nat, v: int)
    requires at + 4 <= t.Length && FitsInt32(v)
    modifies t
    ensures t[..] == Patched(old(t[..]), at, Native(Big, 4, v % U32))
  {
    t[at + 3] := v % 256;
    t[at + 2] := v / 0x100 % 256;
    t[at + 1] := v / 0x1_0000 % 256;
    t[at] := v / 0x100_0000 % 256;
    EncodeUnfold(4, v % U32);
    ShiftsOfSigned(v);
  }

  /** Shifting a negative value right and cutting it to a byte gives the byte of its
      two's-complement form. */
  lemma ShiftsOfSigned(v: int)
    requires FitsInt32(v)
    ensures v % 256 == v % U32 % 256
    ensures v / 0x100 % 256 == v % U32 / 0x100 % 256
    ensures v / 0x1_0000 % 256 == v % U32 / 0x1_0000 % 256
    ensures v / 0x100_0000 % 256 == v % U32 / 0x100_0000 % 256
  {
    if v < 0 {
      assert v % U32 == v + U32;
      assert (v + U32) / 0x100 == v / 0x100 + 0x100_0000;
      assert (v + U32) / 0x1_0000 == v / 0x1_0000 + 0x1_0000;
      assert (v + U32) / 0x100_0000 == v / 0x100_0000 + 0x100;
    }
  }

  /** On either machine, a signed short or long read back in machine format is the
      one that was stored. */
  lemma MachineFormatRoundTrip(e: Endian, v: int)
    ensures -0x8000 <= v < 0x8000 ==> Signed(NativeValue(e, Native(e, 2, v % U16)), U16) == v
    ensures FitsInt32(v) ==> Signed(NativeValue(e, Native(e, 4, v % U32)), U32) == v
  {
    assert Pow256(2) == U16 && Pow256(4) == U32 by { Pow256Values(); }
    NativeRoundTrip(e, 2, v % U16);
    NativeRoundTrip(e, 4, v % U32);
    SignedOfUnsigned(v, U16);
    SignedOfUnsigned(v, U32);
  }
}
