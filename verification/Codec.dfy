/** The machine-independent byte format, low byte first, for any number of bytes.
    Every fixed-width store and decoder of the sources is an instance. */
module Codec {
  import opened CInts
  import Bits

  function Pow256(n: nat): (p: nat)
    ensures p > 0
  {
    if n == 0 then 1 else 256 * Pow256(n - 1)
  }

  function Decode(bs: seq<Byte>): nat {
    if bs == [] then 0 else bs[0] + 256 * Decode(bs[1..])
  }

  function Encode(n: nat, v: nat): (bs: seq<Byte>)
    ensures |bs| == n
  {
    if n == 0 then [] else [v % 256] + Encode(n - 1, v / 256)
  }

  lemma Pow256Values()
    ensures Pow256(2) == U16 && Pow256(3) == 0x100_0000 && Pow256(4) == U32
    ensures Pow256(5) == 0x100_0000_0000 && Pow256(6) == 0x1_0000_0000_0000
    ensures Pow256(8) == U64
  {
    assert Pow256(2) == U16;
    assert Pow256(4) == U32;
    assert Pow256(6) == 0x1_0000_0000_0000;
  }

  lemma {:induction false} DecodeBound(bs: seq<Byte>)
    ensures Decode(bs) < Pow256(|bs|)
  {
    if bs != [] {
      DecodeBound(bs[1..]);
    }
  }

  /** Storing `v` in `n` bytes keeps exactly its value modulo 256^n. */
  lemma {:induction false} DecodeEncode(n: nat, v: nat)
    ensures Decode(Encode(n, v)) == v % Pow256(n)
  {
    if n > 0 {
      DecodeEncode(n - 1, v / 256);
      assert Encode(n, v)[1..] == Encode(n - 1, v / 256);
      DivDiv(v, Pow256(n - 1));
    }
  }

  /** Storing a decoded value restores the bytes. */
  lemma {:induction false} EncodeDecode(bs: seq<Byte>)
    ensures Encode(|bs|, Decode(bs)) == bs
  {
    if bs != [] {
      EncodeDecode(bs[1..]);
      Bits.DivModUnique(Decode(bs), 256, Decode(bs[1..]), bs[0]);
    }
  }

  lemma DecodeInjective(a: seq<Byte>, b: seq<Byte>)
    requires |a| == |b| && Decode(a) == Decode(b)
    ensures a == b
  {
    EncodeDecode(a);
    EncodeDecode(b);
  }

  /** `v >> 8*m`. */
  function DropBytes(v: nat, m: nat): nat {
    if m == 0 then v else DropBytes(v / 256, m - 1)
  }

  lemma {:induction false} DropBytesIsDivision(v: nat, m: nat)
    ensures DropBytes(v, m) == v / Pow256(m)
  {
    if m > 0 {
      DropBytesIsDivision(v / 256, m - 1);
      DivDiv(v, Pow256(m - 1));
    }
  }

  lemma {:induction false} EncodeConcat(m: nat, n: nat, v: nat)
    ensures Encode(m + n, v) == Encode(m, v) + Encode(n, DropBytes(v, m))
  {
    if m > 0 {
      EncodeConcat(m - 1, n, v / 256);
      assert Encode(m + n, v) == [v % 256] + Encode(m - 1 + n, v / 256);
    }
  }

  lemma DivDiv(v: nat, p: nat)
    requires p > 0
    ensures (v / 256) / p == v / (256 * p)
    ensures v % 256 + 256 * ((v / 256) % p) == v % (256 * p)
  {
    var q, r := (v / 256) / p, (v / 256) % p;
    assert v == q * (256 * p) + (v % 256 + 256 * r);
    Bits.DivModUnique(v, 256 * p, q, v % 256 + 256 * r);
  }

  lemma {:induction false} DecodeConcat(a: seq<Byte>, b: seq<Byte>)
    ensures Decode(a + b) == Decode(a) + Pow256(|a|) * Decode(b)
  {
    if a == [] {
      assert a + b == b;
    } else {
      DecodeConcat(a[1..], b);
      assert (a + b)[1..] == a[1..] + b;
      assert Decode(a + b) == a[0] + 256 * (Decode(a[1..]) + Pow256(|a| - 1) * Decode(b));
      assert 256 * (Pow256(|a| - 1) * Decode(b)) == Pow256(|a|) * Decode(b);
    }
  }

  /** Only the value modulo 256^n reaches the bytes. */
  lemma EncodeModulo(n: nat, v: nat)
    ensures Encode(n, v % Pow256(n)) == Encode(n, v)
  {
    DecodeEncode(n, v);
    EncodeDecode(Encode(n, v));
  }

  lemma DecodeUnfold(bs: seq<Byte>)
    ensures |bs| == 2 ==> Decode(bs) == bs[0] as int + 0x100 * bs[1] as int
    ensures |bs| == 3 ==> Decode(bs) == bs[0] as int + 0x100 * bs[1] as int + 0x1_0000 * bs[2] as int
    ensures |bs| == 4 ==>
      Decode(bs) == bs[0] as int + 0x100 * bs[1] as int + 0x1_0000 * bs[2] as int + 0x100_0000 * bs[3] as int
  {
    if 2 <= |bs| <= 4 {
      assert Decode(bs) == bs[0] + 256 * Decode(bs[1..]);
      assert Decode(bs[1..]) == bs[1] + 256 * Decode(bs[2..]) by { assert bs[1..][1..] == bs[2..]; }
      if 3 <= |bs| {
        assert Decode(bs[2..]) == bs[2] + 256 * Decode(bs[3..]) by { assert bs[2..][1..] == bs[3..]; }
        if |bs| == 4 {
          assert Decode(bs[3..]) == bs[3] + 256 * Decode(bs[4..]) by { assert bs[3..][1..] == bs[4..]; }
        }
      }
    }
  }

  lemma EncodeUnfold(n: nat, v: nat)
    ensures n >= 1 ==> Encode(n, v)[0] == v % 256
    ensures n >= 2 ==> Encode(n, v)[1] == v / 0x100 % 256
    ensures n >= 3 ==> Encode(n, v)[2] == v / 0x1_0000 % 256
    ensures n >= 4 ==> Encode(n, v)[3] == v / 0x100_0000 % 256
    ensures n >= 5 ==> Encode(n, v)[4] == v / 0x1_0000_0000 % 256
    ensures n >= 6 ==> Encode(n, v)[5] == v / 0x100_0000_0000 % 256
  {
    EncodeAt(n, v);
  }

  /** Byte `i` of the stored form is `v >> 8*i`, cut to eight bits. */
  lemma EncodeAt(n: nat, v: nat)
    ensures forall i :: 0 <= i < n ==> Encode(n, v)[i] == v / Pow256(i) % 256
  {
    if n > 0 {
      EncodeAt(n - 1, v / 256);
      forall i | 0 < i < n
        ensures Encode(n, v)[i] == v / Pow256(i) % 256
      {
        DivDiv(v, Pow256(i - 1));
      }
    }
  }
}
