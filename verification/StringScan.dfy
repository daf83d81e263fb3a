/** `skip_trailing_space`: two forms that look at whole words, and the byte loop that
    both must agree with.

    The string is the array `buf`; it starts at the address `ptr`, so that the byte at
    address `a` is `buf[a - ptr]`, and an access inside the array is an access inside
    the string. Addresses are naturals. */
module StringScan {
  import opened CInts
  import opened Codec
  import opened ByteOrder
  import opened EndianStores

  const SPACE: Byte := 0x20

  /** The byte loop: step back from index `end` while the byte before it is a space. */
  function NaiveEnd(s: seq<Byte>, end: nat): (r: nat)
    requires end <= |s|
    ensures r <= end
    ensures forall i :: r <= i < end ==> s[i] == SPACE
    ensures r == 0 || s[r - 1] != SPACE
  {
    if end > 0 && s[end - 1] == SPACE then NaiveEnd(s, end - 1) else end
  }

  /** These three conditions leave no choice of result. */
  lemma NaiveEndIsUnique(s: seq<Byte>, r: nat)
    requires r <= |s|
    requires forall i :: r <= i < |s| ==> s[i] == SPACE
    requires r == 0 || s[r - 1] != SPACE
    ensures r == NaiveEnd(s, |s|)
  {
  }

  /** A word, read in either byte order, equals the all-spaces constant exactly when
      each of its bytes is a space. */
  lemma SpaceWord(e: Endian, bs: seq<Byte>)
    ensures |bs| == 4 ==>
      (NativeValue(e, bs) == 0x2020_2020 <==> forall i :: 0 <= i < 4 ==> bs[i] == SPACE)
    ensures |bs| == 8 ==>
      (NativeValue(e, bs) == 0x2020_2020_2020_2020 <==> forall i :: 0 <= i < 8 ==> bs[i] == SPACE)
  {
    var four: seq<Byte> := [SPACE, SPACE, SPACE, SPACE];
    DecodeUnfold(four);
    var eight := four + four;
    DecodeConcat(four, four);
    Pow256Values();
    var read := if e.Little? then bs else Reverse(bs);
    if |bs| == 4 && Decode(read) == Decode(four) {
      DecodeInjective(read, four);
    } else if |bs| == 8 && Decode(read) == Decode(eight) {
      DecodeInjective(read, eight);
    }
    if forall i :: 0 <= i < |bs| ==> bs[i] == SPACE {
      assert |bs| == 4 ==> read == four;
      assert |bs| == 8 ==> read == eight;
    }
  }

  /** The form for machines where unaligned reads are cheap: eight bytes at a time. */
  method SkipTrailingSpace8(buf: array<Byte>, ptr: nat) returns (end: nat)
    ensures end == ptr + NaiveEnd(buf[..], buf.Length)
  {
    end := ptr + buf.Length;
    while end - ptr >= 8
      invariant ptr <= end <= ptr + buf.Length
      invariant forall i :: end - ptr <= i < buf.Length ==> buf[i] == SPACE
    {
      var word := buf[end - 8 - ptr..end - ptr];
      assert word[..8] == word;
      if Uint8korr(word) != 0x2020_2020_2020_2020 {
        break;
      }
      SpaceWord(Little, word);
      assert forall i :: end - ptr - 8 <= i < end - ptr ==> buf[i] == word[i - (end - ptr - 8)];
      end := end - 8;
    }
    while end > ptr && buf[end - 1 - ptr] == SPACE
      invariant ptr <= end <= ptr + buf.Length
      invariant forall i :: end - ptr <= i < buf.Length ==> buf[i] == SPACE
    {
      end := end - 1;
    }
    NaiveEndIsUnique(buf[..], end - ptr);
  }

  /** `a` is a multiple of `size`. */
  predicate Aligned(a: nat, size: nat)
    requires size > 0
  {
    a == 0 || (a >= size && Aligned(a - size, size))
  }

  /** In terms of the remainder. */
  lemma {:induction false} AlignedIsMultiple(a: nat, size: nat)
    requires size > 0
    ensures Aligned(a, size) <==> a % size == 0
  {
    if a >= size {
      AlignedIsMultiple(a - size, size);
      assert a == a / size * size + a % size;
      Bits.DivModUnique(a - size, size, a / size - 1, a % size);
    } else if a > 0 {
      Bits.DivModUnique(a, size, 0, a);
    }
  }

  lemma {:induction false} MultipleIsAligned(q: nat, size: nat)
    requires size == 4 || size == 8
    ensures Aligned(q * size, size)
  {
    if q > 0 {
      MultipleIsAligned(q - 1, size);
    }
  }

  /** Between two multiples of the word size there is room for a word. */
  lemma {:induction false} WordBelow(end: nat, start: nat, size: nat)
    requires size > 0
    requires start < end && Aligned(end, size) && Aligned(start, size)
    ensures start + size <= end && Aligned(end - size, size)
  {
    if start > 0 {
      WordBelow(end - size, start - size, size);
    }
  }

  /** The first and the last multiple of the word size in a string of more than 20 bytes.
      Both are inside the string and at least one word lies between them. SIZEOF_INT is a
      compile-time constant, 4 or 8, so the division is written out for each. */
  method WordZone(ptr: nat, end: nat, size: nat) returns (startWords: nat, endWords: nat)
    requires size == 4 || size == 8
    requires ptr + 20 < end
    ensures Aligned(startWords, size) && ptr <= startWords < ptr + size
    ensures Aligned(endWords, size) && end - size < endWords <= end
    ensures ptr < endWords && startWords < endWords
  {
    endWords := if size == 4 then end / 4 * 4 else end / 8 * 8;
    startWords := if size == 4 then (ptr + 4 - 1) / 4 * 4 else (ptr + 8 - 1) / 8 * 8;
    MultipleIsAligned(end / size, size);
    MultipleIsAligned((ptr + size - 1) / size, size);
  }

  /** Compares the word of `size` bytes at address `at` with the all-spaces constant.
      The machine traps on an access that is not aligned, and the word must lie inside
      the string. */
  method WordIsSpaces(buf: array<Byte>, ptr: nat, at: nat, size: nat, e: Endian) returns (b: bool)
    requires size == 4 || size == 8
    requires Aligned(at, size)
    requires ptr <= at && at + size <= ptr + buf.Length
    ensures b <==> forall i :: at - ptr <= i < at - ptr + size ==> buf[i] == SPACE
  {
    var spaceInt := if size == 4 then 0x2020_2020 else 0x2020_2020_2020_2020;
    var word := buf[at - ptr..at - ptr + size];
    b := NativeValue(e, word) == spaceInt;
    SpaceWord(e, word);
    assert forall i :: 0 <= i < size ==> word[i] == buf[at - ptr + i];
    assert forall i :: at - ptr <= i < at - ptr + size ==> buf[i] == word[i - (at - ptr)];
  }

  /** The form for machines that need aligned reads, for both values of SIZEOF_INT and
      both byte orders: bytes down to the last multiple of the word size, then words,
      then bytes again. */
  method SkipTrailingSpaceAligned(buf: array<Byte>, ptr: nat, size: nat, e: Endian) returns (end: nat)
    requires size == 4 || size == 8
    ensures end == ptr + NaiveEnd(buf[..], buf.Length)
  {
    end := ptr + buf.Length;
    if buf.Length > 20 {
      var startWords, endWords := WordZone(ptr, end, size);
      assert endWords > ptr && startWords < endWords;
      while end > endWords && buf[end - 1 - ptr] == SPACE
        invariant endWords <= end <= ptr + buf.Length
        invariant forall i :: end - ptr <= i < buf.Length ==> buf[i] == SPACE
      {
        end := end - 1;
      }
      if buf[end - 1 - ptr] == SPACE && startWords < endWords {
        while end > startWords
          invariant startWords <= end <= endWords
          invariant Aligned(end, size)
          invariant forall i :: end - ptr <= i < buf.Length ==> buf[i] == SPACE
          decreases end
        {
          WordBelow(end, startWords, size);
          var allSpaces := WordIsSpaces(buf, ptr, end - size, size, e);
          if !allSpaces {
            break;
          }
          end := end - size;
        }
      }
    }
    while end > ptr && buf[end - 1 - ptr] == SPACE
      invariant ptr <= end <= ptr + buf.Length
      invariant forall i :: end - ptr <= i < buf.Length ==> buf[i] == SPACE
    {
      end := end - 1;
    }
    NaiveEndIsUnique(buf[..], end - ptr);
  }

  /** Padding a string with spaces does not move its end. */
  lemma PaddingIsSkipped(s: seq<Byte>, pad: seq<Byte>)
    requires forall i :: 0 <= i < |pad| ==> pad[i] == SPACE
    ensures NaiveEnd(s + pad, |s| + |pad|) == NaiveEnd(s, |s|)
  {
    NaiveEndIsUnique(s + pad, NaiveEnd(s, |s|));
  }
}
