/** The time-out arithmetic of my_pthread.h: splitting an absolute time into seconds and
    nanoseconds, comparing and subtracting, in the POSIX and in the Windows form.
    `time` counts units of 100 nanoseconds. */
module TimespecArithmetic {
  import opened CInts
  import Bits

  const NSEC_PER_SEC: int := 1_000_000_000

  datatype Moment = Moment(sec: int, nsec: int)

  predicate Normalised(m: Moment) {
    0 <= m.nsec < NSEC_PER_SEC
  }

  /** The nanoseconds a moment stands for. */
  function Total(m: Moment): int {
    m.sec * NSEC_PER_SEC + m.nsec
  }

  /** What the setter leaves in the structure; the sum is computed in 64 bits. */
  function Split(time: nat, nsec: nat): (m: Moment)
    ensures Normalised(m)
    ensures Total(m) == (time + nsec / 100) % U64 * 100 + nsec % 100
  {
    var now := (time + nsec / 100) % U64;
    Moment(now / 10_000_000, now % 10_000_000 * 100 + nsec % 100)
  }

  class Timespec {
    var tvSec: int
    var tvNsec: int

    function Value(): Moment
      reads this
    {
      Moment(tvSec, tvNsec)
    }

    /** `set_timespec_time_nsec`, POSIX form. */
    method SetTimeNsec(time: nat, nsecArg: nat)
      requires time < U64 && nsecArg < U64
      modifies this
      ensures Value() == Split(time, nsecArg)
    {
      var nsec := nsecArg;
      var now := (time + nsec / 100) % U64;
      tvSec := now / 10_000_000;
      tvNsec := now % 10_000_000 * 100 + nsec % 100;
    }
  }

  /** No nanosecond is lost exactly when the 64-bit sum does not overflow. */
  lemma SplitIsExact(time: nat, nsec: nat)
    requires time < U64 && nsec < U64
    ensures Total(Split(time, nsec)) == time * 100 + nsec <==> time + nsec / 100 < U64
  {
    assert time * 100 + nsec == (time + nsec / 100) * 100 + nsec % 100;
  }

  /** A normalised moment is determined by its nanoseconds. */
  lemma TotalIsInjective(a: Moment, b: Moment)
    requires Normalised(a) && Normalised(b) && Total(a) == Total(b)
    ensures a == b
  {
  }

  function CmpTimespec(a: Moment, b: Moment): int {
    if a.sec > b.sec || (a.sec == b.sec && a.nsec > b.nsec) then 1
    else if a.sec < b.sec || (a.sec == b.sec && a.nsec < b.nsec) then -1
    else 0
  }

  /** The comparison is that of the nanoseconds, which makes it a total order. */
  lemma CmpComparesTotals(a: Moment, b: Moment)
    requires Normalised(a) && Normalised(b)
    ensures CmpTimespec(a, b) == 1 <==> Total(a) > Total(b)
    ensures CmpTimespec(a, b) == -1 <==> Total(a) < Total(b)
    ensures CmpTimespec(a, b) == 0 <==> a == b
    ensures CmpTimespec(b, a) == -CmpTimespec(a, b)
  {
    if a.sec > b.sec {
      assert (a.sec - b.sec) * NSEC_PER_SEC >= NSEC_PER_SEC;
    } else if a.sec < b.sec {
      assert (b.sec - a.sec) * NSEC_PER_SEC >= NSEC_PER_SEC;
    }
  }

  /** `diff_timespec`: the constant is unsigned, so the whole expression is. */
  function DiffTimespec(a: Moment, b: Moment): int {
    (((a.sec - b.sec) % U64 * NSEC_PER_SEC) % U64 + a.nsec - b.nsec) % U64
  }

  lemma DiffIsTheGapModulo(a: Moment, b: Moment)
    ensures DiffTimespec(a, b) == (Total(a) - Total(b)) % U64
  {
    var d := a.sec - b.sec;
    var q, p := d / U64, d % U64 * NSEC_PER_SEC / U64;
    var inner := d % U64 * NSEC_PER_SEC % U64 + a.nsec - b.nsec;
    assert Total(a) - Total(b) == inner + (q * NSEC_PER_SEC + p) * U64;
    var k := inner / U64;
    Bits.DivModUnique(Total(a) - Total(b), U64, k + q * NSEC_PER_SEC + p, inner % U64);
  }

  /** The difference is the exact gap exactly when the first moment is not earlier and
      the gap fits in 64 bits. */
  lemma DiffIsExact(a: Moment, b: Moment)
    ensures DiffTimespec(a, b) == Total(a) - Total(b) <==> 0 <= Total(a) - Total(b) < U64
  {
    DiffIsTheGapModulo(a, b);
    var gap := Total(a) - Total(b);
    if 0 <= gap < U64 {
      Bits.DivModUnique(gap, U64, 0, gap);
    }
  }

  /** Across two values the setter built without overflow: comparison and difference are
      those of the requested times. */
  lemma SetCompareSubtract(t1: nat, n1: nat, t2: nat, n2: nat)
    requires t1 + n1 / 100 < U64 && t2 + n2 / 100 < U64
    requires n1 < U64 && n2 < U64
    ensures var gap := (t1 * 100 + n1) - (t2 * 100 + n2);
      && (CmpTimespec(Split(t1, n1), Split(t2, n2)) == 1 <==> gap > 0)
      && (CmpTimespec(Split(t1, n1), Split(t2, n2)) == 0 <==> gap == 0)
      && (CmpTimespec(Split(t1, n1), Split(t2, n2)) == -1 <==> gap < 0)
      && (DiffTimespec(Split(t1, n1), Split(t2, n2)) == gap <==> 0 <= gap < U64)
  {
    SplitIsExact(t1, n1);
    SplitIsExact(t2, n2);
    CmpComparesTotals(Split(t1, n1), Split(t2, n2));
    TotalOfEqual(Split(t1, n1), Split(t2, n2));
    DiffIsExact(Split(t1, n1), Split(t2, n2));
  }

  lemma TotalOfEqual(a: Moment, b: Moment)
    requires Normalised(a) && Normalised(b)
    ensures a == b <==> Total(a) == Total(b)
  {
    if Total(a) == Total(b) {
      TotalIsInjective(a, b);
    }
  }

  // ----------------------------------------------------------- the Windows form

  /** A 64-bit count of 100-nanosecond units, and the longest wait in milliseconds. */
  class WinTimespec {
    var i64: int
    var maxTimeoutMsec: int

    /** The offset is cut toward zero to whole units before it is added. */
    method SetTimeNsec(time: int, nsec: nat)
      requires nsec < U64
      modifies this
      ensures i64 == WinTime(time, nsec)
      ensures maxTimeoutMsec == ToInt32(nsec / 1_000_000)
      ensures InRange(time, nsec) ==> i64 * 100 == time * 100 + nsec - nsec % 100
      ensures nsec < 0x8000_0000 * 1_000_000 ==>
        maxTimeoutMsec * 1_000_000 <= nsec < (maxTimeoutMsec + 1) * 1_000_000
    {
      WinTimeInRange(time, nsec);
      i64 := Signed(time + CDiv(Signed(nsec, U64), 100), U64);
      maxTimeoutMsec := ToInt32(nsec / 1_000_000);
    }
  }

  function WinTime(time: int, nsec: nat): int {
    Signed(time + CDiv(Signed(nsec, U64), 100), U64)
  }

  /** The offset is in signed range and the sum does not overflow. */
  predicate InRange(time: int, nsec: nat) {
    && nsec < 0x8000_0000_0000_0000
    && -0x8000_0000_0000_0000 <= time + nsec / 100 < 0x8000_0000_0000_0000
  }

  lemma WinTimeInRange(time: int, nsec: nat)
    requires nsec < U64
    ensures InRange(time, nsec) ==> WinTime(time, nsec) * 100 == time * 100 + nsec - nsec % 100
  {
  }

  /** In every case the value is, modulo 2^64, the time plus the offset; an offset from 2^63
      up stands for a negative one, and is cut toward zero. */
  lemma WinTimeModulo(time: int, nsec: nat)
    requires nsec < U64
    ensures -0x8000_0000_0000_0000 <= WinTime(time, nsec) < 0x8000_0000_0000_0000
    ensures var units := if nsec < 0x8000_0000_0000_0000 then nsec / 100
                         else -((0x1_0000_0000_0000_0000 - nsec) / 100);
      exists q: int :: time + units == WinTime(time, nsec) + q * 0x1_0000_0000_0000_0000
  {
    SignedIsCongruent(time + CDiv(Signed(nsec, U64), 100), U64);
  }

  /** With an offset in signed range and no overflow, exactly `nsec % 100` nanoseconds are
      lost, and the POSIX form keeps what this one loses. */
  lemma WinTimeLosesTheRemainder(time: nat, nsec: nat)
    requires nsec < 0x8000_0000_0000_0000 && time + nsec / 100 < 0x8000_0000_0000_0000
    ensures WinTime(time, nsec) * 100 == time * 100 + nsec - nsec % 100
    ensures WinTime(time, nsec) * 100 == Total(Split(time, nsec)) - nsec % 100
  {
    SplitIsExact(time, nsec);
  }

  /** Comparison and difference of Windows values, in units of 100 nanoseconds. */
  function WinCmp(a: int, b: int): int {
    if a > b then 1 else if a < b then -1 else 0
  }

  function WinDiff(a: int, b: int): int {
    Signed(Signed(a - b, U64) * 100, U64)
  }

  /** The comparison is that of the numbers. */
  lemma WinCmpCompares(a: int, b: int)
    ensures WinCmp(a, b) == 1 <==> a > b
    ensures WinCmp(a, b) == -1 <==> a < b
    ensures WinCmp(a, b) == 0 <==> a == b
  {
  }

  /** The difference is the gap in nanoseconds modulo 2^64, as a signed number. */
  lemma WinDiffModulo(a: int, b: int)
    ensures -0x8000_0000_0000_0000 <= WinDiff(a, b) < 0x8000_0000_0000_0000
    ensures exists q: int :: (a - b) * 100 == WinDiff(a, b) + q * 0x1_0000_0000_0000_0000
  {
    SignedIsCongruent(a - b, U64);
    SignedIsCongruent(Signed(a - b, U64) * 100, U64);
    var p: int :| a - b == Signed(a - b, U64) + p * U64;
    var q: int :| Signed(a - b, U64) * 100 == WinDiff(a, b) + q * U64;
    assert (a - b) * 100 == WinDiff(a, b) + (q + p * 100) * U64;
  }

  /** The difference is the exact gap in nanoseconds exactly when that gap fits in a
      signed 64-bit integer. */
  lemma WinDiffIsExact(a: Int64, b: Int64)
    ensures WinDiff(a, b) == (a - b) * 100
            <==> -0x8000_0000_0000_0000 <= (a - b) * 100 < 0x8000_0000_0000_0000
  {
  }

  /** Between two Windows values set in range, comparison and difference are those of the
      requested times cut down to 100 nanoseconds. */
  lemma WinCompareSubtract(t1: nat, n1: nat, t2: nat, n2: nat)
    requires n1 < 0x8000_0000_0000_0000 && t1 + n1 / 100 < 0x8000_0000_0000_0000
    requires n2 < 0x8000_0000_0000_0000 && t2 + n2 / 100 < 0x8000_0000_0000_0000
    ensures var gap := (t1 * 100 + n1 - n1 % 100) - (t2 * 100 + n2 - n2 % 100);
      && (WinCmp(WinTime(t1, n1), WinTime(t2, n2)) == 1 <==> gap > 0)
      && (WinCmp(WinTime(t1, n1), WinTime(t2, n2)) == 0 <==> gap == 0)
      && (WinCmp(WinTime(t1, n1), WinTime(t2, n2)) == -1 <==> gap < 0)
      && (WinDiff(WinTime(t1, n1), WinTime(t2, n2)) == gap
          <==> -0x8000_0000_0000_0000 <= gap < 0x8000_0000_0000_0000)
  {
    WinTimeLosesTheRemainder(t1, n1);
    WinTimeLosesTheRemainder(t2, n2);
    WinDiffIsExact(WinTime(t1, n1), WinTime(t2, n2));
  }
}
