/** 64-bit machine arithmetic and the time stamps built on it. */
module Machine64 {

  const TWO63: int := 0x8000_0000_0000_0000
  const TWO64: int := 0x1_0000_0000_0000_0000
  const BILLION: int := 1_000_000_000

  type u64 = x: int | 0 <= x < 0x1_0000_0000_0000_0000

  /** The value an unsigned 64-bit variable holds after being assigned `x`. */
  function U64(x: int): (r: u64)
    ensures 0 <= x < TWO64 ==> r == x
    ensures -TWO64 <= x < 0 ==> r == x + TWO64
    ensures TWO64 <= x < 2 * TWO64 ==> r == x - TWO64
  {
    x % TWO64
  }

  /** An unsigned 64-bit value read as a signed one. */
  function S64(u: u64): int
  {
    if u < TWO63 then u else u - TWO64
  }

  datatype RawTimeSpec = TimeSpec(sec: nat, nsec: nat)

  /** Nanoseconds since the clock's origin. */
  function Ns(t: RawTimeSpec): nat {
    t.sec * BILLION + t.nsec
  }

  /** A normalised reading of the monotonic clock, below 2^63 nanoseconds (292 years). */
  type TimeSpec = t: RawTimeSpec | t.nsec < BILLION && Ns(t) < TWO63
    witness TimeSpec(0, 0)

  /** DiffBetweenTimespec on readings of any size: unsigned products, an unsigned difference, read back as signed. */
  function WrappedDiff(t1: RawTimeSpec, t2: RawTimeSpec): int {
    var a := U64(U64(t1.sec * BILLION) + t1.nsec);
    var b := U64(U64(t2.sec * BILLION) + t2.nsec);
    S64(U64(a - b))
  }

  /** On clock readings it is the exact difference in nanoseconds. */
  function DiffBetweenTimespec(t1: TimeSpec, t2: TimeSpec): (d: int)
    ensures d == Ns(t1) - Ns(t2)
    ensures d == (t1.sec - t2.sec) * 1_000_000_000 + t1.nsec - t2.nsec
  {
    WrappedDiff(t1, t2)
  }

  /** The sign of the difference is the lexicographic order of (sec, nsec), a strict total preorder. */
  lemma DiffOrdersLexicographically(t1: TimeSpec, t2: TimeSpec)
    ensures DiffBetweenTimespec(t1, t2) < 0 <==> t1.sec < t2.sec || (t1.sec == t2.sec && t1.nsec < t2.nsec)
    ensures DiffBetweenTimespec(t1, t2) == 0 <==> t1 == t2
    ensures DiffBetweenTimespec(t1, t2) > 0 <==> DiffBetweenTimespec(t2, t1) < 0
  {
  }

  lemma Wraps(x: int) returns (k: int)
    ensures U64(x) == x + k * TWO64
  {
    k := -(x / TWO64);
  }

  /** Wrapping loses whole multiples of 2^64 and nothing else. */
  lemma DiffIsCongruent(t1: RawTimeSpec, t2: RawTimeSpec) returns (k: int)
    ensures WrappedDiff(t1, t2) == Ns(t1) - Ns(t2) + k * TWO64
    ensures -TWO63 <= WrappedDiff(t1, t2) < TWO63
  {
    hide U64;
    var k1 := Wraps(t1.sec * BILLION);
    var k2 := Wraps(t2.sec * BILLION);
    var a, b := U64(t1.sec * BILLION) + t1.nsec, U64(t2.sec * BILLION) + t2.nsec;
    var k3 := Wraps(a);
    var k4 := Wraps(b);
    k := Wraps(U64(a) - U64(b));
    k := k + k1 + k3 - k2 - k4 - if U64(U64(a) - U64(b)) < TWO63 then 0 else 1;
  }

  /** For readings of any size the result is the exact difference if and only if that difference is a signed
      64-bit number; below 2^64 ns this is also exactly when the result has the right sign. */
  lemma {:induction false} DiffIsExactIff(t1: RawTimeSpec, t2: RawTimeSpec)
    ensures WrappedDiff(t1, t2) == Ns(t1) - Ns(t2) <==> -TWO63 <= Ns(t1) - Ns(t2) < TWO63
    ensures Ns(t1) < TWO64 && Ns(t2) < TWO64 ==>
              ((WrappedDiff(t1, t2) < 0 <==> Ns(t1) < Ns(t2)) <==> -TWO63 <= Ns(t1) - Ns(t2) < TWO63)
  {
    var k := DiffIsCongruent(t1, t2);
  }

  /** So 2^63 ns after the origin compares as earlier than the origin, and one ns less is still right. */
  lemma {:induction false} DiffWrapsAt2To63()
    ensures WrappedDiff(TimeSpec(9223372036, 854775807), TimeSpec(0, 0)) == 0x7FFF_FFFF_FFFF_FFFF
    ensures WrappedDiff(TimeSpec(9223372036, 854775808), TimeSpec(0, 0)) == -0x8000_0000_0000_0000
  {
    DiffIsExactIff(TimeSpec(9223372036, 854775807), TimeSpec(0, 0));
    DiffIsExactIff(TimeSpec(9223372036, 854775808), TimeSpec(0, 0));
  }
}
