/** The alignment macros and the placement of chunks in a StaticMemArea. */
module Layout {

  const TWO32: nat := 0x1_0000_0000

  lemma WrappedOnce(x: nat)
    requires TWO32 <= x < 2 * TWO32
    ensures x % TWO32 == x - TWO32
  {
  }

  function Pow2(k: nat): (r: nat)
    ensures r > 0
  {
    if k == 0 then 1 else 2 * Pow2(k - 1)
  }

  /** `x & ~(2^k - 1)`: the k low bits cleared, bit by bit. */
  function ClearLowBits(x: nat, k: nat): nat {
    if k == 0 then x else 2 * ClearLowBits(x / 2, k - 1)
  }

  /** ALIGN_SIZE(x, 2^k) on a 32-bit operand: the sum wraps before the low bits are cleared. */
  function AlignSize(x: nat, k: nat): nat {
    ClearLowBits((x + Pow2(k) - 1) % TWO32, k)
  }

  /** Clearing low bits rounds down to a multiple of 2^k; `q` is the quotient. */
  lemma {:induction false} ClearingRoundsDown(x: nat, k: nat) returns (q: nat)
    ensures ClearLowBits(x, k) == Pow2(k) * q
    ensures ClearLowBits(x, k) <= x < ClearLowBits(x, k) + Pow2(k)
  {
    if k == 0 {
      q := x;
    } else {
      q := ClearingRoundsDown(x / 2, k - 1);
      assert Pow2(k) * q == 2 * (Pow2(k - 1) * q);
    }
  }

  lemma {:induction false} NextMultiple(step: nat, i: nat, j: nat)
    requires i < j
    ensures step * i + step <= step * j
  {
    assert step * j == step * (j - 1) + step;
    if j > i + 1 {
      NextMultiple(step, i, j - 1);
    }
  }

  lemma SmallKept(x: nat)
    requires x < TWO32
    ensures x % TWO32 == x
  {
  }

  /** Rounding `x + p - 1` down to the multiple `q` of `p` goes no further up than to any multiple not below `x`. */
  lemma NoLessMultiple(x: nat, p: nat, q: nat, m: nat)
    requires p > 0 && p * q <= x + p - 1 && x <= p * m
    ensures p * q <= p * m
  {
    if m < q {
      NextMultiple(p, m, q);
    } else if q < m {
      NextMultiple(p, q, m);
    }
  }

  /** For every power of two, when the sum does not wrap, ALIGN_SIZE is the least multiple not below its argument. */
  lemma {:induction false} AlignSizeIsLeastMultiple(x: nat, k: nat) returns (q: nat)
    requires x + Pow2(k) - 1 < 0x1_0000_0000
    ensures AlignSize(x, k) == Pow2(k) * q && x <= AlignSize(x, k)
    ensures forall m: nat :: x <= Pow2(k) * m ==> AlignSize(x, k) <= Pow2(k) * m
  {
    SmallKept(x + Pow2(k) - 1);
    q := ClearingRoundsDown(x + Pow2(k) - 1, k);
    hide Pow2, ClearLowBits;
    forall m: nat | x <= Pow2(k) * m ensures AlignSize(x, k) <= Pow2(k) * m {
      NoLessMultiple(x, Pow2(k), q, m);
    }
  }

  /** On a 32-bit operand it is that multiple if and only if the sum does not wrap; when it wraps it is zero. */
  lemma {:induction false} AlignSizeCoversIff(x: nat, k: nat)
    requires 0 < x < 0x1_0000_0000 && Pow2(k) <= 0x1_0000_0000
    ensures x <= AlignSize(x, k) <==> x + Pow2(k) - 1 < 0x1_0000_0000
    ensures x + Pow2(k) - 1 >= 0x1_0000_0000 ==> AlignSize(x, k) == 0
  {
    if x + Pow2(k) - 1 < TWO32 {
      var q := AlignSizeIsLeastMultiple(x, k);
    } else {
      WrappedOnce(x + Pow2(k) - 1);
      var q := ClearingRoundsDown(x + Pow2(k) - 1 - TWO32, k);
      if q > 0 {
        NextMultiple(Pow2(k), 0, q);
      }
    }
  }

  /** CACHE_ALIGNMENT is 2^6; Setup makes this the distance between chunks of `size` bytes. */
  function Stride(size: nat): nat {
    AlignSize(size, 6)
  }

  /** GetReadBufP, GetWriteBufP and AllocPoolChunk address chunk `i` here: the product of two 32-bit unsigned
      numbers wraps before it is added to the pointer. */
  function ChunkAddress(base: nat, size: nat, i: nat): nat {
    base + (Stride(size) * i) % TWO32
  }

  /** GetEntry addresses entry `i` here: the array indexing of buf_. */
  function EntryAddress(base: nat, size: nat, i: nat): nat {
    base + size * i
  }

  lemma Pow2Of6()
    ensures Pow2(6) == 64
  {
  }

  lemma RoundedTo64(size: nat, stride: nat, p: nat, q: nat)
    requires p == 64 && stride == p * q && stride <= size + 63 < stride + 64
    ensures size <= stride < size + 64
    ensures stride == size <==> size % 64 == 0
  {
  }

  lemma StrideIs(size: nat)
    requires size < 0xFFFF_FFC0
    ensures Stride(size) == ClearLowBits(size + 63, 6)
  {
    Pow2Of6();
    hide ClearLowBits, Pow2;
  }

  lemma StrideBounds(size: nat)
    requires size < 0xFFFF_FFC0
    ensures size <= Stride(size) < size + 64
    ensures Stride(size) == size <==> size % 64 == 0
  {
    Pow2Of6();
    StrideIs(size);
    hide Stride, Pow2, ClearLowBits;
    var q := ClearingRoundsDown(size + 63, 6);
    RoundedTo64(size, Stride(size), Pow2(6), q);
  }

  // ---------- Chunks that do not wrap ----------

  /** All of the n chunks have an offset that fits 32 bits. */
  predicate Unwrapped(size: nat, n: nat)
    requires n >= 1
  {
    Stride(size) * (n - 1) < TWO32
  }

  /** The bytes of a chunk of `size` bytes at `a` and of one at `b` have nothing in common. */
  predicate Apart(a: nat, b: nat, size: nat) {
    a + size <= b || b + size <= a
  }

  lemma OffsetKept(size: nat, n: nat, i: nat)
    requires i < n && Unwrapped(size, n)
    ensures (Stride(size) * i) % TWO32 == Stride(size) * i
  {
    hide Stride;
    if i < n - 1 {
      NextMultiple(Stride(size), i, n - 1);
    }
    SmallKept(Stride(size) * i);
  }

  /** The first offset that does not fit. */
  lemma {:induction false} FirstWrap(step: nat, n: nat) returns (j: nat)
    requires n >= 1 && step < TWO32 <= step * (n - 1)
    ensures 0 < j < n && step * (j - 1) < TWO32 <= step * j
  {
    if step * (n - 2) < TWO32 {
      j := n - 1;
    } else {
      j := FirstWrap(step, n - 1);
    }
  }

  lemma TimesBlocks(q: nat, j: nat)
    ensures 64 * q * j == 64 * (q * j)
  {
  }

  lemma NextProduct(step: nat, j: nat)
    requires j > 0
    ensures step * j == step * (j - 1) + step
  {
  }

  /** Past 2^32 by less than a step of whole 64-byte blocks is past it by at most one block less. */
  lemma WrapsShort(p: nat, r: nat, step: nat, q: nat)
    requires p == 64 * r && step == 64 * q && TWO32 <= p < TWO32 + step && step < TWO32
    ensures p % TWO32 <= step - 64
  {
    WrappedOnce(p);
  }

  lemma StrideIsBlocks(size: nat) returns (q: nat)
    requires size < 0xFFFF_FFC0
    ensures Stride(size) == 64 * q
  {
    Pow2Of6();
    StrideIs(size);
    hide Stride, Pow2, ClearLowBits;
    q := ClearingRoundsDown(size + 63, 6);
  }

  /** The first chunk whose offset wraps lies in chunk 0. */
  lemma WrappedOverlaps(base: nat, size: nat, j: nat)
    requires 0 < size < 0xFFFF_FFC0 && j > 0 && Stride(size) * (j - 1) < TWO32 <= Stride(size) * j
    ensures !Apart(ChunkAddress(base, size, 0), ChunkAddress(base, size, j), size)
  {
    StrideBounds(size);
    var q := StrideIsBlocks(size);
    hide Stride;
    NextProduct(Stride(size), j);
    TimesBlocks(q, j);
    WrapsShort(Stride(size) * j, q * j, Stride(size), q);
  }

  lemma ChunksAreOrdered(base: nat, size: nat, n: nat, i: nat, j: nat)
    requires size < 0xFFFF_FFC0 && i < j < n && Unwrapped(size, n)
    ensures ChunkAddress(base, size, i) + size <= ChunkAddress(base, size, j)
  {
    StrideBounds(size);
    OffsetKept(size, n, i);
    OffsetKept(size, n, j);
    NextMultiple(Stride(size), i, j);
  }

  /** No two of the n chunks overlap if and only if no offset wraps. */
  lemma {:induction false} ChunksAreDisjointIff(base: nat, size: nat, n: nat)
    requires 0 < size < 0xFFFF_FFC0 && n >= 1
    ensures (forall i: nat, j: nat :: i < j < n ==>
               Apart(ChunkAddress(base, size, i), ChunkAddress(base, size, j), size))
            <==> Unwrapped(size, n)
  {
    StrideBounds(size);
    if Unwrapped(size, n) {
      forall i: nat, j: nat | i < j < n ensures Apart(ChunkAddress(base, size, i), ChunkAddress(base, size, j), size) {
        ChunksAreOrdered(base, size, n, i, j);
      }
    } else {
      var j := FirstWrap(Stride(size), n);
      WrappedOverlaps(base, size, j);
    }
  }

  lemma WrapMoves(x: nat)
    requires x >= TWO32
    ensures x % TWO32 < x
  {
  }

  /** The two ways of addressing agree on all of the n >= 2 entries exactly when the entry size is a multiple of
      64 and the last offset fits 32 bits. */
  lemma {:induction false} ChunksAreEntriesIff(base: nat, size: nat, n: nat)
    requires 0 < size < 0xFFFF_FFC0 && n >= 2
    ensures (forall i: nat :: i < n ==> ChunkAddress(base, size, i) == EntryAddress(base, size, i))
            <==> size % 64 == 0 && size * (n - 1) < 0x1_0000_0000
  {
    StrideBounds(size);
    hide Stride;
    if size % 64 == 0 && size * (n - 1) < TWO32 {
      forall i: nat | i < n ensures ChunkAddress(base, size, i) == EntryAddress(base, size, i) {
        OffsetKept(size, n, i);
      }
    } else if size % 64 != 0 {
      assert ChunkAddress(base, size, 1) == base + Stride(size) != EntryAddress(base, size, 1);
    } else {
      WrapMoves(size * (n - 1));
      assert ChunkAddress(base, size, n - 1) != EntryAddress(base, size, n - 1);
    }
  }

  lemma LongerSteps(size: nat, step: nat, n: nat)
    requires size < step && n >= 1
    ensures step * (n - 1) + step > size * n
  {
    NextMultiple(n, size, step);
    NextProduct(step, n);
  }

  lemma WrapLowers(x: nat)
    ensures x % TWO32 <= x
  {
  }

  lemma InsideStep(base: nat, step: nat, n: nat, i: nat)
    requires i < n
    ensures base + (step * i) % TWO32 + step <= base + step * n
  {
    NextMultiple(step, i, n);
    WrapLowers(step * i);
  }

  /** With an entry size that is a multiple of 64 every chunk lies inside the buffer of n entries; with any other,
      the last chunk does not, unless its offset wraps. */
  lemma {:induction false} ChunksInsideIff(base: nat, size: nat, n: nat)
    requires 0 < size < 0xFFFF_FFC0 && n >= 2
    ensures size % 64 == 0 ==> forall i: nat :: i < n ==> ChunkAddress(base, size, i) + Stride(size) <= base + size * n
    ensures Unwrapped(size, n) ==>
              (size % 64 == 0 <==> ChunkAddress(base, size, n - 1) + Stride(size) <= base + size * n)
  {
    StrideBounds(size);
    hide Stride;
    if size % 64 == 0 {
      forall i: nat | i < n ensures ChunkAddress(base, size, i) + Stride(size) <= base + size * n {
        InsideStep(base, size, n, i);
      }
    } else if Unwrapped(size, n) {
      OffsetKept(size, n, n - 1);
      LongerSteps(size, Stride(size), n);
    }
  }
}
