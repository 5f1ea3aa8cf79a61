/** Index arithmetic of a cyclic buffer of `n` chunks whose live chunks are
    rd + 1 .. wr - 1, counted cyclically (i_cpp_sys_api.h, CMemArea). */
module Ring {

  /** The index update `(i + 1) % number_chunks_`. */
  function Succ(n: nat, i: nat): (r: nat)
    requires i < n
    ensures r == if i + 1 == n then 0 else i + 1
  {
    (i + 1) % n
  }

  /** The slot `k` places after `base`. */
  function Slot(n: nat, base: nat, k: nat): (r: nat)
    requires base < n && k <= n
    ensures r < n
  {
    if base + k < n then base + k else base + k - n
  }

  /** The slot of the queued chunk with `i` older ones before it. */
  function QueuedSlot(n: nat, rd: nat, i: nat): (r: nat)
    requires rd < n && i < n
    ensures r < n
  {
    Slot(n, rd, i + 1)
  }

  /** The number of chunks strictly between `rd` and `wr`. */
  function Length(n: nat, rd: nat, wr: nat): (r: nat)
    requires rd < n && wr < n && rd != wr
    ensures r <= n - 2 && Slot(n, rd, r + 1) == wr
  {
    if rd < wr then wr - rd - 1 else wr + n - rd - 1
  }

  /** The queue stored in `b` by the indices `rd` and `wr`, oldest first. */
  function QueueIn<T>(b: seq<T>, rd: nat, wr: nat): (q: seq<T>)
    requires rd < |b| && wr < |b| && rd != wr
    ensures |q| == Length(|b|, rd, wr)
    ensures forall i :: 0 <= i < |q| ==> q[i] == b[QueuedSlot(|b|, rd, i)]
  {
    seq(Length(|b|, rd, wr), i requires 0 <= i < Length(|b|, rd, wr) => b[QueuedSlot(|b|, rd, i)])
  }

  /** Filling the chunk at `wr` is invisible to the queue. */
  lemma WriteIsPrivate<T>(b: seq<T>, rd: nat, wr: nat, x: T)
    requires rd < |b| && wr < |b| && rd != wr
    ensures QueueIn(b[wr := x], rd, wr) == QueueIn(b, rd, wr)
  {
  }

  /** Advancing `wr` appends the chunk it leaves; it is possible exactly when the queue is not full. */
  lemma Publish<T>(b: seq<T>, rd: nat, wr: nat)
    requires rd < |b| && wr < |b| && rd != wr
    ensures Succ(|b|, wr) == rd <==> |QueueIn(b, rd, wr)| == |b| - 2
    ensures Succ(|b|, wr) != rd ==> QueueIn(b, rd, Succ(|b|, wr)) == QueueIn(b, rd, wr) + [b[wr]]
  {
  }

  /** Advancing `rd` removes the oldest chunk; it is possible exactly when the queue is not empty. */
  lemma Claim<T>(b: seq<T>, rd: nat, wr: nat)
    requires rd < |b| && wr < |b| && rd != wr
    ensures Succ(|b|, rd) == wr <==> QueueIn(b, rd, wr) == []
    ensures Succ(|b|, rd) != wr ==>
              && QueueIn(b, rd, wr) != []
              && QueueIn(b, rd, wr)[0] == b[Succ(|b|, rd)]
              && QueueIn(b, Succ(|b|, rd), wr) == QueueIn(b, rd, wr)[1..]
  {
  }

  /** The write index after `k` calls of AllocPoolChunk on a fresh area. */
  function WriteIndexAfter(n: nat, k: nat): (r: nat)
    requires n >= 2
    ensures r < n
  {
    if k == 0 then 1 else Succ(n, WriteIndexAfter(n, k - 1))
  }

  /** The chunk handed out by allocation number `a`, counted from 0 in lock order. */
  function ChunkOf(n: nat, a: nat): (r: nat)
    requires n >= 2
    ensures r < n
  {
    WriteIndexAfter(n, a + 1)
  }

  lemma {:induction false} ChunkAhead(n: nat, a: nat, d: nat)
    requires n >= 2 && d <= n
    ensures ChunkOf(n, a + d) == Slot(n, ChunkOf(n, a), d)
  {
    if d > 0 {
      ChunkAhead(n, a, d - 1);
    }
  }

  /** Two allocations share a chunk only if a whole lap or more separates them; a whole lap does it. */
  lemma {:induction false} ChunksRepeatByLaps(n: nat, a: nat, b: nat)
    requires n >= 2 && a < b <= a + n
    ensures ChunkOf(n, a) == ChunkOf(n, b) <==> b == a + n
  {
    ChunkAhead(n, a, b - a);
  }
}
