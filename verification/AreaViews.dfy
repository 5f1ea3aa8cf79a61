/** The two views of one FIFO. CMemArea addresses its chunks through ptr_producer_, a pointer stored in the
    shared file when the area was first registered; StaticMemArea addresses them through buf_, where the
    process at hand has the file mapped. Update pushes through the first, GetProfInfo pops through the second. */
module AreaViews {
  import opened Ring
  import opened Layout

  type Byte = int

  /** The address space of one process. */
  type Memory = int -> Byte

  function Load(m: Memory, at: nat, size: nat): (r: seq<Byte>)
    ensures |r| == size && forall k :: 0 <= k < size ==> r[k] == m(at + k)
  {
    seq(size, k requires 0 <= k < size => m(at + k))
  }

  function Store(m: Memory, at: nat, x: seq<Byte>): Memory {
    p => if at <= p < at + |x| then x[p - at] else m(p)
  }

  /** The fields of the area that both views use, and the stored pointer. */
  datatype Area = Area(n: nat, size: nat, rd: nat, wr: nat, producer: nat)

  predicate Proper(a: Area) {
    a.n >= 2 && 0 < a.size < 0xFFFF_FFC0 && a.rd < a.n && a.wr < a.n && a.rd != a.wr
  }

  /** The chunks a StaticMemArea at `buf` sees. */
  function Seen(m: Memory, buf: nat, a: Area): (r: seq<seq<Byte>>)
    ensures |r| == a.n && forall i :: 0 <= i < a.n ==> r[i] == Load(m, ChunkAddress(buf, a.size, i), a.size)
  {
    seq(a.n, i requires 0 <= i < a.n => Load(m, ChunkAddress(buf, a.size, i), a.size))
  }

  function SeenQueue(m: Memory, buf: nat, a: Area): seq<seq<Byte>>
    requires Proper(a)
  {
    QueueIn(Seen(m, buf, a), a.rd, a.wr)
  }

  /** CMemArea's PushFIFO_MT, run alone. */
  function Push(m: Memory, a: Area, x: seq<Byte>): (r: (Memory, Area, bool))
    requires Proper(a)
    ensures Proper(r.1)
  {
    if Succ(a.n, a.wr) == a.rd then (m, a, false)
    else (Store(m, ChunkAddress(a.producer, a.size, a.wr), x), a.(wr := Succ(a.n, a.wr)), true)
  }

  /** The push fails exactly when the queue is full, and then changes nothing, whatever view one takes; when it
      succeeds it changes no byte outside the chunk at wr and moves wr on by one. */
  lemma {:induction false} PushFootprint(m: Memory, a: Area, x: seq<Byte>, buf: nat)
    requires Proper(a) && |x| == a.size
    ensures var (m', a', ok) := Push(m, a, x);
            var at := a.producer + (Stride(a.size) * a.wr) % 0x1_0000_0000;
            && (ok <==> |SeenQueue(m, buf, a)| < a.n - 2)
            && (!ok ==> a' == a && (forall p :: m'(p) == m(p)) && SeenQueue(m', buf, a') == SeenQueue(m, buf, a))
            && (ok ==> && a' == a.(wr := if a.wr + 1 == a.n then 0 else a.wr + 1)
                       && (forall p :: !(at <= p < at + a.size) ==> m'(p) == m(p))
                       && (forall k :: 0 <= k < a.size ==> m'(at + k) == x[k]))
  {
    Publish(Seen(m, buf, a), a.rd, a.wr);
  }

  /** The chunk being filled has no byte in common with the queued chunk at place `i`. */
  predicate ApartFrom(buf: nat, a: Area, i: nat)
    requires Proper(a) && i < Length(a.n, a.rd, a.wr)
  {
    Apart(ChunkAddress(buf, a.size, QueuedSlot(a.n, a.rd, i)), ChunkAddress(buf, a.size, a.wr), a.size)
  }

  predicate FillsFree(buf: nat, a: Area)
    requires Proper(a)
  {
    forall i :: 0 <= i < Length(a.n, a.rd, a.wr) ==> ApartFrom(buf, a, i)
  }

  /** In an area whose offsets fit 32 bits that is always so. */
  lemma {:induction false} UnwrappedFillsFree(buf: nat, a: Area)
    requires Proper(a) && Unwrapped(a.size, a.n)
    ensures FillsFree(buf, a)
  {
    ChunksAreDisjointIff(buf, a.size, a.n);
    forall i | 0 <= i < Length(a.n, a.rd, a.wr) ensures ApartFrom(buf, a, i) {
      var q := QueuedSlot(a.n, a.rd, i);
      assert q != a.wr;
      if q < a.wr {
        assert Apart(ChunkAddress(buf, a.size, q), ChunkAddress(buf, a.size, a.wr), a.size);
      } else {
        assert Apart(ChunkAddress(buf, a.size, a.wr), ChunkAddress(buf, a.size, q), a.size);
      }
    }
  }

  /** What the view of `buf` sees after a push: the old indices' queue in the new memory, and the chunk filled. */
  lemma AfterPush(m: Memory, buf: nat, a: Area, x: seq<Byte>)
    requires Proper(a) && Push(m, a, x).2
    ensures var (m', a', _) := Push(m, a, x);
            SeenQueue(m', buf, a') == SeenQueue(m', buf, a) + [Load(m', ChunkAddress(buf, a.size, a.wr), a.size)]
  {
    var (m', a', _) := Push(m, a, x);
    assert Seen(m', buf, a') == Seen(m', buf, a);
    Publish(Seen(m', buf, a), a.rd, a.wr);
  }

  /** With the pointer at the mapped buffer and the queued chunks apart from the one filled, a push appends. */
  lemma SamePointerAppends(m: Memory, a: Area, x: seq<Byte>)
    requires Proper(a) && |x| == a.size && Push(m, a, x).2 && FillsFree(a.producer, a)
    ensures SeenQueue(Push(m, a, x).0, a.producer, Push(m, a, x).1) == SeenQueue(m, a.producer, a) + [x]
  {
    var (m', a', _) := Push(m, a, x);
    AfterPush(m, a.producer, a, x);
    assert Load(m', ChunkAddress(a.producer, a.size, a.wr), a.size) == x;
    forall i | 0 <= i < Length(a.n, a.rd, a.wr)
      ensures SeenQueue(m', a.producer, a)[i] == SeenQueue(m, a.producer, a)[i]
    {
      assert ApartFrom(a.producer, a, i);
    }
    assert SeenQueue(m', a.producer, a) == SeenQueue(m, a.producer, a);
  }

  /** A queued chunk that shares a byte with the one filled is spoilt by some record. */
  lemma OverlapSpoils(m: Memory, a: Area, i: nat) returns (x: seq<Byte>)
    requires Proper(a) && Succ(a.n, a.wr) != a.rd && i < Length(a.n, a.rd, a.wr) && !ApartFrom(a.producer, a, i)
    ensures |x| == a.size && Push(m, a, x).2
    ensures SeenQueue(Push(m, a, x).0, a.producer, Push(m, a, x).1) != SeenQueue(m, a.producer, a) + [x]
  {
    var used := ChunkAddress(a.producer, a.size, QueuedSlot(a.n, a.rd, i));
    var filled := ChunkAddress(a.producer, a.size, a.wr);
    var p := if used < filled then filled else used;
    x := Load(m, filled, a.size)[p - filled := m(p) + 1];
    var (m', a', _) := Push(m, a, x);
    AfterPush(m, a.producer, a, x);
    assert m'(p) == m(p) + 1;
    assert SeenQueue(m', a.producer, a)[i][p - used] == m(p) + 1;
    assert SeenQueue(m, a.producer, a)[i][p - used] == m(p);
    assert SeenQueue(m', a.producer, a')[i] != (SeenQueue(m, a.producer, a) + [x])[i];
  }

  /** With the pointer anywhere else, some record pushed is not the one the other view finds. */
  lemma OtherPointerMisses(m: Memory, buf: nat, a: Area) returns (x: seq<Byte>)
    requires Proper(a) && Succ(a.n, a.wr) != a.rd && a.producer != buf
    ensures |x| == a.size && Push(m, a, x).2
    ensures SeenQueue(Push(m, a, x).0, buf, Push(m, a, x).1) != SeenQueue(m, buf, a) + [x]
  {
    var (here, there) := (ChunkAddress(buf, a.size, a.wr), ChunkAddress(a.producer, a.size, a.wr));
    var k := if there < here then a.size - 1 else 0;
    x := Load(m, here, a.size)[k := m(here + k) + 1];
    var (m', a', _) := Push(m, a, x);
    assert m'(here + k) == m(here + k);
    AfterPush(m, buf, a, x);
    var (got, wanted) := (SeenQueue(m', buf, a'), SeenQueue(m, buf, a) + [x]);
    assert got[|got| - 1][k] == m(here + k) && wanted[|wanted| - 1] == x;
  }

  /** While there is room, what Update pushes is what GetProfInfo will pop, whatever is pushed, if and only if
      the stored pointer is the address of the buffer in this process and no queued chunk shares a byte with the
      chunk filled. A process that attaches later keeps the pointer of the process that registered the entry. */
  lemma {:induction false} ViewsAgreeIff(m: Memory, buf: nat, a: Area)
    requires Proper(a) && Succ(a.n, a.wr) != a.rd
    ensures a.producer == buf && FillsFree(buf, a) <==>
            forall x: seq<Byte> :: |x| == a.size ==>
              SeenQueue(Push(m, a, x).0, buf, Push(m, a, x).1) == SeenQueue(m, buf, a) + [x]
  {
    if a.producer != buf {
      var x := OtherPointerMisses(m, buf, a);
    } else if i :| 0 <= i < Length(a.n, a.rd, a.wr) && !ApartFrom(buf, a, i) {
      var x := OverlapSpoils(m, a, i);
    } else {
      forall x: seq<Byte> | |x| == a.size
        ensures SeenQueue(Push(m, a, x).0, buf, Push(m, a, x).1) == SeenQueue(m, buf, a) + [x]
      {
        SamePointerAppends(m, a, x);
      }
    }
  }

  /** In an area whose offsets fit 32 bits, as all those of the library do, only the pointer matters. */
  lemma {:induction false} ViewsAgreeIffSamePointer(m: Memory, buf: nat, a: Area)
    requires Proper(a) && Succ(a.n, a.wr) != a.rd && Unwrapped(a.size, a.n)
    ensures a.producer == buf <==>
            forall x: seq<Byte> :: |x| == a.size ==>
              SeenQueue(Push(m, a, x).0, buf, Push(m, a, x).1) == SeenQueue(m, buf, a) + [x]
  {
    UnwrappedFillsFree(buf, a);
    ViewsAgreeIff(m, buf, a);
  }
}
