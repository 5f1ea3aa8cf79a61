/** StaticMemArea run by one thread at a time: the cyclic buffer updated in place.
    FifoProtocol covers the same methods under any interleaving. */
module MemAreas {
  import opened Common
  import opened Ring

  class MemArea<T(0)> {
    const buf: array<T>
    var wr: nat
    var rd: nat

    ghost predicate Valid()
      reads this
    {
      buf.Length >= 2 && wr < buf.Length && rd < buf.Length
    }

    /** Used as a FIFO the two indices never meet. */
    ghost predicate Fifo()
      reads this
    {
      Valid() && rd != wr
    }

    ghost function Capacity(): nat
      requires Valid()
      reads this
    {
      buf.Length - 2
    }

    /** The queued records, oldest first. */
    ghost function Contents(): (q: seq<T>)
      requires Fifo()
      reads this, buf
      ensures |q| <= Capacity()
    {
      QueueIn(buf[..], rd, wr)
    }

    constructor Setup(chunks: nat)
      requires chunks >= 2
      ensures Fifo() && Contents() == [] && buf.Length == chunks
      ensures rd == 0 && wr == 1 && fresh(buf)
    {
      buf := new T[chunks];
      rd, wr := 0, 1;
    }

    /** PushFIFO_MT */
    method Push(x: T) returns (ok: bool)
      requires Fifo()
      modifies this`wr, buf
      ensures Fifo()
      ensures ok <==> |old(Contents())| < Capacity()
      ensures Contents() == if ok then old(Contents()) + [x] else old(Contents())
    {
      ghost var b := buf[..];
      var tmp := (wr + 1) % buf.Length;
      assert tmp == Succ(buf.Length, wr);
      Publish(b, rd, wr);
      if tmp == rd {
        ok := false;
      } else {
        buf[wr] := x;
        WriteIsPrivate(b, rd, wr, x);
        assert buf[..] == b[wr := x];
        Publish(b[wr := x], rd, wr);
        wr := tmp;
        ok := true;
      }
    }

    /** PopFIFO_MT */
    method Pop() returns (res: Option<T>)
      requires Fifo()
      modifies this`rd
      ensures Fifo()
      ensures old(Contents()) == [] ==> res == None && Contents() == []
      ensures old(Contents()) != [] ==> res == Some(old(Contents())[0]) && Contents() == old(Contents())[1..]
    {
      Claim(buf[..], rd, wr);
      var tmp := (rd + 1) % buf.Length;
      assert tmp == Succ(buf.Length, rd);
      res := None;
      if tmp != wr {
        rd := tmp;
        res := Some(buf[rd]);
      }
    }

    /** AllocPoolChunk: the next chunk, whether or not anyone still uses it. */
    method AllocPoolChunk() returns (chunk: nat)
      requires Valid()
      modifies this`wr
      ensures Valid() && wr == Succ(buf.Length, old(wr)) && chunk == wr
    {
      wr := (wr + 1) % buf.Length;
      chunk := wr;
    }
  }

  /** The push-else-drop-oldest loop shared by AddLog and AddProfData, run alone: it ends after at most one
      pop, and the queue keeps the newest records that fit. */
  method PushDroppingOldest<T(0)>(fifo: MemArea<T>, x: T)
    requires fifo.Fifo() && fifo.buf.Length >= 3
    modifies fifo, fifo.buf
    ensures fifo.Fifo() && fifo.Contents() == LastN(fifo.Capacity(), old(fifo.Contents()) + [x])
  {
    var ok := fifo.Push(x);
    while !ok
      invariant fifo.Fifo()
      invariant fifo.Contents() ==
                if ok then LastN(fifo.Capacity(), old(fifo.Contents()) + [x]) else old(fifo.Contents())
      invariant !ok ==> |fifo.Contents()| == fifo.Capacity()
      decreases !ok
    {
      var dummy := fifo.Pop();
      ok := fifo.Push(x);
      assert (old(fifo.Contents()) + [x])[1..] == old(fifo.Contents())[1..] + [x];
    }
  }

  /** The queue after a history of such pushes. */
  function PushAll<T>(cap: nat, q: seq<T>, xs: seq<T>): seq<T> {
    if xs == [] then q else LastN(cap, PushAll(cap, q, xs[..|xs| - 1]) + [xs[|xs| - 1]])
  }

  /** Drop-oldest refines "keep the last n - 2": from an empty queue, after any history of k pushes the
      queue is exactly the last min(k, n - 2) records, in order. */
  lemma {:induction false} PushAllKeepsLast<T>(cap: nat, xs: seq<T>)
    ensures PushAll(cap, [], xs) == LastN(cap, xs)
  {
    if xs != [] {
      var k := |xs| - 1;
      PushAllKeepsLast(cap, xs[..k]);
      assert xs == xs[..k] + [xs[k]];
    }
  }
}
