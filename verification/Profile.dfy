/** CProfileCnt: one profiling point. Its methods update 64-bit fields in place and hand finished batches
    to the profiler's FIFO. */
module Profile {
  import opened Common
  import opened Machine64
  import opened MemAreas

  /** struct ProfileData; in a point `average` holds the running sum until the batch is handed over. */
  datatype ProfileData = ProfileData(max: u64, maxTime: u64, last: u64, average: u64, meas: u64)

  const NO_DATA := ProfileData(0, 0, 0, 0, 0)

  /** The fields of a ProfilePoint that the methods below use. */
  datatype Point = Point(data: ProfileData, acc: u64, start: u64, delta: u64, maxCalls: nat)

  // ---------- What each method does to the fields and to the FIFO ----------

  function Started(p: Point, now: u64): Point {
    p.(data := p.data.(last := 1), start := now)
  }

  function Paused(p: Point, now: u64): Point {
    p.(acc := U64(p.acc + U64(now - p.start)), start := 0)
  }

  /** The measured value: wrapping unsigned arithmetic, read back as signed; 20 stands for a negative one. */
  function Measured(p: Point, now: u64): u64 {
    var d := S64(U64(U64(U64(now - p.start) + p.acc) - p.delta));
    if d < 0 then 20 else d
  }

  function Counted(p: Point, v: u64): Point {
    var d := p.data;
    var top := if v > d.max then d.(max := v, maxTime := p.start) else d;
    p.(data := top.(last := v, average := U64(d.average + v), meas := U64(d.meas + 1)), acc := 0, start := 0)
  }

  /** Update leaves the point without data. */
  function Flushed(p: Point): Point {
    if p.data.meas == 0 then p else p.(data := NO_DATA)
  }

  /** The batch Update tries to hand over. */
  function Record(d: ProfileData): ProfileData
    requires d.meas != 0
  {
    d.(average := d.average / d.meas)
  }

  /** The FIFO after Update: the batch is appended while there is room; on a full FIFO the oldest record is
      popped over the batch and pushed back, so the FIFO rotates and the batch is gone. */
  function QueueAfterUpdate(cap: nat, d: ProfileData, q: seq<ProfileData>): (r: seq<ProfileData>)
    requires cap >= 1
    ensures |q| >= cap ==> multiset(r) == multiset(q)
  {
    if d.meas == 0 then q
    else if |q| < cap then q + [Record(d)]
    else
      assert q == [q[0]] + q[1..];
      q[1..] + [q[0]]
  }

  predicate MustUpdate(p: Point) {
    p.maxCalls != 0 && p.maxCalls <= p.data.meas
  }

  class ProfileCnt {
    const fifo: MemArea<ProfileData>
    var data: ProfileData
    var acc: u64
    var start: u64
    var delta: u64
    var maxCalls: nat

    ghost predicate Valid()
      reads this, fifo
    {
      fifo.Fifo() && fifo.buf.Length >= 3
    }

    ghost function View(): Point
      reads this
    {
      Point(data, acc, start, delta, maxCalls)
    }

    ghost function Queue(): seq<ProfileData>
      requires Valid()
      reads this, fifo, fifo.buf
    {
      fifo.Contents()
    }

    /** Init with the calibrated clock overhead `delta`; `maxCount` is accepted and ignored. */
    constructor Init(fifo: MemArea<ProfileData>, maxCount: nat, delta: u64)
      requires fifo.Fifo() && fifo.buf.Length >= 3
      ensures Valid() && this.fifo == fifo
      ensures View() == Point(NO_DATA, 0, 0, delta, 500)
    {
      this.fifo := fifo;
      data := NO_DATA;
      acc, start := 0, 0;
      this.delta := delta;
      maxCalls := 500;
    }

    method Update()
      requires Valid()
      modifies this`data, fifo, fifo.buf
      ensures Valid() && View() == Flushed(old(View()))
      ensures Queue() == QueueAfterUpdate(fifo.Capacity(), old(data), old(Queue()))
    {
      if data.meas == 0 {
        return;
      }
      data := data.(average := data.average / data.meas);
      ghost var batch, q := data, fifo.Contents();
      var ok := fifo.Push(data);
      while !ok
        invariant Valid()
        invariant !ok ==> fifo.Contents() == q && |q| == fifo.Capacity()
        invariant ok ==> fifo.Contents() == QueueAfterUpdate(fifo.Capacity(), old(data), q)
        decreases !ok
      {
        var popped := fifo.Pop();
        if popped.Some? {
          data := popped.value;
        }
        ok := fifo.Push(data);
      }
      data := NO_DATA;
    }

    method Start(now: u64)
      requires start == 0
      modifies this`data, this`start
      ensures View() == Started(old(View()), now)
    {
      data := data.(last := 1);
      start := now;
    }

    method StopContinue(now: u64)
      modifies this`acc, this`start
      ensures View() == Paused(old(View()), now)
    {
      acc := U64(acc + U64(now - start));
      start := 0;
    }

    /** Stop with the clock (`value` absent) or with a value of the caller's. */
    method Stop(now: u64, value: Option<u64>)
      requires Valid()
      modifies this, fifo, fifo.buf
      ensures Valid()
      ensures var v := if value == None then Measured(old(View()), now) else value.value;
              var p := Counted(old(View()), v);
              && View() == (if MustUpdate(p) then Flushed(p) else p)
              && Queue() == (if MustUpdate(p) then QueueAfterUpdate(fifo.Capacity(), p.data, old(Queue()))
                             else old(Queue()))
    {
      if value == None {
        var d := S64(U64(U64(U64(now - start) + acc) - delta));
        if d < 0 {
          data := data.(last := 20);
        } else {
          data := data.(last := d);
        }
      } else {
        data := data.(last := value.value);
      }
      ghost var v := data.last;
      assert v == if value == None then Measured(old(View()), now) else value.value;
      acc := 0;
      if data.last > data.max {
        data := data.(max := data.last);
        data := data.(maxTime := start);
      }
      data := data.(average := U64(data.average + data.last));
      start := 0;
      data := data.(meas := U64(data.meas + 1));
      assert View() == Counted(old(View()), v);
      if maxCalls != 0 && maxCalls <= data.meas {
        Update();
      }
    }
  }

  // ---------- Segmented measurement ----------

  /** A stretch of time during which the measured code ran. */
  datatype Segment = Segment(from: nat, until: nat)

  /** Segments of a monotone, positive clock: each ends no earlier than it begins, the later ones begin no
      earlier than that, and the clock stays below 2^63 ns. */
  predicate Monotone(segs: seq<Segment>) {
    && (forall i :: 0 <= i < |segs| ==> 0 < segs[i].from <= segs[i].until < TWO63)
    && (forall i, j :: 0 <= i < j < |segs| ==> segs[i].until <= segs[j].from)
  }

  function Duration(segs: seq<Segment>): int {
    if segs == [] then 0 else Duration(segs[..|segs| - 1]) + segs[|segs| - 1].until - segs[|segs| - 1].from
  }

  /** Start and StopContinue once for every segment. */
  function RunSegments(p: Point, segs: seq<Segment>): Point
    requires Monotone(segs)
  {
    if segs == [] then p
    else
      var s := segs[|segs| - 1];
      Paused(Started(RunSegments(p, segs[..|segs| - 1]), s.from), s.until)
  }

  lemma {:induction false} PausesAccumulate(p: Point, segs: seq<Segment>)
    requires Monotone(segs) && p.acc == 0 && p.start == 0
    ensures 0 <= Duration(segs) <= if segs == [] then 0 else segs[|segs| - 1].until
    ensures var r := RunSegments(p, segs);
            r.acc == Duration(segs) && r.start == 0 && r.delta == p.delta
  {
    if segs != [] {
      PausesAccumulate(p, segs[..|segs| - 1]);
    }
  }

  /** The wrapping arithmetic of one Stop is exact while the times stay below 2^63. */
  lemma MeasuredExactly(p: Point, now: u64)
    requires p.start <= now < TWO63 && p.acc <= p.start && p.delta < TWO63
    ensures var d := p.acc + now - p.start - p.delta; Measured(p, now) == if d >= 0 then d else 20
  {
  }

  /** For any run Start (StopContinue Start)* Stop, the measured value is the exact running time minus one
      `delta` when that is not negative and 20 otherwise, and nothing leaks into the next measurement. */
  lemma SegmentedMeasurement(p: Point, segs: seq<Segment>, from: nat, until: nat)
    requires Monotone(segs + [Segment(from, until)]) && p.acc == 0 && p.start == 0 && p.delta < TWO63
    ensures Monotone(segs) && 0 < from <= until < TWO63
    ensures var r := Started(RunSegments(p, segs), from);
            var exact := Duration(segs + [Segment(from, until)]) - p.delta;
            && Measured(r, until) == (if exact >= 0 then exact else 20)
            && Counted(r, Measured(r, until)).acc == 0 && Counted(r, Measured(r, until)).start == 0
  {
    var all := segs + [Segment(from, until)];
    assert all[..|segs|] == segs;
    assert forall i :: 0 <= i < |segs| ==> all[i] == segs[i];
    assert all[|segs|] == Segment(from, until);
    PausesAccumulate(p, segs);
    MeasuredExactly(Started(RunSegments(p, segs), from), until);
  }
}
