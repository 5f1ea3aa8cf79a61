/** The profiler end to end: runs of the point's operations against a reference that keeps the
    measurements themselves. */
module ProfilerRuns {
  import opened Common
  import opened Machine64
  import opened Profile
  import opened Batches
  import opened ProfilerGroups

  datatype ProfOp =
    | OpStart(now: u64)
    | OpStopContinue(now: u64)
    | OpStop(now: u64)
    | OpPutVal(value: u64)
    | OpFlush
    | OpDrain

  /** One point and its FIFO. */
  datatype Machine = Machine(p: Point, q: seq<ProfileData>)

  function AfterStop(cap: nat, m: Machine, v: u64): Machine
    requires cap >= 1
  {
    var p := Counted(m.p, v);
    if MustUpdate(p) then Machine(Flushed(p), QueueAfterUpdate(cap, p.data, m.q)) else Machine(p, m.q)
  }

  /** The state the methods of ProfileCnt and GetProfInfo leave. */
  function CodeStep(cap: nat, m: Machine, op: ProfOp): Machine
    requires cap >= 1
  {
    match op
    case OpStart(now) => m.(p := Started(m.p, now))
    case OpStopContinue(now) => m.(p := Paused(m.p, now))
    case OpStop(now) => AfterStop(cap, m, Measured(m.p, now))
    case OpPutVal(v) => AfterStop(cap, m, v)
    case OpFlush => Machine(Flushed(m.p), QueueAfterUpdate(cap, m.p.data, m.q))
    case OpDrain => m.(q := [])
  }

  /** The methods do what CodeStep says: the point and its FIFO after each operation, and what a drain reports. */
  method Perform(cnt: ProfileCnt, op: ProfOp) returns (rep: Option<ProfileData>)
    requires cnt.Valid()
    requires op.OpStart? ==> cnt.start == 0
    requires op.OpDrain? && HasData(cnt.Queue()) ==> Collect(cnt.Queue()).meas != 0
    modifies cnt, cnt.fifo, cnt.fifo.buf
    ensures cnt.Valid()
    ensures Machine(cnt.View(), cnt.Queue()) == CodeStep(cnt.fifo.Capacity(), old(Machine(cnt.View(), cnt.Queue())), op)
    ensures rep == if op.OpDrain? then Report(old(cnt.Queue())) else None
  {
    rep := None;
    match op
    case OpStart(now) => cnt.Start(now);
    case OpStopContinue(now) => cnt.StopContinue(now);
    case OpStop(now) => cnt.Stop(now, None);
    case OpPutVal(v) => cnt.Stop(0, Some(v));
    case OpFlush => cnt.Update();
    case OpDrain => rep := GetProfInfo(cnt.fifo);
  }

  /** The reference: unbounded numbers, measurements kept one by one. */
  datatype Ref = Ref(
    open: Option<u64>,        // start of the running segment
    total: nat,               // length of the finished segments of the measurement under way
    clock: nat,               // latest clock reading
    current: Batch,           // measurements not handed over yet
    emitted: seq<Batch>,      // batches handed over since the last drain, in order
    stored: seq<Batch>,       // those the FIFO holds
    dropped: seq<Batch>,      // those a full FIFO refused
    since: seq<Meas>)         // all measurements since the last drain, and those pending at it

  const NEW := Ref(None, 0, 0, Batch([], 0), [], [], [], [])

  /** The FIFO content after a refused batch: the oldest record goes to the back. */
  function Rotate(bs: seq<Batch>): seq<Batch>
    requires bs != []
  {
    bs[1..] + [bs[0]]
  }

  /** Hand the current batch over: stored while there is room, dropped whole and the FIFO rotated otherwise. */
  function Emit(cap: nat, r: Ref): Ref
    requires cap >= 1
  {
    if r.current.meas == [] then r
    else
      var r' := r.(current := Batch([], 0), emitted := r.emitted + [r.current]);
      if |r.stored| < cap then r'.(stored := r.stored + [r.current])
      else
        assert |r.stored| > 0;
        r'.(stored := Rotate(r.stored), dropped := r.dropped + [r.current])
  }

  /** One more measurement, of value `v`. */
  function Measure(r: Ref, v: u64): Ref {
    var m := Meas(v, if r.open.Some? then r.open.value else 0);
    r.(open := None, total := 0, current := Batch(r.current.meas + [m], v), since := r.since + [m])
  }

  function Take(cap: nat, maxCalls: nat, r: Ref, v: u64): Ref
    requires cap >= 1
  {
    var r' := Measure(r, v);
    if maxCalls != 0 && maxCalls <= |r'.current.meas| then Emit(cap, r') else r'
  }

  /** The exact running time minus one `delta`, or 20 when that is negative. */
  function Exact(r: Ref, delta: nat, now: nat): u64
    requires r.open.Some? && r.open.value <= now && r.total + now - r.open.value < TWO63
  {
    var d := r.total + now - r.open.value - delta;
    if d < 0 then 20 else d
  }

  /** What the operations demand: Start only when nothing runs, the others when something does, and a
      positive clock that never goes back and stays below 2^63. */
  predicate Ready(r: Ref, op: ProfOp) {
    match op
    case OpStart(now) => r.open == None && 0 < now < TWO63 && r.clock <= now
    case OpStopContinue(now) => r.open.Some? && r.clock <= now < TWO63
    case OpStop(now) => r.open.Some? && r.clock <= now < TWO63
    case _ => true
  }

  predicate TimesFit(r: Ref) {
    && r.clock < TWO63
    && (if r.open.Some? then r.total <= r.open.value <= r.clock && r.open.value > 0 else r.total <= r.clock)
  }

  function RefStep(cap: nat, maxCalls: nat, delta: nat, r: Ref, op: ProfOp): Ref
    requires cap >= 1 && TimesFit(r) && Ready(r, op)
  {
    match op
    case OpStart(now) => r.(open := Some(now), clock := now, current := r.current.(last := 1))
    case OpStopContinue(now) => r.(open := None, clock := now, total := r.total + now - r.open.value)
    case OpStop(now) => Take(cap, maxCalls, r, Exact(r, delta, now)).(clock := now)
    case OpPutVal(v) => Take(cap, maxCalls, r, v)
    case OpFlush => Emit(cap, r)
    case OpDrain => r.(emitted := [], stored := [], dropped := [], since := r.current.meas)
  }

  /** No 64-bit sum overflows between two drains. */
  predicate SumsFit(r: Ref) {
    Sum(r.since) < TWO64 && |r.since| < TWO64
  }

  // ---------- The reference accounts for every measurement ----------

  predicate NoneEmpty(bs: seq<Batch>) {
    forall i :: 0 <= i < |bs| ==> bs[i].meas != []
  }

  /** Kept and refused batches together make up those handed over. */
  ghost predicate Balanced(stored: seq<Batch>, dropped: seq<Batch>, emitted: seq<Batch>) {
    && |Flatten(stored)| + |Flatten(dropped)| == |Flatten(emitted)|
    && Sum(Flatten(stored)) + Sum(Flatten(dropped)) == Sum(Flatten(emitted))
    && |stored| + |dropped| == |emitted|
  }

  ghost predicate Accounted(cap: nat, r: Ref) {
    && TimesFit(r)
    && |r.stored| <= cap
    && Flatten(r.emitted) + r.current.meas == r.since
    && NoneEmpty(r.stored)
    && Balanced(r.stored, r.dropped, r.emitted)
    && (r.dropped == [] ==> r.stored == r.emitted)
    && (r.dropped != [] ==> |r.stored| == cap && |Flatten(r.dropped)| > 0)
  }

  lemma FlattenLast(bs: seq<Batch>, b: Batch)
    ensures Flatten(bs + [b]) == Flatten(bs) + b.meas
    ensures Sum(Flatten(bs + [b])) == Sum(Flatten(bs)) + Sum(b.meas)
  {
    assert (bs + [b])[..|bs|] == bs;
    Joined(Flatten(bs), b.meas);
  }

  lemma {:induction false} FlattenFirst(b: Batch, bs: seq<Batch>)
    ensures Flatten([b] + bs) == b.meas + Flatten(bs)
  {
    if bs == [] {
      assert [b] + bs == [b] && [b][..0] == [];
    } else {
      FlattenFirst(b, bs[..|bs| - 1]);
      assert ([b] + bs)[..|[b] + bs| - 1] == [b] + bs[..|bs| - 1];
    }
  }

  lemma Rotated(bs: seq<Batch>)
    requires bs != []
    ensures |Flatten(Rotate(bs))| == |Flatten(bs)| && Sum(Flatten(Rotate(bs))) == Sum(Flatten(bs))
    ensures Max(Flatten(Rotate(bs))) == Max(Flatten(bs))
    ensures NoneEmpty(bs) ==> NoneEmpty(Rotate(bs))
  {
    assert bs == [bs[0]] + bs[1..];
    FlattenFirst(bs[0], bs[1..]);
    FlattenLast(bs[1..], bs[0]);
    Joined(bs[0].meas, Flatten(bs[1..]));
    Joined(Flatten(bs[1..]), bs[0].meas);
  }

  lemma BalancedStore(stored: seq<Batch>, dropped: seq<Batch>, emitted: seq<Batch>, b: Batch)
    requires Balanced(stored, dropped, emitted)
    ensures Balanced(stored + [b], dropped, emitted + [b])
  {
    FlattenLast(emitted, b);
    FlattenLast(stored, b);
  }

  lemma BalancedDrop(stored: seq<Batch>, dropped: seq<Batch>, emitted: seq<Batch>, b: Batch)
    requires Balanced(stored, dropped, emitted) && stored != []
    ensures Balanced(Rotate(stored), dropped + [b], emitted + [b])
  {
    FlattenLast(emitted, b);
    FlattenLast(dropped, b);
    Rotated(stored);
  }

  lemma EmitAccounted(cap: nat, r: Ref)
    requires cap >= 1 && Accounted(cap, r)
    ensures Accounted(cap, Emit(cap, r))
  {
    if r.current.meas != [] {
      FlattenLast(r.emitted, r.current);
      assert Flatten(r.emitted + [r.current]) + [] == r.since;
      if |r.stored| < cap {
        BalancedStore(r.stored, r.dropped, r.emitted, r.current);
      } else {
        BalancedDrop(r.stored, r.dropped, r.emitted, r.current);
        FlattenLast(r.dropped, r.current);
        Rotated(r.stored);
      }
    }
  }

  lemma MeasureAccounted(cap: nat, r: Ref, v: u64)
    requires Accounted(cap, r)
    ensures Accounted(cap, Measure(r, v))
  {
  }

  lemma TakeAccounted(cap: nat, maxCalls: nat, r: Ref, v: u64)
    requires cap >= 1 && Accounted(cap, r)
    ensures Accounted(cap, Take(cap, maxCalls, r, v))
    ensures Take(cap, maxCalls, r, v).open == None && Take(cap, maxCalls, r, v).total == 0
  {
    MeasureAccounted(cap, r, v);
    EmitAccounted(cap, Measure(r, v));
  }

  lemma {:induction false} StepAccounted(cap: nat, maxCalls: nat, delta: nat, r: Ref, op: ProfOp)
    requires cap >= 1 && Accounted(cap, r) && Ready(r, op)
    ensures Accounted(cap, RefStep(cap, maxCalls, delta, r, op))
  {
    match op
    case OpStop(now) => TakeAccounted(cap, maxCalls, r, Exact(r, delta, now));
    case OpPutVal(v) => TakeAccounted(cap, maxCalls, r, v);
    case OpFlush => EmitAccounted(cap, r);
    case _ =>
  }

  // ---------- The code simulates the reference ----------

  ghost predicate Simulates(m: Machine, r: Ref, maxCalls: nat, delta: nat) {
    && m.p.start == (if r.open.Some? then r.open.value else 0)
    && m.p.acc == r.total
    && m.p.delta == delta && m.p.maxCalls == maxCalls
    && Sum(r.current.meas) < TWO64 && |r.current.meas| < TWO64
    && m.p.data == DataOf(r.current)
    && AreRecords(m.q, r.stored)
  }

  lemma CurrentFits(cap: nat, r: Ref)
    requires Accounted(cap, r) && SumsFit(r)
    ensures Sum(r.current.meas) < TWO64 && |r.current.meas| < TWO64
    ensures Sum(Flatten(r.emitted)) < TWO64 && |Flatten(r.emitted)| < TWO64
  {
    Joined(Flatten(r.emitted), r.current.meas);
  }

  lemma EmitSimulates(cap: nat, m: Machine, r: Ref, maxCalls: nat, delta: nat)
    requires cap >= 1 && Accounted(cap, r) && Simulates(m, r, maxCalls, delta)
    ensures Simulates(Machine(Flushed(m.p), QueueAfterUpdate(cap, m.p.data, m.q)), Emit(cap, r), maxCalls, delta)
  {
  }

  lemma MeasureSimulates(m: Machine, r: Ref, maxCalls: nat, delta: nat, v: u64)
    requires Simulates(m, r, maxCalls, delta)
    requires Sum(Measure(r, v).current.meas) < TWO64 && |Measure(r, v).current.meas| < TWO64
    ensures Simulates(Machine(Counted(m.p, v), m.q), Measure(r, v), maxCalls, delta)
  {
  }

  lemma TakeSimulates(cap: nat, m: Machine, r: Ref, maxCalls: nat, delta: nat, v: u64)
    requires cap >= 1 && Accounted(cap, r) && Simulates(m, r, maxCalls, delta)
    requires SumsFit(Take(cap, maxCalls, r, v))
    ensures Simulates(AfterStop(cap, m, v), Take(cap, maxCalls, r, v), maxCalls, delta)
  {
    MeasureAccounted(cap, r, v);
    CurrentFits(cap, Measure(r, v));
    MeasureSimulates(m, r, maxCalls, delta, v);
    EmitSimulates(cap, Machine(Counted(m.p, v), m.q), Measure(r, v), maxCalls, delta);
  }

  lemma MeasuredIsExact(p: Point, r: Ref, now: u64)
    requires TimesFit(r) && r.open.Some? && r.clock <= now < TWO63 && p.delta < TWO63
    requires p.start == r.open.value && p.acc == r.total
    ensures Measured(p, now) == Exact(r, p.delta, now)
  {
    MeasuredExactly(p, now);
  }

  lemma {:induction false} StepSimulates(cap: nat, m: Machine, r: Ref, maxCalls: nat, delta: nat, op: ProfOp)
    requires cap >= 1 && delta < TWO63 && Accounted(cap, r) && Ready(r, op) && Simulates(m, r, maxCalls, delta)
    requires SumsFit(RefStep(cap, maxCalls, delta, r, op))
    ensures Simulates(CodeStep(cap, m, op), RefStep(cap, maxCalls, delta, r, op), maxCalls, delta)
  {
    match op
    case OpStop(now) =>
      MeasuredIsExact(m.p, r, now);
      TakeSimulates(cap, m, r, maxCalls, delta, Exact(r, delta, now));
    case OpPutVal(v) => TakeSimulates(cap, m, r, maxCalls, delta, v);
    case OpFlush => EmitSimulates(cap, m, r, maxCalls, delta);
    case _ =>
  }

  // ---------- Whole runs ----------

  datatype Both = Both(m: Machine, r: Ref)

  /** The run is well bracketed on a monotone clock and no sum overflows on the way. */
  ghost predicate ValidRun(cap: nat, maxCalls: nat, delta: u64, ops: seq<ProfOp>)
    requires cap >= 1
    decreases |ops|, 0
  {
    ops == [] ||
    var k := |ops| - 1;
    && ValidRun(cap, maxCalls, delta, ops[..k])
    && var b := RunBoth(cap, maxCalls, delta, ops[..k]);
       TimesFit(b.r) && Ready(b.r, ops[k]) && SumsFit(RefStep(cap, maxCalls, delta, b.r, ops[k]))
  }

  /** The code and the reference after the operations `ops` on a fresh point with an empty FIFO. */
  ghost function RunBoth(cap: nat, maxCalls: nat, delta: u64, ops: seq<ProfOp>): Both
    requires cap >= 1 && ValidRun(cap, maxCalls, delta, ops)
    decreases |ops|, 1
  {
    if ops == [] then Both(Machine(Point(NO_DATA, 0, 0, delta, maxCalls), []), NEW)
    else
      var k := |ops| - 1;
      var b := RunBoth(cap, maxCalls, delta, ops[..k]);
      Both(CodeStep(cap, b.m, ops[k]), RefStep(cap, maxCalls, delta, b.r, ops[k]))
  }

  lemma {:induction false} RunSimulates(cap: nat, maxCalls: nat, delta: u64, ops: seq<ProfOp>)
    requires cap >= 1 && delta < TWO63 && ValidRun(cap, maxCalls, delta, ops)
    ensures var b := RunBoth(cap, maxCalls, delta, ops);
            Accounted(cap, b.r) && SumsFit(b.r) && Simulates(b.m, b.r, maxCalls, delta)
    decreases |ops|
  {
    if ops != [] {
      var k := |ops| - 1;
      RunSimulates(cap, maxCalls, delta, ops[..k]);
      var b := RunBoth(cap, maxCalls, delta, ops[..k]);
      StepAccounted(cap, maxCalls, delta, b.r, ops[k]);
      StepSimulates(cap, b.m, b.r, maxCalls, delta, ops[k]);
    }
  }

  lemma StoredAreProper(cap: nat, r: Ref)
    requires Accounted(cap, r) && SumsFit(r)
    ensures Proper(r.stored)
  {
    CurrentFits(cap, r);
  }

  /** After any run, draining reports the exact count of the measurements handed over since the last drain
      if and only if at most n - 2 batches were; a batch beyond that is dropped whole. */
  lemma {:induction false} DrainCountExactIff(cap: nat, maxCalls: nat, delta: u64, ops: seq<ProfOp>)
    requires cap >= 1 && delta < TWO63 && ValidRun(cap, maxCalls, delta, ops)
    ensures var b := RunBoth(cap, maxCalls, delta, ops);
            && Collect(b.m.q).meas == |b.r.since| - |b.r.current.meas| - |Flatten(b.r.dropped)|
            && (Collect(b.m.q).meas == |b.r.since| - |b.r.current.meas| <==> |b.r.emitted| <= cap)
  {
    RunSimulates(cap, maxCalls, delta, ops);
    var b := RunBoth(cap, maxCalls, delta, ops);
    StoredAreProper(cap, b.r);
    CollectBatches(b.m.q, b.r.stored);
    assert |b.r.since| == |Flatten(b.r.emitted)| + |b.r.current.meas|;
  }

  // ---------- Which batches a full FIFO keeps ----------

  /** The batches handed over first, as many as the FIFO holds. */
  function Kept(cap: nat, bs: seq<Batch>): seq<Batch> {
    if |bs| <= cap then bs else bs[..cap]
  }

  function RotateBy(bs: seq<Batch>, k: nat): (r: seq<Batch>)
    requires bs != []
    ensures |r| == |bs|
  {
    if k == 0 then bs else Rotate(RotateBy(bs, k - 1))
  }

  /** The two lists agree in what does not depend on the order of their measurements. */
  ghost predicate SameTotals(a: seq<Batch>, b: seq<Batch>) {
    && |Flatten(a)| == |Flatten(b)| && Sum(Flatten(a)) == Sum(Flatten(b)) && Max(Flatten(a)) == Max(Flatten(b))
  }

  lemma RotatedOnce(bs: seq<Batch>, r: seq<Batch>)
    requires r != [] && SameTotals(bs, r)
    ensures SameTotals(bs, Rotate(r))
  {
    Rotated(r);
  }

  lemma {:induction false} RotatedBy(bs: seq<Batch>, k: nat)
    requires bs != []
    ensures SameTotals(bs, RotateBy(bs, k))
    decreases k
  {
    if k > 0 {
      hide SameTotals, Rotate;
      RotatedBy(bs, k - 1);
      RotatedOnce(bs, RotateBy(bs, k - 1));
    }
  }

  /** The FIFO holds the first batches, turned by one for every batch beyond; those beyond are the dropped ones. */
  ghost predicate KeepsFirst(cap: nat, r: Ref) {
    var kept := Kept(cap, r.emitted);
    && r.dropped == r.emitted[|kept|..]
    && r.stored == if kept == [] then [] else RotateBy(kept, |r.dropped|)
  }

  lemma EmitKeepsFirst(cap: nat, r: Ref)
    requires cap >= 1 && KeepsFirst(cap, r)
    ensures KeepsFirst(cap, Emit(cap, r))
  {
    if r.current.meas != [] {
      var r' := Emit(cap, r);
      if |r.stored| < cap {
        assert |r.emitted| < cap && Kept(cap, r'.emitted) == r'.emitted;
      } else {
        assert Kept(cap, r'.emitted) == Kept(cap, r.emitted);
      }
    }
  }

  lemma {:induction false} StepKeepsFirst(cap: nat, maxCalls: nat, delta: nat, r: Ref, op: ProfOp)
    requires cap >= 1 && TimesFit(r) && Ready(r, op) && KeepsFirst(cap, r)
    ensures KeepsFirst(cap, RefStep(cap, maxCalls, delta, r, op))
  {
    match op
    case OpStop(now) => EmitKeepsFirst(cap, Measure(r, Exact(r, delta, now)));
    case OpPutVal(v) => EmitKeepsFirst(cap, Measure(r, v));
    case OpFlush => EmitKeepsFirst(cap, r);
    case _ =>
  }

  /** After any run the FIFO keeps exactly the first n - 2 batches handed over since the last drain. */
  lemma {:induction false} RunKeepsFirst(cap: nat, maxCalls: nat, delta: u64, ops: seq<ProfOp>)
    requires cap >= 1 && ValidRun(cap, maxCalls, delta, ops)
    ensures KeepsFirst(cap, RunBoth(cap, maxCalls, delta, ops).r)
    decreases |ops|
  {
    if ops != [] {
      var k := |ops| - 1;
      RunKeepsFirst(cap, maxCalls, delta, ops[..k]);
      StepKeepsFirst(cap, maxCalls, delta, RunBoth(cap, maxCalls, delta, ops[..k]).r, ops[k]);
    }
  }

  /** What GetProfInfo reports of the measurements `all`, which reached it in the order `order`: their count, their
      maximum, the start time of the first maximum in that order when it is positive, and an average that is the
      floor of the true mean or one below it and never above the maximum. */
  ghost predicate Reports(rep: ProfileData, all: seq<Meas>, order: seq<Meas>)
    requires all != []
  {
    && rep.meas == |all| && rep.max == Max(all)
    && (Max(all) > 0 ==> exists i: nat :: AttainsFirst(order, i) && rep.maxTime == order[i].start)
    && (rep.average == Sum(all) / |all| || rep.average == Sum(all) / |all| - 1)
    && rep.average <= rep.max
  }

  lemma ReportOfBatches(q: seq<ProfileData>, bs: seq<Batch>)
    requires Proper(bs) && AreRecords(q, bs) && bs != []
    ensures HasData(q) && Collect(q).meas != 0 && Flatten(bs) != []
    ensures Reports(Report(q).value, Flatten(bs), Flatten(bs))
  {
    CollectBatches(q, bs);
    AverageWithinOne(bs);
    MaxIsEarliestMaximum(Flatten(bs));
    var k := |q| - 1;
    assert q[k] == RecordOf(bs[k]) && q[k].meas != 0;
  }

  /** After any run that handed over a batch since the last drain, GetProfInfo reports exactly the measurements of
      the first n - 2 batches. With no more than that many batches these are all that were handed over, and the
      reported start time is that of the earliest maximum; with more, that of the first maximum after the turns. */
  lemma {:induction false} DrainReportsMeasurements(cap: nat, maxCalls: nat, delta: u64, ops: seq<ProfOp>)
    requires cap >= 1 && delta < TWO63 && ValidRun(cap, maxCalls, delta, ops)
    requires RunBoth(cap, maxCalls, delta, ops).r.emitted != []
    ensures var b := RunBoth(cap, maxCalls, delta, ops);
            var kept := Kept(cap, b.r.emitted);
            var all, order := Flatten(kept), Flatten(RotateBy(kept, |b.r.emitted| - |kept|));
            && Flatten(b.r.emitted) + b.r.current.meas == b.r.since && all != []
            && HasData(b.m.q) && Collect(b.m.q).meas != 0
            && Reports(Report(b.m.q).value, all, order)
            && (|b.r.emitted| <= cap ==> all == Flatten(b.r.emitted) == order)
  {
    RunSimulates(cap, maxCalls, delta, ops);
    RunKeepsFirst(cap, maxCalls, delta, ops);
    var b := RunBoth(cap, maxCalls, delta, ops);
    var kept := Kept(cap, b.r.emitted);
    StoredAreProper(cap, b.r);
    ReportOfBatches(b.m.q, b.r.stored);
    RotatedBy(kept, |b.r.dropped|);
  }

  lemma RunNext(cap: nat, maxCalls: nat, delta: u64, ops: seq<ProfOp>, op: ProfOp)
    requires cap >= 1 && ValidRun(cap, maxCalls, delta, ops)
    requires var r := RunBoth(cap, maxCalls, delta, ops).r;
             TimesFit(r) && Ready(r, op) && SumsFit(RefStep(cap, maxCalls, delta, r, op))
    ensures ValidRun(cap, maxCalls, delta, ops + [op])
    ensures RunBoth(cap, maxCalls, delta, ops + [op]).r ==
            RefStep(cap, maxCalls, delta, RunBoth(cap, maxCalls, delta, ops).r, op)
  {
    assert (ops + [op])[..|ops|] == ops;
  }

  lemma MeasureSums(r: Ref, v: u64)
    ensures Sum(Measure(r, v).since) == Sum(r.since) + v && |Measure(r, v).since| == |r.since| + 1
  {
    var m := Meas(v, if r.open.Some? then r.open.value else 0);
    assert (r.since + [m])[..|r.since|] == r.since;
  }

  /** What the caller of an operation has to see to. */
  predicate Fair(r: Ref, op: ProfOp) {
    match op
    case OpStart(now) => r.open == None && 0 < now < 0x8000_0000_0000_0000 && r.clock <= now
    case OpStopContinue(now) => r.open.Some? && r.clock <= now < 0x8000_0000_0000_0000
    case OpStop(now) =>
      && r.open.Some? && r.clock <= now < 0x8000_0000_0000_0000
      && Sum(r.since) < 0x8000_0000_0000_0000 && |r.since| + 1 < 0x1_0000_0000_0000_0000
    case OpPutVal(v) => Sum(r.since) + v < 0x1_0000_0000_0000_0000 && |r.since| + 1 < 0x1_0000_0000_0000_0000
    case _ => true
  }

  lemma FairIsReady(cap: nat, maxCalls: nat, delta: nat, r: Ref, op: ProfOp)
    requires cap >= 1 && Accounted(cap, r) && SumsFit(r) && Fair(r, op)
    ensures TimesFit(r) && Ready(r, op) && SumsFit(RefStep(cap, maxCalls, delta, r, op))
  {
    match op
    case OpStop(now) => MeasureSums(r, Exact(r, delta, now));
    case OpPutVal(v) => MeasureSums(r, v);
    case OpDrain => CurrentFits(cap, r);
    case _ =>
  }

  /** The runs covered: any operation may follow on a monotone clock below 2^63, Start when no segment runs, Stop and
      StopContinue when one does, as long as the sums between two drains fit 64 bits; a flush or a drain always. */
  lemma {:induction false} RunGoesOn(cap: nat, maxCalls: nat, delta: u64, ops: seq<ProfOp>, op: ProfOp)
    requires cap >= 1 && delta < 0x8000_0000_0000_0000 && ValidRun(cap, maxCalls, delta, ops)
    requires Fair(RunBoth(cap, maxCalls, delta, ops).r, op)
    ensures ValidRun(cap, maxCalls, delta, ops + [op])
  {
    RunSimulates(cap, maxCalls, delta, ops);
    hide RunBoth, ValidRun, Accounted, SumsFit, Simulates, Fair, RefStep, Ready, TimesFit;
    FairIsReady(cap, maxCalls, delta, RunBoth(cap, maxCalls, delta, ops).r, op);
    RunNext(cap, maxCalls, delta, ops, op);
  }

  // ---------- The start time of the maximum ----------

  function Five(from: u64): Batch {
    Batch([Meas(5, from)], 5)
  }

  /** A FIFO of two batches of one measurement each, after `n` measurements of 5 ns up to the time `c`. */
  predicate AfterFives(r: Ref, emitted: seq<Batch>, stored: seq<Batch>, n: nat, c: nat) {
    && r.open == None && r.total == 0 && r.current == Batch([], 0) && r.clock == c < 1000
    && |r.since| == n && Sum(r.since) == 5 * n && r.emitted == emitted && r.stored == stored && |stored| <= 2
  }

  lemma StopsFive(r: Ref, emitted: seq<Batch>, stored: seq<Batch>, n: nat, c: nat, from: u64)
    requires AfterFives(r, emitted, stored, n, c) && n <= 2 && 0 < from < 900
    ensures var s := r.(open := Some(from), clock := from, current := Batch([], 1));
            && TimesFit(s) && Ready(s, OpStop(from + 5))
            && AfterFives(RefStep(2, 1, 0, s, OpStop(from + 5)), emitted + [Five(from)],
                          if |stored| < 2 then stored + [Five(from)] else Rotate(stored), n + 1, from + 5)
            && SumsFit(RefStep(2, 1, 0, s, OpStop(from + 5)))
  {
    assert [] + [Meas(5, from)] == [Meas(5, from)];
    assert (r.since + [Meas(5, from)])[..n] == r.since;
  }

  lemma MeasuresFive(ops: seq<ProfOp>, emitted: seq<Batch>, stored: seq<Batch>, n: nat, c: nat, from: u64)
    returns (more: seq<ProfOp>)
    requires ValidRun(2, 1, 0, ops) && AfterFives(RunBoth(2, 1, 0, ops).r, emitted, stored, n, c)
    requires n <= 2 && 0 < from < 900 && c <= from
    ensures ValidRun(2, 1, 0, more)
    ensures AfterFives(RunBoth(2, 1, 0, more).r, emitted + [Five(from)],
                       if |stored| < 2 then stored + [Five(from)] else Rotate(stored), n + 1, from + 5)
  {
    var r := RunBoth(2, 1, 0, ops).r;
    StopsFive(r, emitted, stored, n, c, from);
    RunNext(2, 1, 0, ops, OpStart(from));
    more := ops + [OpStart(from)];
    hide Take, Emit, Measure;
    RunNext(2, 1, 0, more, OpStop(from + 5));
    more := more + [OpStop(from + 5)];
  }

  lemma MeasuresTwoFives() returns (ops: seq<ProfOp>)
    ensures ValidRun(2, 1, 0, ops)
    ensures AfterFives(RunBoth(2, 1, 0, ops).r, [Five(1), Five(10)], [Five(1), Five(10)], 2, 15)
  {
    assert AfterFives(RunBoth(2, 1, 0, []).r, [], [], 0, 0);
    hide RefStep, ValidRun, RunBoth, AfterFives, Five;
    ops := MeasuresFive([], [], [], 0, 0, 1);
    assert [] + [Five(1)] == [Five(1)];
    ops := MeasuresFive(ops, [Five(1)], [Five(1)], 1, 6, 10);
    assert [Five(1)] + [Five(10)] == [Five(1), Five(10)];
  }

  lemma MeasuresThreeFives() returns (ops: seq<ProfOp>)
    ensures ValidRun(2, 1, 0, ops)
    ensures RunBoth(2, 1, 0, ops).r.emitted == [Five(1), Five(10), Five(20)]
    ensures RunBoth(2, 1, 0, ops).r.stored == [Five(10), Five(1)]
  {
    hide RefStep, ValidRun, RunBoth, Five, Sum;
    ops := MeasuresTwoFives();
    ops := MeasuresFive(ops, [Five(1), Five(10)], [Five(1), Five(10)], 2, 15, 20);
  }

  lemma PairMax(i: u64, j: u64)
    ensures AttainsFirst([Meas(5, i), Meas(5, j)], 0) && StartOfMax([Meas(5, i), Meas(5, j)]) == i
  {
    assert [Meas(5, i), Meas(5, j)][..1] == [Meas(5, i)];
    assert Max([Meas(5, i)]) == 5 && StartOfMax([Meas(5, i)]) == i;
  }

  lemma TwoFives(i: u64, j: u64)
    ensures Flatten([Five(i), Five(j)]) == [Meas(5, i), Meas(5, j)]
    ensures AttainsFirst(Flatten([Five(i), Five(j)]), 0) && StartOfMax(Flatten([Five(i), Five(j)])) == i
  {
    PairMax(i, j);
    hide AttainsFirst, StartOfMax;
    assert [Five(i), Five(j)][..1] == [Five(i)];
    assert Flatten([Five(i)]) == [Meas(5, i)];
  }

  lemma ReportsFirstStored(q: seq<ProfileData>, i: u64, j: u64)
    requires AreRecords(q, [Five(i), Five(j)]) && Proper([Five(i), Five(j)])
    ensures HasData(q) && Collect(q).meas != 0 && Report(q).value.maxTime == i
  {
    CollectBatches(q, [Five(i), Five(j)]);
    ReportOfBatches(q, [Five(i), Five(j)]);
    TwoFives(i, j);
  }

  lemma ReportsLaterStart(b: Both)
    requires Accounted(2, b.r) && SumsFit(b.r) && Simulates(b.m, b.r, 1, 0)
    requires b.r.emitted == [Five(1), Five(10), Five(20)] && b.r.stored == [Five(10), Five(1)]
    ensures AttainsFirst(Flatten(Kept(2, b.r.emitted)), 0) && Flatten(Kept(2, b.r.emitted))[0].start == 1
    ensures HasData(b.m.q) && Collect(b.m.q).meas != 0 && Report(b.m.q).value.maxTime == 10
  {
    assert Kept(2, b.r.emitted) == [Five(1), Five(10)];
    StoredAreProper(2, b.r);
    hide Flatten, AttainsFirst, StartOfMax, Collect, HasData, AreRecords, Proper, Accounted, SumsFit, Five, Kept;
    ReportsFirstStored(b.m.q, 10, 1);
    TwoFives(1, 10);
  }

  /** A run on a FIFO of two batches in which three measurements of 5 ns were made, starting at 1, 10 and 20: the
      report gives 10 as the start time of the maximum, though the earliest maximum it covers started at 1. */
  lemma {:induction false} StartTimeCanBeLater() returns (ops: seq<ProfOp>)
    ensures ValidRun(2, 1, 0, ops)
    ensures var b := RunBoth(2, 1, 0, ops);
            && AttainsFirst(Flatten(Kept(2, b.r.emitted)), 0) && Flatten(Kept(2, b.r.emitted))[0].start == 1
            && HasData(b.m.q) && Collect(b.m.q).meas != 0 && Report(b.m.q).value.maxTime == 10
  {
    ops := MeasuresThreeFives();
    RunSimulates(2, 1, 0, ops);
    hide RunBoth, ValidRun, Flatten, AttainsFirst, StartOfMax, Collect, HasData, Simulates, Accounted, SumsFit, Kept;
    ReportsLaterStart(RunBoth(2, 1, 0, ops));
  }
}
