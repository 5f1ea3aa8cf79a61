/** CDebugHandler: time-ordered extraction over all groups, with one lookahead cell per group. */
module Extraction {
  import opened Common
  import opened Machine64
  import opened Selection
  import opened TraceGroups
  import opened LogGroups
  import opened Merge
  import opened ExtractionOrder
  import opened Lookahead
  import opened SharedMemory

  class DebugHandler {
    const shm: DebugRT                       // rt_debugp_; the collection flag is in there
    const tracers: seq<TraceGroup>
    const loggers: seq<LogGroup>
    const traceCells: array<TraceCell>
    const logCells: array<LogCell>
    var attached: bool

    /** The static handler of a program: zeroed trace cells, invalid log cells, not attached. */
    constructor Static(shm: DebugRT, tracers: seq<TraceGroup>, loggers: seq<LogGroup>, maxGroups: nat)
      ensures this.shm == shm && this.tracers == tracers && this.loggers == loggers && !attached
      ensures traceCells.Length == maxGroups && logCells.Length == maxGroups
      ensures forall g :: 0 <= g < maxGroups ==>
                traceCells[g] == TraceCell(0, Stamped(TimeSpec(0, 0), TracePayload(0, 0, 0, 0, 0, 0, 0)))
      ensures forall g :: 0 <= g < maxGroups ==> !logCells[g].valid
      ensures fresh(traceCells) && fresh(logCells)
    {
      this.shm, this.tracers, this.loggers := shm, tracers, loggers;
      attached := false;
      traceCells := new TraceCell[maxGroups](_ => TraceCell(0, ZERO_ENTRY));
      logCells := new LogCell[maxGroups](_ => LogCell(false, Stamped(TimeSpec(0, 0), "")));
    }

    ghost predicate TracersValid()
      reads tracers, set g | g in tracers :: g.area, set g | g in tracers :: g.area.buf
    {
      && |tracers| <= traceCells.Length
      && (forall i :: 0 <= i < |tracers| ==> tracers[i].Valid())
      && (forall i, j :: 0 <= i < j < |tracers| ==> tracers[i].area.buf != tracers[j].area.buf)
    }

    ghost predicate LoggersValid()
      reads loggers, set g | g in loggers :: g.fifo
    {
      && |loggers| <= logCells.Length
      && (forall i :: 0 <= i < |loggers| ==> loggers[i].Valid())
      && (forall i, j :: 0 <= i < j < |loggers| ==> loggers[i].fifo != loggers[j].fifo)
    }

    /** The groups as the trace extraction sees them. */
    ghost function Traces(): (t: seq<TraceSource>)
      requires |tracers| <= traceCells.Length
      reads traceCells, set g | g in tracers :: g.area.buf
      ensures |t| == |tracers|
      ensures forall i :: 0 <= i < |t| ==> t[i] == TraceSource(traceCells[i], tracers[i].Slots())
    {
      seq(|tracers|, i requires 0 <= i < |tracers| reads traceCells, set g | g in tracers :: g.area.buf =>
          TraceSource(traceCells[i], tracers[i].Slots()))
    }

    /** The groups as the log extraction sees them. */
    ghost function Logs(): (t: seq<LogSource>)
      requires |loggers| <= logCells.Length
      reads logCells, loggers, set g | g in loggers :: g.fifo, set g | g in loggers :: g.fifo.buf
      ensures |t| == |loggers|
      ensures forall i :: 0 <= i < |t| ==> t[i] == LogSource(logCells[i], loggers[i].Logs())
    {
      seq(|loggers|, i requires 0 <= i < |loggers|
          reads logCells, loggers, set g | g in loggers :: g.fifo, set g | g in loggers :: g.fifo.buf =>
          LogSource(logCells[i], loggers[i].Logs()))
    }

    /** The loop body's first half: ask group `i` for an entry when its cell is free, and
        look at its cell. */
    method AskTracer(i: nat, now: TimeSpec) returns (c: TraceCell)
      requires TracersValid() && i < |tracers|
      modifies traceCells, tracers[i].area.buf
      ensures TracersValid()
      ensures Traces() == old(Traces())[i := AskTrace(old(Traces())[i], now)]
      ensures c == AskTrace(old(Traces())[i], now).cell
    {
      if traceCells[i].status == NO_DATA_IND {
        var e := tracers[i].GetTraceEntry(now);
        if e == None {
          traceCells[i] := traceCells[i].(status := TRACE_EMPTY_DATA);
        } else {
          traceCells[i] := TraceCell(DATA_IND, e.value);
        }
      }
      assert Traces()[i] == AskTrace(old(Traces())[i], now);
      forall j | 0 <= j < |tracers| && j != i ensures Traces()[j] == old(Traces())[j] && tracers[j].Valid() {
        assert tracers[j].area.buf != tracers[i].area.buf;
      }
      c := traceCells[i];
    }

    /** The scan over the groups: every cell is filled or known empty, and the first earliest head is found. */
    method ScanTraces(now: TimeSpec) returns (minIndex: Option<nat>)
      requires TracersValid()
      modifies traceCells, set g | g in tracers :: g.area.buf
      ensures TracersValid() && Traces() == AskTraces(old(Traces()), now)
      ensures minIndex == Earliest(Heads(TraceQueues(old(Traces()), now)), now)
    {
      ghost var t := Traces();
      ghost var heads := Heads(TraceQueues(t, now));
      AskedEnds(t, now);
      ScanEnds(heads, now);
      hide Earliest, ScanAt, Heads, DiffBetweenTimespec, TraceQueues, AskTrace, AskTraces, AskedBelow, TracersValid;
      var minTime := now;
      minIndex := None;
      for i := 0 to |tracers|
        invariant TracersValid() && Traces() == AskedBelow(t, i, now)
        invariant ScanAt(heads, now, i, minIndex, minTime)
      {
        ScanNext(heads, now, i, minIndex, minTime);
        TraceCellIsHead(t, now, i);
        AskedNext(t, i, now);
        var c := AskTracer(i, now);
        if c.status == TRACE_EMPTY_DATA {
          continue;
        }
        if DiffBetweenTimespec(c.entry.time, minTime) < 0 {
          minTime := c.entry.time;
          minIndex := Some(i);
        }
      }
    }

    method FreeTraceCell(g: nat)
      requires TracersValid() && g < |tracers|
      modifies traceCells
      ensures TracersValid() && Traces() == FreeTrace(old(Traces()), g)
    {
      traceCells[g] := traceCells[g].(status := NO_DATA_IND);
      assert Traces() == FreeTrace(old(Traces()), g);
    }

    /** RTDBG_GetTraceEntry: refill the lookahead cells, return the earliest of them and free its cell. For any
        table of cells it advances the merge of the groups' queues by one. The group number is read from the
        shared memory before anything is tested, so the memory must be attached. */
    method GetTraceEntry(now: TimeSpec) returns (res: Option<Tagged<TracePayload>>)
      requires TracersValid() && attached
      modifies traceCells, set g | g in tracers :: g.area.buf
      ensures TracersValid()
      ensures (Traces(), res) == if shm.active then (old(Traces()), None) else NextTrace(old(Traces()), now)
      ensures !shm.active ==>
                var qs := TraceQueues(old(Traces()), now);
                match Earliest(Heads(qs), now)
                case None => res == None && TraceQueues(Traces(), now) == qs
                case Some(g) => res == Some(Tagged(g, qs[g][0])) && TraceQueues(Traces(), now) == Advance(qs, g)
    {
      NextTraceMerges(Traces(), now);
      hide Earliest, Heads, TraceQueues, AskTrace, Advance;
      res := None;
      if shm.active {
        return;
      }
      var minIndex := ScanTraces(now);
      if minIndex.Some? {
        var g := minIndex.value;
        res := Some(Tagged(g, traceCells[g].entry));
        FreeTraceCell(g);
      }
    }

    /** The loop itself. */
    method DrainTraces(now: TimeSpec) returns (out: seq<Tagged<TracePayload>>)
      requires TracersValid() && attached && !shm.active
      modifies traceCells, set g | g in tracers :: g.area.buf
      ensures TracersValid()
      ensures (Traces(), out) == Drain(old(Traces()), now)
    {
      hide Drain, NextTrace, TraceQueues, Earliest, Heads, Total, Advance;
      ghost var t := Traces();
      out := [];
      assert Drain(t, now).1 == out + Drain(t, now).1;
      DrainNext(t, out, t, now);
      var r := GetTraceEntry(now);
      while r.Some?
        invariant TracersValid()
        invariant Drained(t, out, r, Traces(), now)
        decreases Total(TraceQueues(Traces(), now)), r.Some?
      {
        out := out + [r.value];
        DrainNext(t, out, Traces(), now);
        r := GetTraceEntry(now);
      }
    }

    /** The trace loop of RTDBG_ExtractDebugData, which runs while collection is stopped: it ends, and its
        output is the whole merge of the groups' queues. It leaves every cell marked empty, and from such cells
        it returns nothing. From free cells it returns every live entry, in the global order. */
    method ExtractTraces(now: TimeSpec) returns (out: seq<Tagged<TracePayload>>)
      requires TracersValid() && attached && !shm.active
      modifies traceCells, set g | g in tracers :: g.area.buf
      ensures TracersValid()
      ensures (Traces(), out) == Drain(old(Traces()), now)
      ensures out == MergeAll(TraceQueues(old(Traces()), now), now)
      ensures CellsPast(old(Traces()), now) ==> Spent(Traces())
      ensures Spent(old(Traces())) ==> out == [] && Traces() == old(Traces())
      ensures (forall g :: 0 <= g < |tracers| ==> old(Traces())[g].cell.status == NO_DATA_IND) ==>
                var rings := RingsOf(old(Traces()));
                KeysInOrder(rings, now, DrainKeys(rings, now)) && OutputsAre(rings, out, DrainKeys(rings, now))
    {
      ghost var t := Traces();
      DrainFacts(t, now);
      out := DrainTraces(now);
    }

    /** RTDBG_Stop: forget the log cells, stop collecting; the trace cells are left as they are. */
    method Stop()
      requires LoggersValid()
      modifies shm`active, logCells
      ensures LoggersValid()
      ensures attached ==> !shm.active && Logs() == ForgetLogs(old(Logs()))
      ensures attached ==> forall i :: 0 <= i < logCells.Length ==> !logCells[i].valid
      ensures !attached ==> shm.active == old(shm.active) && logCells[..] == old(logCells[..])
    {
      if !attached {
        return;
      }
      for i := 0 to logCells.Length
        invariant forall j :: 0 <= j < i ==> logCells[j] == old(logCells[j]).(valid := false)
        invariant forall j :: i <= j < logCells.Length ==> logCells[j] == old(logCells[j])
      {
        logCells[i] := logCells[i].(valid := false);
      }
      shm.SetDataCollection(false);
    }

    method AskLogger(i: nat) returns (c: LogCell)
      requires LoggersValid() && i < |loggers|
      modifies logCells, loggers[i].fifo
      ensures LoggersValid()
      ensures Logs() == old(Logs())[i := AskLog(old(Logs())[i])]
      ensures c == AskLog(old(Logs())[i]).cell
    {
      if !logCells[i].valid {
        var e := loggers[i].GetLogEntry();
        if e.Some? {
          logCells[i] := LogCell(true, e.value);
        }
      }
      assert Logs()[i] == AskLog(old(Logs())[i]);
      forall j | 0 <= j < |loggers| && j != i ensures Logs()[j] == old(Logs())[j] && loggers[j].Valid() {
        assert loggers[j].fifo != loggers[i].fifo;
      }
      c := logCells[i];
    }

    method ScanLogs(now: TimeSpec) returns (minIndex: Option<nat>)
      requires LoggersValid()
      modifies logCells, set g | g in loggers :: g.fifo
      ensures LoggersValid() && Logs() == AskLogs(old(Logs()))
      ensures minIndex == Earliest(Heads(LogQueues(old(Logs()))), now)
    {
      ghost var t := Logs();
      ghost var heads := Heads(LogQueues(t));
      AskedLogsEnds(t);
      ScanEnds(heads, now);
      hide Earliest, ScanAt, Heads, DiffBetweenTimespec, LogQueues, AskLog, AskLogs, AskedLogsBelow, LoggersValid;
      var minTime := now;
      minIndex := None;
      for i := 0 to |loggers|
        invariant LoggersValid() && Logs() == AskedLogsBelow(t, i)
        invariant ScanAt(heads, now, i, minIndex, minTime)
      {
        ScanNext(heads, now, i, minIndex, minTime);
        LogCellIsHead(t, i);
        AskedLogsNext(t, i);
        var c := AskLogger(i);
        if c.valid {
          if DiffBetweenTimespec(minTime, c.entry.time) > 0 {
            minTime := c.entry.time;
            minIndex := Some(i);
          }
        }
      }
    }

    method FreeLogCell(g: nat)
      requires LoggersValid() && g < |loggers|
      modifies logCells
      ensures LoggersValid() && Logs() == FreeLog(old(Logs()), g)
    {
      logCells[g] := logCells[g].(valid := false);
      assert Logs() == FreeLog(old(Logs()), g);
    }

    /** RTDBG_GetLog with every group in the mask: one step of the merge of the groups' FIFOs. */
    method GetLog(now: TimeSpec) returns (res: Option<Tagged<string>>)
      requires LoggersValid()
      modifies logCells, set g | g in loggers :: g.fifo
      ensures LoggersValid()
      ensures (Logs(), res) == if attached then NextLog(old(Logs()), now) else (old(Logs()), None)
      ensures attached ==>
                var qs := LogQueues(old(Logs()));
                match Earliest(Heads(qs), now)
                case None => res == None && LogQueues(Logs()) == qs
                case Some(g) => res == Some(Tagged(g, qs[g][0])) && LogQueues(Logs()) == Advance(qs, g)
    {
      NextLogMerges(Logs(), now);
      hide Earliest, Heads, LogQueues, AskLog, Advance;
      res := None;
      if !attached {
        return;
      }
      var minIndex := ScanLogs(now);
      if minIndex.Some? {
        var g := minIndex.value;
        res := Some(Tagged(g, logCells[g].entry));
        FreeLogCell(g);
      }
    }

    /** The log loop of RTDBG_ExtractDebugData. */
    method ExtractLogs(now: TimeSpec) returns (out: seq<Tagged<string>>)
      requires LoggersValid() && attached
      modifies logCells, set g | g in loggers :: g.fifo
      ensures LoggersValid()
      ensures out == MergeAll(LogQueues(old(Logs())), now) && MergeAll(LogQueues(Logs()), now) == []
    {
      hide MergeAll, NextLog;
      ghost var qs := LogQueues(Logs());
      ghost var all := MergeAll(qs, now);
      out := [];
      var r := GetLog(now);
      ghost var rest := LogQueues(Logs());
      UnrollFirst(qs, r, rest, now);
      while r.Some?
        invariant LoggersValid() && rest == LogQueues(Logs())
        invariant Collected(all, out, r, rest, now)
        decreases Total(rest), r.Some?
      {
        out := out + [r.value];
        ghost var before := rest;
        r := GetLog(now);
        rest := LogQueues(Logs());
        Unroll(all, out, before, r, rest, now);
      }
    }
  }
}
