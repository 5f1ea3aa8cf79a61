/** The lookahead cells of the extraction, one per group, as values: what a scan of the groups does to them,
    and what a drain returns depending on the cells it starts from. */
module Lookahead {
  import opened Common
  import opened Machine64
  import opened Selection
  import opened TraceGroups
  import opened LogGroups
  import opened Merge
  import opened ExtractionOrder

  /** TraceInfo */
  datatype TraceCell = TraceCell(status: nat, entry: TraceEntry)

  /** LogSort_Data */
  datatype LogCell = LogCell(valid: bool, entry: LogEntry)

  /** One group as the extraction sees it: its lookahead cell and what its memory holds. */
  datatype TraceSource = TraceSource(cell: TraceCell, slots: seq<TraceSlot>)
  datatype LogSource = LogSource(cell: LogCell, logs: seq<LogEntry>)

  // ---------- One group's turn in a scan ----------

  /** The group is asked for an entry if its cell is free. */
  function AskTrace(x: TraceSource, now: TimeSpec): TraceSource {
    if x.cell.status != NO_DATA_IND then x
    else
      match Oldest(x.slots, now)
      case None => x.(cell := x.cell.(status := TRACE_EMPTY_DATA))
      case Some(m) => TraceSource(TraceCell(DATA_IND, x.slots[m].entry), Clear(x.slots, m))
  }

  function AskLog(x: LogSource): LogSource {
    if x.cell.valid || x.logs == [] then x else LogSource(LogCell(true, x.logs[0]), x.logs[1..])
  }

  /** What a group still has to give: its lookahead cell, then its ring in extraction order; nothing once
      the cell says the group is empty. */
  function TraceQueue(x: TraceSource, now: TimeSpec): seq<TraceEntry> {
    if x.cell.status == TRACE_EMPTY_DATA then []
    else if x.cell.status == NO_DATA_IND then Extract(x.slots, now)
    else [x.cell.entry] + Extract(x.slots, now)
  }

  function LogQueue(x: LogSource): seq<LogEntry> {
    if x.cell.valid then [x.cell.entry] + x.logs else x.logs
  }

  /** Asking moves an entry of the group into its cell and changes nothing else. */
  lemma AskKeepsTraces(x: TraceSource, now: TimeSpec)
    ensures var y, q := AskTrace(x, now), TraceQueue(x, now);
            && y.cell.status != NO_DATA_IND
            && (y.cell.status == TRACE_EMPTY_DATA <==> q == [])
            && (q != [] ==> q == [y.cell.entry] + Extract(y.slots, now))
            && TraceQueue(y, now) == q
  {
  }

  lemma AskKeepsLogs(x: LogSource)
    ensures var y, q := AskLog(x), LogQueue(x);
            && (y.cell.valid <==> q != [])
            && (q != [] ==> q == [y.cell.entry] + y.logs)
            && LogQueue(y) == q
  {
  }

  // ---------- All groups ----------

  function TraceQueues(t: seq<TraceSource>, now: TimeSpec): (qs: seq<seq<TraceEntry>>)
    ensures |qs| == |t| && forall g :: 0 <= g < |t| ==> qs[g] == TraceQueue(t[g], now)
  {
    seq(|t|, g requires 0 <= g < |t| => TraceQueue(t[g], now))
  }

  function LogQueues(t: seq<LogSource>): (qs: seq<seq<LogEntry>>)
    ensures |qs| == |t| && forall g :: 0 <= g < |t| ==> qs[g] == LogQueue(t[g])
  {
    seq(|t|, g requires 0 <= g < |t| => LogQueue(t[g]))
  }

  /** After one scan every cell is filled or known empty. */
  function AskTraces(t: seq<TraceSource>, now: TimeSpec): (r: seq<TraceSource>)
    ensures |r| == |t| && forall g :: 0 <= g < |t| ==> r[g] == AskTrace(t[g], now)
  {
    seq(|t|, g requires 0 <= g < |t| => AskTrace(t[g], now))
  }

  function AskLogs(t: seq<LogSource>): (r: seq<LogSource>)
    ensures |r| == |t| && forall g :: 0 <= g < |t| ==> r[g] == AskLog(t[g])
  {
    seq(|t|, g requires 0 <= g < |t| => AskLog(t[g]))
  }

  /** A scan that has come to group `i`. */
  function AskedBelow(t: seq<TraceSource>, i: nat, now: TimeSpec): seq<TraceSource>
    requires i <= |t|
  {
    AskTraces(t[..i], now) + t[i..]
  }

  function AskedLogsBelow(t: seq<LogSource>, i: nat): seq<LogSource>
    requires i <= |t|
  {
    AskLogs(t[..i]) + t[i..]
  }

  lemma AskedNext(t: seq<TraceSource>, i: nat, now: TimeSpec)
    requires i < |t|
    ensures |AskedBelow(t, i, now)| == |t| && AskedBelow(t, i, now)[i] == t[i]
    ensures AskedBelow(t, i, now)[i := AskTrace(t[i], now)] == AskedBelow(t, i + 1, now)
  {
  }

  lemma AskedLogsNext(t: seq<LogSource>, i: nat)
    requires i < |t|
    ensures |AskedLogsBelow(t, i)| == |t| && AskedLogsBelow(t, i)[i] == t[i]
    ensures AskedLogsBelow(t, i)[i := AskLog(t[i])] == AskedLogsBelow(t, i + 1)
  {
  }

  lemma AskedEnds(t: seq<TraceSource>, now: TimeSpec)
    ensures AskedBelow(t, 0, now) == t && AskedBelow(t, |t|, now) == AskTraces(t, now)
  {
  }

  lemma AskedLogsEnds(t: seq<LogSource>)
    ensures AskedLogsBelow(t, 0) == t && AskedLogsBelow(t, |t|) == AskLogs(t)
  {
  }

  /** The table once group `g`'s entry has been handed out. */
  function FreeTrace(t: seq<TraceSource>, g: nat): seq<TraceSource>
    requires g < |t|
  {
    t[g := t[g].(cell := t[g].cell.(status := NO_DATA_IND))]
  }

  function FreeLog(t: seq<LogSource>, g: nat): seq<LogSource>
    requires g < |t|
  {
    t[g := t[g].(cell := t[g].cell.(valid := false))]
  }

  /** One extraction call: scan, hand out the first earliest cell, free it. */
  function NextTrace(t: seq<TraceSource>, now: TimeSpec): (seq<TraceSource>, Option<Tagged<TracePayload>>) {
    match Earliest(Heads(TraceQueues(t, now)), now)
    case None => (AskTraces(t, now), None)
    case Some(g) => (FreeTrace(AskTraces(t, now), g), Some(Tagged(g, AskTraces(t, now)[g].cell.entry)))
  }

  function NextLog(t: seq<LogSource>, now: TimeSpec): (seq<LogSource>, Option<Tagged<string>>) {
    match Earliest(Heads(LogQueues(t)), now)
    case None => (AskLogs(t), None)
    case Some(g) => (FreeLog(AskLogs(t), g), Some(Tagged(g, AskLogs(t)[g].cell.entry)))
  }

  /** The scan compares the heads of the queues: that of a group known to be empty is skipped. */
  lemma TraceCellIsHead(t: seq<TraceSource>, now: TimeSpec, g: nat)
    requires g < |t|
    ensures var c := AskTrace(t[g], now).cell;
            Heads(TraceQueues(t, now))[g] == if c.status == TRACE_EMPTY_DATA then None else Some(c.entry.time)
  {
    AskKeepsTraces(t[g], now);
  }

  lemma LogCellIsHead(t: seq<LogSource>, g: nat)
    requires g < |t|
    ensures var c := AskLog(t[g]).cell; Heads(LogQueues(t))[g] == if c.valid then Some(c.entry.time) else None
  {
    AskKeepsLogs(t[g]);
  }

  /** Seen from the queues, a call is one step of the merge. */
  lemma NextTraceMerges(t: seq<TraceSource>, now: TimeSpec)
    ensures var (t', r) := NextTrace(t, now);
            match Earliest(Heads(TraceQueues(t, now)), now)
            case None => r == None && TraceQueues(t', now) == TraceQueues(t, now)
            case Some(g) => && r == Some(Tagged(g, TraceQueues(t, now)[g][0]))
                            && TraceQueues(t', now) == Advance(TraceQueues(t, now), g)
  {
    forall g | 0 <= g < |t|
      ensures TraceQueue(AskTraces(t, now)[g], now) == TraceQueues(t, now)[g]
      ensures TraceQueues(t, now)[g] != [] ==>
                TraceQueues(t, now)[g] == [AskTraces(t, now)[g].cell.entry] + Extract(AskTraces(t, now)[g].slots, now)
    {
      AskKeepsTraces(t[g], now);
    }
  }

  lemma NextLogMerges(t: seq<LogSource>, now: TimeSpec)
    ensures var (t', r) := NextLog(t, now);
            match Earliest(Heads(LogQueues(t)), now)
            case None => r == None && LogQueues(t') == LogQueues(t)
            case Some(g) => && r == Some(Tagged(g, LogQueues(t)[g][0]))
                            && LogQueues(t') == Advance(LogQueues(t), g)
  {
    forall g | 0 <= g < |t|
      ensures LogQueue(AskLogs(t)[g]) == LogQueues(t)[g]
      ensures LogQueues(t)[g] != [] ==> LogQueues(t)[g] == [AskLogs(t)[g].cell.entry] + AskLogs(t)[g].logs
    {
      AskKeepsLogs(t[g]);
    }
  }

  // ---------- The cells a trace drain starts from ----------

  function RingsOf(t: seq<TraceSource>): (r: Rings)
    ensures |r| == |t| && forall g :: 0 <= g < |t| ==> r[g] == t[g].slots
  {
    seq(|t|, g requires 0 <= g < |t| => t[g].slots)
  }

  /** The entries that occupied cells hold are older than the clock. */
  predicate CellsPast(t: seq<TraceSource>, now: TimeSpec) {
    forall g :: 0 <= g < |t| && t[g].cell.status != NO_DATA_IND && t[g].cell.status != TRACE_EMPTY_DATA ==>
      Ns(t[g].cell.entry.time) < Ns(now)
  }

  lemma {:induction false} ExtractsPast(slots: seq<TraceSlot>, now: TimeSpec, i: nat)
    requires i < |Extract(slots, now)|
    ensures Ns(Extract(slots, now)[i].time) < Ns(now)
    decreases LiveCount(slots)
  {
    EarliestFinds(Times(slots), now);
    var m := Oldest(slots, now).value;
    if i > 0 {
      ClearCounts(slots, m);
      ExtractsPast(Clear(slots, m), now, i - 1);
    }
  }

  lemma QueuesPast(t: seq<TraceSource>, now: TimeSpec)
    requires CellsPast(t, now)
    ensures AllPast(TraceQueues(t, now), now) && AllPast(RingQueues(RingsOf(t), now), now)
  {
    forall g, i | 0 <= g < |t| && 0 <= i < |Extract(t[g].slots, now)|
      ensures Ns(Extract(t[g].slots, now)[i].time) < Ns(now)
    {
      ExtractsPast(t[g].slots, now, i);
    }
    forall g, i | 0 <= g < |t| && 0 <= i < |TraceQueue(t[g], now)|
      ensures Ns(TraceQueue(t[g], now)[i].time) < Ns(now)
    {
      if t[g].cell.status != NO_DATA_IND && i > 0 {
        assert TraceQueue(t[g], now)[i] == Extract(t[g].slots, now)[i - 1];
      }
    }
  }

  /** The cell is free (status 65535), or says "empty" (status 1) of a ring that is. */
  predicate Harmless(x: TraceSource, now: TimeSpec) {
    x.cell.status == 65535 || (x.cell.status == 1 && Oldest(x.slots, now) == None)
  }

  lemma HarmlessIff(x: TraceSource, now: TimeSpec)
    ensures TraceQueue(x, now) == Extract(x.slots, now) <==> Harmless(x, now)
  {
  }

  /** The groups' queues merge into what their rings alone would exactly when every cell is harmless. */
  lemma {:induction false} MergesRingsIff(t: seq<TraceSource>, now: TimeSpec)
    requires CellsPast(t, now)
    ensures MergeAll(TraceQueues(t, now), now) == MergeAll(RingQueues(RingsOf(t), now), now) <==>
            forall g :: 0 <= g < |t| ==> Harmless(t[g], now)
  {
    var qs, rs := TraceQueues(t, now), RingQueues(RingsOf(t), now);
    QueuesPast(t, now);
    forall g | 0 <= g < |t| ensures qs[g] == rs[g] <==> Harmless(t[g], now) {
      HarmlessIff(t[g], now);
    }
    if MergeAll(qs, now) == MergeAll(rs, now) {
      forall g | 0 <= g < |t| ensures qs[g] == rs[g] {
        MergeKeepsQueues(qs, now, g);
        MergeKeepsQueues(rs, now, g);
      }
    }
    if forall g :: 0 <= g < |t| ==> Harmless(t[g], now) {
      assert qs == rs;
    }
  }

  /** From free cells the queues are the rings'. */
  lemma FreeCellsGiveRings(t: seq<TraceSource>, now: TimeSpec)
    requires forall g :: 0 <= g < |t| ==> t[g].cell.status == NO_DATA_IND
    ensures TraceQueues(t, now) == RingQueues(RingsOf(t), now)
  {
  }

  /** The handler is a static object, so its cells start as zeros, and nothing sets them free: status 0 reads
      as data. The first call of the first extraction returns that zero cell and not a trace. */
  lemma {:induction false} ZeroCellsComeOutFirst(t: seq<TraceSource>, now: TimeSpec)
    requires t != [] && Ns(now) > 0
    requires t[0].cell == TraceCell(0, Stamped(TimeSpec(0, 0), TracePayload(0, 0, 0, 0, 0, 0, 0)))
    ensures NextTrace(t, now).1 == Some(Tagged(0, Stamped(TimeSpec(0, 0), TracePayload(0, 0, 0, 0, 0, 0, 0))))
    ensures MergeAll(TraceQueues(t, now), now) != [] && MergeAll(TraceQueues(t, now), now)[0] == Tagged(0, ZERO_ENTRY)
  {
    var qs := TraceQueues(t, now);
    assert Heads(qs)[0] == Some(TimeSpec(0, 0));
    FirstEarliestUnique(Heads(qs), now, 0);
    AdvanceCounts(qs, 0);
  }

  lemma NextKeepsPast(t: seq<TraceSource>, now: TimeSpec)
    requires CellsPast(t, now)
    ensures CellsPast(NextTrace(t, now).0, now)
  {
    forall g | 0 <= g < |t| && Oldest(t[g].slots, now).Some?
      ensures Ns(t[g].slots[Oldest(t[g].slots, now).value].entry.time) < Ns(now)
    {
      EarliestFinds(Times(t[g].slots), now);
    }
  }

  /** Each group's zero entry, from group `k` on, in group order. */
  function Zeros(k: nat, n: nat): seq<Tagged<TracePayload>>
    requires k <= n
    decreases n - k
  {
    if k == n then [] else [Tagged(k, ZERO_ENTRY)] + Zeros(k + 1, n)
  }

  /** The queues `rs`, with a zero entry before those of group `k` and after. */
  function Padded(rs: seq<seq<TraceEntry>>, k: nat): (qs: seq<seq<TraceEntry>>)
    ensures |qs| == |rs| && forall g :: 0 <= g < |rs| ==> qs[g] == if g < k then rs[g] else [ZERO_ENTRY] + rs[g]
  {
    seq(|rs|, g requires 0 <= g < |rs| => if g < k then rs[g] else [ZERO_ENTRY] + rs[g])
  }

  /** The first of the zero entries comes out, and the others are left. */
  lemma ZeroComesOut(rs: seq<seq<TraceEntry>>, now: TimeSpec, k: nat)
    requires k < |rs| && Ns(now) > 0
    requires forall g :: 0 <= g < |rs| && rs[g] != [] ==> Ns(rs[g][0].time) > 0
    ensures MergeAll(Padded(rs, k), now) == [Tagged(k, ZERO_ENTRY)] + MergeAll(Padded(rs, k + 1), now)
  {
    var qs := Padded(rs, k);
    assert qs[k][0] == ZERO_ENTRY;
    FirstEarliestUnique(Heads(qs), now, k);
    AdvanceCounts(qs, k);
    assert Advance(qs, k) == Padded(rs, k + 1);
  }

  lemma {:induction false} ZerosComeFirst(rs: seq<seq<TraceEntry>>, now: TimeSpec, k: nat)
    requires k <= |rs| && Ns(now) > 0
    requires forall g :: 0 <= g < |rs| && rs[g] != [] ==> Ns(rs[g][0].time) > 0
    ensures MergeAll(Padded(rs, k), now) == Zeros(k, |rs|) + MergeAll(rs, now)
    decreases |rs| - k
  {
    hide MergeAll;
    if k == |rs| {
      assert Padded(rs, k) == rs;
    } else {
      ZeroComesOut(rs, now, k);
      ZerosComeFirst(rs, now, k + 1);
    }
  }

  lemma ExtractStartsInRing(slots: seq<TraceSlot>, now: TimeSpec)
    requires forall i :: 0 <= i < |slots| && Live(slots[i]) ==> Ns(slots[i].entry.time) > 0
    ensures Extract(slots, now) != [] ==> Ns(Extract(slots, now)[0].time) > 0
  {
  }

  /** So the whole first drain by the static handler, over rings of stamped entries, is one zero entry for every
      group and then what the rings hold. */
  lemma {:induction false} FirstDrainBeginsWithZeros(t: seq<TraceSource>, now: TimeSpec)
    requires Ns(now) > 0 && forall g :: 0 <= g < |t| ==> t[g].cell == TraceCell(0, ZERO_ENTRY)
    requires forall g, i :: 0 <= g < |t| && 0 <= i < |t[g].slots| && Live(t[g].slots[i]) ==>
               Ns(t[g].slots[i].entry.time) > 0
    ensures MergeAll(TraceQueues(t, now), now) == Zeros(0, |t|) + MergeAll(RingQueues(RingsOf(t), now), now)
  {
    var rs: seq<seq<TraceEntry>> := RingQueues(RingsOf(t), now);
    forall g | 0 <= g < |t| ensures rs[g] != [] ==> Ns(rs[g][0].time) > 0 {
      ExtractStartsInRing(t[g].slots, now);
    }
    assert TraceQueues(t, now) == Padded(rs, 0);
    ZerosComeFirst(rs, now, 0);
  }

  predicate Spent(t: seq<TraceSource>) {
    forall g :: 0 <= g < |t| ==> t[g].cell.status == TRACE_EMPTY_DATA
  }

  /** A call that finds nothing leaves every cell marked empty. */
  lemma {:induction false} FailedCallSpends(t: seq<TraceSource>, now: TimeSpec)
    requires CellsPast(t, now) && NextTrace(t, now).1 == None
    ensures Spent(NextTrace(t, now).0)
  {
    QueuesPast(t, now);
    FindsUnlessEmpty(TraceQueues(t, now), now);
    forall g | 0 <= g < |t| ensures AskTraces(t, now)[g].cell.status == TRACE_EMPTY_DATA {
      AskKeepsTraces(t[g], now);
      assert TraceQueues(t, now)[g] == [];
    }
  }

  lemma {:induction false} NothingToMerge<T>(qs: seq<seq<Stamped<T>>>, now: TimeSpec)
    requires forall g :: 0 <= g < |qs| ==> qs[g] == []
    ensures MergeAll(qs, now) == []
  {
    assert AllPast(qs, now);
    FindsUnlessEmpty(qs, now);
  }

  /** From cells that are all marked empty nothing comes out, and they stay marked. */
  lemma {:induction false} SpentYieldsNothing(t: seq<TraceSource>, now: TimeSpec)
    requires Spent(t)
    ensures MergeAll(TraceQueues(t, now), now) == [] && NextTrace(t, now) == (t, None)
  {
    NothingToMerge(TraceQueues(t, now), now);
    assert AskTraces(t, now) == t;
  }

  // ---------- A whole drain ----------

  lemma CallUsesUpOne(t: seq<TraceSource>, now: TimeSpec)
    ensures NextTrace(t, now).1.Some? ==>
              Total(TraceQueues(NextTrace(t, now).0, now)) == Total(TraceQueues(t, now)) - 1
  {
    NextTraceMerges(t, now);
    if g :| Earliest(Heads(TraceQueues(t, now)), now) == Some(g) {
      AdvanceCounts(TraceQueues(t, now), g);
    }
  }

  /** Calls until one finds nothing: the table they leave and the entries they return. */
  function Drain(t: seq<TraceSource>, now: TimeSpec): (seq<TraceSource>, seq<Tagged<TracePayload>>)
    decreases Total(TraceQueues(t, now))
  {
    var (t', r) := NextTrace(t, now);
    if r == None then (t', [])
    else
      CallUsesUpOne(t, now);
      var (t'', out) := Drain(t', now);
      (t'', [r.value] + out)
  }

  /** A drain returns the merge of the groups' queues, and nothing is left to merge. */
  lemma {:induction false} DrainMerges(t: seq<TraceSource>, now: TimeSpec)
    ensures Drain(t, now).1 == MergeAll(TraceQueues(t, now), now)
    ensures MergeAll(TraceQueues(Drain(t, now).0, now), now) == []
    decreases Total(TraceQueues(t, now))
  {
    NextTraceMerges(t, now);
    if NextTrace(t, now).1.Some? {
      CallUsesUpOne(t, now);
      DrainMerges(NextTrace(t, now).0, now);
    }
  }

  /** The first drain of a program that has traced: one zero entry for every group, then the rings. */
  lemma {:induction false} FirstDrain(t: seq<TraceSource>, now: TimeSpec)
    requires Ns(now) > 0 && forall g :: 0 <= g < |t| ==> t[g].cell == TraceCell(0, ZERO_ENTRY)
    requires forall g, i :: 0 <= g < |t| && 0 <= i < |t[g].slots| && Live(t[g].slots[i]) ==>
               Ns(t[g].slots[i].entry.time) > 0
    ensures var rings := RingsOf(t);
            var sorted := MergeAll(RingQueues(rings, now), now);
            && Drain(t, now).1 == Zeros(0, |t|) + sorted
            && KeysInOrder(rings, now, DrainKeys(rings, now)) && OutputsAre(rings, sorted, DrainKeys(rings, now))
  {
    DrainMerges(t, now);
    FirstDrainBeginsWithZeros(t, now);
    DrainIsGlobalSort(RingsOf(t), now);
  }

  /** It leaves every cell marked empty. */
  lemma {:induction false} DrainSpends(t: seq<TraceSource>, now: TimeSpec)
    requires CellsPast(t, now)
    ensures Spent(Drain(t, now).0)
    decreases Total(TraceQueues(t, now))
  {
    if NextTrace(t, now).1.Some? {
      CallUsesUpOne(t, now);
      NextKeepsPast(t, now);
      DrainSpends(NextTrace(t, now).0, now);
    } else {
      FailedCallSpends(t, now);
    }
  }

  /** Nothing frees a cell that is marked empty: once a drain has finished, the same handler extracts nothing
      ever again, whatever has been traced since. */
  lemma {:induction false} SecondDrainIsEmpty(t: seq<TraceSource>, now: TimeSpec,
                                              later: seq<TraceSource>, now': TimeSpec)
    requires CellsPast(t, now) && |later| == |Drain(t, now).0|
    requires forall g :: 0 <= g < |later| ==> later[g].cell == Drain(t, now).0[g].cell
    ensures Drain(later, now') == (later, [])
  {
    DrainSpends(t, now);
    SpentYieldsNothing(later, now');
  }

  /** From free cells a drain returns every live entry older than the clock of every group exactly once, by
      timestamp, group index and slot index. */
  lemma {:induction false} FreeCellsDrainSorted(t: seq<TraceSource>, now: TimeSpec)
    requires forall g :: 0 <= g < |t| ==> t[g].cell.status == NO_DATA_IND
    ensures var rings := RingsOf(t);
            && KeysInOrder(rings, now, DrainKeys(rings, now))
            && OutputsAre(rings, Drain(t, now).1, DrainKeys(rings, now))
  {
    DrainMerges(t, now);
    FreeCellsGiveRings(t, now);
    DrainIsGlobalSort(RingsOf(t), now);
  }

  /** A drain outputs every live entry older than the clock in that order and nothing else if and only if every
      cell it starts from is free, or says "empty" of a ring that is. */
  lemma {:induction false} DrainsRingsIff(t: seq<TraceSource>, now: TimeSpec)
    requires CellsPast(t, now)
    ensures OutputsAre(RingsOf(t), Drain(t, now).1, DrainKeys(RingsOf(t), now)) <==>
            forall g :: 0 <= g < |t| ==> Harmless(t[g], now)
  {
    DrainMerges(t, now);
    MergesRingsIff(t, now);
    var keys, out, all := DrainKeys(RingsOf(t), now), Drain(t, now).1, MergeAll(RingQueues(RingsOf(t), now), now);
    DrainIsGlobalSort(RingsOf(t), now);
    if OutputsAre(RingsOf(t), out, keys) {
      forall k | 0 <= k < |keys| ensures out[k] == all[k] {
        assert OutputAt(RingsOf(t), out, keys, k) && OutputAt(RingsOf(t), all, keys, k);
      }
      assert out == all;
    }
  }

  /** The whole drain of `t` is what was collected, the record at hand, and the drain of the table `cur`. */
  ghost predicate Drained(t: seq<TraceSource>, out: seq<Tagged<TracePayload>>, r: Option<Tagged<TracePayload>>,
                          cur: seq<TraceSource>, now: TimeSpec) {
    if r.Some? then Drain(t, now) == (Drain(cur, now).0, (out + [r.value]) + Drain(cur, now).1)
    else Drain(t, now) == (cur, out)
  }

  lemma DrainUnfolds(t: seq<TraceSource>, now: TimeSpec)
    ensures var (t', r) := NextTrace(t, now);
            && (r == None ==> Drain(t, now) == (t', []))
            && (r.Some? ==> Drain(t, now) == (Drain(t', now).0, [r.value] + Drain(t', now).1))
  {
  }

  /** One call more. */
  lemma DrainNext(t: seq<TraceSource>, out: seq<Tagged<TracePayload>>, cur: seq<TraceSource>, now: TimeSpec)
    requires Drain(t, now) == (Drain(cur, now).0, out + Drain(cur, now).1)
    ensures var (cur', r) := NextTrace(cur, now);
            && Drained(t, out, r, cur', now)
            && (r.Some? ==> Total(TraceQueues(cur', now)) == Total(TraceQueues(cur, now)) - 1)
            && (r.None? ==> TraceQueues(cur', now) == TraceQueues(cur, now))
  {
    hide Drain, NextTrace, TraceQueues, Earliest, Heads;
    DrainUnfolds(cur, now);
    CallUsesUpOne(cur, now);
    NextTraceMerges(cur, now);
    var (cur', r) := NextTrace(cur, now);
    if r.Some? {
      assert out + ([r.value] + Drain(cur', now).1) == (out + [r.value]) + Drain(cur', now).1;
    } else {
      assert out + [] == out;
    }
  }

  /** What is known of a drain. */
  lemma DrainFacts(t: seq<TraceSource>, now: TimeSpec)
    ensures Drain(t, now).1 == MergeAll(TraceQueues(t, now), now)
    ensures CellsPast(t, now) ==> Spent(Drain(t, now).0)
    ensures Spent(t) ==> Drain(t, now) == (t, [])
    ensures (forall g :: 0 <= g < |t| ==> t[g].cell.status == NO_DATA_IND) ==>
              var rings := RingsOf(t);
              && KeysInOrder(rings, now, DrainKeys(rings, now))
              && OutputsAre(rings, Drain(t, now).1, DrainKeys(rings, now))
  {
    DrainMerges(t, now);
    if CellsPast(t, now) {
      DrainSpends(t, now);
    }
    if Spent(t) {
      SpentYieldsNothing(t, now);
    }
    if forall g :: 0 <= g < |t| ==> t[g].cell.status == NO_DATA_IND {
      FreeCellsDrainSorted(t, now);
    }
  }

  // ---------- Every successful call uses up one entry ----------

  /** Live slots plus occupied cells of the groups not yet known to be empty. */
  function Outstanding(t: seq<TraceSource>): nat {
    if t == [] then 0
    else
      var x := t[|t| - 1];
      Outstanding(t[..|t| - 1]) +
      if x.cell.status == TRACE_EMPTY_DATA then 0
      else LiveCount(x.slots) + if x.cell.status == NO_DATA_IND then 0 else 1
  }

  ghost predicate RingsDue(t: seq<TraceSource>, now: TimeSpec) {
    forall g :: 0 <= g < |t| ==> AllDue(t[g].slots, now)
  }

  /** That number is the length of the merge still to come. */
  lemma {:induction false} OutstandingIsTotal(t: seq<TraceSource>, now: TimeSpec)
    requires RingsDue(t, now)
    ensures Outstanding(t) == Total(TraceQueues(t, now))
  {
    if t != [] {
      var k := |t| - 1;
      OutstandingIsTotal(t[..k], now);
      ExtractsEveryLiveSlot(t[k].slots, now);
      assert TraceQueues(t, now)[..k] == TraceQueues(t[..k], now);
    }
  }

  lemma AskKeepsDue(t: seq<TraceSource>, now: TimeSpec)
    requires RingsDue(t, now)
    ensures RingsDue(AskTraces(t, now), now)
  {
  }

  /** Each successful call lowers it by one, and a call finds nothing only when it is zero. */
  lemma {:induction false} StepUsesUpOne(t: seq<TraceSource>, now: TimeSpec)
    requires RingsDue(t, now) && CellsPast(t, now)
    ensures var (t', r) := NextTrace(t, now);
            && RingsDue(t', now)
            && Outstanding(t') == (if r.Some? then Outstanding(t) - 1 else 0)
            && (r == None <==> Outstanding(t) == 0)
  {
    var t' := NextTrace(t, now).0;
    AskKeepsDue(t, now);
    OutstandingIsTotal(t, now);
    OutstandingIsTotal(t', now);
    NextTraceMerges(t, now);
    QueuesPast(t, now);
    FindsUnlessEmpty(TraceQueues(t, now), now);
    CallUsesUpOne(t, now);
  }

  /** Queued logs plus occupied cells. */
  function OutstandingLogs(t: seq<LogSource>): nat {
    if t == [] then 0
    else
      var x := t[|t| - 1];
      OutstandingLogs(t[..|t| - 1]) + |x.logs| + if x.cell.valid then 1 else 0
  }

  lemma {:induction false} OutstandingLogsIsTotal(t: seq<LogSource>)
    ensures OutstandingLogs(t) == Total(LogQueues(t))
  {
    if t != [] {
      OutstandingLogsIsTotal(t[..|t| - 1]);
      assert LogQueues(t)[..|t| - 1] == LogQueues(t[..|t| - 1]);
    }
  }

  /** With the clock past every log, each successful call lowers it by one, and a call finds nothing if and only if
      it is zero. */
  lemma {:induction false} LogStepUsesUpOne(t: seq<LogSource>, now: TimeSpec)
    requires AllPast(LogQueues(t), now)
    ensures var (t', r) := NextLog(t, now);
            && AllPast(LogQueues(t'), now)
            && OutstandingLogs(t') == (if r.Some? then OutstandingLogs(t) - 1 else 0)
            && (r == None <==> OutstandingLogs(t) == 0)
  {
    OutstandingLogsIsTotal(t);
    OutstandingLogsIsTotal(NextLog(t, now).0);
    NextLogMerges(t, now);
    FindsUnlessEmpty(LogQueues(t), now);
    if g :| Earliest(Heads(LogQueues(t)), now) == Some(g) {
      AdvanceCounts(LogQueues(t), g);
      AdvancePast(LogQueues(t), g, now);
    }
  }

  // ---------- The cells a log drain starts from ----------

  function Queued(t: seq<LogSource>): (qs: seq<seq<LogEntry>>)
    ensures |qs| == |t| && forall g :: 0 <= g < |t| ==> qs[g] == t[g].logs
  {
    seq(|t|, g requires 0 <= g < |t| => t[g].logs)
  }

  /** RTDBG_Stop's reset of the log cells. */
  function ForgetLogs(t: seq<LogSource>): (r: seq<LogSource>)
    ensures |r| == |t| && forall g :: 0 <= g < |t| ==> r[g] == t[g].(cell := t[g].cell.(valid := false))
  {
    seq(|t|, g requires 0 <= g < |t| => t[g].(cell := t[g].cell.(valid := false)))
  }

  /** The reset leaves what the FIFOs hold and loses the logs in the cells: it loses none if and only if no
      cell holds one. */
  lemma ForgetLosesCells(t: seq<LogSource>)
    ensures LogQueues(ForgetLogs(t)) == Queued(t)
    ensures LogQueues(ForgetLogs(t)) == LogQueues(t) <==> forall g :: 0 <= g < |t| ==> !t[g].cell.valid
  {
    assert LogQueues(ForgetLogs(t)) == Queued(t);
    forall g | 0 <= g < |t| ensures LogQueues(t)[g] == Queued(t)[g] <==> !t[g].cell.valid {
      assert t[g].cell.valid ==> |LogQueues(t)[g]| == |t[g].logs| + 1;
    }
    if forall g :: 0 <= g < |t| ==> !t[g].cell.valid {
      assert LogQueues(t) == Queued(t);
    }
  }
}
