/** CTraceGroup: one group's overwriting trace ring and the destructive selection of its oldest entry. */
module TraceGroups {
  import opened Common
  import opened Ring
  import opened Machine64
  import opened MemAreas
  import opened Selection

  const NO_DATA_IND: nat := 65535
  const DATA_IND: nat := 0
  const TRACE_EMPTY_DATA: nat := 1

  datatype TracePayload = TracePayload(traceId: nat, line: nat, thread: nat, v0: u64, v1: u64, v2: u64, v3: u64)

  type TraceEntry = Stamped<TracePayload>

  /** An entry of all zeros. */
  const ZERO_ENTRY: TraceEntry := Stamped(TimeSpec(0, 0), TracePayload(0, 0, 0, 0, 0, 0, 0))

  datatype TraceSlot = TraceSlot(status: nat, entry: TraceEntry)

  // ---------- The ring as a value ----------

  predicate Live(x: TraceSlot) {
    x.status != NO_DATA_IND
  }

  /** What GetTraceEntry scans. */
  function Times(slots: seq<TraceSlot>): (r: seq<Option<TimeSpec>>)
    ensures |r| == |slots|
    ensures forall i :: 0 <= i < |slots| ==> r[i] == if Live(slots[i]) then Some(slots[i].entry.time) else None
  {
    seq(|slots|, i requires 0 <= i < |slots| => if Live(slots[i]) then Some(slots[i].entry.time) else None)
  }

  function Oldest(slots: seq<TraceSlot>, now: TimeSpec): (r: Option<nat>)
    ensures r.Some? ==> r.value < |slots| && Live(slots[r.value])
  {
    Earliest(Times(slots), now)
  }

  /** The entry stays in place; its status says that there is none. */
  function Clear(slots: seq<TraceSlot>, m: nat): (r: seq<TraceSlot>)
    requires m < |slots|
    ensures |r| == |slots| && r[m] == TraceSlot(65535, slots[m].entry)
  {
    slots[m := slots[m].(status := NO_DATA_IND)]
  }

  function LiveCount(slots: seq<TraceSlot>): nat {
    if slots == [] then 0 else LiveCount(slots[..|slots| - 1]) + if Live(slots[|slots| - 1]) then 1 else 0
  }

  lemma {:induction false} ClearCounts(slots: seq<TraceSlot>, m: nat)
    requires m < |slots| && Live(slots[m])
    ensures LiveCount(Clear(slots, m)) == LiveCount(slots) - 1
  {
    var k := |slots| - 1;
    if m == k {
      assert Clear(slots, m)[..k] == slots[..k];
    } else {
      ClearCounts(slots[..k], m);
      assert Clear(slots, m)[..k] == Clear(slots[..k], m);
    }
  }

  /** The slots in the order repeated calls of GetTraceEntry clear them. */
  function Order(slots: seq<TraceSlot>, now: TimeSpec): seq<nat>
    decreases LiveCount(slots)
  {
    match Oldest(slots, now)
    case None => []
    case Some(m) => ClearCounts(slots, m); [m] + Order(Clear(slots, m), now)
  }

  /** The entries those calls return. */
  function Extract(slots: seq<TraceSlot>, now: TimeSpec): seq<TraceEntry>
    decreases LiveCount(slots)
  {
    match Oldest(slots, now)
    case None => []
    case Some(m) => ClearCounts(slots, m); [slots[m].entry] + Extract(Clear(slots, m), now)
  }

  /** Slot `i` comes out before slot `j`: by time, then by position in the ring. */
  predicate Before(slots: seq<TraceSlot>, i: nat, j: nat)
    requires i < |slots| && j < |slots|
  {
    var (s, t) := (Ns(slots[i].entry.time), Ns(slots[j].entry.time));
    s < t || (s == t && i < j)
  }

  ghost predicate Due(slots: seq<TraceSlot>, now: TimeSpec, i: nat) {
    i < |slots| && Live(slots[i]) && Ns(slots[i].entry.time) < Ns(now)
  }

  /** `o` lists the due slots, each once, in the order of time and then of slot. */
  ghost predicate InOrder(slots: seq<TraceSlot>, now: TimeSpec, o: seq<nat>) {
    && (forall k :: 0 <= k < |o| ==> Due(slots, now, o[k]))
    && (forall i: nat :: Due(slots, now, i) ==> i in o)
    && (forall k, l :: 0 <= k < l < |o| ==> Before(slots, o[k], o[l]))
  }

  lemma OldestGoesFirst(slots: seq<TraceSlot>, now: TimeSpec, m: nat, o: seq<nat>)
    requires FirstEarliest(Times(slots), now, m) && InOrder(Clear(slots, m), now, o)
    ensures InOrder(slots, now, [m] + o)
  {
  }

  /** `out` lists the entries of the slots `o`. */
  ghost predicate EntriesAt(slots: seq<TraceSlot>, out: seq<TraceEntry>, o: seq<nat>) {
    |out| == |o| && forall k :: 0 <= k < |o| ==> o[k] < |slots| && out[k] == slots[o[k]].entry
  }

  lemma EntryComesFirst(slots: seq<TraceSlot>, m: nat, out: seq<TraceEntry>, o: seq<nat>)
    requires m < |slots| && EntriesAt(Clear(slots, m), out, o)
    ensures EntriesAt(slots, [slots[m].entry] + out, [m] + o)
  {
  }

  lemma NothingDue(slots: seq<TraceSlot>, now: TimeSpec)
    requires Oldest(slots, now) == None
    ensures InOrder(slots, now, [])
  {
    EarliestFinds(Times(slots), now);
    forall i: nat ensures !Due(slots, now, i) {
      assert i < |slots| && Live(slots[i]) ==> Times(slots)[i] == Some(slots[i].entry.time);
    }
  }

  /** Repeated extraction returns every live entry older than `now` exactly once, in the order of time and
      then of slot. */
  lemma {:induction false} ExtractsInOrder(slots: seq<TraceSlot>, now: TimeSpec)
    ensures InOrder(slots, now, Order(slots, now))
    ensures EntriesAt(slots, Extract(slots, now), Order(slots, now))
    decreases LiveCount(slots)
  {
    if Oldest(slots, now).Some? {
      var m := Oldest(slots, now).value;
      EarliestFinds(Times(slots), now);
      ClearCounts(slots, m);
      hide InOrder, EntriesAt, FirstEarliest, Oldest, Clear;
      ExtractsInOrder(Clear(slots, m), now);
      OldestGoesFirst(slots, now, m, Order(Clear(slots, m), now));
      EntryComesFirst(slots, m, Extract(Clear(slots, m), now), Order(Clear(slots, m), now));
    } else {
      NothingDue(slots, now);
    }
  }

  // ---------- Keeping the last n ----------

  /** The ring and its write index after AddTrace has stored `recs`. */
  function Filled(slots: seq<TraceSlot>, recs: seq<TraceEntry>): (r: seq<TraceSlot>)
    requires |slots| >= 2
    ensures |r| == |slots|
  {
    if recs == [] then slots
    else
      var k := |recs| - 1;
      Filled(slots, recs[..k])[ChunkOf(|slots|, k) := TraceSlot(DATA_IND, recs[k])]
  }

  /** Ring and write index are what AddTrace calls that stored `recs` left of the fresh ring `was`. */
  ghost predicate Stores(slots: seq<TraceSlot>, wr: nat, was: seq<TraceSlot>, recs: seq<TraceEntry>) {
    |was| >= 2 && slots == Filled(was, recs) && wr == WriteIndexAfter(|was|, |recs|)
  }

  lemma FilledNext(slots: seq<TraceSlot>, recs: seq<TraceEntry>, x: TraceEntry)
    requires |slots| >= 2
    ensures Filled(slots, recs + [x]) == Filled(slots, recs)[ChunkOf(|slots|, |recs|) := TraceSlot(DATA_IND, x)]
  {
    assert (recs + [x])[..|recs|] == recs;
  }

  /** Slot by slot: the ring holds the records from number `lo` on, and nothing else. */
  ghost predicate HoldsFrom(slots: seq<TraceSlot>, recs: seq<TraceEntry>, lo: nat) {
    && |slots| >= 2 && lo <= |recs| <= lo + |slots|
    && (forall a: nat :: lo <= a < |recs| ==> slots[ChunkOf(|slots|, a)] == TraceSlot(DATA_IND, recs[a]))
    && (forall i :: 0 <= i < |slots| && Live(slots[i]) ==>
         exists a: nat :: lo <= a < |recs| && ChunkOf(|slots|, a) == i)
  }

  function FirstKept(n: nat, k: nat): nat {
    if k <= n then 0 else k - n
  }

  lemma {:induction false} RingHoldsLast(slots: seq<TraceSlot>, recs: seq<TraceEntry>)
    requires |slots| >= 2 && forall i :: 0 <= i < |slots| ==> !Live(slots[i])
    ensures HoldsFrom(Filled(slots, recs), recs, FirstKept(|slots|, |recs|))
  {
    if recs != [] {
      var n, k := |slots|, |recs| - 1;
      RingHoldsLast(slots, recs[..k]);
      var before, after := Filled(slots, recs[..k]), Filled(slots, recs);
      var lo := FirstKept(n, |recs|);
      forall a: nat | lo <= a < |recs| ensures after[ChunkOf(n, a)] == TraceSlot(DATA_IND, recs[a]) {
        if a < k {
          ChunksRepeatByLaps(n, a, k);
        }
      }
      forall i | 0 <= i < n && Live(after[i]) ensures exists a: nat :: lo <= a < |recs| && ChunkOf(n, a) == i {
        if i != ChunkOf(n, k) {
          assert Live(before[i]);
          var a: nat :| FirstKept(n, k) <= a < k && ChunkOf(n, a) == i;
          if a < lo {
            ChunksRepeatByLaps(n, a, k);
          }
        }
      }
    }
  }

  predicate Increasing(recs: seq<TraceEntry>) {
    forall i, j :: 0 <= i < j < |recs| ==> Ns(recs[i].time) < Ns(recs[j].time)
  }

  lemma OldestIsFirstHeld(slots: seq<TraceSlot>, recs: seq<TraceEntry>, lo: nat, now: TimeSpec)
    requires HoldsFrom(slots, recs, lo) && Increasing(recs) && lo < |recs|
    requires Ns(recs[lo].time) < Ns(now)
    ensures Oldest(slots, now) == Some(ChunkOf(|slots|, lo))
  {
    var m := ChunkOf(|slots|, lo);
    forall i | 0 <= i < |slots| && Live(slots[i]) ensures i == m || Ns(slots[m].entry.time) < Ns(slots[i].entry.time) {
      var a: nat :| lo <= a < |recs| && ChunkOf(|slots|, a) == i;
    }
    FirstEarliestUnique(Times(slots), now, m);
  }

  lemma NothingHeld(slots: seq<TraceSlot>, recs: seq<TraceEntry>, now: TimeSpec)
    requires HoldsFrom(slots, recs, |recs|)
    ensures Oldest(slots, now) == None
  {
  }

  lemma ClearHeld(slots: seq<TraceSlot>, recs: seq<TraceEntry>, lo: nat)
    requires HoldsFrom(slots, recs, lo) && lo < |recs|
    ensures HoldsFrom(Clear(slots, ChunkOf(|slots|, lo)), recs, lo + 1)
  {
    var n := |slots|;
    var rest := Clear(slots, ChunkOf(n, lo));
    forall a: nat | lo + 1 <= a < |recs| ensures rest[ChunkOf(n, a)] == TraceSlot(DATA_IND, recs[a]) {
      ChunksRepeatByLaps(n, lo, a);
    }
    forall i | 0 <= i < n && Live(rest[i]) ensures exists a: nat :: lo + 1 <= a < |recs| && ChunkOf(n, a) == i {
      var a: nat :| lo <= a < |recs| && ChunkOf(n, a) == i;
      assert a != lo;
    }
  }

  /** The first record held comes out first, and the others are left. */
  lemma FirstHeldComesOut(slots: seq<TraceSlot>, recs: seq<TraceEntry>, lo: nat, now: TimeSpec)
    requires HoldsFrom(slots, recs, lo) && Increasing(recs) && lo < |recs|
    requires Ns(recs[lo].time) < Ns(now)
    ensures var rest := Clear(slots, ChunkOf(|slots|, lo));
            HoldsFrom(rest, recs, lo + 1) && Extract(slots, now) == [recs[lo]] + Extract(rest, now)
  {
    OldestIsFirstHeld(slots, recs, lo, now);
    ClearHeld(slots, recs, lo);
    assert slots[ChunkOf(|slots|, lo)] == TraceSlot(DATA_IND, recs[lo]);
    hide HoldsFrom, Oldest, Clear, ChunkOf, Increasing;
  }

  lemma NothingComesOut(slots: seq<TraceSlot>, recs: seq<TraceEntry>, now: TimeSpec)
    requires HoldsFrom(slots, recs, |recs|)
    ensures Extract(slots, now) == []
  {
    NothingHeld(slots, recs, now);
    hide HoldsFrom, Oldest;
  }

  /** The records from number `lo` on. */
  function From(recs: seq<TraceEntry>, lo: nat): seq<TraceEntry>
    requires lo <= |recs|
  {
    recs[lo..]
  }

  lemma FromNext(recs: seq<TraceEntry>, lo: nat)
    requires lo < |recs|
    ensures From(recs, lo) == [recs[lo]] + From(recs, lo + 1)
  {
  }

  lemma {:induction false} ExtractsHeld(slots: seq<TraceSlot>, recs: seq<TraceEntry>, lo: nat, now: TimeSpec)
    requires HoldsFrom(slots, recs, lo) && Increasing(recs)
    requires forall a :: lo <= a < |recs| ==> Ns(recs[a].time) < Ns(now)
    ensures Extract(slots, now) == From(recs, lo)
    decreases |recs| - lo
  {
    assert |slots| >= 2 && lo <= |recs|;
    assert lo == |recs| ==> From(recs, lo) == [];
    hide HoldsFrom, Extract, Clear, Increasing, ChunkOf, From;
    if lo == |recs| {
      NothingComesOut(slots, recs, now);
    } else {
      FirstHeldComesOut(slots, recs, lo, now);
      FromNext(recs, lo);
      ExtractsHeld(Clear(slots, ChunkOf(|slots|, lo)), recs, lo + 1, now);
    }
  }

  lemma KeptAreLast(n: nat, recs: seq<TraceEntry>)
    ensures From(recs, FirstKept(n, |recs|)) == LastN(n, recs)
  {
  }

  /** The trace ring refines "keep the last n": after any history of AddTrace calls with increasing
      timestamps on a fresh ring, repeated GetTraceEntry returns exactly the last min(k, n) records in
      insertion order, and then nothing. */
  lemma KeepsLastRecords(slots: seq<TraceSlot>, recs: seq<TraceEntry>, now: TimeSpec)
    requires |slots| >= 2 && forall i :: 0 <= i < |slots| ==> !Live(slots[i])
    requires Increasing(recs) && forall a :: 0 <= a < |recs| ==> Ns(recs[a].time) < Ns(now)
    ensures Extract(Filled(slots, recs), now) == LastN(|slots|, recs)
  {
    RingHoldsLast(slots, recs);
    KeptAreLast(|slots|, recs);
    hide HoldsFrom, Extract, LastN, From, Increasing, Ns;
    ExtractsHeld(Filled(slots, recs), recs, FirstKept(|slots|, |recs|), now);
  }

  // ---------- The class ----------

  class TraceGroup {
    const area: MemArea<TraceSlot>
    var formats: seq<string>

    ghost predicate Valid()
      reads this, area, area.buf
    {
      && area.Valid()
      && forall i :: 0 <= i < area.buf.Length && Live(area.buf[i]) ==> area.buf[i].entry.body.traceId < |formats|
    }

    ghost function Slots(): seq<TraceSlot>
      reads area.buf
    {
      area.buf[..]
    }

    /** Reset(false): one default format, every slot marked empty, write index 1. */
    constructor Reset(size: nat)
      requires size >= 2
      ensures Valid() && area.buf.Length == size && Stores(Slots(), area.wr, Slots(), [])
      ensures forall i :: 0 <= i < size ==> !Live(Slots()[i])
      ensures formats == ["val0= %llu, val1=%llu, val2= %llu, val3= %llu"]
      ensures fresh(area) && fresh(area.buf)
    {
      area := new MemArea.Setup(size);
      formats := ["val0= %llu, val1=%llu, val2= %llu, val3= %llu"];
      new;
      for i := 0 to size
        invariant fresh(area) && fresh(area.buf) && area.buf.Length == size
        invariant area.Valid() && area.wr == 1
        modifies area.buf
        invariant forall j :: 0 <= j < i ==> !Live(area.buf[j])
      {
        area.buf[i] := area.buf[i].(status := NO_DATA_IND);
      }
    }

    /** AddTrace: take the next chunk, stamp the record with the clock, overwrite the chunk. */
    method AddTrace(now: TimeSpec, payload: TracePayload)
      requires Valid() && payload.traceId < |formats|
      modifies area, area.buf
      ensures Valid() && formats == old(formats)
      ensures area.wr == Succ(area.buf.Length, old(area.wr))
      ensures Slots() == old(Slots())[area.wr := TraceSlot(0, Stamped(now, payload))]
      ensures forall was, recs :: Stores(old(Slots()), old(area.wr), was, recs) ==>
                Stores(Slots(), area.wr, was, recs + [Stamped(now, payload)])
    {
      var chunk := area.AllocPoolChunk();
      area.buf[chunk] := TraceSlot(DATA_IND, Stamped(now, payload));
      forall was, recs | Stores(old(Slots()), old(area.wr), was, recs)
        ensures Stores(Slots(), area.wr, was, recs + [Stamped(now, payload)])
      {
        FilledNext(was, recs, Stamped(now, payload));
      }
    }

    /** GetTraceEntry: scan every slot for the oldest entry, return it and mark its slot empty. */
    method GetTraceEntry(now: TimeSpec) returns (res: Option<TraceEntry>)
      requires Valid()
      modifies area.buf
      ensures Valid()
      ensures match Oldest(old(Slots()), now)
              case None => res == None && Slots() == old(Slots())
              case Some(m) => res == Some(old(Slots())[m].entry) && Slots() == Clear(old(Slots()), m)
    {
      var minTime: TimeSpec, minIndex: Option<nat> := now, None;
      ghost var times := Times(Slots());
      ScanEnds(times, now);
      for i := 0 to area.buf.Length
        invariant Slots() == old(Slots()) && times == Times(Slots())
        invariant ScanAt(times, now, i, minIndex, minTime)
      {
        ScanNext(times, now, i, minIndex, minTime);
        if area.buf[i].status == NO_DATA_IND {
          continue;
        }
        if DiffBetweenTimespec(minTime, area.buf[i].entry.time) > 0 {
          minTime := area.buf[i].entry.time;
          minIndex := Some(i);
        }
      }
      res := None;
      if minIndex.Some? {
        res := Some(area.buf[minIndex.value].entry);
        area.buf[minIndex.value] := area.buf[minIndex.value].(status := NO_DATA_IND);
      }
    }
  }
}
