/** What draining the trace merge amounts to: one global sort of every live slot of every group. */
module ExtractionOrder {
  import opened Common
  import opened Machine64
  import opened Selection
  import opened TraceGroups
  import opened Merge

  /** A slot of a group's ring. */
  datatype Key = Key(group: nat, slot: nat)

  type Rings = seq<seq<TraceSlot>>

  /** The groups' queues when no cell holds a lookahead entry. */
  function RingQueues(rings: Rings, now: TimeSpec): (qs: seq<seq<TraceEntry>>)
    ensures |qs| == |rings| && forall g :: 0 <= g < |rings| ==> qs[g] == Extract(rings[g], now)
  {
    seq(|rings|, g requires 0 <= g < |rings| => Extract(rings[g], now))
  }

  ghost predicate DueKey(rings: Rings, now: TimeSpec, x: Key) {
    x.group < |rings| && Due(rings[x.group], now, x.slot)
  }

  /** By timestamp, then group index, then slot index. */
  ghost predicate KeyBefore(rings: Rings, x: Key, y: Key)
    requires x.group < |rings| && x.slot < |rings[x.group]| && y.group < |rings| && y.slot < |rings[y.group]|
  {
    var (s, t) := (Ns(rings[x.group][x.slot].entry.time), Ns(rings[y.group][y.slot].entry.time));
    s < t || (s == t && (x.group < y.group || (x.group == y.group && x.slot < y.slot)))
  }

  function ClearKey(rings: Rings, x: Key): Rings
    requires x.group < |rings| && x.slot < |rings[x.group]|
  {
    rings[x.group := Clear(rings[x.group], x.slot)]
  }

  /** The slot the next extraction call takes. */
  function NextKey(rings: Rings, now: TimeSpec): (r: Option<Key>)
    ensures r.Some? ==> r.value.group < |rings| && r.value.slot < |rings[r.value.group]|
  {
    match Earliest(Heads(RingQueues(rings, now)), now)
    case None => None
    case Some(g) => Some(Key(g, Oldest(rings[g], now).value))
  }

  lemma NextKeyAdvances(rings: Rings, now: TimeSpec)
    requires NextKey(rings, now).Some?
    ensures var x := NextKey(rings, now).value;
            && RingQueues(ClearKey(rings, x), now) == Advance(RingQueues(rings, now), x.group)
            && RingQueues(rings, now)[x.group][0] == rings[x.group][x.slot].entry
            && Earliest(Heads(RingQueues(rings, now)), now) == Some(x.group)
  {
  }

  /** The slots in the order a drain takes them. */
  function DrainKeys(rings: Rings, now: TimeSpec): seq<Key>
    decreases Total(RingQueues(rings, now))
  {
    match NextKey(rings, now)
    case None => []
    case Some(x) =>
      NextKeyAdvances(rings, now);
      AdvanceCounts(RingQueues(rings, now), x.group);
      [x] + DrainKeys(ClearKey(rings, x), now)
  }

  /** One-entry lookahead over per-group selection picks the globally first slot. */
  lemma NextKeyIsFirst(rings: Rings, now: TimeSpec, y: Key)
    requires DueKey(rings, now, y)
    ensures NextKey(rings, now).Some?
    ensures var x := NextKey(rings, now).value; DueKey(rings, now, x) && (y == x || KeyBefore(rings, x, y))
  {
    var qs := RingQueues(rings, now);
    EarliestFinds(Heads(qs), now);
    EarliestFinds(Times(rings[y.group]), now);
    assert Times(rings[y.group])[y.slot] == Some(rings[y.group][y.slot].entry.time);
    var m := Oldest(rings[y.group], now).value;
    assert qs[y.group] == Extract(rings[y.group], now) && qs[y.group][0] == rings[y.group][m].entry;
    assert Heads(qs)[y.group] == Some(rings[y.group][m].entry.time);
    var x := NextKey(rings, now).value;
    EarliestFinds(Times(rings[x.group]), now);
    assert qs[x.group] == Extract(rings[x.group], now) && qs[x.group][0] == rings[x.group][x.slot].entry;
  }

  lemma NextKeyDue(rings: Rings, now: TimeSpec)
    requires NextKey(rings, now).Some?
    ensures DueKey(rings, now, NextKey(rings, now).value)
  {
    var g := NextKey(rings, now).value.group;
    EarliestFinds(Heads(RingQueues(rings, now)), now);
    EarliestFinds(Times(rings[g]), now);
  }

  lemma NoKeyNoSlot(rings: Rings, now: TimeSpec, y: Key)
    requires NextKey(rings, now) == None
    ensures !DueKey(rings, now, y)
  {
    if DueKey(rings, now, y) {
      NextKeyIsFirst(rings, now, y);
    }
  }

  ghost predicate KeysInOrder(rings: Rings, now: TimeSpec, keys: seq<Key>) {
    && (forall k :: 0 <= k < |keys| ==> DueKey(rings, now, keys[k]))
    && (forall y :: DueKey(rings, now, y) ==> y in keys)
    && (forall k, l :: 0 <= k < l < |keys| ==> KeyBefore(rings, keys[k], keys[l]))
  }

  lemma PrependKey(rings: Rings, now: TimeSpec, x: Key, keys: seq<Key>)
    requires DueKey(rings, now, x)
    requires forall y :: DueKey(rings, now, y) ==> y == x || KeyBefore(rings, x, y)
    requires KeysInOrder(ClearKey(rings, x), now, keys)
    ensures KeysInOrder(rings, now, [x] + keys)
  {
  }

  /** The keys of a drain are the due slots, each once, in the global order. */
  lemma {:induction false} KeysAreSorted(rings: Rings, now: TimeSpec)
    ensures KeysInOrder(rings, now, DrainKeys(rings, now))
    decreases Total(RingQueues(rings, now))
  {
    if NextKey(rings, now).Some? {
      var x := NextKey(rings, now).value;
      NextKeyAdvances(rings, now);
      AdvanceCounts(RingQueues(rings, now), x.group);
      KeysAreSorted(ClearKey(rings, x), now);
      NextKeyDue(rings, now);
      forall y | DueKey(rings, now, y) ensures y == x || KeyBefore(rings, x, y) {
        NextKeyIsFirst(rings, now, y);
      }
      PrependKey(rings, now, x, DrainKeys(ClearKey(rings, x), now));
    } else {
      forall y ensures !DueKey(rings, now, y) {
        NoKeyNoSlot(rings, now, y);
      }
    }
  }

  ghost predicate OutputAt(rings: Rings, out: seq<Tagged<TracePayload>>, keys: seq<Key>, k: nat) {
    && k < |out| == |keys|
    && keys[k].group < |rings| && keys[k].slot < |rings[keys[k].group]|
    && out[k] == Tagged(keys[k].group, rings[keys[k].group][keys[k].slot].entry)
  }

  ghost predicate OutputsAre(rings: Rings, out: seq<Tagged<TracePayload>>, keys: seq<Key>) {
    |out| == |keys| && forall k :: 0 <= k < |out| ==> OutputAt(rings, out, keys, k)
  }

  lemma PrependOutput(rings: Rings, x: Key, out: seq<Tagged<TracePayload>>, keys: seq<Key>)
    requires x.group < |rings| && x.slot < |rings[x.group]| && OutputsAre(ClearKey(rings, x), out, keys)
    ensures OutputsAre(rings, [Tagged(x.group, rings[x.group][x.slot].entry)] + out, [x] + keys)
  {
    var out', keys' := [Tagged(x.group, rings[x.group][x.slot].entry)] + out, [x] + keys;
    forall k | 0 <= k < |out'| ensures OutputAt(rings, out', keys', k) {
      if k > 0 {
        assert OutputAt(ClearKey(rings, x), out, keys, k - 1);
      }
    }
  }

  lemma {:induction false} OutputsAreDrained(rings: Rings, now: TimeSpec)
    ensures OutputsAre(rings, MergeAll(RingQueues(rings, now), now), DrainKeys(rings, now))
    decreases Total(RingQueues(rings, now))
  {
    if NextKey(rings, now).Some? {
      var x := NextKey(rings, now).value;
      NextKeyAdvances(rings, now);
      AdvanceCounts(RingQueues(rings, now), x.group);
      OutputsAreDrained(ClearKey(rings, x), now);
      PrependOutput(rings, x, MergeAll(RingQueues(ClearKey(rings, x), now), now), DrainKeys(ClearKey(rings, x), now));
    }
  }

  /** Draining the trace merge outputs every live entry older than the clock of every group exactly once, in
      the order of (timestamp, group index, slot index). */
  lemma {:induction false} DrainIsGlobalSort(rings: Rings, now: TimeSpec)
    ensures var out, keys := MergeAll(RingQueues(rings, now), now), DrainKeys(rings, now);
            KeysInOrder(rings, now, keys) && OutputsAre(rings, out, keys)
  {
    KeysAreSorted(rings, now);
    OutputsAreDrained(rings, now);
  }

  // ---------- With the clock past every stored timestamp ----------

  ghost predicate AllDue(slots: seq<TraceSlot>, now: TimeSpec) {
    forall i :: 0 <= i < |slots| && Live(slots[i]) ==> Ns(slots[i].entry.time) < Ns(now)
  }

  lemma {:induction false} NoneLive(slots: seq<TraceSlot>)
    requires forall i :: 0 <= i < |slots| ==> !Live(slots[i])
    ensures LiveCount(slots) == 0
  {
    if slots != [] {
      NoneLive(slots[..|slots| - 1]);
    }
  }

  /** With the clock past every stored timestamp, a group has as many entries to give as it has live slots. */
  lemma {:induction false} ExtractsEveryLiveSlot(slots: seq<TraceSlot>, now: TimeSpec)
    requires AllDue(slots, now)
    ensures |Extract(slots, now)| == LiveCount(slots)
    decreases LiveCount(slots)
  {
    EarliestFinds(Times(slots), now);
    if Oldest(slots, now).Some? {
      ClearCounts(slots, Oldest(slots, now).value);
      ExtractsEveryLiveSlot(Clear(slots, Oldest(slots, now).value), now);
    } else {
      forall i | 0 <= i < |slots| ensures !Live(slots[i]) {
        var t := Times(slots)[i];
        assert t == None;
      }
      NoneLive(slots);
    }
  }

  /** A later clock reading changes nothing, so the several readings taken during a drain may differ. */
  lemma {:induction false} LaterClockSameOrder(slots: seq<TraceSlot>, now: TimeSpec, later: TimeSpec)
    requires AllDue(slots, now) && Ns(now) <= Ns(later)
    ensures Extract(slots, later) == Extract(slots, now)
    decreases LiveCount(slots)
  {
    EarliestFinds(Times(slots), now);
    EarliestFinds(Times(slots), later);
    if Oldest(slots, now).Some? {
      var m := Oldest(slots, now).value;
      FirstEarliestUnique(Times(slots), later, m);
      ClearCounts(slots, m);
      LaterClockSameOrder(Clear(slots, m), now, later);
    } else {
      forall i | 0 <= i < |slots| ensures Times(slots)[i] == None {
        assert Live(slots[i]) ==> Times(slots)[i] == Some(slots[i].entry.time);
      }
    }
  }
}
