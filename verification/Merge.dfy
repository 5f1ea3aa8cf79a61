/** The k-way merge with one entry of lookahead that both extraction calls perform, over plain queues. */
module Merge {
  import opened Common
  import opened Machine64
  import opened Selection

  /** An output record with the group it came from. */
  datatype Tagged<+T> = Tagged(group: nat, entry: Stamped<T>)

  function Heads<T>(qs: seq<seq<Stamped<T>>>): (r: seq<Option<TimeSpec>>)
    ensures |r| == |qs|
    ensures forall g :: 0 <= g < |qs| ==> r[g] == if qs[g] == [] then None else Some(qs[g][0].time)
  {
    seq(|qs|, g requires 0 <= g < |qs| => if qs[g] == [] then None else Some(qs[g][0].time))
  }

  function Total<T>(qs: seq<seq<Stamped<T>>>): nat {
    if qs == [] then 0 else Total(qs[..|qs| - 1]) + |qs[|qs| - 1]|
  }

  function Advance<T>(qs: seq<seq<Stamped<T>>>, g: nat): seq<seq<Stamped<T>>>
    requires g < |qs| && qs[g] != []
  {
    qs[g := qs[g][1..]]
  }

  lemma {:induction false} AdvanceCounts<T>(qs: seq<seq<Stamped<T>>>, g: nat)
    requires g < |qs| && qs[g] != []
    ensures Total(Advance(qs, g)) == Total(qs) - 1
  {
    var k := |qs| - 1;
    if g == k {
      assert Advance(qs, g)[..k] == qs[..k];
    } else {
      AdvanceCounts(qs[..k], g);
      assert Advance(qs, g)[..k] == Advance(qs[..k], g);
    }
  }

  /** Repeatedly output the first earliest head. */
  function MergeAll<T>(qs: seq<seq<Stamped<T>>>, now: TimeSpec): seq<Tagged<T>>
    decreases Total(qs)
  {
    match Earliest(Heads(qs), now)
    case None => []
    case Some(g) => AdvanceCounts(qs, g); [Tagged(g, qs[g][0])] + MergeAll(Advance(qs, g), now)
  }

  /** The whole merge is what was collected, the record at hand, and what the queues still hold. */
  ghost predicate Collected<T>(all: seq<Tagged<T>>, out: seq<Tagged<T>>, r: Option<Tagged<T>>,
                               rest: seq<seq<Stamped<T>>>, now: TimeSpec) {
    && (r.Some? ==> all == (out + [r.value]) + MergeAll(rest, now))
    && (r.None? ==> all == out && MergeAll(rest, now) == [])
  }

  /** One successful or failed extraction call, seen from the output collected so far. */
  lemma {:induction false} Unroll<T>(all: seq<Tagged<T>>, out: seq<Tagged<T>>, before: seq<seq<Stamped<T>>>,
                  r: Option<Tagged<T>>, rest: seq<seq<Stamped<T>>>, now: TimeSpec)
    requires all == out + MergeAll(before, now)
    requires match Earliest(Heads(before), now)
             case None => r == None && rest == before
             case Some(g) => r == Some(Tagged(g, before[g][0])) && rest == Advance(before, g)
    ensures Collected(all, out, r, rest, now)
    ensures r.Some? ==> Total(rest) == Total(before) - 1
  {
    if r.Some? {
      AdvanceCounts(before, Earliest(Heads(before), now).value);
      assert MergeAll(before, now) == [r.value] + MergeAll(rest, now);
      assert out + ([r.value] + MergeAll(rest, now)) == (out + [r.value]) + MergeAll(rest, now);
    }
  }

  lemma UnrollFirst<T>(qs: seq<seq<Stamped<T>>>, r: Option<Tagged<T>>, rest: seq<seq<Stamped<T>>>, now: TimeSpec)
    requires match Earliest(Heads(qs), now)
             case None => r == None && rest == qs
             case Some(g) => r == Some(Tagged(g, qs[g][0])) && rest == Advance(qs, g)
    ensures Collected(MergeAll(qs, now), [], r, rest, now)
  {
    assert MergeAll(qs, now) == [] + MergeAll(qs, now);
    Unroll(MergeAll(qs, now), [], qs, r, rest, now);
  }

  /** Every queued entry is older than the extraction clock. */
  predicate AllPast<T>(qs: seq<seq<Stamped<T>>>, now: TimeSpec) {
    forall g, i :: 0 <= g < |qs| && 0 <= i < |qs[g]| ==> Ns(qs[g][i].time) < Ns(now)
  }

  /** The part of the output that came from group `g`. */
  function Project<T>(out: seq<Tagged<T>>, g: nat): seq<Stamped<T>> {
    if out == [] then []
    else if out[0].group == g then [out[0].entry] + Project(out[1..], g)
    else Project(out[1..], g)
  }

  lemma {:induction false} NothingLeft<T>(qs: seq<seq<Stamped<T>>>)
    requires forall g :: 0 <= g < |qs| ==> qs[g] == []
    ensures Total(qs) == 0
  {
    if qs != [] {
      NothingLeft(qs[..|qs| - 1]);
    }
  }

  /** A call finds nothing only when every queue is empty. */
  lemma FindsUnlessEmpty<T>(qs: seq<seq<Stamped<T>>>, now: TimeSpec)
    requires AllPast(qs, now)
    ensures Earliest(Heads(qs), now) == None <==> forall g :: 0 <= g < |qs| ==> qs[g] == []
    ensures Earliest(Heads(qs), now) == None ==> Total(qs) == 0
  {
    EarliestFinds(Heads(qs), now);
    if Earliest(Heads(qs), now) == None {
      forall g | 0 <= g < |qs| ensures qs[g] == [] {
        var head := Heads(qs)[g];
        assert head == None;
      }
      NothingLeft(qs);
    }
  }

  lemma AdvancePast<T>(qs: seq<seq<Stamped<T>>>, g: nat, now: TimeSpec)
    requires AllPast(qs, now) && g < |qs| && qs[g] != []
    ensures AllPast(Advance(qs, g), now)
  {
  }

  lemma PrependProject<T>(x: Tagged<T>, out: seq<Tagged<T>>, g: nat)
    ensures Project([x] + out, g) == if x.group == g then [x.entry] + Project(out, g) else Project(out, g)
  {
  }

  /** Draining is a shuffle of the queues: each queue comes out whole, in its own order, and nothing else does. */
  lemma {:induction false} MergeKeepsQueues<T>(qs: seq<seq<Stamped<T>>>, now: TimeSpec, g: nat)
    requires AllPast(qs, now)
    ensures Project(MergeAll(qs, now), g) == if g < |qs| then qs[g] else []
    decreases Total(qs)
  {
    FindsUnlessEmpty(qs, now);
    if Earliest(Heads(qs), now).Some? {
      var h := Earliest(Heads(qs), now).value;
      AdvanceCounts(qs, h);
      AdvancePast(qs, h, now);
      MergeKeepsQueues(Advance(qs, h), now, g);
      PrependProject(Tagged(h, qs[h][0]), MergeAll(Advance(qs, h), now), g);
      assert MergeAll(qs, now) == [Tagged(h, qs[h][0])] + MergeAll(Advance(qs, h), now);
      hide MergeAll, Project, Earliest, Heads, AllPast, Total;
    }
  }

  lemma {:induction false} MergeLength<T>(qs: seq<seq<Stamped<T>>>, now: TimeSpec)
    requires AllPast(qs, now)
    ensures |MergeAll(qs, now)| == Total(qs)
    decreases Total(qs)
  {
    FindsUnlessEmpty(qs, now);
    if Earliest(Heads(qs), now).Some? {
      var h := Earliest(Heads(qs), now).value;
      AdvanceCounts(qs, h);
      AdvancePast(qs, h, now);
      MergeLength(Advance(qs, h), now);
    }
  }

  predicate TimeSorted<T>(q: seq<Stamped<T>>) {
    forall i, j :: 0 <= i < j < |q| ==> Ns(q[i].time) <= Ns(q[j].time)
  }

  /** By time, ties by group. */
  predicate MergeOrder<T>(x: Tagged<T>, y: Tagged<T>) {
    Ns(x.entry.time) < Ns(y.entry.time) || (x.entry.time == y.entry.time && x.group <= y.group)
  }

  predicate MergeSorted<T>(out: seq<Tagged<T>>) {
    forall i, j :: 0 <= i < j < |out| ==> MergeOrder(out[i], out[j])
  }

  lemma SameNs(s: TimeSpec, t: TimeSpec)
    ensures Ns(s) == Ns(t) <==> s == t
  {
  }

  /** An output is a record of one of the queues. */
  lemma {:induction false} OutputsAreQueued<T>(qs: seq<seq<Stamped<T>>>, now: TimeSpec, k: nat)
    requires k < |MergeAll(qs, now)|
    ensures var x := MergeAll(qs, now)[k]; x.group < |qs| && x.entry in qs[x.group]
    decreases Total(qs)
  {
    var h := Earliest(Heads(qs), now).value;
    AdvanceCounts(qs, h);
    if k > 0 {
      OutputsAreQueued(Advance(qs, h), now, k - 1);
    }
  }

  lemma PrependSorted<T>(x: Tagged<T>, out: seq<Tagged<T>>)
    requires MergeSorted(out) && forall j :: 0 <= j < |out| ==> MergeOrder(x, out[j])
    ensures MergeSorted([x] + out)
  {
  }

  lemma HeadComesFirst<T>(qs: seq<seq<Stamped<T>>>, now: TimeSpec, h: nat, x: Tagged<T>)
    requires FirstEarliest(Heads(qs), now, h) && forall g :: 0 <= g < |qs| ==> TimeSorted(qs[g])
    requires x.group < |qs| && x.entry in qs[x.group]
    ensures MergeOrder(Tagged(h, qs[h][0]), x)
  {
  }

  /** Sorted queues are merged into one sorted sequence: by time, ties by group index. */
  lemma {:induction false} MergeSorts<T>(qs: seq<seq<Stamped<T>>>, now: TimeSpec)
    requires forall g :: 0 <= g < |qs| ==> TimeSorted(qs[g])
    ensures MergeSorted(MergeAll(qs, now))
    decreases Total(qs)
  {
    EarliestFinds(Heads(qs), now);
    if Earliest(Heads(qs), now).Some? {
      var h := Earliest(Heads(qs), now).value;
      var rest := Advance(qs, h);
      AdvanceCounts(qs, h);
      MergeSorts(rest, now);
      var first, out' := Tagged(h, qs[h][0]), MergeAll(rest, now);
      forall j | 0 <= j < |out'| ensures MergeOrder(first, out'[j]) {
        OutputsAreQueued(rest, now, j);
        HeadComesFirst(qs, now, h, out'[j]);
      }
      PrependSorted(first, out');
    }
  }

  lemma SomethingLeft<T>(a: seq<Tagged<T>>, b: seq<Tagged<T>>)
    requires forall g: nat :: Project(a, g) == Project(b, g)
    ensures a != [] ==> b != []
  {
    if a != [] {
      assert Project(a, a[0].group) == Project(b, a[0].group);
    }
  }

  lemma {:induction false} ProjectedIsOutput<T>(out: seq<Tagged<T>>, g: nat, k: nat) returns (i: nat)
    requires k < |Project(out, g)|
    ensures i < |out| && out[i] == Tagged(g, Project(out, g)[k])
    decreases |out|
  {
    if out[0].group == g && k == 0 {
      i := 0;
    } else {
      i := ProjectedIsOutput(out[1..], g, if out[0].group == g then k - 1 else k);
      i := i + 1;
    }
  }

  /** `b` holds the first record of `a`, so its first record comes no later. */
  lemma FirstOfGroup<T>(a: seq<Tagged<T>>, b: seq<Tagged<T>>)
    requires MergeSorted(b) && a != [] && b != []
    requires forall g: nat :: Project(a, g) == Project(b, g)
    ensures MergeOrder(b[0], a[0])
  {
    var g := a[0].group;
    assert Project(a, g) == Project(b, g);
    var i := ProjectedIsOutput(b, g, 0);
    if i > 0 {
      assert MergeOrder(b[0], b[i]);
    }
  }

  /** The sorted shuffle is unique, so the merge equals any global sort by time and group that keeps each
      group's own order. */
  lemma {:induction false} SortedShuffleUnique<T>(a: seq<Tagged<T>>, b: seq<Tagged<T>>)
    requires MergeSorted(a) && MergeSorted(b)
    requires forall g: nat :: Project(a, g) == Project(b, g)
    ensures a == b
    decreases |a|
  {
    SomethingLeft(a, b);
    SomethingLeft(b, a);
    if a != [] {
      FirstOfGroup(a, b);
      FirstOfGroup(b, a);
      SameNs(a[0].entry.time, b[0].entry.time);
      assert a[0].group == b[0].group;
      assert Project(a, a[0].group) == Project(b, a[0].group);
      assert Project(a, a[0].group)[0] == a[0].entry && Project(b, b[0].group)[0] == b[0].entry;
      assert a[0] == b[0];
      assert a == [a[0]] + a[1..] && b == [b[0]] + b[1..];
      forall g: nat ensures Project(a[1..], g) == Project(b[1..], g) {
        assert Project(a, g) == Project(b, g);
        if g == a[0].group {
          assert Project(a, g)[1..] == Project(a[1..], g) && Project(b, g)[1..] == Project(b[1..], g);
        }
      }
      SortedShuffleUnique(a[1..], b[1..]);
    }
  }
}
