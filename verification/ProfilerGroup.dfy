/** CProfilerGroup: draining the FIFO of one profiling entry, and adding a record to it. */
module ProfilerGroups {
  import opened Common
  import opened Machine64
  import opened MemAreas
  import opened Profile
  import opened Batches

  /** Some record has measurements. */
  predicate HasData(q: seq<ProfileData>) {
    q != [] && (HasData(q[..|q| - 1]) || q[|q| - 1].meas != 0)
  }

  /** What GetProfInfo reports for the records `q`: nothing, or everything combined. */
  function Report(q: seq<ProfileData>): Option<ProfileData>
    requires HasData(q) ==> Collect(q).meas != 0
  {
    if HasData(q) then Some(Record(Collect(q))) else None
  }

  /** `sum` combines the records `seen`, and `any` says whether one of them has measurements. */
  ghost predicate Summed(seen: seq<ProfileData>, sum: ProfileData, any: bool) {
    sum == Collect(seen) && any == HasData(seen)
  }

  lemma SumNext(seen: seq<ProfileData>, sum: ProfileData, any: bool, r: ProfileData)
    requires Summed(seen, sum, any)
    ensures r.meas != 0 ==> Summed(seen + [r], Combine(sum, r), true)
    ensures r.meas == 0 ==> Summed(seen + [r], sum, any)
  {
  }

  lemma SumDone(q: seq<ProfileData>, sum: ProfileData, any: bool)
    requires Summed(q, sum, any) && (HasData(q) ==> Collect(q).meas != 0)
    ensures any ==> sum.meas != 0
    ensures Report(q) == if any then Some(Record(sum)) else None
  {
  }

  /** The body of GetProfInfo's loop for a record that has measurements. */
  method Accumulate(sum: ProfileData, rec: ProfileData) returns (r: ProfileData)
    requires rec.meas != 0
    ensures r == Combine(sum, rec)
  {
    r := sum.(last := rec.last);
    if r.max < rec.max {
      r := r.(max := rec.max);
      r := r.(maxTime := rec.maxTime);
    }
    r := r.(average := U64(r.average + U64(rec.average * rec.meas)));
    r := r.(meas := U64(r.meas + rec.meas));
  }

  /** The records read so far, the one at hand and those still queued are all there were. */
  ghost predicate Reading(q: seq<ProfileData>, seen: seq<ProfileData>, r: Option<ProfileData>, rest: seq<ProfileData>) {
    && (r.Some? ==> q == (seen + [r.value]) + rest)
    && (r.None? ==> q == seen && rest == [])
  }

  lemma ReadNext(q: seq<ProfileData>, seen: seq<ProfileData>, before: seq<ProfileData>,
                 r: Option<ProfileData>, rest: seq<ProfileData>)
    requires q == seen + before
    requires if before == [] then r == None && rest == [] else r == Some(before[0]) && rest == before[1..]
    ensures Reading(q, seen, r, rest)
    ensures |rest| < |before| || (|rest| == |before| && r == None)
  {
  }

  /** The loop of GetProfInfo: pop every record and combine those that have measurements. */
  method CollectRecords(fifo: MemArea<ProfileData>) returns (sum: ProfileData, any: bool)
    requires fifo.Fifo()
    modifies fifo`rd
    ensures fifo.Fifo() && fifo.Contents() == []
    ensures Summed(old(fifo.Contents()), sum, any)
  {
    hide Combine;
    ghost var q, seen := fifo.Contents(), [];
    any, sum := false, NO_DATA;
    var r := fifo.Pop();
    ghost var rest := fifo.Contents();
    assert q == seen + q;
    ReadNext(q, seen, q, r, rest);
    while r.Some?
      invariant fifo.Fifo() && rest == fifo.Contents()
      invariant Reading(q, seen, r, rest)
      invariant Summed(seen, sum, any)
      decreases |rest|, r.Some?
    {
      SumNext(seen, sum, any, r.value);
      if r.value.meas != 0 {
        any := true;
        sum := Accumulate(sum, r.value);
      }
      seen := seen + [r.value];
      ghost var before := rest;
      r := fifo.Pop();
      rest := fifo.Contents();
      ReadNext(q, seen, before, r, rest);
    }
  }

  /** GetProfInfo: drain the FIFO, divide once, report nothing when there was nothing. */
  method GetProfInfo(fifo: MemArea<ProfileData>) returns (res: Option<ProfileData>)
    requires fifo.Fifo()
    requires HasData(fifo.Contents()) ==> Collect(fifo.Contents()).meas != 0
    modifies fifo`rd
    ensures fifo.Fifo() && fifo.Contents() == []
    ensures res == Report(old(fifo.Contents()))
  {
    ghost var q := fifo.Contents();
    var sum, any := CollectRecords(fifo);
    SumDone(q, sum, any);
    res := None;
    if any {
      sum := sum.(average := sum.average / sum.meas);
      res := Some(sum);
    }
  }

  /** AddProfData: push a record made elsewhere, dropping the oldest while there is no room. */
  method AddProfData(fifo: MemArea<ProfileData>, rec: ProfileData)
    requires fifo.Fifo() && fifo.buf.Length >= 3
    modifies fifo, fifo.buf
    ensures fifo.Fifo() && fifo.Contents() == LastN(fifo.Capacity(), old(fifo.Contents()) + [rec])
  {
    PushDroppingOldest(fifo, rec);
  }
}
