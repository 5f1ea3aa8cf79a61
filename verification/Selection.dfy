/** The scan for the earliest candidate that both extraction levels perform. */
module Selection {
  import opened Common
  import opened Machine64

  /** A record with the clock reading taken when it was made. */
  datatype Stamped<+T> = Stamped(time: TimeSpec, body: T)

  /** The time kept by the scan. */
  function BestTime(cands: seq<Option<TimeSpec>>, now: TimeSpec, r: Option<nat>): TimeSpec
    requires r.Some? ==> r.value < |cands| && cands[r.value].Some?
  {
    if r.Some? then cands[r.value].value else now
  }

  /** The scan: start from the time `now`, keep a candidate that is strictly earlier than the best so far. */
  function Earliest(cands: seq<Option<TimeSpec>>, now: TimeSpec): (r: Option<nat>)
    ensures r.Some? ==> r.value < |cands| && cands[r.value].Some?
  {
    if cands == [] then None
    else
      var k := |cands| - 1;
      var r := Earliest(cands[..k], now);
      if cands[k].Some? && DiffBetweenTimespec(BestTime(cands[..k], now, r), cands[k].value) > 0 then Some(k)
            else r
  }

  /** One more step of the scan. */
  lemma EarliestNext(cands: seq<Option<TimeSpec>>, now: TimeSpec, k: nat)
    requires k < |cands|
    ensures Earliest(cands[..k + 1], now) ==
            var r := Earliest(cands[..k], now);
            if cands[k].Some? && DiffBetweenTimespec(BestTime(cands[..k], now, r), cands[k].value) > 0 then Some(k)
            else r
  {
    assert cands[..k + 1][..k] == cands[..k];
  }

  /** A scan that has seen the first `k` candidates keeps the index `r` and the time `t`. */
  ghost predicate ScanAt(cands: seq<Option<TimeSpec>>, now: TimeSpec, k: nat, r: Option<nat>, t: TimeSpec) {
    k <= |cands| && r == Earliest(cands[..k], now) && t == BestTime(cands[..k], now, r)
  }

  lemma ScanEnds(cands: seq<Option<TimeSpec>>, now: TimeSpec)
    ensures ScanAt(cands, now, 0, None, now)
    ensures forall r, t :: ScanAt(cands, now, |cands|, r, t) ==> r == Earliest(cands, now)
  {
    assert cands[..|cands|] == cands;
  }

  lemma ScanNext(cands: seq<Option<TimeSpec>>, now: TimeSpec, k: nat, r: Option<nat>, t: TimeSpec)
    requires k < |cands| && ScanAt(cands, now, k, r, t)
    ensures if cands[k].Some? && DiffBetweenTimespec(t, cands[k].value) > 0
            then ScanAt(cands, now, k + 1, Some(k), cands[k].value)
            else ScanAt(cands, now, k + 1, r, t)
  {
    EarliestNext(cands, now, k);
  }

  /** `r` is right about the first `k` candidates. */
  ghost predicate FoundBelow(cands: seq<Option<TimeSpec>>, now: TimeSpec, k: nat, r: Option<nat>)
    requires k <= |cands|
  {
    match r
    case None => forall i :: 0 <= i < k && cands[i].Some? ==> Ns(now) <= Ns(cands[i].value)
    case Some(m) =>
      && m < k && cands[m].Some? && Ns(cands[m].value) < Ns(now)
      && (forall i :: 0 <= i < k && cands[i].Some? ==> Ns(cands[m].value) <= Ns(cands[i].value))
      && (forall i :: 0 <= i < m && cands[i].Some? ==> Ns(cands[m].value) < Ns(cands[i].value))
  }

  /** `m` is the first of the earliest candidates, and it is earlier than `now`. */
  ghost predicate FirstEarliest(cands: seq<Option<TimeSpec>>, now: TimeSpec, m: nat) {
    FoundBelow(cands, now, |cands|, Some(m))
  }

  /** One more candidate. */
  lemma FoundNext(cands: seq<Option<TimeSpec>>, now: TimeSpec, k: nat, r: Option<nat>)
    requires k < |cands| && FoundBelow(cands, now, k, r)
    ensures var best := if r.Some? then cands[r.value].value else now;
            FoundBelow(cands, now, k + 1,
                       if cands[k].Some? && DiffBetweenTimespec(best, cands[k].value) > 0 then Some(k) else r)
  {
    hide Ns;
  }

  lemma {:induction false} FindsBelow(cands: seq<Option<TimeSpec>>, now: TimeSpec, k: nat)
    requires k <= |cands|
    ensures FoundBelow(cands, now, k, Earliest(cands[..k], now))
    decreases k
  {
    if k > 0 {
      var r := Earliest(cands[..k - 1], now);
      FindsBelow(cands, now, k - 1);
      EarliestNext(cands, now, k - 1);
      FoundNext(cands, now, k - 1, r);
      assert r.Some? ==> cands[..k - 1][r.value] == cands[r.value];
      hide Earliest, Ns, DiffBetweenTimespec, FoundBelow;
    }
  }

  /** The scan finds the first earliest candidate, and finds nothing only when no candidate precedes `now`. */
  lemma {:induction false} EarliestFinds(cands: seq<Option<TimeSpec>>, now: TimeSpec)
    ensures match Earliest(cands, now)
            case Some(m) => FirstEarliest(cands, now, m)
            case None => forall i :: 0 <= i < |cands| && cands[i].Some? ==> Ns(now) <= Ns(cands[i].value)
  {
    FindsBelow(cands, now, |cands|);
    assert cands[..|cands|] == cands;
  }

  lemma {:induction false} FirstEarliestUnique(cands: seq<Option<TimeSpec>>, now: TimeSpec, m: nat)
    requires FirstEarliest(cands, now, m)
    ensures Earliest(cands, now) == Some(m)
  {
    EarliestFinds(cands, now);
  }
}
