/** What a batch of measurements and a list of batches amount to, and what the drained records of
    those batches amount to. */
module Batches {
  import opened Machine64
  import opened Profile

  /** A measured value with the start time of its last segment (0 when the clock was never started). */
  datatype Meas = Meas(value: u64, start: u64)

  /** The measurements of one batch and the content of last_cnt_ when it was handed over. */
  datatype Batch = Batch(meas: seq<Meas>, last: u64)

  function Sum(ms: seq<Meas>): nat {
    if ms == [] then 0 else Sum(ms[..|ms| - 1]) + ms[|ms| - 1].value
  }

  function Max(ms: seq<Meas>): u64 {
    if ms == [] then 0
    else
      var v := ms[|ms| - 1].value;
      if v > Max(ms[..|ms| - 1]) then v else Max(ms[..|ms| - 1])
  }

  /** The start time of the earliest measurement attaining the maximum, when that is positive. */
  function StartOfMax(ms: seq<Meas>): u64 {
    if ms == [] then 0
    else if ms[|ms| - 1].value > Max(ms[..|ms| - 1]) then ms[|ms| - 1].start
    else StartOfMax(ms[..|ms| - 1])
  }

  /** Measurement `i` is the earliest one attaining the maximum. */
  ghost predicate AttainsFirst(ms: seq<Meas>, i: nat) {
    && i < |ms| && ms[i].value == Max(ms) && ms[i].start == StartOfMax(ms)
    && forall j :: 0 <= j < i ==> ms[j].value < Max(ms)
  }

  /** Max and StartOfMax are what their names say. */
  lemma {:induction false} MaxIsEarliestMaximum(ms: seq<Meas>)
    ensures forall i :: 0 <= i < |ms| ==> ms[i].value <= Max(ms)
    ensures Max(ms) > 0 ==> exists i: nat :: AttainsFirst(ms, i)
  {
    if ms != [] {
      var front, k := ms[..|ms| - 1], |ms| - 1;
      MaxIsEarliestMaximum(front);
      forall i | 0 <= i < |ms| ensures ms[i].value <= Max(ms) {
        assert i < k ==> ms[i] == front[i];
      }
      if ms[k].value > Max(front) {
        forall j | 0 <= j < k ensures ms[j].value < Max(ms) {
          assert ms[j] == front[j];
        }
        assert AttainsFirst(ms, k);
      } else if Max(ms) > 0 {
        var i: nat :| AttainsFirst(front, i);
        forall j | 0 <= j < i ensures ms[j].value < Max(ms) {
          assert ms[j] == front[j];
        }
        assert AttainsFirst(ms, i);
      }
    }
  }

  lemma {:induction false} Joined(a: seq<Meas>, b: seq<Meas>)
    ensures Sum(a + b) == Sum(a) + Sum(b)
    ensures Max(a + b) == if Max(b) > Max(a) then Max(b) else Max(a)
    ensures StartOfMax(a + b) == if Max(b) > Max(a) then StartOfMax(b) else StartOfMax(a)
  {
    if b == [] {
      assert a + b == a;
    } else {
      Joined(a, b[..|b| - 1]);
      assert (a + b)[..|a + b| - 1] == a + b[..|b| - 1];
    }
  }

  lemma Scale(n: nat, a: nat, b: nat)
    requires a <= b
    ensures n * a <= n * b
  {
  }

  lemma {:induction false} SumBounded(ms: seq<Meas>)
    ensures Sum(ms) <= |ms| * Max(ms)
  {
    if ms != [] {
      var front := ms[..|ms| - 1];
      SumBounded(front);
      Scale(|front|, Max(front), Max(ms));
      assert |ms| * Max(ms) == |front| * Max(ms) + Max(ms);
    }
  }

  /** All measurements of the batches, in order. */
  function Flatten(bs: seq<Batch>): seq<Meas> {
    if bs == [] then [] else Flatten(bs[..|bs| - 1]) + bs[|bs| - 1].meas
  }

  predicate Proper(bs: seq<Batch>) {
    && (forall i :: 0 <= i < |bs| ==> bs[i].meas != [])
    && Sum(Flatten(bs)) < TWO64 && |Flatten(bs)| < TWO64
  }

  /** A point holding this batch. */
  function DataOf(b: Batch): ProfileData
    requires Sum(b.meas) < TWO64 && |b.meas| < TWO64
  {
    ProfileData(Max(b.meas), StartOfMax(b.meas), b.last, Sum(b.meas), |b.meas|)
  }

  /** The record of this batch: its maximum, its floored average, its size. */
  function RecordOf(b: Batch): ProfileData
    requires b.meas != [] && Sum(b.meas) < TWO64 && |b.meas| < TWO64
  {
    Record(DataOf(b))
  }

  /** `q` holds the records of `bs`. */
  ghost predicate AreRecords(q: seq<ProfileData>, bs: seq<Batch>) {
    && |q| == |bs|
    && forall i :: 0 <= i < |q| ==>
         bs[i].meas != [] && Sum(bs[i].meas) < TWO64 && |bs[i].meas| < TWO64 && q[i] == RecordOf(bs[i])
  }

  // ---------- Draining the records ----------

  /** One record added to the accumulator of GetProfInfo; a record of no measurements is skipped. */
  function Combine(c: ProfileData, r: ProfileData): ProfileData {
    if r.meas == 0 then c
    else
      var top := if c.max < r.max then c.(max := r.max, maxTime := r.maxTime) else c;
      top.(last := r.last, average := U64(c.average + U64(r.average * r.meas)), meas := U64(c.meas + r.meas))
  }

  function Collect(q: seq<ProfileData>): ProfileData {
    if q == [] then NO_DATA else Combine(Collect(q[..|q| - 1]), q[|q| - 1])
  }

  /** `n` times the floored average of `n` measurements that sum to `s`. */
  function Rounded(s: nat, n: nat): (r: nat)
    requires n > 0
    ensures 0 <= s - r < n
  {
    s / n * n
  }

  /** The sum of the floored averages, each weighted with the size of its batch. */
  function Weighted(bs: seq<Batch>): nat
    requires forall i :: 0 <= i < |bs| ==> bs[i].meas != []
  {
    if bs == [] then 0
    else
      var b := bs[|bs| - 1].meas;
      Weighted(bs[..|bs| - 1]) + Rounded(Sum(b), |b|)
  }

  /** What the flooring of the batch averages loses is less than one per measurement. */
  lemma {:induction false} FlooringLoss(bs: seq<Batch>)
    requires forall i :: 0 <= i < |bs| ==> bs[i].meas != []
    ensures 0 <= Sum(Flatten(bs)) - Weighted(bs) <= |Flatten(bs)| - |bs|
  {
    if bs != [] {
      var front, b := bs[..|bs| - 1], bs[|bs| - 1].meas;
      FlooringLoss(front);
      Joined(Flatten(front), b);
    }
  }

  lemma {:induction false} PrefixProper(bs: seq<Batch>)
    requires Proper(bs) && bs != []
    ensures Proper(bs[..|bs| - 1])
    ensures Sum(bs[|bs| - 1].meas) <= Sum(Flatten(bs)) && |bs[|bs| - 1].meas| <= |Flatten(bs)|
  {
    Joined(Flatten(bs[..|bs| - 1]), bs[|bs| - 1].meas);
  }

  lemma CombineRecord(c: ProfileData, b: Batch)
    requires b.meas != [] && c.average + Sum(b.meas) < TWO64 && c.meas + |b.meas| < TWO64
    ensures var r := Combine(c, RecordOf(b));
            && r.average == c.average + Rounded(Sum(b.meas), |b.meas|) && r.meas == c.meas + |b.meas|
            && r.max == (if Max(b.meas) > c.max then Max(b.meas) else c.max)
            && r.maxTime == (if Max(b.meas) > c.max then StartOfMax(b.meas) else c.maxTime)
            && r.last == b.last
  {
  }

  /** Collecting the records of batches without overflow gives the exact count, the exact maximum with its
      start time, and the weighted sum. */
  lemma {:induction false} CollectBatches(q: seq<ProfileData>, bs: seq<Batch>)
    requires Proper(bs) && AreRecords(q, bs)
    ensures var all := Flatten(bs);
            && Weighted(bs) < TWO64
            && Collect(q) == ProfileData(Max(all), StartOfMax(all), if bs == [] then 0 else bs[|bs| - 1].last,
                                         Weighted(bs), |all|)
  {
    FlooringLoss(bs);
    if bs != [] {
      var k := |bs| - 1;
      var c := Collect(q[..k]);
      PrefixProper(bs);
      CollectBatches(q[..k], bs[..k]);
      FlooringLoss(bs[..k]);
      Joined(Flatten(bs[..k]), bs[k].meas);
      assert c.average + Sum(bs[k].meas) < TWO64;
      CombineRecord(c, bs[k]);
      assert Collect(q) == Combine(c, RecordOf(bs[k]));
    }
  }

  lemma {:induction false} Multiples(n: nat, a: nat, b: nat)
    requires a < b
    ensures n * a + n <= n * b
  {
    assert n * b == n * (b - 1) + n;
    if a < b - 1 {
      Multiples(n, a, b - 1);
    }
  }

  lemma {:induction false} QuotientIs(x: nat, n: nat, q: nat)
    requires n > 0 && n * q <= x < n * q + n
    ensures x / n == q
  {
    var d := x / n;
    assert n * d <= x < n * d + n;
    if d < q {
      Multiples(n, d, q);
    } else if d > q {
      Multiples(n, q, d);
    }
  }

  /** Lowering `s` by less than `n` lowers the quotient by at most one. */
  lemma {:induction false} QuotientOfLess(s: nat, w: nat, n: nat)
    requires n > 0 && 0 <= s - w < n
    ensures w / n == s / n || w / n == s / n - 1
    ensures w / n == s / n <==> s - w <= s % n
  {
    var a := s / n;
    assert s == n * a + s % n;
    if s - w <= s % n {
      QuotientIs(w, n, a);
    } else {
      assert a > 0 && n * a == n * (a - 1) + n;
      QuotientIs(w, n, a - 1);
    }
  }

  lemma QuotientBounded(s: nat, n: nat, m: nat)
    requires n > 0 && s <= n * m
    ensures s / n <= m
  {
  }

  /** The error bound of the reported average: for any batches of any sizes it is the floor of the true mean
      or one below, the former exactly when the loss fits the remainder of the mean; and it never exceeds the
      maximum. */
  lemma {:induction false} AverageWithinOne(bs: seq<Batch>)
    requires Proper(bs) && bs != []
    ensures |Flatten(bs)| > 0
    ensures var n, s := |Flatten(bs)|, Sum(Flatten(bs));
            var reported := Weighted(bs) / n;
            && (reported == s / n || reported == s / n - 1)
            && (reported == s / n <==> s - Weighted(bs) <= s % n)
            && reported <= s / n <= Max(Flatten(bs))
  {
    var n, s := |Flatten(bs)|, Sum(Flatten(bs));
    assert n >= |bs[|bs| - 1].meas| > 0;
    FlooringLoss(bs);
    SumBounded(Flatten(bs));
    QuotientOfLess(s, Weighted(bs), n);
    QuotientBounded(s, n, Max(Flatten(bs)));
  }
}
