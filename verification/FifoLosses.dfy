/** When Update can lose a record that was stored: schedules that do, and the exact condition for none to. */
module FifoLosses {
  import opened Ring
  import opened FifoHistory
  import opened FifoProtocol
  import opened FifoTheorems
  import opened FifoUpdates
  import opened FifoSolo

  // ---------- The schedule ----------

  /** A loop of Update finds the queue full and pops the oldest record over its own. */
  lemma FailsAndPops(from: Start, s: System, t: nat, m: Shared, item: Item, stored: bool, h: History)
    requires t in from.who && Placed(s, t, m) && Unlocked(m) && |item| == s.w
    requires Succ(m.n, m.wr) == m.rd && Succ(m.n, m.rd) != m.wr
    requires Leads(from, At(s, t, m, Busy(Updating(item, stored), Push(item), Begin), h))
    ensures var job, y := Updating(item, stored), m.mem[Succ(m.n, m.rd)];
            var m' := m.(rd := Succ(m.n, m.rd));
            && Placed(s, t, m')
            && Leads(from, At(s, t, m', Busy(Updating(y, true), Push(y), Begin),
                              Logged(Logged(h, t, job, Push(item), Full), t, job, Pop, Popped(y))))
  {
    hide Leads;
    var job := Updating(item, stored);
    PushFails(from, s, t, m, job, item, h);
    PopTakes(from, s, t, m, job, Logged(h, t, job, Push(item), Full));
  }

  lemma LostLogged(h: History, t: nat, job: Job, op: Op, out: Outcome, stored: bool, x: Item)
    ensures Lost(Logged(h, t, job, op, out), stored, x) ==
            Lost(h, stored, x) + Ones(job.Updating? && job.stored == stored && out.Popped? && job.item == x)
  {
    var h1 := h + [Call(t, job, op)];
    HandedOverStep(h, Call(t, job, op), x);
    HandedOverStep(h1, Take(t, job, op, out), x);
    HandedOverStep(h1 + [Take(t, job, op, out)], Return(t, job, op, out), x);
  }

  /** Thread 0 stores `xs` in an empty queue. */
  lemma {:induction false} Fills(s: System, xs: seq<Item>) returns (m: Shared, h: History)
    requires Initial(s) && |s.threads| >= 2 && |xs| <= s.shared.n - 2 && forall i :: 0 <= i < |xs| ==> |xs[i]| == s.w
    ensures Placed(s, 0, m) && Unlocked(m) && Leads(Start(s, {0, 1}), At(s, 0, m, Idle, h))
    ensures m.rd == 0 && m.wr == 1 + |xs| && forall i :: 0 <= i < |xs| ==> m.mem[1 + i] == xs[i]
    ensures forall stored, x :: Lost(h, stored, x) == 0
  {
    hide Leads;
    if xs == [] {
      m, h := s.shared, [];
      assert At(s, 0, m, Idle, h) == s;
      StandsStill(Start(s, {0, 1}));
    } else {
      var k := |xs| - 1;
      var m0, h0 := Fills(s, xs[..k]);
      PushesOnce(Start(s, {0, 1}), s, 0, m0, xs[k], h0);
      m, h := m0.(mem := m0.mem[m0.wr := xs[k]], wr := Succ(m0.n, m0.wr)), Logged(h0, 0, Once, Push(xs[k]), Pushed);
      forall stored, x ensures Lost(h, stored, x) == 0 {
        LostLogged(h0, 0, Once, Push(xs[k]), Pushed, stored, x);
      }
    }
  }

  /** What the events of the schedule below lose: the batch, and one stored record. */
  lemma Losses(h: History, b: Item, x: Item, y: Item, z: Item, stored: bool, i: Item)
    ensures var (first, again, last) := (Updating(b, false), Updating(x, true), Updating(z, true));
            var h3 := Logged(Logged(h, 1, first, Push(b), Full), 1, first, Pop, Popped(x));
            var h4 := Logged(h3, 0, Once, Push(y), Pushed);
            var h6 := Logged(Logged(h4, 1, again, Push(x), Full), 1, again, Pop, Popped(z));
            var h7 := Logged(h6, 1, last, Push(z), Pushed);
            Lost(h7, stored, i) == Lost(h, stored, i) + Ones(if stored then i == x else i == b)
  {
    hide Logged, Lost;
    var (first, again, last) := (Updating(b, false), Updating(x, true), Updating(z, true));
    var h2 := Logged(h, 1, first, Push(b), Full);
    var h3 := Logged(h2, 1, first, Pop, Popped(x));
    var h4 := Logged(h3, 0, Once, Push(y), Pushed);
    var h5 := Logged(h4, 1, again, Push(x), Full);
    var h6 := Logged(h5, 1, again, Pop, Popped(z));
    LostLogged(h, 1, first, Push(b), Full, stored, i);
    LostLogged(h2, 1, first, Pop, Popped(x), stored, i);
    LostLogged(h3, 0, Once, Push(y), Pushed, stored, i);
    LostLogged(h4, 1, again, Push(x), Full, stored, i);
    LostLogged(h5, 1, again, Pop, Popped(z), stored, i);
    LostLogged(h6, 1, last, Push(z), Pushed, stored, i);
  }

  /** For every ring that can hold a record, and whatever the records are, there is a run in which one point's
      Update loses its own batch `b` and then the oldest stored record: thread 0 fills the queue with `xs`,
      thread 1 begins to update and pops, thread 0 stores `y`, and thread 1 pops again. */
  lemma UpdateCanLoseStored(s: System, xs: seq<Item>, y: Item, b: Item) returns (moves: seq<Move>)
    requires Initial(s) && |s.threads| >= 2 && s.shared.n >= 3 && |xs| == s.shared.n - 2
    requires |y| == s.w && |b| == s.w && forall i :: 0 <= i < |xs| ==> |xs[i]| == s.w
    ensures var r := Run(s, moves);
            && r.threads == s.threads
            && Lost(r.history, false, b) == 1 && Lost(r.history, true, xs[0]) == 1
  {
    hide Leads, Act, Logged, Lost;
    var from := Start(s, {0, 1});
    var m, h1 := Fills(s, xs);
    assert At(s, 0, m, Idle, h1) == At(s, 1, m, Idle, h1);
    Begins(from, s, 1, m, DoUpdate(b), h1);
    FailsAndPops(from, s, 1, m, b, false, h1);
    var job, n := Updating(b, false), m.n;
    var h2 := Logged(h1, 1, job, Push(b), Full);
    var h3 := Logged(h2, 1, job, Pop, Popped(xs[0]));
    var again, m2 := Updating(xs[0], true), m.(rd := 1);
    var th := Busy(again, Push(xs[0]), Begin);
    var s' := s.(threads := s.threads[1 := th]);
    assert At(s', 0, m2, Idle, h3) == At(s, 1, m2, th, h3);
    PushesOnce(from, s', 0, m2, y, h3);
    var m3, h4 := m2.(mem := m2.mem[n - 1 := y], wr := 0), Logged(h3, 0, Once, Push(y), Pushed);
    assert At(s', 0, m3, Idle, h4) == At(s, 1, m3, th, h4);
    FailsAndPops(from, s, 1, m3, xs[0], true, h4);
    var z := m3.mem[2];
    var h5 := Logged(h4, 1, again, Push(xs[0]), Full);
    var h6 := Logged(h5, 1, again, Pop, Popped(z));
    PushStores(from, s, 1, m3.(rd := 2), Updating(z, true), z, h6);
    var h7 := Logged(h6, 1, Updating(z, true), Push(z), Pushed);
    var m4 := m3.(rd := 2, mem := m3.mem[0 := z], wr := 1);
    Losses(h1, b, xs[0], y, z, false, b);
    Losses(h1, b, xs[0], y, z, true, xs[0]);
    moves := Schedule(from, At(s, 1, m4, Idle, h7));
  }

  // ---------- When stored records are safe ----------

  /** A record lost was lost by some thread. */
  lemma {:induction false} LostBySomeone(h: History, x: Item) returns (t: nat)
    requires Lost(h, true, x) > 0
    ensures StoredLosses(h, t) > 0
  {
    var e := h[|h| - 1];
    if Overwrites(e, true) {
      t := e.tid;
    } else {
      t := LostBySomeone(h[..|h| - 1], x);
    }
  }

  lemma {:induction false} NothingToLose(h: History, t: nat)
    requires Replay(0, h).Some?
    ensures StoredLosses(h, t) == 0
  {
    if h != [] {
      NothingToLose(h[..|h| - 1], t);
    }
  }

  lemma {:induction false} AbsentLosesNothing(h: History, n: nat, t: nat)
    requires ThreadsBelow(h, n) && t >= n
    ensures StoredLosses(h, t) == 0
  {
    if h != [] {
      AbsentLosesNothing(h[..|h| - 1], n, t);
    }
  }

  lemma {:induction false} NobodyElsePublishes(h: History, n: nat)
    requires ThreadsBelow(h, n) && n <= 1
    ensures Publishes(h, 0, 0, false) == 0
  {
    if h != [] {
      NobodyElsePublishes(h[..|h| - 1], n);
    }
  }

  lemma AloneOrWithoutRoom(s: System, moves: seq<Move>, t: nat)
    requires Initial(s) && (s.shared.n == 2 || |s.threads| <= 1)
    ensures Shaped(s) && StoredLosses(Run(s, moves).history, t) == 0
  {
    var h := Run(s, moves).history;
    AlwaysLinearizable(s, moves);
    OnlyThreadsAct(s, moves);
    if s.shared.n == 2 {
      NothingToLose(h, t);
    } else if t > 0 {
      AbsentLosesNothing(h, |s.threads|, t);
    } else {
      UpdateLosesStored(s, moves, 0);
      NobodyElsePublishes(h, |s.threads|);
    }
  }

  function ZeroRecords(w: nat, k: nat): (xs: seq<Item>)
    ensures |xs| == k && forall i :: 0 <= i < k ==> |xs[i]| == w
  {
    seq(k, _ => seq(w, _ => 0))
  }

  /** No Update ever loses a record that was stored, whatever the schedule, if and only if the ring has no room
      for a record at all or there is at most one thread. */
  lemma {:induction false} StoredRecordsAreSafeIff(s: System)
    requires Initial(s)
    ensures Shaped(s)
    ensures (forall moves, t: nat :: StoredLosses(Run(s, moves).history, t) == 0) <==>
            s.shared.n == 2 || |s.threads| <= 1
  {
    if s.shared.n == 2 || |s.threads| <= 1 {
      forall moves, t: nat ensures StoredLosses(Run(s, moves).history, t) == 0 {
        AloneOrWithoutRoom(s, moves, t);
      }
    } else {
      var xs := ZeroRecords(s.w, s.shared.n - 2);
      var moves := UpdateCanLoseStored(s, xs, xs[0], xs[0]);
      var t := LostBySomeone(Run(s, moves).history, xs[0]);
    }
  }
}
